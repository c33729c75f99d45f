/**
 * The Google Sheets client the use cases talk to (`sheet.Reader.Get`,
 * `sheet.Writer.UpdateRange`, `sheet.Writer.WriteRanges`). The network is not
 * modelled: each client answers from a function of the request number and the
 * request, and records every request it receives, so that a use case can state
 * exactly which calls it made.
 */
module Sheets {
  import opened Wrappers

  /** One row of a value range. Every cell the use cases read is a formatted string. */
  type Row = seq<string>

  /** The address of a spreadsheet document as it appears in a browser. */
  const SpreadsheetUrlPrefix: string := "https://docs.google.com/spreadsheets/d/"

  /** `sheet.ReadSpecificRangeParams`. */
  datatype ReadRequest = ReadRequest(spreadsheetId: string, readRange: string)

  /** The two writer entry points: `UpdateRange` and `WriteRanges`. */
  datatype WriteCall = UpdateRange | WriteRanges

  /** `sheet.WriteRangeParams` together with the target spreadsheet and the entry point used. */
  datatype WriteRequest = WriteRequest(call: WriteCall, spreadsheetId: string, range: string, dimension: string, rows: seq<Row>)

  const Columns: string := "COLUMNS"

  class SheetReader {
    /** The answer to the `k`-th read request. */
    const respond: (nat, ReadRequest) -> Result<seq<Row>, string>
    /** The read requests received so far, in order. */
    var requests: seq<ReadRequest>

    constructor (respond: (nat, ReadRequest) -> Result<seq<Row>, string>)
      ensures this.respond == respond && requests == []
    {
      this.respond := respond;
      this.requests := [];
    }

    method Get(req: ReadRequest) returns (r: Result<seq<Row>, string>)
      modifies this
      ensures requests == old(requests) + [req]
      ensures r == respond(|old(requests)|, req)
    {
      r := respond(|requests|, req);
      requests := requests + [req];
    }
  }

  class SheetWriter {
    /** The error, if any, of the `k`-th write request. */
    const respond: (nat, WriteRequest) -> Option<string>
    /** The write requests received so far, in order. */
    var requests: seq<WriteRequest>

    constructor (respond: (nat, WriteRequest) -> Option<string>)
      ensures this.respond == respond && requests == []
    {
      this.respond := respond;
      this.requests := [];
    }

    method Write(req: WriteRequest) returns (err: Option<string>)
      modifies this
      ensures requests == old(requests) + [req]
      ensures err == respond(|old(requests)|, req)
    {
      err := respond(|requests|, req);
      requests := requests + [req];
    }
  }
}
