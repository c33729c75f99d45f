/**
 * `GetSettingMessageUseCase`: finds the spreadsheet named in the user's
 * top-button configuration, reads the time-message range from it and folds the
 * rows into a message list and a font size.
 */
module SettingMessage {
  import opened Wrappers
  import GoText
  import SeqUtil
  import opened Sheets

  // ---------------------------------------------------------------------------
  // The spreadsheet id in a URL: `/spreadsheets/d/([a-zA-Z0-9-_]+)`, leftmost match

  const Marker: string := "/spreadsheets/d/"

  /** The character class `[a-zA-Z0-9-_]`. */
  predicate IsIdChar(c: char) {
    ('a' <= c <= 'z') || ('A' <= c <= 'Z') || ('0' <= c <= '9') || c == '-' || c == '_'
  }

  /** The expression matches at `i`: the marker starts there and at least one id character follows it. */
  predicate MatchAt(s: string, i: int) {
    0 <= i && i + |Marker| < |s| && s[i..i + |Marker|] == Marker && IsIdChar(s[i + |Marker|])
  }

  /** The longest run of id characters starting at `j` (the greedy `+`). */
  function IdRun(s: string, j: nat): (r: string)
    requires j <= |s|
    ensures j + |r| <= |s| && r == s[j..j + |r|]
    ensures forall k :: 0 <= k < |r| ==> IsIdChar(r[k])
    ensures j + |r| == |s| || !IsIdChar(s[j + |r|])
    decreases |s| - j
  {
    if j < |s| && IsIdChar(s[j]) then [s[j]] + IdRun(s, j + 1) else []
  }

  /** The first position at or after `i` where the expression matches. */
  function FirstMatchFrom(s: string, i: nat): (r: Option<nat>)
    ensures r.Some? ==> i <= r.value && MatchAt(s, r.value) && forall k :: i <= k < r.value ==> !MatchAt(s, k)
    ensures r.None? ==> forall k :: i <= k ==> !MatchAt(s, k)
    decreases |s| - i
  {
    if i + |Marker| >= |s| then None
    else if MatchAt(s, i) then Some(i)
    else FirstMatchFrom(s, i + 1)
  }

  /**
   * `FindStringSubmatch(...)[1]`: the id run after the leftmost marker that is
   * followed by an id character; nothing when no marker is.
   */
  function ExtractSpreadsheetId(s: string): (r: Option<string>)
    ensures r.None? <==> forall i :: 0 <= i ==> !MatchAt(s, i)
    ensures r.Some? ==> exists i :: MatchAt(s, i) && (forall k :: 0 <= k < i ==> !MatchAt(s, k))
                                    && r.value == IdRun(s, i + |Marker|)
    ensures r.Some? ==> r.value != [] && forall k :: 0 <= k < |r.value| ==> IsIdChar(r.value[k])
  {
    match FirstMatchFrom(s, 0)
    case None => None
    case Some(i) => Some(IdRun(s, i + |Marker|))
  }

  /** No match can start inside the host part of a sheet address. */
  lemma NoMatchInHost(s: string)
    requires |SpreadsheetUrlPrefix| <= |s| && s[..|SpreadsheetUrlPrefix|] == SpreadsheetUrlPrefix
    ensures forall k :: 0 <= k < |SpreadsheetUrlPrefix| - |Marker| ==> !MatchAt(s, k)
  {
    forall k | 0 <= k < |SpreadsheetUrlPrefix| - |Marker|
      ensures !MatchAt(s, k)
    {
      var w := s[k..k + |Marker|];
      assert w[0] == s[k] == SpreadsheetUrlPrefix[k] && w[1] == s[k + 1] == SpreadsheetUrlPrefix[k + 1];
      assert SpreadsheetUrlPrefix[k] != '/' || SpreadsheetUrlPrefix[k + 1] != 's';
      assert w != Marker;
    }
  }

  /** A run of id characters that is followed by the end or by another character is exactly what `IdRun` takes. */
  lemma {:induction false} IdRunIs(s: string, j: nat, id: string)
    requires j + |id| <= |s| && s[j..j + |id|] == id
    requires forall k :: 0 <= k < |id| ==> IsIdChar(id[k])
    requires j + |id| == |s| || !IsIdChar(s[j + |id|])
    ensures IdRun(s, j) == id
    decreases |id|
  {
    if id != [] {
      assert s[j] == id[0];
      assert s[j + 1..j + 1 + |id[1..]|] == id[1..];
      IdRunIs(s, j + 1, id[1..]);
    }
  }

  /** The address of a sheet, as the to-do history records it, gives its id back. */
  lemma SheetUrlRoundTrip(id: string, tail: string)
    requires id != [] && forall k :: 0 <= k < |id| ==> IsIdChar(id[k])
    requires tail == [] || !IsIdChar(tail[0])
    ensures ExtractSpreadsheetId(SpreadsheetUrlPrefix + id + tail) == Some(id)
  {
    var s := SpreadsheetUrlPrefix + id + tail;
    var n := |SpreadsheetUrlPrefix|;
    var p := n - |Marker|;
    assert s[..n] == SpreadsheetUrlPrefix;
    assert s[p..n] == Marker;
    assert s[n] == id[0];
    assert MatchAt(s, p);
    NoMatchInHost(s);
    assert s[n..n + |id|] == id;
    assert n + |id| < |s| ==> s[n + |id|] == tail[0];
    IdRunIs(s, n, id);
    var r := ExtractSpreadsheetId(s);
    var i :| MatchAt(s, i) && (forall k :: 0 <= k < i ==> !MatchAt(s, k)) && r.value == IdRun(s, i + |Marker|);
    assert i == p;
  }

  // ---------------------------------------------------------------------------
  // Folding the rows

  /** `response.GetSettingMessageItem`. */
  datatype MessageItem = MessageItem(description: string, message: string)

  /** A row of at least two cells is a message: cell 0 describes it, cell 1 is the text. */
  function MessageOf(row: Row): Result<MessageItem, ()> {
    if |row| >= 2 then Ok(MessageItem(row[0], row[1])) else Err(())
  }

  /** The message items of the rows, in row order. */
  function Messages(values: seq<Row>): seq<MessageItem> {
    SeqUtil.KeepOk(MessageOf, values)
  }

  /** The font size a row offers: cell 4, when present, non-empty and a nonzero integer. */
  function RowFontSize(row: Row): (r: Option<int>)
    ensures r.Some? <==> |row| >= 5 && row[4] != "" && GoText.ParseInt(row[4]).Some? && GoText.ParseInt(row[4]).value != 0
    ensures r.Some? ==> r.value != 0 && GoText.ParseInt(row[4]) == r
  {
    if |row| >= 5 && row[4] != "" then
      match GoText.ParseInt(row[4])
      case Some(f) => if f != 0 then Some(f) else None
      case None => None
    else None
  }

  /** The font size of the first row that offers one. */
  function FontSize(values: seq<Row>): (r: Option<int>)
    ensures r.Some? ==> exists i :: 0 <= i < |values| && RowFontSize(values[i]) == r
                                    && forall j :: 0 <= j < i ==> RowFontSize(values[j]).None?
    ensures r.None? <==> forall i :: 0 <= i < |values| ==> RowFontSize(values[i]).None?
  {
    if values == [] then None
    else
      var init := values[..|values| - 1];
      var first := FontSize(init);
      assert forall j :: 0 <= j < |init| ==> init[j] == values[j];
      if first.Some? then first else RowFontSize(values[|values| - 1])
  }

  /** The loop over the rows. */
  method FoldRows(values: seq<Row>) returns (items: seq<MessageItem>, fontSize: Option<int>)
    ensures items == Messages(values)
    ensures fontSize == FontSize(values)
  {
    items := [];
    fontSize := None;
    var i := 0;
    while i < |values|
      invariant 0 <= i <= |values|
      invariant items == Messages(values[..i])
      invariant fontSize == FontSize(values[..i])
    {
      var row := values[i];
      assert values[..i + 1][..i] == values[..i];
      if |row| >= 2 {
        items := items + [MessageItem(row[0], row[1])];
      }
      if |row| >= 5 && fontSize.None? {
        var raw := row[4];
        if raw != "" {
          var f := GoText.ParseInt(raw);
          if f.Some? && f.value != 0 {
            fontSize := f;
          }
        }
      }
      i := i + 1;
    }
    assert values[..i] == values;
  }

  /** The positions of the rows that are messages. */
  function MessageRows(values: seq<Row>): seq<nat> {
    SeqUtil.OkPositions(MessageOf, values)
  }

  /** Exactly one item per row of two or more cells, in row order. */
  lemma MessagesSpec(values: seq<Row>)
    ensures var items, idx := Messages(values), MessageRows(values);
            && |idx| == |items| <= |values|
            && (forall k :: 0 <= k < |idx| ==> idx[k] < |values| && |values[idx[k]]| >= 2
                                               && items[k] == MessageItem(values[idx[k]][0], values[idx[k]][1]))
            && (forall k, l :: 0 <= k < l < |idx| ==> idx[k] < idx[l])
            && (forall i :: 0 <= i < |values| ==> (|values[i]| >= 2 <==> i in idx))
  {
    SeqUtil.KeepOkSpec(MessageOf, values);
    assert forall i :: 0 <= i < |values| ==> (MessageOf(values[i]).Ok? <==> |values[i]| >= 2);
  }

  /** Once a row sets the font size, later rows cannot change it. */
  lemma FontSizeSetOnce(values: seq<Row>, more: seq<Row>)
    requires FontSize(values).Some?
    ensures FontSize(values + more) == FontSize(values)
  {
    var all := values + more;
    var i :| 0 <= i < |values| && RowFontSize(values[i]) == FontSize(values)
             && forall j :: 0 <= j < i ==> RowFontSize(values[j]).None?;
    assert RowFontSize(all[i]).Some? && forall j :: 0 <= j < i ==> RowFontSize(all[j]).None? by {
      assert all[i] == values[i];
      assert forall j :: 0 <= j < i ==> all[j] == values[j];
    }
    assert FontSize(all).Some?;
    var i' :| 0 <= i' < |all| && RowFontSize(all[i']) == FontSize(all)
              && forall j :: 0 <= j < i' ==> RowFontSize(all[j]).None?;
    assert i' == i;
    assert all[i] == values[i];
  }

  // ---------------------------------------------------------------------------
  // The use case

  /** The user's configuration, of which only the top-button configuration is read. */
  datatype UserConfig = UserConfig(topButtonConfig: string)

  datatype SettingMessageResponse = SettingMessageResponse(messages: seq<MessageItem>, fontSize: Option<int>)

  const NilConfigError: string := "user config is nil"
  const InvalidUrlError: string := "invalid spreadsheet url please contact BO"
  const TimeMessageRange: string := "Time_Message!K11:O12"

  /** `Execute`: the configuration and URL checks come before the only sheet read, whose error is returned as it is. */
  method GetSettingMessage(reader: SheetReader, userConfig: Option<UserConfig>) returns (r: Result<SettingMessageResponse, string>)
    modifies reader
    ensures userConfig.None? ==> r == Err(NilConfigError) && unchanged(reader)
    ensures userConfig.Some? && ExtractSpreadsheetId(userConfig.value.topButtonConfig).None? ==>
              r == Err(InvalidUrlError) && unchanged(reader)
    ensures userConfig.Some? && ExtractSpreadsheetId(userConfig.value.topButtonConfig).Some? ==>
              var req := ReadRequest(ExtractSpreadsheetId(userConfig.value.topButtonConfig).value, TimeMessageRange);
              var values := reader.respond(|old(reader.requests)|, req);
              && reader.requests == old(reader.requests) + [req]
              && (values.Err? ==> r == Err(values.error))
              && (values.Ok? ==> r == Ok(SettingMessageResponse(Messages(values.value), FontSize(values.value))))
  {
    if userConfig.None? {
      return Err(NilConfigError);
    }
    var id := ExtractSpreadsheetId(userConfig.value.topButtonConfig);
    if id.None? {
      return Err(InvalidUrlError);
    }
    var values := reader.Get(ReadRequest(id.value, TimeMessageRange));
    if values.Err? {
      return Err(values.error);
    }
    var items, fontSize := FoldRows(values.value);
    return Ok(SettingMessageResponse(items, fontSize));
  }
}
