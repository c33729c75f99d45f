/**
 * Marking a to-do task as done and logging to-do activity
 * (`MarkToDoAsDoneUseCase`): the task-list update, the search for the task's
 * row in the sheet, the completion column and the history columns written to
 * the spreadsheets, and the order of the checks before any write.
 */
module MarkTodo {
  import opened Wrappers
  import GoText
  import opened Sheets

  // ---------------------------------------------------------------------------
  // Entities

  /** One task of a to-do list, with the fields the use case reads or writes. */
  datatype Task = Task(index: int, name: string, dueDate: string, value: string, selected: string)

  /** Go's zero `entity.Task{}`. */
  const ZeroTask: Task := Task(0, "", "", "", "")

  datatype ToDoType = ToDoTypeCompose | OtherToDoType(name: string)

  /** A to-do list with its task data and the sheets it is mirrored to. */
  datatype ToDoList = ToDoList(
    id: string,
    kind: ToDoType,
    spreadsheetId: string,
    sheetName: string,
    historySpreadsheetId: string,
    historySheetName: string,
    tasks: seq<Task>)

  /** The device fields that end up in the sheets. */
  datatype Device = Device(
    deviceId: string,
    deviceName: string,
    note: string,
    primaryUserInfo: string,
    secondaryUserInfo: string,
    tertiaryUserInfo: string)

  datatype LogType = LogTaskCreate | LogTaskUpdate | LogTaskDeleted | OtherLogType(name: string)

  /** `request.LogTaskRequest`. */
  datatype LogTaskRequest = LogTaskRequest(toDoId: string, name: string, dueDate: string, value: string, logType: LogType)

  // ---------------------------------------------------------------------------
  // findFirstRow

  /** A row names the task `id` when its first cell is exactly `id`; empty rows name nothing. */
  predicate Names(id: string, row: Row) {
    |row| > 0 && row[0] == id
  }

  /** The index of the first row naming `id`, if any. */
  function FirstMatch(id: string, values: seq<Row>): (r: Option<nat>)
    ensures r.Some? ==> r.value < |values| && Names(id, values[r.value])
                        && forall j :: 0 <= j < r.value ==> !Names(id, values[j])
    ensures r.None? <==> forall i :: 0 <= i < |values| ==> !Names(id, values[i])
  {
    if values == [] then None
    else if Names(id, values[0]) then Some(0)
    else
      match FirstMatch(id, values[1..])
      case None => None
      case Some(k) => Some(k + 1)
  }

  const RowNotFoundPrefix: string := "Cannot determine row number for todo index: "

  /** `findFirstRow`: the sheet row number of the first row naming `id`, counting from `startRow`. */
  method FindFirstRow(id: string, values: seq<Row>, startRow: int) returns (rowNo: int, err: Option<string>)
    ensures FirstMatch(id, values).Some? ==> err.None? && rowNo == startRow + FirstMatch(id, values).value
    ensures FirstMatch(id, values).None? ==> err == Some(RowNotFoundPrefix + id) && rowNo == 0
  {
    var i := 0;
    while i < |values|
      invariant 0 <= i <= |values|
      invariant forall j :: 0 <= j < i ==> !Names(id, values[j])
    {
      if |values[i]| > 0 {
        if values[i][0] == id {
          return i + startRow, None;
        }
      }
      i := i + 1;
    }
    return 0, Some(RowNotFoundPrefix + id);
  }

  // ---------------------------------------------------------------------------
  // The task-list update

  /** A task after the update: only a task with the completed index gets the selected value. */
  function Mark(t: Task, index: int, selectValue: string): Task {
    if t.index == index then t.(selected := selectValue) else t
  }

  /** The task list after the update. */
  function MarkAll(tasks: seq<Task>, index: int, selectValue: string): (r: seq<Task>)
    ensures |r| == |tasks|
    ensures forall k :: 0 <= k < |r| && tasks[k].index == index ==> r[k] == tasks[k].(selected := selectValue)
    ensures forall k :: 0 <= k < |r| && tasks[k].index != index ==> r[k] == tasks[k]
  {
    if tasks == [] then []
    else MarkAll(tasks[..|tasks| - 1], index, selectValue) + [Mark(tasks[|tasks| - 1], index, selectValue)]
  }

  /** The last task with the given index, as it was before the update; the zero task when there is none. */
  function LastMatch(tasks: seq<Task>, index: int): (r: Task)
    ensures (forall k :: 0 <= k < |tasks| ==> tasks[k].index != index) ==> r == ZeroTask
    ensures (exists k :: 0 <= k < |tasks| && tasks[k].index == index) ==>
              exists k :: 0 <= k < |tasks| && tasks[k].index == index && r == tasks[k]
                          && forall j :: k < j < |tasks| ==> tasks[j].index != index
  {
    if tasks == [] then ZeroTask
    else if tasks[|tasks| - 1].index == index then tasks[|tasks| - 1]
    else LastMatch(tasks[..|tasks| - 1], index)
  }

  /** The loop of `Execute` that rebuilds the task list and remembers the completed task. */
  method SelectTasks(tasks: seq<Task>, index: int, selectValue: string) returns (updated: seq<Task>, completed: Task)
    ensures updated == MarkAll(tasks, index, selectValue)
    ensures completed == LastMatch(tasks, index)
  {
    completed := ZeroTask;
    updated := [];
    var i := 0;
    while i < |tasks|
      invariant 0 <= i <= |tasks|
      invariant updated == MarkAll(tasks[..i], index, selectValue)
      invariant completed == LastMatch(tasks[..i], index)
    {
      var task := tasks[i];
      if task.index == index {
        completed := task;
        task := task.(selected := selectValue);
      }
      assert tasks[..i + 1][..i] == tasks[..i];
      updated := updated + [task];
      i := i + 1;
    }
    assert tasks[..i] == tasks;
  }

  // ---------------------------------------------------------------------------
  // What is written to the sheets

  /** Cells laid out as one column: each cell is a row of its own. */
  function Column(cells: seq<string>): (r: seq<Row>)
    ensures |r| == |cells|
    ensures forall k :: 0 <= k < |r| ==> r[k] == [cells[k]]
  {
    if cells == [] then [] else Column(cells[..|cells| - 1]) + [[cells[|cells| - 1]]]
  }

  const TaskColumn: string := "!K12:K1000"

  /** The completion column written next to a completed task: the selection, the time, the selection again, then who and which device. */
  function CompletionCells(selectValue: string, now: string, device: Device): seq<string> {
    [selectValue, now, selectValue, device.primaryUserInfo, device.secondaryUserInfo, device.tertiaryUserInfo, device.deviceId]
  }

  /** The range `P<row>:W` of the task sheet. */
  function CompletionRange(sheetName: string, rowNo: int): string {
    sheetName + "!P" + GoText.Itoa(rowNo) + ":W"
  }

  /** The ten history cells both history writes begin with: when, which device, and which to-do list. */
  function HistoryHead(now: string, device: Device, todo: ToDoList): (r: seq<string>) {
    [now, device.deviceId, device.deviceName, device.note, device.primaryUserInfo, device.secondaryUserInfo,
     device.tertiaryUserInfo, todo.id, todo.sheetName, SpreadsheetUrlPrefix + todo.spreadsheetId]
  }

  /** The history column of a completion: the head, the completed task and the selection. */
  function CompletionHistoryCells(now: string, device: Device, todo: ToDoList, completed: Task, selectValue: string): (r: seq<string>)
    ensures |r| == 14 && r[..10] == HistoryHead(now, device, todo)
    ensures r[10..] == [completed.name, completed.dueDate, completed.value, selectValue]
  {
    HistoryHead(now, device, todo) + [completed.name, completed.dueDate, completed.value, selectValue]
  }

  /** The word recording the kind of change; nothing for an unknown log type. */
  function LogWord(t: LogType): seq<string> {
    match t
    case LogTaskCreate => ["created"]
    case LogTaskUpdate => ["updated"]
    case LogTaskDeleted => ["deleted"]
    case OtherLogType(_) => []
  }

  /** The history column of a logged task change. */
  function LogHistoryCells(now: string, device: Device, todo: ToDoList, req: LogTaskRequest): (r: seq<string>)
    ensures |r| == if req.logType.OtherLogType? then 15 else 16
    ensures r[..10] == HistoryHead(now, device, todo)
    ensures r[10..14] == [req.name, req.dueDate, req.value, ""] && r[|r| - 1] == ""
    ensures req.logType.LogTaskCreate? ==> r[14] == "created"
    ensures req.logType.LogTaskUpdate? ==> r[14] == "updated"
    ensures req.logType.LogTaskDeleted? ==> r[14] == "deleted"
  {
    HistoryHead(now, device, todo) + [req.name, req.dueDate, req.value, ""] + LogWord(req.logType) + [""]
  }

  const HistoryCell: string := "!K11"

  /** The completion write: the completion column into row `rowNo` of the task sheet. */
  function CompletionWrite(todo: ToDoList, rowNo: int, selectValue: string, now: string, device: Device): WriteRequest {
    WriteRequest(UpdateRange, todo.spreadsheetId, CompletionRange(todo.sheetName, rowNo), Columns, Column(CompletionCells(selectValue, now, device)))
  }

  /** The history write of a completion: its column into the first cell of the history sheet. */
  function HistoryWrite(todo: ToDoList, completed: Task, selectValue: string, now: string, device: Device): WriteRequest {
    WriteRequest(WriteRanges, todo.historySpreadsheetId, todo.historySheetName + HistoryCell, Columns,
                 Column(CompletionHistoryCells(now, device, todo, completed, selectValue)))
  }

  /**
   * What a completion writes once the list is saved: nothing, with the row-not-found error,
   * when no row names the task; otherwise the completion write into the first row naming
   * it (the rows start at sheet row 12), then the history write.
   */
  function CompletionPlan(todo: ToDoList, values: seq<Row>, index: int, completed: Task,
                          selectValue: string, now: string, device: Device): Result<(WriteRequest, WriteRequest), string> {
    var id := GoText.Itoa(index);
    match FirstMatch(id, values)
    case None => Err(RowNotFoundPrefix + id)
    case Some(k) => Ok((CompletionWrite(todo, 12 + k, selectValue, now, device), HistoryWrite(todo, completed, selectValue, now, device)))
  }

  /** The checks `LogTask` makes, in order, before it writes anything. */
  function LogTaskGuard(found: Option<ToDoList>): (r: Option<string>)
    ensures r.None? <==> found.Some? && found.value.kind == ToDoTypeCompose
                         && found.value.historySpreadsheetId != "" && found.value.historySheetName != ""
    ensures found.None? ==> r == Some("todo not found")
    ensures found.Some? && found.value.kind != ToDoTypeCompose ==> r == Some("invalid todo type")
  {
    if found.None? then Some("todo not found")
    else if found.value.kind != ToDoTypeCompose then Some("invalid todo type")
    else if found.value.historySpreadsheetId == "" || found.value.historySheetName == "" then Some("todo's history sheet was not set up")
    else None
  }

  // ---------------------------------------------------------------------------
  // The repository and the use case

  /** The to-do repository: lookups are answered by functions, saves are recorded. */
  class ToDoStore {
    const byQrCode: string -> Result<ToDoList, string>
    const byId: string -> Result<Option<ToDoList>, string>
    /** The lists saved so far, in order. */
    var saved: seq<ToDoList>

    constructor (byQrCode: string -> Result<ToDoList, string>, byId: string -> Result<Option<ToDoList>, string>)
      ensures this.byQrCode == byQrCode && this.byId == byId && saved == []
    {
      this.byQrCode := byQrCode;
      this.byId := byId;
      this.saved := [];
    }

    /** `ToDoRepository.Save`; its error is never looked at, so none is modelled. */
    method Save(list: ToDoList)
      modifies this
      ensures saved == old(saved) + [list]
    {
      saved := saved + [list];
    }
  }

  class MarkToDoAsDoneUseCase {
    const store: ToDoStore
    const reader: SheetReader
    const writer: SheetWriter

    constructor (store: ToDoStore, reader: SheetReader, writer: SheetWriter)
      ensures this.store == store && this.reader == reader && this.writer == writer
    {
      this.store := store;
      this.reader := reader;
      this.writer := writer;
    }

    /**
     * `Execute`: the lookup error and the read error are returned before anything
     * changes; the updated list is saved before the task's row is searched; a
     * failed completion write is returned, a failed history write is not.
     */
    method Execute(device: Device, code: string, index: int, selectValue: string, now: string) returns (err: Option<string>)
      modifies store, reader, writer
      ensures store.byQrCode(code).Err? ==>
                err == Some(store.byQrCode(code).error) && unchanged(store, reader, writer)
      ensures store.byQrCode(code).Ok? ==>
                var todo := store.byQrCode(code).value;
                var req := ReadRequest(todo.spreadsheetId, todo.sheetName + TaskColumn);
                var values := reader.respond(|old(reader.requests)|, req);
                && reader.requests == old(reader.requests) + [req]
                && (values.Err? ==> err == Some(values.error) && unchanged(store, writer))
                && (values.Ok? ==> store.saved == old(store.saved) + [todo.(tasks := MarkAll(todo.tasks, index, selectValue))])
      ensures store.byQrCode(code).Ok? ==>
                var todo := store.byQrCode(code).value;
                var req := ReadRequest(todo.spreadsheetId, todo.sheetName + TaskColumn);
                var values := reader.respond(|old(reader.requests)|, req);
                values.Ok? ==>
                  var plan := CompletionPlan(todo, values.value, index, LastMatch(todo.tasks, index), selectValue, now, device);
                  && (plan.Err? ==> err == Some(plan.error) && unchanged(writer))
                  && (plan.Ok? ==>
                        var e1 := writer.respond(|old(writer.requests)|, plan.value.0);
                        && (e1.Some? ==> err == e1 && writer.requests == old(writer.requests) + [plan.value.0])
                        && (e1.None? ==> err.None? && writer.requests == old(writer.requests) + [plan.value.0, plan.value.1]))
    {
      var found := store.byQrCode(code);
      if found.Err? {
        return Some(found.error);
      }
      var todo := found.value;
      var values := reader.Get(ReadRequest(todo.spreadsheetId, todo.sheetName + TaskColumn));
      if values.Err? {
        return Some(values.error);
      }
      var updated, completed := SelectTasks(todo.tasks, index, selectValue);
      store.Save(todo.(tasks := updated));
      assert writer.requests == old(writer.requests);
      err := WriteCompletion(todo, values.value, index, selectValue, now, device, completed);
    }

    /**
     * The rest of `Execute` once the list is saved: find the task's row, write the
     * completion column, then the history column, whose error is dropped.
     */
    method WriteCompletion(todo: ToDoList, values: seq<Row>, index: int, selectValue: string, now: string,
                           device: Device, completed: Task) returns (err: Option<string>)
      modifies writer
      ensures var plan := CompletionPlan(todo, values, index, completed, selectValue, now, device);
              && (plan.Err? ==> err == Some(plan.error) && unchanged(writer))
              && (plan.Ok? ==>
                    var e1 := writer.respond(|old(writer.requests)|, plan.value.0);
                    && (e1.Some? ==> err == e1 && writer.requests == old(writer.requests) + [plan.value.0])
                    && (e1.None? ==> err.None? && writer.requests == old(writer.requests) + [plan.value.0, plan.value.1]))
    {
      var rowNo, notFound := FindFirstRow(GoText.Itoa(index), values, 12);
      if notFound.Some? {
        return notFound;
      }
      err := writer.Write(CompletionWrite(todo, rowNo, selectValue, now, device));
      if err.Some? {
        return err;
      }
      var ignored := writer.Write(HistoryWrite(todo, completed, selectValue, now, device));
      return None;
    }

    /** `LogTask`: the lookup error, then the guards in order, then one history write whose error is returned. */
    method LogTask(req: LogTaskRequest, device: Device, now: string) returns (err: Option<string>)
      modifies writer
      ensures store.byId(req.toDoId).Err? ==> err == Some(store.byId(req.toDoId).error) && unchanged(writer)
      ensures store.byId(req.toDoId).Ok? && LogTaskGuard(store.byId(req.toDoId).value).Some? ==>
                err == LogTaskGuard(store.byId(req.toDoId).value) && unchanged(writer)
      ensures store.byId(req.toDoId).Ok? && LogTaskGuard(store.byId(req.toDoId).value).None? ==>
                var todo := store.byId(req.toDoId).value.value;
                var w := WriteRequest(WriteRanges, todo.historySpreadsheetId, todo.historySheetName + HistoryCell, Columns,
                                      Column(LogHistoryCells(now, device, todo, req)));
                && writer.requests == old(writer.requests) + [w]
                && err == writer.respond(|old(writer.requests)|, w)
    {
      var found := store.byId(req.toDoId);
      if found.Err? {
        return Some(found.error);
      }
      var guard := LogTaskGuard(found.value);
      if guard.Some? {
        return guard;
      }
      var todo := found.value.value;
      err := writer.Write(WriteRequest(WriteRanges, todo.historySpreadsheetId, todo.historySheetName + HistoryCell, Columns,
                                       Column(LogHistoryCells(now, device, todo, req))));
    }
  }

  // ---------------------------------------------------------------------------
  // Properties relating the pieces

  /** Only `Selected` changes, and the completed task is one of the tasks the update touched, taken before it. */
  lemma {:induction false} CompletedTaskMarked(tasks: seq<Task>, index: int, selectValue: string)
    requires exists k :: 0 <= k < |tasks| && tasks[k].index == index
    ensures LastMatch(tasks, index) in tasks
    ensures LastMatch(tasks, index).(selected := selectValue) in MarkAll(tasks, index, selectValue)
    ensures forall k :: 0 <= k < |tasks| ==> MarkAll(tasks, index, selectValue)[k].(selected := tasks[k].selected) == tasks[k]
  {
    var k :| 0 <= k < |tasks| && tasks[k].index == index && LastMatch(tasks, index) == tasks[k]
             && forall j :: k < j < |tasks| ==> tasks[j].index != index;
    assert MarkAll(tasks, index, selectValue)[k] == tasks[k].(selected := selectValue);
  }

  /** The row the completion is written to is the sheet row that holds the task's index, read back as a number. */
  lemma CompletionRowNamesTask(index: int, values: seq<Row>)
    requires GoText.MinInt64 <= index <= GoText.MaxInt64
    requires FirstMatch(GoText.Itoa(index), values).Some?
    ensures var i := FirstMatch(GoText.Itoa(index), values).value;
            && 12 <= 12 + i
            && GoText.ParseInt(values[i][0]) == Some(index)
  {
    GoText.ParseIntItoa(index);
  }
}
