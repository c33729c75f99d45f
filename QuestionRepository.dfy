/**
 * The question repository: normalising raw question definitions (`unmarshalQuestion` and
 * its per-kind variants), the best-effort batch over them, and the `s_question` store with
 * its upserts keyed on the external question id, lookups, the per-form join and the
 * delete-by-form-note.
 */
module QuestionRepository {
  import opened Wrappers
  import opened JsonModel
  import opened QuestionTypes
  import opened Entities
  import opened SeqUtil

  /** A raw question definition as it arrives from an import. */
  datatype CreateQuestionParams = CreateQuestionParams(
    questionId: string,
    questionName: string,
    questionType: string,
    question: string,
    attributes: string,
    status: string,
    questionSet: string,
    enableOnMobile: QuestionForMobile,
    questionUniqueId: Option<string>)

  /** Why one definition was not normalised. */
  datatype NormalizeError =
    | UnknownType(tag: string)
    | InvalidAttributes(cause: JsonError)
    | UnknownStatus(status: string)

  // ---------------------------------------------------------------------------
  // The per-kind attribute shapes

  /** `{value: string}`: date, time, date-time and backward duration. */
  const ValueShape: Schema := SStruct([Field("value", SString)])

  /** `{number: int, steps: int}`: scale. */
  const ScaleShape: Schema := SStruct([Field("number", SInt), Field("steps", SInt)])

  /** `{options: [{name: string}]}`: the choice kinds and send-notification. */
  const OptionsShape: Schema := SStruct([Field("options", SList(SStruct([Field("name", SString)])))])

  /** `{messaging: {email: [string], value3: [string], showMessageBox: bool}}`: send-message. */
  const MessagingShape: Schema :=
    SStruct([Field("messaging", SStruct([Field("email", SList(SString)),
                                         Field("value3", SList(SString)),
                                         Field("showMessageBox", SBool)]))])

  /** The struct a kind's variant decodes the payload into; `None` for the variants that never look at it. */
  function ShapeOf(kind: QuestionKind): Option<Schema> {
    match kind
    case QuestionDate | QuestionTime | QuestionDateTime | QuestionDurationBackward => Some(ValueShape)
    case QuestionScale => Some(ScaleShape)
    case QuestionSelection | QuestionMultipleChoice | QuestionSingleChoice
       | QuestionChoiceToggle | QuestionDraggableList | QuestionSendNotification => Some(OptionsShape)
    case QuestionSendMessage => Some(MessagingShape)
    case _ => None
  }

  /** The variants that copy `QuestionUniqueId` into the row (all but six). */
  predicate KeepsUniqueId(kind: QuestionKind) {
    !(kind == QuestionSignature || kind == QuestionDraggableList || kind == QuestionCodeCounting
      || kind == QuestionRandomizer || kind == QuestionDocument || kind == QuestionQRCodeGenerator)
  }

  /** Only the fallback variant, for kinds the switch does not list, copies `Set`. */
  predicate CopiesSet(kind: QuestionKind) {
    kind.UnlistedKind?
  }

  /** The kind has a shape and the payload does not decode into it. */
  predicate ShapeRejects(parse: string -> Option<Json>, kind: QuestionKind, attributes: string) {
    ShapeOf(kind).Some? && Unmarshal(parse, ShapeOf(kind).value, attributes).Err?
  }

  // ---------------------------------------------------------------------------
  // unmarshalQuestion

  /**
   * Normalises one definition: classify the raw type tag, decode the payload against the
   * kind's shape (if it has one), then parse the status, in that order; on success build the
   * canonical row. The row keeps the raw tag and the payload text unchanged.
   */
  function UnmarshalQuestion(reg: Registry, parse: string -> Option<Json>, p: CreateQuestionParams)
    : (r: Result<Question, NormalizeError>)
    ensures r.Err? <==> reg.questionType(p.questionType).None?
                        || ShapeRejects(parse, reg.questionType(p.questionType).value, p.attributes)
                        || reg.statusFromString(p.status).None?
    ensures reg.questionType(p.questionType).None? ==> r == Err(UnknownType(p.questionType))
    ensures reg.questionType(p.questionType).Some?
            && ShapeRejects(parse, reg.questionType(p.questionType).value, p.attributes)
            ==> r.Err? && r.error.InvalidAttributes?
    ensures r.Ok? ==>
              var q := r.value;
              var kind := reg.questionType(p.questionType).value;
              && q.pk == 0 && q.createdAt == 0 && q.updatedAt == 0
              && q.questionId == p.questionId && q.questionName == p.questionName
              && q.questionType == p.questionType && q.question == p.question
              && q.attributes == p.attributes && q.enableOnMobile == p.enableOnMobile
              && q.status == reg.statusFromString(p.status).value
              && q.questionUniqueId == (if KeepsUniqueId(kind) then p.questionUniqueId else None)
              && q.questionSet == (if CopiesSet(kind) then p.questionSet else "")
  {
    match reg.questionType(p.questionType)
    case None => Err(UnknownType(p.questionType))
    case Some(kind) =>
      var shapeError: Option<JsonError> :=
        match ShapeOf(kind)
        case None => None
        case Some(shape) =>
          (match Unmarshal(parse, shape, p.attributes)
           case Ok(_) => None
           case Err(e) => Some(e));
      if shapeError.Some? then Err(InvalidAttributes(shapeError.value))
      else
        match reg.statusFromString(p.status)
        case None => Err(UnknownStatus(p.status))
        case Some(status) =>
          Ok(Question(
            pk := 0,
            questionId := p.questionId,
            questionName := p.questionName,
            questionType := p.questionType,
            question := p.question,
            attributes := p.attributes,
            status := status,
            questionSet := if CopiesSet(kind) then p.questionSet else "",
            enableOnMobile := p.enableOnMobile,
            questionUniqueId := if KeepsUniqueId(kind) then p.questionUniqueId else None,
            createdAt := 0,
            updatedAt := 0))
  }

  /** A kind without a shape never reads its payload: any text, under any parser, gives the same verdict. */
  lemma PayloadIgnoredWithoutShape(reg: Registry, parse: string -> Option<Json>, parse': string -> Option<Json>,
                                   p: CreateQuestionParams, attributes: string)
    requires reg.questionType(p.questionType).Some? && ShapeOf(reg.questionType(p.questionType).value).None?
    ensures UnmarshalQuestion(reg, parse', p.(attributes := attributes))
            == (match UnmarshalQuestion(reg, parse, p)
                case Ok(q) => Ok(q.(attributes := attributes))
                case Err(e) => Err(e))
  {
  }

  /** A selection whose payload is `{"options":[{"name":"Yes"},{"name":"No"}]}` and whose status is known is accepted. */
  lemma SelectionWithNamedOptionsAccepted(reg: Registry, parse: string -> Option<Json>, p: CreateQuestionParams)
    requires reg.questionType(p.questionType) == Some(QuestionSelection)
    requires reg.statusFromString(p.status).Some?
    requires parse(p.attributes) == Some(JObject([Member("options", JArray([
               JObject([Member("name", JString("Yes"))]),
               JObject([Member("name", JString("No"))])]))]))
    ensures UnmarshalQuestion(reg, parse, p).Ok?
  {
    var yes := JObject([Member("name", JString("Yes"))]);
    var no := JObject([Member("name", JString("No"))]);
    var option := SStruct([Field("name", SString)]);
    assert MemberCompatible(option.fields, yes.members[0], yes);
    assert MemberCompatible(option.fields, no.members[0], no);
    var list := JArray([yes, no]);
    assert Compatible(SList(option), list);
    var doc := parse(p.attributes).value;
    assert MemberCompatible(OptionsShape.fields, doc.members[0], doc);
  }

  /** A selection whose `options` is a string, as in `{"options":"not-a-list"}`, is rejected as invalid attributes. */
  lemma SelectionWithStringOptionsRejected(reg: Registry, parse: string -> Option<Json>, p: CreateQuestionParams, text: string)
    requires reg.questionType(p.questionType) == Some(QuestionSelection)
    requires parse(p.attributes) == Some(JObject([Member("options", JString(text))]))
    ensures UnmarshalQuestion(reg, parse, p) == Err(InvalidAttributes(TypeMismatch))
  {
    var doc := parse(p.attributes).value;
    assert !MemberCompatible(OptionsShape.fields, doc.members[0], doc);
  }

  // ---------------------------------------------------------------------------
  // unmarshalQuestions

  /** The rows a batch normalises to. */
  function NormalizedBatch(reg: Registry, parse: string -> Option<Json>, ps: seq<CreateQuestionParams>): seq<Question> {
    KeepOk(p => UnmarshalQuestion(reg, parse, p), ps)
  }

  /**
   * The batch never fails as a whole: its result is exactly the normalised forms of the items
   * that normalise, one per such item, in input order; every other item is skipped.
   */
  lemma BatchSkipsFailures(reg: Registry, parse: string -> Option<Json>, ps: seq<CreateQuestionParams>)
    ensures var qs := NormalizedBatch(reg, parse, ps);
            exists idx: seq<nat> ::
              && |idx| == |qs| <= |ps|
              && (forall k :: 0 <= k < |idx| ==> idx[k] < |ps| && UnmarshalQuestion(reg, parse, ps[idx[k]]) == Ok(qs[k]))
              && (forall k, l :: 0 <= k < l < |idx| ==> idx[k] < idx[l])
              && (forall i :: 0 <= i < |ps| ==> (UnmarshalQuestion(reg, parse, ps[i]).Ok? <==> i in idx))
  {
    var f := p => UnmarshalQuestion(reg, parse, p);
    KeepOkSpec(f, ps);
    var idx := OkPositions(f, ps);
    assert forall k :: 0 <= k < |idx| ==> idx[k] < |ps| && UnmarshalQuestion(reg, parse, ps[idx[k]]) == Ok(NormalizedBatch(reg, parse, ps)[k]);
  }

  /** `unmarshalQuestions`: normalise each item, log and skip the failures. */
  method UnmarshalQuestions(reg: Registry, parse: string -> Option<Json>, ps: seq<CreateQuestionParams>)
    returns (qs: seq<Question>)
    ensures qs == NormalizedBatch(reg, parse, ps)
  {
    qs := [];
    var i := 0;
    while i < |ps|
      invariant 0 <= i <= |ps|
      invariant qs == NormalizedBatch(reg, parse, ps[..i])
    {
      assert ps[..i + 1][..i] == ps[..i];
      var r := UnmarshalQuestion(reg, parse, ps[i]);
      ghost var f := p => UnmarshalQuestion(reg, parse, p);
      assert f(ps[i]) == r;
      if r.Ok? {
        qs := qs + [r.value];
      }
      i := i + 1;
    }
    assert ps[..i] == ps;
  }

  // ---------------------------------------------------------------------------
  // The s_question table and its upserts

  /** The columns an upsert may overwrite on a conflicting `question_id`. */
  datatype Column =
    | ColQuestionName | ColQuestionType | ColQuestion | ColAttributes | ColStatus | ColUpdatedAt
    | ColSet | ColEnableOnMobile | ColQuestionUniqueId

  /** `Create` overwrites these nine columns on conflict. */
  const CreateColumns: set<Column> :=
    {ColQuestionName, ColQuestionType, ColQuestion, ColAttributes, ColStatus, ColUpdatedAt,
     ColSet, ColEnableOnMobile, ColQuestionUniqueId}

  /** `SaveQuestions` overwrites only the first six. */
  const SaveColumns: set<Column> :=
    {ColQuestionName, ColQuestionType, ColQuestion, ColAttributes, ColStatus, ColUpdatedAt}

  /** The stored rows keyed on `question_id`, and the next auto-increment primary key. */
  datatype Table = Table(rows: map<string, Question>, nextPk: nat)

  /** Each row sits under its own id, and primary keys are issued, positive and distinct. */
  ghost predicate TableValid(t: Table) {
    && t.nextPk >= 1
    && (forall k :: k in t.rows ==> t.rows[k].questionId == k && 1 <= t.rows[k].pk < t.nextPk)
    && (forall a, b :: a in t.rows && b in t.rows && a != b ==> t.rows[a].pk != t.rows[b].pk)
  }

  /** The ORM fills zero timestamps with the time of the call. */
  function Stamped(q: Question, now: int): Question {
    q.(createdAt := if q.createdAt == 0 then now else q.createdAt,
       updatedAt := if q.updatedAt == 0 then now else q.updatedAt)
  }

  /** `ON DUPLICATE KEY UPDATE`: the listed columns take the incoming values, every other column is kept. */
  function Assign(row: Question, incoming: Question, cols: set<Column>): Question {
    row.(questionName := if ColQuestionName in cols then incoming.questionName else row.questionName,
         questionType := if ColQuestionType in cols then incoming.questionType else row.questionType,
         question := if ColQuestion in cols then incoming.question else row.question,
         attributes := if ColAttributes in cols then incoming.attributes else row.attributes,
         status := if ColStatus in cols then incoming.status else row.status,
         updatedAt := if ColUpdatedAt in cols then incoming.updatedAt else row.updatedAt,
         questionSet := if ColSet in cols then incoming.questionSet else row.questionSet,
         enableOnMobile := if ColEnableOnMobile in cols then incoming.enableOnMobile else row.enableOnMobile,
         questionUniqueId := if ColQuestionUniqueId in cols then incoming.questionUniqueId else row.questionUniqueId)
  }

  /** `a` and `b` hold the same values in the listed columns. */
  predicate Agrees(a: Question, b: Question, cols: set<Column>) {
    && (ColQuestionName in cols ==> a.questionName == b.questionName)
    && (ColQuestionType in cols ==> a.questionType == b.questionType)
    && (ColQuestion in cols ==> a.question == b.question)
    && (ColAttributes in cols ==> a.attributes == b.attributes)
    && (ColStatus in cols ==> a.status == b.status)
    && (ColUpdatedAt in cols ==> a.updatedAt == b.updatedAt)
    && (ColSet in cols ==> a.questionSet == b.questionSet)
    && (ColEnableOnMobile in cols ==> a.enableOnMobile == b.enableOnMobile)
    && (ColQuestionUniqueId in cols ==> a.questionUniqueId == b.questionUniqueId)
  }

  /** One row of an upsert: update the row with the same `question_id`, or insert with a fresh key. */
  function UpsertOne(t: Table, q: Question, cols: set<Column>, now: int): Table {
    var incoming := Stamped(q, now);
    if q.questionId in t.rows
    then Table(t.rows[q.questionId := Assign(t.rows[q.questionId], incoming, cols)], t.nextPk)
    else Table(t.rows[q.questionId := incoming.(pk := t.nextPk)], t.nextPk + 1)
  }

  /** A batch upsert: the rows are applied in order, so a later row with the same id wins. */
  function UpsertAll(t: Table, qs: seq<Question>, cols: set<Column>, now: int): Table {
    if qs == [] then t else UpsertOne(UpsertAll(t, qs[..|qs| - 1], cols, now), qs[|qs| - 1], cols, now)
  }

  /** The last row of a batch with the given id. */
  function LastWith(qs: seq<Question>, id: string): (r: Option<Question>)
    ensures r.Some? ==> r.value in qs && r.value.questionId == id
    ensures r.Some? ==> exists k :: 0 <= k < |qs| && qs[k] == r.value && forall j :: k < j < |qs| ==> qs[j].questionId != id
    ensures r.None? <==> forall q :: q in qs ==> q.questionId != id
  {
    if qs == [] then None
    else if qs[|qs| - 1].questionId == id then Some(qs[|qs| - 1])
    else LastWith(qs[..|qs| - 1], id)
  }

  /**
   * What a batch upsert leaves under each id: ids outside the batch are untouched; an id that
   * was stored keeps its primary key, creation time and unlisted columns and takes the listed
   * columns from the batch's last row with that id; a new id holds the listed columns of that
   * last row.
   */
  lemma {:induction false} UpsertAllAt(t: Table, qs: seq<Question>, cols: set<Column>, now: int, id: string)
    ensures var u := UpsertAll(t, qs, cols, now);
            && (id in u.rows <==> id in t.rows || LastWith(qs, id).Some?)
            && (LastWith(qs, id).None? && id in t.rows ==> u.rows[id] == t.rows[id])
            && (LastWith(qs, id).Some? && id in t.rows ==>
                  u.rows[id] == Assign(t.rows[id], Stamped(LastWith(qs, id).value, now), cols))
            && (LastWith(qs, id).Some? ==> Agrees(u.rows[id], Stamped(LastWith(qs, id).value, now), cols))
  {
    if qs != [] {
      var init, q := qs[..|qs| - 1], qs[|qs| - 1];
      var mid := UpsertAll(t, init, cols, now);
      UpsertAllAt(t, init, cols, now, id);
      assert UpsertAll(t, qs, cols, now) == UpsertOne(mid, q, cols, now);
      if q.questionId == id {
        assert LastWith(qs, id) == Some(q);
        if id in mid.rows {
          AssignAgrees(mid.rows[id], Stamped(q, now), cols);
          if LastWith(init, id).Some? && id in t.rows {
            AssignTwice(t.rows[id], Stamped(LastWith(init, id).value, now), Stamped(q, now), cols);
          }
        }
      } else {
        assert LastWith(qs, id) == LastWith(init, id);
      }
    }
  }

  /** After an assignment the listed columns hold the incoming values. */
  lemma AssignAgrees(row: Question, incoming: Question, cols: set<Column>)
    ensures Agrees(Assign(row, incoming, cols), incoming, cols)
  {
  }

  /** A second assignment of the same columns overrides the first. */
  lemma AssignTwice(row: Question, a: Question, b: Question, cols: set<Column>)
    ensures Assign(Assign(row, a, cols), b, cols) == Assign(row, b, cols)
  {
  }

  /** A batch upsert keeps the table well formed and never re-issues a primary key. */
  lemma {:induction false} UpsertAllValid(t: Table, qs: seq<Question>, cols: set<Column>, now: int)
    requires TableValid(t)
    ensures TableValid(UpsertAll(t, qs, cols, now))
    ensures UpsertAll(t, qs, cols, now).nextPk >= t.nextPk
  {
    if qs != [] {
      var mid := UpsertAll(t, qs[..|qs| - 1], cols, now);
      UpsertAllValid(t, qs[..|qs| - 1], cols, now);
      var u := UpsertOne(mid, qs[|qs| - 1], cols, now);
      assert u == UpsertAll(t, qs, cols, now);
      forall a, b | a in u.rows && b in u.rows && a != b ensures u.rows[a].pk != u.rows[b].pk {
      }
    }
  }

  /** A batch whose ids are all stored inserts nothing, so the model's key counter does not advance. */
  lemma {:induction false} UpsertAllNoInsert(t: Table, qs: seq<Question>, cols: set<Column>, now: int)
    requires forall q :: q in qs ==> q.questionId in t.rows
    ensures UpsertAll(t, qs, cols, now).nextPk == t.nextPk
    ensures UpsertAll(t, qs, cols, now).rows.Keys == t.rows.Keys
  {
    if qs != [] {
      UpsertAllNoInsert(t, qs[..|qs| - 1], cols, now);
    }
  }

  /** Re-applying the same batch at the same time changes nothing: the upsert is idempotent. */
  lemma UpsertIdempotent(t: Table, qs: seq<Question>, cols: set<Column>, now: int)
    ensures UpsertAll(UpsertAll(t, qs, cols, now), qs, cols, now) == UpsertAll(t, qs, cols, now)
  {
    var a := UpsertAll(t, qs, cols, now);
    var b := UpsertAll(a, qs, cols, now);
    forall q | q in qs ensures q.questionId in a.rows {
      UpsertAllAt(t, qs, cols, now, q.questionId);
    }
    UpsertAllNoInsert(a, qs, cols, now);
    forall id | id in a.rows ensures b.rows[id] == a.rows[id] {
      UpsertAllAt(t, qs, cols, now, id);
      UpsertAllAt(a, qs, cols, now, id);
    }
    assert b.rows == a.rows;
  }

  /** Upserting two rows with one id leaves one stored row, holding the second row's attributes. */
  lemma UpsertTwiceLatestWins(t: Table, q1: Question, q2: Question, cols: set<Column>, now1: int, now2: int)
    requires q1.questionId == q2.questionId && ColAttributes in cols
    ensures var u := UpsertOne(UpsertOne(t, q1, cols, now1), q2, cols, now2);
            && u.rows.Keys == t.rows.Keys + {q1.questionId}
            && u.rows[q1.questionId].attributes == q2.attributes
  {
  }

  // ---------------------------------------------------------------------------
  // Queries

  /** The stored rows whose ids are requested, each once; ids that are not stored are skipped. */
  function SelectByIds(rows: map<string, Question>, ids: seq<string>): (r: seq<Question>)
    ensures forall q :: q in r ==> q.questionId in ids
    ensures forall q :: q in r ==> exists k :: k in rows && rows[k] == q && k == q.questionId
    ensures forall id :: id in ids && id in rows && rows[id].questionId == id ==> rows[id] in r
    ensures forall i, j :: 0 <= i < j < |r| ==> r[i].questionId != r[j].questionId
  {
    if ids == [] then []
    else
      var prev := SelectByIds(rows, ids[..|ids| - 1]);
      var id := ids[|ids| - 1];
      if id in rows && rows[id].questionId == id && id !in ids[..|ids| - 1] then prev + [rows[id]] else prev
  }

  function ItemOf(q: Question, link: FormQuestion): FormQuestionItem {
    FormQuestionItem(
      questionId := q.questionId,
      questionName := q.questionName,
      questionType := q.questionType,
      attributes := q.attributes,
      status := q.status,
      createdAt := q.createdAt,
      updatedAt := q.updatedAt,
      order := link.order,
      answerRequired := link.answerRequired,
      question := q.question,
      enableOnMobile := q.enableOnMobile,
      questionUniqueId := q.questionUniqueId)
  }

  /** A link of the form whose question is stored and active. */
  predicate Shown(rows: map<string, Question>, link: FormQuestion, formId: nat) {
    link.formId == formId && link.questionId in rows && rows[link.questionId].status == Active
  }

  /** The join of the form's links with their active questions, in link order. */
  function JoinActive(rows: map<string, Question>, links: seq<FormQuestion>, formId: nat): seq<FormQuestionItem> {
    if links == [] then []
    else
      var init := JoinActive(rows, links[..|links| - 1], formId);
      var link := links[|links| - 1];
      if Shown(rows, link, formId) then init + [ItemOf(rows[link.questionId], link)] else init
  }

  /** The positions of the shown links, ascending. */
  function ShownPositions(rows: map<string, Question>, links: seq<FormQuestion>, formId: nat): seq<nat> {
    if links == [] then []
    else
      var init := ShownPositions(rows, links[..|links| - 1], formId);
      if Shown(rows, links[|links| - 1], formId) then init + [|links| - 1] else init
  }

  /**
   * The join holds one item per shown link, in link order, built from that link and its
   * question; a link that is not shown contributes nothing.
   */
  lemma {:induction false} JoinActiveMembers(rows: map<string, Question>, links: seq<FormQuestion>, formId: nat)
    ensures var js, idx := JoinActive(rows, links, formId), ShownPositions(rows, links, formId);
            && |idx| == |js| <= |links|
            && (forall k :: 0 <= k < |idx| ==>
                  && idx[k] < |links| && Shown(rows, links[idx[k]], formId)
                  && js[k] == ItemOf(rows[links[idx[k]].questionId], links[idx[k]]))
            && (forall k, l :: 0 <= k < l < |idx| ==> idx[k] < idx[l])
            && (forall i :: 0 <= i < |links| ==> (Shown(rows, links[i], formId) <==> i in idx))
    ensures forall x :: x in JoinActive(rows, links, formId) <==>
              exists i :: 0 <= i < |links| && Shown(rows, links[i], formId)
                          && x == ItemOf(rows[links[i].questionId], links[i])
  {
    if links != [] {
      var init := links[..|links| - 1];
      JoinActiveMembers(rows, init, formId);
      var idx := ShownPositions(rows, init, formId);
      assert forall k :: 0 <= k < |idx| ==> init[idx[k]] == links[idx[k]];
      assert forall i :: 0 <= i < |init| ==> init[i] == links[i];
    }
  }

  function OrderOf(x: FormQuestionItem): int {
    x.order
  }

  /** The rows the form query returns. */
  function FormRows(rows: map<string, Question>, links: seq<FormQuestion>, formId: nat): seq<FormQuestionItem> {
    SortBy(JoinActive(rows, links, formId), OrderOf)
  }

  /**
   * The form query returns the rows of the join, ascending by order: the same items with the
   * same multiplicities, so one row per link of the form whose question is stored and active,
   * carrying that link's order and flag.
   */
  lemma FormRowsSpec(rows: map<string, Question>, links: seq<FormQuestion>, formId: nat)
    ensures SortedBy(FormRows(rows, links, formId), OrderOf)
    ensures multiset(FormRows(rows, links, formId)) == multiset(JoinActive(rows, links, formId))
    ensures forall x :: x in FormRows(rows, links, formId) <==>
              exists i :: 0 <= i < |links| && Shown(rows, links[i], formId)
                          && x == ItemOf(rows[links[i].questionId], links[i])
    ensures forall x :: x in FormRows(rows, links, formId) ==> x.status == Active
  {
    JoinActiveMembers(rows, links, formId);
    var r := FormRows(rows, links, formId);
    forall x ensures x in r <==> x in JoinActive(rows, links, formId) {
      assert x in r <==> x in multiset(r);
    }
  }

  /** The questions linked to some form with the given note: what the delete-by-note removes. */
  predicate LinkedToNote(links: seq<FormQuestion>, forms: map<nat, Form>, note: string, id: string) {
    exists i :: 0 <= i < |links| && links[i].questionId == id && links[i].formId in forms
                && forms[links[i].formId].note == note
  }

  /**
   * The links left after questions are deleted: those naming a question that was not stored, or
   * that is still stored, in their original order. A link naming a deleted question is removed
   * by the `ON DELETE CASCADE` on the link table's question key.
   */
  function Surviving(links: seq<FormQuestion>, before: map<string, Question>, after: set<string>): seq<FormQuestion> {
    if links == [] then []
    else
      var init := Surviving(links[..|links| - 1], before, after);
      var l := links[|links| - 1];
      if l.questionId !in before || l.questionId in after then init + [l] else init
  }

  /**
   * The cascade keeps exactly the links whose question was not deleted, in order: the result is
   * a subsequence of the links, and a link is kept iff it names no deleted question.
   */
  lemma {:induction false} SurvivingSpec(links: seq<FormQuestion>, before: map<string, Question>, after: set<string>)
    ensures var r := Surviving(links, before, after);
            && |r| <= |links|
            && (forall l :: l in r <==> l in links && (l.questionId !in before || l.questionId in after))
            && (forall i :: 0 <= i < |links| && links[i].questionId in before && links[i].questionId !in after ==>
                  links[i] !in r)
  {
    if links != [] {
      var init := links[..|links| - 1];
      SurvivingSpec(init, before, after);
      assert links == init + [links[|links| - 1]];
    }
  }

  /**
   * After a delete, no remaining link names a question that was removed, and the join over what
   * is left shows nothing the join before the delete did not: re-creating a deleted question
   * does not bring its old links back.
   */
  lemma {:induction false} DeleteCascadeJoin(before: map<string, Question>, after: map<string, Question>, links: seq<FormQuestion>, formId: nat)
    requires after.Keys <= before.Keys
    requires forall k :: k in after ==> after[k] == before[k]
    ensures var kept := Surviving(links, before, after.Keys);
            forall x :: x in JoinActive(after, kept, formId) ==> x in JoinActive(before, links, formId)
    ensures forall l :: l in Surviving(links, before, after.Keys) && l.questionId in before ==> l.questionId in after
  {
    if links != [] {
      var init := links[..|links| - 1];
      var l := links[|links| - 1];
      DeleteCascadeJoin(before, after, init, formId);
      var kept0 := Surviving(init, before, after.Keys);
      if l.questionId !in before || l.questionId in after {
        var kept := kept0 + [l];
        assert kept[..|kept| - 1] == kept0;
        assert Shown(after, l, formId) ==> Shown(before, l, formId) && after[l.questionId] == before[l.questionId];
      }
    }
  }

  /** How a storage call can fail. */
  datatype StoreError = EmptySlice | DbFailure | NotFound

  /**
   * What the database does with the form query: it runs and scans cleanly, rejects the query,
   * fails a row scan, or breaks off the iteration after `n` rows (a network or server error that
   * makes `rows.Next()` stop early and is then only reported by `rows.Err()`).
   */
  datatype FormQueryOutcome = Completes | QueryFails | ScanFails | StopsAfter(n: nat)

  /** What the form query's caller observes: the rows, a returned error, or a crash of the handler. */
  datatype FormQueryResult = Rows(items: seq<FormQuestionItem>) | Failed(error: StoreError) | Crash

  /**
   * The form query as written: the deferred close of the row cursor is registered before the
   * query error is checked, so when the query itself fails the cursor is nil and closing it
   * crashes the handler instead of returning the error. Only a scan failure is returned. The
   * loop never consults `rows.Err()`, so an iteration that breaks off returns the rows read so
   * far as if they were the whole answer.
   */
  function FormQueryAsWritten(rows: map<string, Question>, links: seq<FormQuestion>, formId: nat, o: FormQueryOutcome): (r: FormQueryResult)
    ensures r.Crash? <==> o == QueryFails
    ensures r.Failed? <==> o == ScanFails
    ensures r.Failed? ==> r.error == DbFailure
    ensures r.Rows? ==> r.items <= FormRows(rows, links, formId)
    ensures o == Completes ==> r == Rows(FormRows(rows, links, formId))
    ensures o.StopsAfter? ==> r.Rows? && |r.items| == Min(o.n, |FormRows(rows, links, formId)|)
  {
    match o
    case Completes => Rows(FormRows(rows, links, formId))
    case QueryFails => Crash
    case ScanFails => Failed(DbFailure)
    case StopsAfter(n) => Rows(FormRows(rows, links, formId)[..Min(n, |FormRows(rows, links, formId)|)])
  }

  function Min(a: nat, b: nat): nat {
    if a < b then a else b
  }

  /**
   * The discrepancy: on a rejected query the code as written crashes, while the store below
   * (the intended behaviour) reports a database failure, which the use cases turn into a 400 or
   * an empty response. On every other outcome the two agree.
   */
  lemma DeferredCloseOnFailedQuery(rows: map<string, Question>, links: seq<FormQuestion>, formId: nat)
    ensures FormQueryAsWritten(rows, links, formId, QueryFails) == Crash
    ensures FormQueryAsWritten(rows, links, formId, ScanFails) == Failed(DbFailure)
    ensures FormQueryAsWritten(rows, links, formId, Completes) == Rows(FormRows(rows, links, formId))
  {
  }

  /**
   * The second discrepancy: when the iteration breaks off before the last row, the code as
   * written returns a strict prefix of the form's rows with no error, while the store below
   * reports a database failure.
   */
  lemma SilentTruncation(rows: map<string, Question>, links: seq<FormQuestion>, formId: nat, n: nat)
    requires n < |FormRows(rows, links, formId)|
    ensures var r := FormQueryAsWritten(rows, links, formId, StopsAfter(n));
            r.Rows? && |r.items| < |FormRows(rows, links, formId)| && r.items <= FormRows(rows, links, formId)
  {
  }

  // ---------------------------------------------------------------------------
  // The store

  /**
   * The tables behind the repository: `s_question` (keyed on `question_id`, with its
   * auto-increment key), `s_form_question` and `s_form`. `dbOk` parameters stand for whether
   * the database accepts the statement; a failed statement changes nothing.
   */
  class QuestionStore {
    var rows: map<string, Question>
    var nextPk: nat
    var links: seq<FormQuestion>
    var forms: map<nat, Form>

    ghost predicate Valid()
      reads this
    {
      TableValid(Table(rows, nextPk))
    }

    constructor (forms: map<nat, Form>, links: seq<FormQuestion>)
      ensures Valid() && rows == map[] && nextPk == 1
      ensures this.forms == forms && this.links == links
    {
      this.rows := map[];
      this.nextPk := 1;
      this.links := links;
      this.forms := forms;
    }

    /** Applies the rows of one upsert statement in order. */
    method UpsertBatch(qs: seq<Question>, cols: set<Column>, now: int)
      requires Valid()
      modifies this
      ensures Valid()
      ensures Table(rows, nextPk) == UpsertAll(old(Table(rows, nextPk)), qs, cols, now)
      ensures links == old(links) && forms == old(forms)
    {
      ghost var start := Table(rows, nextPk);
      var i := 0;
      while i < |qs|
        invariant 0 <= i <= |qs|
        invariant Table(rows, nextPk) == UpsertAll(start, qs[..i], cols, now)
        invariant links == old(links) && forms == old(forms)
      {
        assert qs[..i + 1][..i] == qs[..i];
        var incoming := Stamped(qs[i], now);
        var id := qs[i].questionId;
        if id in rows {
          rows := rows[id := Assign(rows[id], incoming, cols)];
        } else {
          rows := rows[id := incoming.(pk := nextPk)];
          nextPk := nextPk + 1;
        }
        i := i + 1;
      }
      assert qs[..i] == qs;
      UpsertAllValid(start, qs, cols, now);
    }

    /** An upsert statement: an empty batch is refused by the ORM, a failing statement changes nothing. */
    method Upsert(qs: seq<Question>, cols: set<Column>, now: int, dbOk: bool) returns (err: Option<StoreError>)
      requires Valid()
      modifies this
      ensures Valid() && links == old(links) && forms == old(forms)
      ensures qs == [] ==> err == Some(EmptySlice)
      ensures qs != [] && !dbOk ==> err == Some(DbFailure)
      ensures err.Some? ==> rows == old(rows) && nextPk == old(nextPk)
      ensures err.None? <==> qs != [] && dbOk
      ensures err.None? ==> Table(rows, nextPk) == UpsertAll(old(Table(rows, nextPk)), qs, cols, now)
    {
      if qs == [] {
        return Some(EmptySlice);
      }
      if !dbOk {
        return Some(DbFailure);
      }
      UpsertBatch(qs, cols, now);
      err := None;
    }

    /**
     * `Create`: an empty request returns an empty list without touching storage; otherwise the
     * normalised batch is upserted with the nine `Create` columns and returned as the ORM leaves
   * it, with zero timestamps filled in.
     */
    method Create(reg: Registry, parse: string -> Option<Json>, params: seq<CreateQuestionParams>, now: int, dbOk: bool)
      returns (r: Result<seq<Question>, StoreError>)
      requires Valid()
      modifies this
      ensures Valid() && links == old(links) && forms == old(forms)
      ensures params == [] ==> r == Ok([]) && rows == old(rows) && nextPk == old(nextPk)
      ensures params != [] ==>
                var qs := NormalizedBatch(reg, parse, params);
                && (qs == [] ==> r == Err(EmptySlice))
                && (qs != [] && !dbOk ==> r == Err(DbFailure))
                && (r.Err? ==> rows == old(rows) && nextPk == old(nextPk))
                && (r.Ok? <==> qs != [] && dbOk)
                && (r.Ok? ==>
                      |r.value| == |qs|
                      && (forall i :: 0 <= i < |qs| ==> r.value[i] == Stamped(qs[i], now))
                      && Table(rows, nextPk) == UpsertAll(old(Table(rows, nextPk)), qs, CreateColumns, now))
    {
      if params == [] {
        return Ok([]);
      }
      var qs := UnmarshalQuestions(reg, parse, params);
      var err := Upsert(qs, CreateColumns, now, dbOk);
      if err.Some? {
        return Err(err.value);
      }
      r := Ok(seq(|qs|, i requires 0 <= i < |qs| => Stamped(qs[i], now)));
    }

    /**
     * `SaveQuestions`: upserts already-built rows with the six `SaveQuestions` columns and returns
     * them with zero timestamps filled in.
     */
    method SaveQuestions(qs: seq<Question>, now: int, dbOk: bool) returns (r: Result<seq<Question>, StoreError>)
      requires Valid()
      modifies this
      ensures Valid() && links == old(links) && forms == old(forms)
      ensures qs == [] ==> r == Err(EmptySlice)
      ensures qs != [] && !dbOk ==> r == Err(DbFailure)
      ensures r.Err? ==> rows == old(rows) && nextPk == old(nextPk)
      ensures r.Ok? <==> qs != [] && dbOk
      ensures r.Ok? ==> |r.value| == |qs| && (forall i :: 0 <= i < |qs| ==> r.value[i] == Stamped(qs[i], now))
                        && Table(rows, nextPk) == UpsertAll(old(Table(rows, nextPk)), qs, SaveColumns, now)
    {
      var err := Upsert(qs, SaveColumns, now, dbOk);
      if err.Some? {
        return Err(err.value);
      }
      r := Ok(seq(|qs|, i requires 0 <= i < |qs| => Stamped(qs[i], now)));
    }

    /** `FindById`: the row stored under the id, or not-found. */
    method FindById(id: string, dbOk: bool) returns (r: Result<Question, StoreError>)
      requires Valid()
      ensures !dbOk ==> r == Err(DbFailure)
      ensures dbOk ==> (r.Ok? <==> id in rows)
      ensures dbOk && id !in rows ==> r == Err(NotFound)
      ensures r.Ok? ==> r.value == rows[id] && r.value.questionId == id
    {
      if !dbOk {
        return Err(DbFailure);
      }
      if id in rows {
        r := Ok(rows[id]);
      } else {
        r := Err(NotFound);
      }
    }

    /** `GetQuestionsByIds`: the stored rows among the requested ids, each once. */
    method GetQuestionsByIds(ids: seq<string>, dbOk: bool) returns (r: Result<seq<Question>, StoreError>)
      requires Valid()
      ensures r.Ok? <==> dbOk
      ensures r.Ok? ==> forall q :: q in r.value <==> q.questionId in ids && q.questionId in rows && rows[q.questionId] == q
      ensures r.Ok? ==> forall i, j :: 0 <= i < j < |r.value| ==> r.value[i].questionId != r.value[j].questionId
    {
      if !dbOk {
        return Err(DbFailure);
      }
      r := Ok(SelectByIds(rows, ids));
    }

    /**
     * `GetQuestionsByFormId`, corrected: the form's active questions, ascending by link order; a
     * rejected query, a failed row scan and a broken-off iteration are all returned as a
     * database failure.
     */
    method GetQuestionsByFormId(formId: nat, o: FormQueryOutcome) returns (r: Result<seq<FormQuestionItem>, StoreError>)
      ensures r.Ok? <==> o == Completes
      ensures r.Err? ==> r.error == DbFailure
      ensures r.Ok? ==> r.value == FormRows(rows, links, formId)
      ensures r.Ok? ==> FormQueryAsWritten(rows, links, formId, o) == Rows(r.value)
      ensures o == ScanFails ==> FormQueryAsWritten(rows, links, formId, o) == Failed(r.error)
    {
      if o != Completes {
        return Err(DbFailure);
      }
      r := Ok(FormRows(rows, links, formId));
    }

    /**
     * `DeleteQuestionsFormNote`: removes every question linked to a form with the note. No
     * match is not an error. The link table's foreign key cascades the delete, so the links of
     * the removed questions go with them; the other links keep their order.
     */
    method DeleteQuestionsFormNote(note: string, dbOk: bool) returns (err: Option<StoreError>)
      requires Valid()
      modifies this
      ensures Valid() && forms == old(forms) && nextPk == old(nextPk)
      ensures err.Some? <==> !dbOk
      ensures !dbOk ==> rows == old(rows) && links == old(links)
      ensures dbOk ==> rows.Keys == set k | k in old(rows) && !LinkedToNote(old(links), forms, note, k)
      ensures forall k :: k in rows ==> rows[k] == old(rows)[k]
      ensures dbOk ==> links == Surviving(old(links), old(rows), rows.Keys)
    {
      if !dbOk {
        return Some(DbFailure);
      }
      var kept := map k | k in rows && !LinkedToNote(links, forms, note, k) :: rows[k];
      links := Surviving(links, rows, kept.Keys);
      rows := kept;
      err := None;
    }
  }
}
