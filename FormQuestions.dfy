/**
 * The form question assembler: reads a form's questions from the store, drops the rows whose
 * attributes do not decode (and, on the mobile path, the send-notification rows), then
 * classifies the rest, aborting on a non-general kind and filling in the values of
 * code-counting and randomizer questions at read time.
 */
module FormQuestions {
  import opened Wrappers
  import opened JsonModel
  import opened QuestionTypes
  import opened Entities
  import opened SeqUtil
  import opened QuestionRepository
  import GoText

  /** One question of the response. */
  datatype QuestionListData = QuestionListData(
    questionId: string,
    questionType: string,
    question: string,
    attributes: GoValue,
    order: int,
    answerRequired: bool,
    enabled: bool)

  datatype QuestionListResponse = QuestionListResponse(
    items: seq<QuestionListData>,
    decryptPassword: string,
    formName: string)

  datatype FailedResponse = FailedResponse(code: int, error: string)

  const StatusBadRequest: int := 400
  const StatusBuildFailed: int := 555
  const FailedToGetQuestions: string := "Failed to get questions"

  /**
   * What the assembler works with: the registry, the JSON text parser, the struct the response
   * attributes decode into, and the text of a decode error.
   */
  datatype Env = Env(
    reg: Registry,
    parse: string -> Option<Json>,
    attrSchema: Schema,
    jsonErrorText: JsonError -> string)

  const BadRequest: FailedResponse := FailedResponse(StatusBadRequest, FailedToGetQuestions)

  /** The 555 message, which names the question. */
  function BuildFailureMessage(questionId: string, err: string): (m: string)
    ensures BuildFailurePrefix <= m && |m| >= |BuildFailurePrefix| + |questionId|
    ensures m[|BuildFailurePrefix|..|BuildFailurePrefix| + |questionId|] == questionId
  {
    BuildFailurePrefix + questionId + " err: " + err
  }

  const BuildFailurePrefix: string := "Could not parsed user form data fo question: "

  // ---------------------------------------------------------------------------
  // First pass: decode and drop

  datatype DropReason = Undecodable(cause: JsonError) | NotForMobile

  /**
   * One stored row in the first pass: dropped when its attributes do not decode, or when its raw
   * type equals the skipped tag; otherwise rendered with its type upper-cased.
   */
  function RenderRow(env: Env, skipTag: Option<string>, x: FormQuestionItem): Result<QuestionListData, DropReason> {
    match Unmarshal(env.parse, env.attrSchema, x.attributes)
    case Err(e) => Err(Undecodable(e))
    case Ok(att) =>
      if skipTag == Some(x.questionType) then Err(NotForMobile)
      else Ok(QuestionListData(
             questionId := x.questionId,
             questionType := GoText.ToUpper(x.questionType),
             question := x.question,
             attributes := att,
             order := x.order,
             answerRequired := x.answerRequired,
             enabled := x.enableOnMobile == QuestionForMobileEnabled))
  }

  function Render(env: Env, skipTag: Option<string>, xs: seq<FormQuestionItem>): seq<QuestionListData> {
    KeepOk(x => RenderRow(env, skipTag, x), xs)
  }

  /**
   * The first pass keeps, in order, exactly the rows whose attributes decode and whose raw type
   * is not the skipped tag; each kept row has the stored id, prompt, order and flag, its type
   * upper-cased, and is enabled exactly when its mobile flag is enabled.
   */
  lemma RenderSpec(env: Env, skipTag: Option<string>, xs: seq<FormQuestionItem>)
    ensures var raw := Render(env, skipTag, xs);
            exists idx: seq<nat> ::
              && |idx| == |raw| <= |xs|
              && (forall k, l :: 0 <= k < l < |idx| ==> idx[k] < idx[l])
              && (forall k :: 0 <= k < |idx| ==>
                    && idx[k] < |xs|
                    && skipTag != Some(xs[idx[k]].questionType)
                    && Unmarshal(env.parse, env.attrSchema, xs[idx[k]].attributes) == Ok(raw[k].attributes)
                    && raw[k].questionId == xs[idx[k]].questionId
                    && raw[k].questionType == GoText.ToUpper(xs[idx[k]].questionType)
                    && raw[k].question == xs[idx[k]].question
                    && raw[k].order == xs[idx[k]].order
                    && raw[k].answerRequired == xs[idx[k]].answerRequired
                    && (raw[k].enabled <==> xs[idx[k]].enableOnMobile == QuestionForMobileEnabled))
              && (forall i :: 0 <= i < |xs| ==>
                    ((Unmarshal(env.parse, env.attrSchema, xs[i].attributes).Ok? && skipTag != Some(xs[i].questionType))
                     <==> i in idx))
  {
    var f := x => RenderRow(env, skipTag, x);
    KeepOkSpec(f, xs);
    var idx := OkPositions(f, xs);
    var raw := Render(env, skipTag, xs);
    forall k | 0 <= k < |idx|
      ensures && idx[k] < |xs|
              && skipTag != Some(xs[idx[k]].questionType)
              && Unmarshal(env.parse, env.attrSchema, xs[idx[k]].attributes) == Ok(raw[k].attributes)
              && raw[k].questionId == xs[idx[k]].questionId
              && raw[k].questionType == GoText.ToUpper(xs[idx[k]].questionType)
              && raw[k].question == xs[idx[k]].question
              && raw[k].order == xs[idx[k]].order
              && raw[k].answerRequired == xs[idx[k]].answerRequired
              && (raw[k].enabled <==> xs[idx[k]].enableOnMobile == QuestionForMobileEnabled)
    {
      assert f(xs[idx[k]]) == Ok(raw[k]);
      RenderRowOk(env, skipTag, xs[idx[k]], raw[k]);
    }
    forall i | 0 <= i < |xs|
      ensures (Unmarshal(env.parse, env.attrSchema, xs[i].attributes).Ok? && skipTag != Some(xs[i].questionType))
              <==> i in idx
    {
      assert f(xs[i]) == RenderRow(env, skipTag, xs[i]);
    }
  }

  /** A rendered row carries its stored row's decoded attributes and fields. */
  lemma RenderRowOk(env: Env, skipTag: Option<string>, x: FormQuestionItem, y: QuestionListData)
    requires RenderRow(env, skipTag, x) == Ok(y)
    ensures && skipTag != Some(x.questionType)
            && Unmarshal(env.parse, env.attrSchema, x.attributes) == Ok(y.attributes)
            && y.questionId == x.questionId
            && y.questionType == GoText.ToUpper(x.questionType)
            && y.question == x.question
            && y.order == x.order
            && y.answerRequired == x.answerRequired
            && (y.enabled <==> x.enableOnMobile == QuestionForMobileEnabled)
  {
  }

  /** Every rendered type is upper case, so the second pass sees upper-case tags only. */
  lemma RenderUpper(env: Env, skipTag: Option<string>, xs: seq<FormQuestionItem>)
    ensures forall k :: 0 <= k < |Render(env, skipTag, xs)| ==> GoText.IsUpper(Render(env, skipTag, xs)[k].questionType)
  {
    var f := x => RenderRow(env, skipTag, x);
    KeepOkSpec(f, xs);
    var idx := OkPositions(f, xs);
    var raw := Render(env, skipTag, xs);
    forall k | 0 <= k < |raw| ensures GoText.IsUpper(raw[k].questionType) {
      assert RenderRow(env, skipTag, xs[idx[k]]) == Ok(raw[k]);
      GoText.UpperFixpoints(xs[idx[k]].questionType);
    }
  }

  /** The first-pass loop. */
  method RenderAll(env: Env, skipTag: Option<string>, xs: seq<FormQuestionItem>) returns (raw: seq<QuestionListData>)
    ensures raw == Render(env, skipTag, xs)
  {
    raw := [];
    var i := 0;
    while i < |xs|
      invariant 0 <= i <= |xs|
      invariant raw == Render(env, skipTag, xs[..i])
    {
      assert xs[..i + 1][..i] == xs[..i];
      var r := RenderRow(env, skipTag, xs[i]);
      ghost var f := x => RenderRow(env, skipTag, x);
      assert f(xs[i]) == r;
      if r.Ok? {
        raw := raw + [r.value];
      }
      i := i + 1;
    }
    assert xs[..i] == xs;
  }

  // ---------------------------------------------------------------------------
  // Rebuilding code-counting and randomizer rows

  /** `{"value": "<v>"}`, built by concatenation: nothing escapes `v`. */
  function ValueDocument(v: string): string {
    "{\"value\": \"" + v + "\"}"
  }

  /** Decodes a freshly built attribute text into a zero struct and re-emits the row with it. */
  function Rebuild(env: Env, x: QuestionListData, text: string): Result<QuestionListData, string> {
    match Unmarshal(env.parse, env.attrSchema, text)
    case Err(e) => Err(env.jsonErrorText(e))
    case Ok(att) => Ok(x.(questionType := GoText.ToUpper(x.questionType), attributes := att))
  }

  /** `BuildCodeCountingQuestion` after the generator answered `generated`. */
  function CodeCountingOutcome(env: Env, x: QuestionListData, generated: Result<string, string>)
    : Result<QuestionListData, string>
  {
    match generated
    case Err(e) => Err(e)
    case Ok(code) => Rebuild(env, x, ValueDocument(code))
  }

  /**
   * `BuildRandomizerQuestion` drawing `token`: the fresh struct's value (the zero value) plus the
   * token is appended to the row's current value.
   */
  function BuildRandomizerQuestion(env: Env, x: QuestionListData, token: string): Result<QuestionListData, string> {
    var code := StringField(env.attrSchema, Zero(env.attrSchema), "value") + token;
    Rebuild(env, x, ValueDocument(StringField(env.attrSchema, x.attributes, "value") + code))
  }

  lemma ZeroStringFieldEmpty(s: Schema, key: string)
    ensures StringField(s, Zero(s), key) == ""
  {
  }

  /**
   * A code-counting row whose code decodes as `{"value": code}` gets exactly the zero struct with
   * `value` set to the code (every other attribute cleared); the rest of the row is kept.
   */
  lemma CodeCountingValue(env: Env, x: QuestionListData, code: string)
    requires HasStringField(env.attrSchema, "value")
    requires env.parse(ValueDocument(code)) == Some(JObject([Member("value", JString(code))]))
    ensures var r := CodeCountingOutcome(env, x, Ok(code));
            var k := FirstExact(env.attrSchema.fields, "value").value;
            && r.Ok?
            && r.value == x.(questionType := GoText.ToUpper(x.questionType),
                             attributes := Zero(env.attrSchema).(fields := Zero(env.attrSchema).fields[k := GString(code)]))
            && StringField(env.attrSchema, r.value.attributes, "value") == code
  {
    DecodeSingleString(env.attrSchema, "value", code);
  }

  /** A generator failure is passed on unchanged. */
  lemma CodeCountingGeneratorFailure(env: Env, x: QuestionListData, e: string)
    ensures CodeCountingOutcome(env, x, Err(e)) == Err(e)
  {
  }

  /**
   * A randomizer row whose rebuilt text decodes as `{"value": old + token}` ends with the old
   * value followed by the token, every other attribute cleared.
   */
  lemma RandomizerValue(env: Env, x: QuestionListData, token: string)
    requires HasStringField(env.attrSchema, "value")
    requires var v := StringField(env.attrSchema, x.attributes, "value") + token;
             env.parse(ValueDocument(v)) == Some(JObject([Member("value", JString(v))]))
    ensures var r := BuildRandomizerQuestion(env, x, token);
            var v := StringField(env.attrSchema, x.attributes, "value") + token;
            var k := FirstExact(env.attrSchema.fields, "value").value;
            && r.Ok?
            && r.value == x.(questionType := GoText.ToUpper(x.questionType),
                             attributes := Zero(env.attrSchema).(fields := Zero(env.attrSchema).fields[k := GString(v)]))
            && StringField(env.attrSchema, r.value.attributes, "value") == v
  {
    ZeroStringFieldEmpty(env.attrSchema, "value");
    assert StringField(env.attrSchema, Zero(env.attrSchema), "value") + token == token;
    var v := StringField(env.attrSchema, x.attributes, "value") + token;
    DecodeSingleString(env.attrSchema, "value", v);
  }

  /** The code generator behind the code-counting repository: it may fail, and it records what it was asked. */
  class CodeGenerator {
    /** The answer to the `k`-th request, for a question id. */
    const respond: (nat, string) -> Result<string, string>
    /** The question ids asked for so far, in order. */
    var asked: seq<string>

    constructor (respond: (nat, string) -> Result<string, string>)
      ensures this.respond == respond && asked == []
    {
      this.respond := respond;
      this.asked := [];
    }

    method CreateForQuestionWithId(questionId: string) returns (r: Result<string, string>)
      modifies this
      ensures asked == old(asked) + [questionId]
      ensures r == respond(|old(asked)|, questionId)
    {
      r := respond(|asked|, questionId);
      asked := asked + [questionId];
    }
  }

  /** `BuildCodeCountingQuestion`: one generator call, then the rebuild. */
  method BuildCodeCountingQuestion(env: Env, gen: CodeGenerator, x: QuestionListData) returns (r: Result<QuestionListData, string>)
    modifies gen
    ensures gen.asked == old(gen.asked) + [x.questionId]
    ensures r == CodeCountingOutcome(env, x, gen.respond(|old(gen.asked)|, x.questionId))
  {
    var generated := gen.CreateForQuestionWithId(x.questionId);
    if generated.Err? {
      return Err(generated.error);
    }
    r := Rebuild(env, x, ValueDocument(generated.value));
  }

  // ---------------------------------------------------------------------------
  // Second pass: classify, abort or rewrite

  /** What the second pass does with one rendered row. */
  datatype RowStep = Skip | Abort(failure: FailedResponse) | Emit(item: QuestionListData)

  /** The generator requests one row makes: one for a code-counting row of a general kind. */
  function RowAsks(reg: Registry, x: QuestionListData): seq<string> {
    var kind := reg.questionType(x.questionType);
    if kind == Some(QuestionCodeCounting) && reg.isGeneral(QuestionCodeCounting) then [x.questionId] else []
  }

  /** The random draws one row makes: one for a randomizer row of a general kind. */
  function RowDraws(reg: Registry, x: QuestionListData): nat {
    var kind := reg.questionType(x.questionType);
    if kind == Some(QuestionRandomizer) && reg.isGeneral(QuestionRandomizer) then 1 else 0
  }

  /** How the second pass rebuilds a row of a general kind, after `a` generator requests and `d` random draws. */
  type RowBuilder = (QuestionKind, QuestionListData, nat, nat) -> Result<QuestionListData, string>

  /**
   * The assembler's builder: a code-counting row asks the generator (its `a`-th request), a
   * randomizer row takes the `d`-th random token, any other row is kept as it is.
   */
  function Builder(env: Env, respond: (nat, string) -> Result<string, string>, tokens: nat -> string): RowBuilder {
    (kind: QuestionKind, x: QuestionListData, a: nat, d: nat) =>
      if kind == QuestionCodeCounting then CodeCountingOutcome(env, x, respond(a, x.questionId))
      else if kind == QuestionRandomizer then BuildRandomizerQuestion(env, x, tokens(d))
      else Ok(x)
  }

  /** A rebuilt row keeps the question, its type (already upper case), its layout and its flag. */
  predicate SameRow(x: QuestionListData, y: QuestionListData) {
    && y.questionId == x.questionId
    && y.questionType == x.questionType
    && y.question == x.question
    && y.order == x.order
    && y.answerRequired == x.answerRequired
    && y.enabled == x.enabled
  }

  /**
   * The builder on one row: rows of a kind that is not generated are kept as they are, and a
   * generated row that is built keeps its question, type, layout and flag.
   */
  predicate FaithfulAt(build: RowBuilder, kind: QuestionKind, x: QuestionListData, a: nat, d: nat) {
    && (kind != QuestionCodeCounting && kind != QuestionRandomizer ==> build(kind, x, a, d) == Ok(x))
    && (((kind == QuestionCodeCounting || kind == QuestionRandomizer) && GoText.IsUpper(x.questionType)
         && build(kind, x, a, d).Ok?) ==> SameRow(x, build(kind, x, a, d).value))
  }

  ghost predicate Faithful(build: RowBuilder) {
    forall kind, x, a, d :: FaithfulAt(build, kind, x, a, d)
  }

  lemma BuilderFaithful(env: Env, respond: (nat, string) -> Result<string, string>, tokens: nat -> string)
    ensures Faithful(Builder(env, respond, tokens))
  {
    var build := Builder(env, respond, tokens);
    forall kind: QuestionKind, x: QuestionListData, a: nat, d: nat | (kind == QuestionCodeCounting || kind == QuestionRandomizer) && GoText.IsUpper(x.questionType)
                             && build(kind, x, a, d).Ok?
      ensures SameRow(x, build(kind, x, a, d).value)
    {
      GoText.UpperFixpoints(x.questionType);
      if kind == QuestionCodeCounting {
        assert build(kind, x, a, d) == CodeCountingOutcome(env, x, respond(a, x.questionId));
      } else {
        assert build(kind, x, a, d) == BuildRandomizerQuestion(env, x, tokens(d));
      }
    }
  }

  /**
   * One row of the second pass: an unrecognised type is skipped, a non-general one aborts with
   * 400, a general one is built, and a failed build aborts with 555 naming the row.
   */
  function RowStepOf(reg: Registry, build: RowBuilder, x: QuestionListData, a: nat, d: nat): RowStep {
    match reg.questionType(x.questionType)
    case None => Skip
    case Some(kind) =>
      if !reg.isGeneral(kind) then Abort(BadRequest)
      else
        match build(kind, x, a, d)
        case Err(e) => Abort(FailedResponse(StatusBuildFailed, BuildFailureMessage(x.questionId, e)))
        case Ok(y) => Emit(y)
  }

  /** The outcome of the second pass, with the generator requests it made. */
  datatype Outcome = Outcome(result: Result<seq<QuestionListData>, FailedResponse>, asked: seq<string>)

  /**
   * The second pass of `GetQuestionByForm` over the rendered rows, with `a` generator requests and
   * `d` random draws already made: rows are handled in order and the first abort ends the pass.
   */
  function Assemble(reg: Registry, build: RowBuilder, rows: seq<QuestionListData>, a: nat, d: nat): Outcome
    decreases |rows|
  {
    if rows == [] then Outcome(Ok([]), [])
    else
      var x := rows[0];
      var asks, draws := RowAsks(reg, x), RowDraws(reg, x);
      match RowStepOf(reg, build, x, a, d)
      case Skip => Assemble(reg, build, rows[1..], a, d)
      case Abort(f) => Outcome(Err(f), asks)
      case Emit(y) =>
        var rest := Assemble(reg, build, rows[1..], a + |asks|, d + draws);
        Outcome(if rest.result.Ok? then Ok([y] + rest.result.value) else rest.result, asks + rest.asked)
  }

  /** The rows the second pass classifies (unrecognised types are skipped), in order. */
  function Recognised(reg: Registry, rows: seq<QuestionListData>): seq<QuestionListData> {
    if rows == [] then []
    else (if reg.questionType(rows[0].questionType).Some? then [rows[0]] else []) + Recognised(reg, rows[1..])
  }

  /**
   * The emitted row `y` stands for the rendered row `x`: same question, type and layout; only
   * generated kinds change their attributes, so every other row is emitted as it is.
   */
  predicate Rewrites(reg: Registry, x: QuestionListData, y: QuestionListData) {
    && SameRow(x, y)
    && ((reg.questionType(x.questionType) != Some(QuestionCodeCounting)
         && reg.questionType(x.questionType) != Some(QuestionRandomizer)) ==> y.attributes == x.attributes)
  }

  /** `ys` is `xs` row by row rewritten. */
  predicate RewritesAll(reg: Registry, xs: seq<QuestionListData>, ys: seq<QuestionListData>) {
    |xs| == |ys| && forall k :: 0 <= k < |xs| ==> Rewrites(reg, xs[k], ys[k])
  }

  predicate AllUpper(rows: seq<QuestionListData>) {
    forall i :: 0 <= i < |rows| ==> GoText.IsUpper(rows[i].questionType)
  }

  /** One step of the second pass, as seen from its first row. */
  lemma AssembleHead(reg: Registry, build: RowBuilder, rows: seq<QuestionListData>, a: nat, d: nat)
    requires rows != []
    ensures var o := Assemble(reg, build, rows, a, d);
            var x := rows[0];
            var ro := Assemble(reg, build, rows[1..], a + |RowAsks(reg, x)|, d + RowDraws(reg, x));
            && (reg.questionType(x.questionType).None? ==> o == ro)
            && (o.result.Ok? && reg.questionType(x.questionType).Some? ==>
                  && reg.isGeneral(reg.questionType(x.questionType).value)
                  && ro.result.Ok?
                  && |o.result.value| == 1 + |ro.result.value|
                  && o.result.value[1..] == ro.result.value
                  && RowStepOf(reg, build, x, a, d) == Emit(o.result.value[0]))
  {
  }

  /** An emitted row is a rewrite of its input row, provided the input type is already upper case. */
  lemma EmitRewrites(reg: Registry, build: RowBuilder, x: QuestionListData, a: nat, d: nat, y: QuestionListData)
    requires Faithful(build)
    requires GoText.IsUpper(x.questionType)
    requires RowStepOf(reg, build, x, a, d) == Emit(y)
    ensures Rewrites(reg, x, y)
  {    if reg.questionType(x.questionType).Some? {
      assert FaithfulAt(build, reg.questionType(x.questionType).value, x, a, d);
    }
  }

  /** An aborting row is either of a recognised non-general kind (400) or a generated kind whose build failed (555). */
  lemma AbortCause(reg: Registry, build: RowBuilder, x: QuestionListData, a: nat, d: nat, f: FailedResponse)
    requires Faithful(build)
    requires RowStepOf(reg, build, x, a, d) == Abort(f)
    ensures || (f == BadRequest && reg.questionType(x.questionType).Some?
                && !reg.isGeneral(reg.questionType(x.questionType).value))
            || ((reg.questionType(x.questionType) == Some(QuestionCodeCounting)
                 || reg.questionType(x.questionType) == Some(QuestionRandomizer))
                && exists e :: f == FailedResponse(StatusBuildFailed, BuildFailureMessage(x.questionId, e)))
  {    if reg.questionType(x.questionType).Some? {
      assert FaithfulAt(build, reg.questionType(x.questionType).value, x, a, d);
    }
  }

  /** When the second pass succeeds, every recognised row was of a general kind. */
  lemma {:induction false} AssembleOkGeneral(reg: Registry, build: RowBuilder, rows: seq<QuestionListData>, a: nat, d: nat)
    ensures Assemble(reg, build, rows, a, d).result.Ok? ==>
              forall i :: 0 <= i < |rows| && reg.questionType(rows[i].questionType).Some? ==>
                reg.isGeneral(reg.questionType(rows[i].questionType).value)
  {
    if rows != [] && Assemble(reg, build, rows, a, d).result.Ok? {
      var x := rows[0];
      var rest := rows[1..];
      AssembleHead(reg, build, rows, a, d);
      AssembleOkGeneral(reg, build, rest, a + |RowAsks(reg, x)|, d + RowDraws(reg, x));
      forall i | 0 <= i < |rows| && reg.questionType(rows[i].questionType).Some?
        ensures reg.isGeneral(reg.questionType(rows[i].questionType).value)
      {
        if i > 0 {
          assert rows[i] == rest[i - 1];
        }
      }
    }
  }

  /** When the second pass succeeds, it emits one rewritten row per recognised row, in order. */
  lemma {:induction false} AssembleOkRewrites(reg: Registry, build: RowBuilder, rows: seq<QuestionListData>, a: nat, d: nat)
    requires Faithful(build)
    requires AllUpper(rows)
    ensures var o := Assemble(reg, build, rows, a, d);
            var kept := Recognised(reg, rows);
            o.result.Ok? ==> RewritesAll(reg, kept, o.result.value)
  {
    var o := Assemble(reg, build, rows, a, d);
    var kept := Recognised(reg, rows);
    if rows != [] && o.result.Ok? {
      var x := rows[0];
      var rest := rows[1..];
      var a', d' := a + |RowAsks(reg, x)|, d + RowDraws(reg, x);
      var ro := Assemble(reg, build, rest, a', d');
      assert AllUpper(rest) by {
        assert forall i :: 0 <= i < |rest| ==> rest[i] == rows[i + 1];
      }
      AssembleOkRewrites(reg, build, rest, a', d');
      if reg.questionType(x.questionType).Some? {
        RecognisedHeadRewrites(reg, build, rows, a, d);
      } else {
        assert o == ro && kept == Recognised(reg, rest) by {
          AssembleHead(reg, build, rows, a, d);
        }
      }
    }
  }

  /** The step of `AssembleOkRewrites` for a recognised first row, given the claim for the rest. */
  lemma RecognisedHeadRewrites(reg: Registry, build: RowBuilder, rows: seq<QuestionListData>, a: nat, d: nat)
    requires Faithful(build) && rows != [] && GoText.IsUpper(rows[0].questionType)
    requires reg.questionType(rows[0].questionType).Some?
    requires var ro := Assemble(reg, build, rows[1..], a + |RowAsks(reg, rows[0])|, d + RowDraws(reg, rows[0]));
             ro.result.Ok? ==> RewritesAll(reg, Recognised(reg, rows[1..]), ro.result.value)
    ensures var o := Assemble(reg, build, rows, a, d);
            var kept := Recognised(reg, rows);
            o.result.Ok? ==> RewritesAll(reg, kept, o.result.value)
  {
    var o := Assemble(reg, build, rows, a, d);
    var x := rows[0];
    var step := RowStepOf(reg, build, x, a, d);
    EmitHead(reg, build, rows, a, d);
    if o.result.Ok? {
      var ro := Assemble(reg, build, rows[1..], a + |RowAsks(reg, x)|, d + RowDraws(reg, x));
      EmitRewrites(reg, build, x, a, d, step.item);
      RewritesCons(reg, x, step.item, Recognised(reg, rows[1..]), ro.result.value, Recognised(reg, rows), o.result.value);
    }
  }

  /** A successful pass whose first row is recognised emits that row's result ahead of the rest. */
  lemma EmitHead(reg: Registry, build: RowBuilder, rows: seq<QuestionListData>, a: nat, d: nat)
    requires rows != [] && reg.questionType(rows[0].questionType).Some?
    ensures var x := rows[0];
            var step := RowStepOf(reg, build, x, a, d);
            var o := Assemble(reg, build, rows, a, d);
            var ro := Assemble(reg, build, rows[1..], a + |RowAsks(reg, x)|, d + RowDraws(reg, x));
            && Recognised(reg, rows) == [x] + Recognised(reg, rows[1..])
            && (o.result.Ok? ==> step.Emit? && ro.result.Ok? && o.result.value == [step.item] + ro.result.value)
  {
  }

  /**
   * A failed second pass names its cause: a recognised non-general type (400), or a
   * code-counting or randomizer row whose build failed (555, naming that row).
   */
  lemma {:induction false} AssembleFailure(reg: Registry, build: RowBuilder, rows: seq<QuestionListData>, a: nat, d: nat)
    requires Faithful(build)
    ensures var o := Assemble(reg, build, rows, a, d);
            o.result.Err? ==>
              || (o.result.error == BadRequest
                  && exists i :: 0 <= i < |rows| && reg.questionType(rows[i].questionType).Some?
                                 && !reg.isGeneral(reg.questionType(rows[i].questionType).value))
              || (exists i, e :: 0 <= i < |rows|
                    && (reg.questionType(rows[i].questionType) == Some(QuestionCodeCounting)
                        || reg.questionType(rows[i].questionType) == Some(QuestionRandomizer))
                    && o.result.error == FailedResponse(StatusBuildFailed, BuildFailureMessage(rows[i].questionId, e)))
  {
    var o := Assemble(reg, build, rows, a, d);
    if rows != [] && o.result.Err? {
      var x := rows[0];
      var rest := rows[1..];
      var a', d' := a + |RowAsks(reg, x)|, d + RowDraws(reg, x);
      match RowStepOf(reg, build, x, a, d) {
        case Abort(f) =>
          AbortCause(reg, build, x, a, d, f);
        case _ =>
          AssembleFailure(reg, build, rest, a', d');
          assert o.result == Assemble(reg, build, rest, a', d').result;
          assert forall i :: 0 <= i < |rest| ==> rest[i] == rows[i + 1];
      }
    }
  }

  /**
   * Without code-counting or randomizer rows, the second pass succeeds exactly when every
   * recognised type is general, asks the generator nothing, and emits the recognised rows unchanged.
   */
  lemma {:induction false} AssemblePlain(reg: Registry, build: RowBuilder, rows: seq<QuestionListData>, a: nat, d: nat)
    requires Faithful(build)
    requires forall i :: 0 <= i < |rows| ==> reg.questionType(rows[i].questionType) != Some(QuestionCodeCounting)
                                             && reg.questionType(rows[i].questionType) != Some(QuestionRandomizer)
    ensures var o := Assemble(reg, build, rows, a, d);
            && o.asked == []
            && (o.result.Ok? <==> forall i :: 0 <= i < |rows| && reg.questionType(rows[i].questionType).Some? ==>
                                               reg.isGeneral(reg.questionType(rows[i].questionType).value))
            && (o.result.Err? ==> o.result.error == BadRequest)
            && (o.result.Ok? ==> o.result.value == Recognised(reg, rows))
  {
    if rows != [] {
      var rest := rows[1..];
      assert forall i :: 0 <= i < |rest| ==> rest[i] == rows[i + 1];
      AssemblePlain(reg, build, rest, a, d);
      if reg.questionType(rows[0].questionType).Some? {
        assert FaithfulAt(build, reg.questionType(rows[0].questionType).value, rows[0], a, d);
      }
      var o := Assemble(reg, build, rows, a, d);
      if !(o.result.Ok?) {
        assert forall i :: 1 <= i < |rows| ==> rows[i] == rest[i - 1];
      }
    }
  }

  /** The second pass unfolded once, by what happens to its first row. */
  lemma AssembleStep(reg: Registry, build: RowBuilder, rows: seq<QuestionListData>, a: nat, d: nat)
    requires rows != []
    ensures var x := rows[0];
            var o := Assemble(reg, build, rows, a, d);
            var ro := Assemble(reg, build, rows[1..], a + |RowAsks(reg, x)|, d + RowDraws(reg, x));
            match RowStepOf(reg, build, x, a, d)
            case Skip => o == ro && RowAsks(reg, x) == [] && RowDraws(reg, x) == 0
            case Abort(f) => o.result == Err(f) && o.asked == RowAsks(reg, x)
            case Emit(y) =>
              && o.result == (if ro.result.Ok? then Ok([y] + ro.result.value) else ro.result)
              && o.asked == RowAsks(reg, x) + ro.asked
  {
  }

  /** Two sequences related pointwise stay so when each gains a related head. */
  lemma RewritesCons(reg: Registry, x: QuestionListData, y: QuestionListData, xs: seq<QuestionListData>, ys: seq<QuestionListData>,
                     kept: seq<QuestionListData>, out: seq<QuestionListData>)
    requires kept == [x] + xs && out == [y] + ys
    requires Rewrites(reg, x, y) && RewritesAll(reg, xs, ys)
    ensures RewritesAll(reg, kept, out)
  {
    forall k | 0 <= k < |kept|
      ensures Rewrites(reg, kept[k], out[k])
    {
      if k > 0 {
        assert kept[k] == xs[k - 1] && out[k] == ys[k - 1];
      }
    }
  }

  /**
   * The second pass as the loop runs it: `acc` holds the rows emitted so far and `asks` the
   * generator requests made so far.
   */
  function Run(reg: Registry, build: RowBuilder, rows: seq<QuestionListData>,
               acc: seq<QuestionListData>, asks: seq<string>, a: nat, d: nat): Outcome
    decreases |rows|
  {
    if rows == [] then Outcome(Ok(acc), asks)
    else
      var x := rows[0];
      match RowStepOf(reg, build, x, a, d)
      case Skip => Run(reg, build, rows[1..], acc, asks, a, d)
      case Abort(f) => Outcome(Err(f), asks + RowAsks(reg, x))
      case Emit(y) =>
        Run(reg, build, rows[1..], acc + [y], asks + RowAsks(reg, x), a + |RowAsks(reg, x)|, d + RowDraws(reg, x))
  }

  /** The loop's accumulating form agrees with the second pass, with what was accumulated in front. */
  lemma {:induction false} RunAssemble(reg: Registry, build: RowBuilder, rows: seq<QuestionListData>,
                                       acc: seq<QuestionListData>, asks: seq<string>, a: nat, d: nat)
    ensures var o := Assemble(reg, build, rows, a, d);
            Run(reg, build, rows, acc, asks, a, d)
            == Outcome(if o.result.Ok? then Ok(acc + o.result.value) else o.result, asks + o.asked)
  {
    var o := Assemble(reg, build, rows, a, d);
    if rows == [] {
      assert acc + [] == acc && asks + [] == asks;
    } else {
      var x := rows[0];
      var a', d' := a + |RowAsks(reg, x)|, d + RowDraws(reg, x);
      var ro := Assemble(reg, build, rows[1..], a', d');
      match RowStepOf(reg, build, x, a, d) {
        case Skip =>
          RunAssemble(reg, build, rows[1..], acc, asks, a, d);
        case Abort(f) =>
        case Emit(y) =>
          RunAssemble(reg, build, rows[1..], acc + [y], asks + RowAsks(reg, x), a', d');
          assert (asks + RowAsks(reg, x)) + ro.asked == asks + (RowAsks(reg, x) + ro.asked);
          if ro.result.Ok? {
            assert (acc + [y]) + ro.result.value == acc + ([y] + ro.result.value);
          }
      }
    }
  }

  /** The second-pass work on one row: at most one generator call. */
  method ClassifyRow(env: Env, gen: CodeGenerator, tokens: nat -> string, x: QuestionListData, d: nat) returns (step: RowStep)
    modifies gen
    ensures gen.asked == old(gen.asked) + RowAsks(env.reg, x)
    ensures step == RowStepOf(env.reg, Builder(env, gen.respond, tokens), x, |old(gen.asked)|, d)
  {
    var kind := env.reg.questionType(x.questionType);
    if kind.None? {
      return Skip;
    }
    if !env.reg.isGeneral(kind.value) {
      return Abort(BadRequest);
    }
    var built: Result<QuestionListData, string>;
    if kind.value == QuestionCodeCounting {
      built := BuildCodeCountingQuestion(env, gen, x);
    } else if kind.value == QuestionRandomizer {
      built := BuildRandomizerQuestion(env, x, tokens(d));
    } else {
      built := Ok(x);
    }
    if built.Err? {
      return Abort(FailedResponse(StatusBuildFailed, BuildFailureMessage(x.questionId, built.error)));
    }
    step := Emit(built.value);
  }

  /** One turn of the second-pass loop: classify the next row and fold it into what was emitted so far. */
  method AdvanceRow(env: Env, gen: CodeGenerator, tokens: nat -> string, rows: seq<QuestionListData>,
                    result: seq<QuestionListData>, ghost asks: seq<string>, draws: nat)
    returns (stop: Option<FailedResponse>, result': seq<QuestionListData>, ghost asks': seq<string>, draws': nat)
    requires rows != []
    modifies gen
    ensures gen.asked == old(gen.asked) + RowAsks(env.reg, rows[0])
    ensures var build := Builder(env, gen.respond, tokens);
            var run := Run(env.reg, build, rows, result, asks, |old(gen.asked)|, draws);
            && asks' == asks + RowAsks(env.reg, rows[0])
            && (stop.Some? ==> run == Outcome(Err(stop.value), asks'))
            && (stop.None? ==> run == Run(env.reg, build, rows[1..], result', asks', |gen.asked|, draws'))
  {
    ghost var build := Builder(env, gen.respond, tokens);
    ghost var a := |gen.asked|;
    var x := rows[0];
    var step := ClassifyRow(env, gen, tokens, x, draws);
    assert Run(env.reg, build, rows, result, asks, a, draws)
           == match RowStepOf(env.reg, build, x, a, draws)
              case Skip => Run(env.reg, build, rows[1..], result, asks, a, draws)
              case Abort(f) => Outcome(Err(f), asks + RowAsks(env.reg, x))
              case Emit(y) =>
                Run(env.reg, build, rows[1..], result + [y], asks + RowAsks(env.reg, x), a + |RowAsks(env.reg, x)|, draws + RowDraws(env.reg, x));
    match step {
      case Skip =>
        stop, result', asks', draws' := None, result, asks, draws;
      case Abort(f) =>
        stop, result', asks', draws' := Some(f), result, asks + RowAsks(env.reg, x), draws;
      case Emit(y) =>
        stop, result', asks', draws' := None, result + [y], asks + RowAsks(env.reg, x), draws + RowDraws(env.reg, x);
    }
  }

  /** The second-pass loop: classify each rendered row, stop at the first abort. */
  method AssembleAll(env: Env, gen: CodeGenerator, tokens: nat -> string, raw: seq<QuestionListData>)
    returns (r: Result<seq<QuestionListData>, FailedResponse>)
    modifies gen
    ensures var o := Assemble(env.reg, Builder(env, gen.respond, tokens), raw, |old(gen.asked)|, 0);
            gen.asked == old(gen.asked) + o.asked && r == o.result
  {
    ghost var asked0 := gen.asked;
    ghost var build := Builder(env, gen.respond, tokens);
    ghost var whole := Run(env.reg, build, raw, [], [], |asked0|, 0);
    RunAssemble(env.reg, build, raw, [], [], |asked0|, 0);
    ghost var o := Assemble(env.reg, build, raw, |asked0|, 0);
    assert o.result.Ok? ==> [] + o.result.value == o.result.value;
    assert [] + o.asked == o.asked;
    ghost var asks: seq<string> := [];
    var result: seq<QuestionListData> := [];
    var draws: nat := 0;
    var i := 0;
    assert raw[0..] == raw && asked0 + asks == asked0;
    while i < |raw|
      invariant 0 <= i <= |raw|
      invariant gen.asked == asked0 + asks
      invariant whole == Run(env.reg, build, raw[i..], result, asks, |gen.asked|, draws)
    {
      assert raw[i..][1..] == raw[i + 1..];
      var stop;
      stop, result, asks, draws := AdvanceRow(env, gen, tokens, raw[i..], result, asks, draws);
      if stop.Some? {
        return Err(stop.value);
      }
      i := i + 1;
    }
    r := Ok(result);
  }

  /**
   * `GetQuestionByForm`: a storage failure is a 400; otherwise the first pass drops undecodable
   * and send-notification rows and the second pass classifies and rewrites the rest, aborting
   * with the first failure. The response carries the form's password and name.
   */
  method GetQuestionByForm(env: Env, store: QuestionStore, query: FormQueryOutcome, gen: CodeGenerator, tokens: nat -> string, form: Form)
    returns (r: Result<QuestionListResponse, FailedResponse>)
    modifies gen
    ensures query != Completes ==> r == Err(BadRequest) && gen.asked == old(gen.asked)
    ensures query == Completes ==>
              var raw := Render(env, Some(env.reg.stringValue(QuestionSendNotification)), FormRows(store.rows, store.links, form.id));
              var o := Assemble(env.reg, Builder(env, gen.respond, tokens), raw, |old(gen.asked)|, 0);
              && gen.asked == old(gen.asked) + o.asked
              && r == (match o.result
                       case Ok(items) => Ok(QuestionListResponse(items, form.password, form.name))
                       case Err(f) => Err(f))
  {
    var rows := store.GetQuestionsByFormId(form.id, query);
    if rows.Err? {
      return Err(BadRequest);
    }
    var raw := RenderAll(env, Some(env.reg.stringValue(QuestionSendNotification)), rows.value);
    var items := AssembleAll(env, gen, tokens, raw);
    if items.Err? {
      return Err(items.error);
    }
    r := Ok(QuestionListResponse(items.value, form.password, form.name));
  }

  // ---------------------------------------------------------------------------
  // The lenient variant

  /** The rows of recognised general kinds, in order. */
  function GeneralOnly(reg: Registry, rows: seq<QuestionListData>): seq<QuestionListData> {
    if rows == [] then []
    else
      var init := GeneralOnly(reg, rows[..|rows| - 1]);
      var x := rows[|rows| - 1];
      if reg.questionType(x.questionType).Some? && reg.isGeneral(reg.questionType(x.questionType).value)
      then init + [x] else init
  }

  lemma {:induction false} GeneralOnlyMembers(reg: Registry, rows: seq<QuestionListData>)
    ensures forall x :: x in GeneralOnly(reg, rows) <==>
              x in rows && reg.questionType(x.questionType).Some? && reg.isGeneral(reg.questionType(x.questionType).value)
  {
    if rows != [] {
      GeneralOnlyMembers(reg, rows[..|rows| - 1]);
      assert rows == rows[..|rows| - 1] + [rows[|rows| - 1]];
    }
  }

  /**
   * `GetQuestionsByForm`: a storage failure gives no response; otherwise the rows that decode and
   * are of a recognised general kind, in order. Nothing aborts, no row is skipped by its tag, and
   * neither the generator nor the random source is used.
   */
  method GetQuestionsByForm(env: Env, store: QuestionStore, query: FormQueryOutcome, form: Form) returns (r: Option<QuestionListResponse>)
    ensures query != Completes ==> r == None
    ensures query == Completes ==>
              r == Some(QuestionListResponse(GeneralOnly(env.reg, Render(env, None, FormRows(store.rows, store.links, form.id))),
                                             form.password, form.name))
  {
    var rows := store.GetQuestionsByFormId(form.id, query);
    if rows.Err? {
      return None;
    }
    var raw := RenderAll(env, None, rows.value);
    var result: seq<QuestionListData> := [];
    var i := 0;
    while i < |raw|
      invariant 0 <= i <= |raw|
      invariant result == GeneralOnly(env.reg, raw[..i])
    {
      assert raw[..i + 1][..i] == raw[..i];
      var kind := env.reg.questionType(raw[i].questionType);
      if kind.Some? && env.reg.isGeneral(kind.value) {
        result := result + [raw[i]];
      }
      i := i + 1;
    }
    assert raw[..i] == raw;
    r := Some(QuestionListResponse(result, form.password, form.name));
  }
}
