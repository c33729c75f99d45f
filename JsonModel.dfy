/**
 * What `encoding/json.Unmarshal` does when the target is a Go struct.
 *
 * Turning text into a JSON tree is left to an oracle, `parse`, supplied by the caller:
 * it yields `None` exactly when the text is not valid JSON. Everything after that is modelled
 * here: which trees a struct type accepts (`Compatible`) and the value the decoder then
 * builds (`Decode`). A decode fails when the text is not JSON or when a present field holds
 * a JSON value of the wrong kind; missing and unknown keys are accepted.
 */
module JsonModel {
  import opened Wrappers
  import GoText

  /** A JSON document. Numbers keep their literal text; object members keep their order and duplicates. */
  datatype Json =
    | JNull
    | JBool(b: bool)
    | JNumber(literal: string)
    | JString(s: string)
    | JArray(items: seq<Json>)
    | JObject(members: seq<Member>)

  datatype Member = Member(key: string, value: Json)

  /** The Go types a decode target is built from: `string`, `int`, `bool`, slices and structs. */
  datatype Schema =
    | SString
    | SInt
    | SBool
    | SList(elem: Schema)
    | SStruct(fields: seq<Field>)

  /** A struct field and the JSON key it answers to (its `json:"..."` tag). */
  datatype Field = Field(name: string, schema: Schema)

  /** A decoded Go value. */
  datatype GoValue =
    | GString(s: string)
    | GInt(i: int)
    | GBool(b: bool)
    | GList(items: seq<GoValue>)
    | GStruct(fields: seq<GoValue>)

  /** Why `json.Unmarshal` failed. */
  datatype JsonError = SyntaxError | TypeMismatch

  // ---------------------------------------------------------------------------
  // Key matching

  function FirstExact(fields: seq<Field>, key: string): (r: Option<nat>)
    ensures r.Some? ==> r.value < |fields| && fields[r.value].name == key
    ensures r.Some? ==> forall i :: 0 <= i < r.value ==> fields[i].name != key
    ensures r.None? ==> forall i :: 0 <= i < |fields| ==> fields[i].name != key
  {
    if fields == [] then None
    else if fields[0].name == key then Some(0)
    else match FirstExact(fields[1..], key)
      case Some(i) => Some(i + 1)
      case None => None
  }

  function FirstFolded(fields: seq<Field>, key: string): (r: Option<nat>)
    ensures r.Some? ==> r.value < |fields| && GoText.ToLower(fields[r.value].name) == GoText.ToLower(key)
    ensures r.Some? ==> forall i :: 0 <= i < r.value ==> GoText.ToLower(fields[i].name) != GoText.ToLower(key)
    ensures r.None? ==> forall i :: 0 <= i < |fields| ==> GoText.ToLower(fields[i].name) != GoText.ToLower(key)
  {
    if fields == [] then None
    else if GoText.ToLower(fields[0].name) == GoText.ToLower(key) then Some(0)
    else match FirstFolded(fields[1..], key)
      case Some(i) => Some(i + 1)
      case None => None
  }

  /**
   * The field a JSON key lands in: the field with exactly that name, otherwise the first
   * whose name equals the key up to case. A key matching no field is ignored.
   */
  function FieldIndex(fields: seq<Field>, key: string): (r: Option<nat>)
    ensures r.Some? ==> r.value < |fields|
  {
    match FirstExact(fields, key)
    case Some(i) => Some(i)
    case None => FirstFolded(fields, key)
  }

  /**
   * The matching rule: the key lands in the first field with exactly its name; failing that, in
   * the first field whose name equals it up to ASCII case; failing that, nowhere.
   */
  lemma FieldIndexSpec(fields: seq<Field>, key: string)
    ensures var r := FieldIndex(fields, key);
            && (r.Some? ==> r.value < |fields| && GoText.ToLower(fields[r.value].name) == GoText.ToLower(key))
            && ((exists i :: 0 <= i < |fields| && fields[i].name == key) ==>
                  && r.Some? && fields[r.value].name == key
                  && forall i :: 0 <= i < r.value ==> fields[i].name != key)
            && ((forall i :: 0 <= i < |fields| ==> fields[i].name != key) && r.Some? ==>
                  forall i :: 0 <= i < r.value ==> GoText.ToLower(fields[i].name) != GoText.ToLower(key))
            && (r.None? <==> forall i :: 0 <= i < |fields| ==> GoText.ToLower(fields[i].name) != GoText.ToLower(key))
  {
  }

  // ---------------------------------------------------------------------------
  // Which documents decode without error

  /**
   * True when decoding `j` into a value of type `s` reports no error. `null` is accepted
   * everywhere; a struct accepts any object whose members that match a field are accepted by
   * that field; an `int` accepts a number literal that `strconv.ParseInt(_, 10, 64)` reads.
   */
  predicate Compatible(s: Schema, j: Json)
    decreases j
  {
    match j
    case JNull => true
    case JBool(_) => s.SBool?
    case JNumber(lit) => s.SInt? && GoText.ParseInt(lit).Some?
    case JString(_) => s.SString?
    case JArray(items) =>
      s.SList? && forall i :: 0 <= i < |items| ==> Compatible(s.elem, items[i])
    case JObject(ms) =>
      s.SStruct? && forall i :: 0 <= i < |ms| ==> MemberCompatible(s.fields, ms[i], j)
  }

  predicate MemberCompatible(fields: seq<Field>, m: Member, ghost whole: Json)
    requires m < whole
    decreases whole, 0
  {
    match FieldIndex(fields, m.key)
    case None => true
    case Some(k) => Compatible(fields[k].schema, m.value)
  }

  // ---------------------------------------------------------------------------
  // What a successful decode builds

  /** The zero value of a Go type: what `var att T` holds before decoding. */
  function Zero(s: Schema): (g: GoValue)
    ensures s.SStruct? ==> g.GStruct? && |g.fields| == |s.fields|
  {
    match s
    case SString => GString("")
    case SInt => GInt(0)
    case SBool => GBool(false)
    case SList(_) => GList([])
    case SStruct(fields) => GStruct(seq(|fields|, i requires 0 <= i < |fields| => Zero(fields[i].schema)))
  }

  /**
   * Decodes `j` into the existing value `cur` of type `s`: `null` resets a slice to its zero
   * (nil) value and leaves a scalar or a struct alone, a scalar replaces it, an array builds a fresh slice, and an object updates the matched fields of `cur`
   * member by member, so that a repeated key is decoded again on top of the earlier result.
   */
  function DecodeInto(s: Schema, cur: GoValue, j: Json): GoValue
    decreases j, 1
  {
    match j
    case JNull => if s.SList? then GList([]) else cur
    case JBool(b) => if s.SBool? then GBool(b) else cur
    case JNumber(lit) =>
      if s.SInt? && GoText.ParseInt(lit).Some? then GInt(GoText.ParseInt(lit).value) else cur
    case JString(x) => if s.SString? then GString(x) else cur
    case JArray(items) =>
      if s.SList? then GList(DecodeItems(s.elem, items, j)) else cur
    case JObject(ms) =>
      if s.SStruct? && cur.GStruct? && |cur.fields| == |s.fields|
      then GStruct(DecodeMembers(s.fields, cur.fields, ms, j))
      else cur
  }

  function DecodeItems(elem: Schema, items: seq<Json>, ghost whole: Json): (r: seq<GoValue>)
    requires forall i :: 0 <= i < |items| ==> items[i] < whole
    ensures |r| == |items|
    decreases whole, 0, |items|
  {
    if items == [] then []
    else DecodeItems(elem, items[..|items| - 1], whole) + [DecodeInto(elem, Zero(elem), items[|items| - 1])]
  }

  function DecodeMembers(fields: seq<Field>, cur: seq<GoValue>, ms: seq<Member>, ghost whole: Json): (r: seq<GoValue>)
    requires |cur| == |fields|
    requires forall i :: 0 <= i < |ms| ==> ms[i].value < whole
    ensures |r| == |fields|
    decreases whole, 0, |ms|
  {
    if ms == [] then cur
    else
      var before := DecodeMembers(fields, cur, ms[..|ms| - 1], whole);
      var m := ms[|ms| - 1];
      match FieldIndex(fields, m.key)
      case None => before
      case Some(k) => before[k := DecodeInto(fields[k].schema, before[k], m.value)]
  }

  /** The value a successful decode into a fresh `T` produces. */
  function Decode(s: Schema, j: Json): GoValue {
    DecodeInto(s, Zero(s), j)
  }

  /** `json.Unmarshal(text, &v)` for a fresh `v` of type `s`. */
  function Unmarshal(parse: string -> Option<Json>, s: Schema, text: string): (r: Result<GoValue, JsonError>)
    ensures r.Ok? <==> parse(text).Some? && Compatible(s, parse(text).value)
    ensures r.Ok? ==> r.value == Decode(s, parse(text).value)
    ensures r == Err(SyntaxError) <==> parse(text).None?
  {
    match parse(text)
    case None => Err(SyntaxError)
    case Some(j) => if Compatible(s, j) then Ok(Decode(s, j)) else Err(TypeMismatch)
  }

  // ---------------------------------------------------------------------------
  // Reading a string field back

  /** The string held by the field answering to `key` (the empty string when there is none). */
  function StringField(s: Schema, g: GoValue, key: string): string {
    if s.SStruct? && g.GStruct? then
      match FirstExact(s.fields, key)
      case Some(k) => if k < |g.fields| && g.fields[k].GString? then g.fields[k].s else ""
      case None => ""
    else ""
  }

  /** A struct whose field answering exactly to `key` is a `string`. */
  predicate HasStringField(s: Schema, key: string) {
    s.SStruct? && FirstExact(s.fields, key).Some? && s.fields[FirstExact(s.fields, key).value].schema == SString
  }

  // ---------------------------------------------------------------------------
  // Properties of the decoder

  /** A struct accepts an object none of whose keys names a field: unknown keys are ignored. */
  lemma {:induction false} UnknownKeysIgnored(fields: seq<Field>, ms: seq<Member>)
    requires forall i, k :: 0 <= i < |ms| && 0 <= k < |fields| ==>
               GoText.ToLower(fields[k].name) != GoText.ToLower(ms[i].key)
    ensures Compatible(SStruct(fields), JObject(ms))
  {
    var j := JObject(ms);
    forall i | 0 <= i < |ms| ensures MemberCompatible(fields, ms[i], j) {
      assert FieldIndex(fields, ms[i].key).None?;
    }
  }

  /** A struct accepts an object that lacks some or all of its fields; `{}` and `null` decode to zero. */
  lemma MissingKeysAccepted(fields: seq<Field>)
    ensures Compatible(SStruct(fields), JObject([]))
    ensures Decode(SStruct(fields), JObject([])) == Zero(SStruct(fields))
    ensures Decode(SStruct(fields), JNull) == Zero(SStruct(fields))
  {
  }

  /** A present field holding a JSON value of the wrong kind makes the whole decode fail. */
  lemma {:induction false} WrongKindRejected(fields: seq<Field>, ms: seq<Member>, i: nat, k: nat)
    requires i < |ms| && k < |fields|
    requires fields[k].name == ms[i].key
    requires forall k' :: 0 <= k' < k ==> fields[k'].name != ms[i].key
    requires !Compatible(fields[k].schema, ms[i].value)
    ensures !Compatible(SStruct(fields), JObject(ms))
  {
    var r := FirstExact(fields, ms[i].key);
    assert r.Some? && r.value == k by {
      FirstExactIsFirst(fields, ms[i].key, k);
    }
    assert !MemberCompatible(fields, ms[i], JObject(ms));
  }

  /**
   * A later `null` member resets a slice field that an earlier member filled, while a `null`
   * member leaves a string field as an earlier member set it.
   */
  lemma {:induction false} NullResetsList(name: string, tag: string, x: string)
    ensures var s := SStruct([Field(name, SList(SString)), Field(tag, SString)]);
            var filled := Member(name, JArray([JString(x)]));
            Decode(s, JObject([filled, Member(name, JNull)])).fields[0] == GList([])
    ensures var s := SStruct([Field(tag, SString)]);
            Decode(s, JObject([Member(tag, JString(x)), Member(tag, JNull)])).fields[0] == GString(x)
  {
    var s := SStruct([Field(name, SList(SString)), Field(tag, SString)]);
    var ms := [Member(name, JArray([JString(x)])), Member(name, JNull)];
    var j := JObject(ms);
    assert FieldIndex(s.fields, name) == Some(0);
    assert ms[..1][..0] == [] && ms[..1] == [ms[0]];
    var first := DecodeMembers(s.fields, Zero(s).fields, ms[..1], j);
    assert DecodeMembers(s.fields, Zero(s).fields, ms, j) == first[0 := GList([])];
    var t := SStruct([Field(tag, SString)]);
    var ns := [Member(tag, JString(x)), Member(tag, JNull)];
    assert FieldIndex(t.fields, tag) == Some(0);
    assert ns[..1][..0] == [] && ns[..1] == [ns[0]];
    assert Zero(t).fields == [GString("")];
    assert DecodeMembers(t.fields, Zero(t).fields, [], JObject(ns)) == [GString("")];
    var once := DecodeMembers(t.fields, Zero(t).fields, ns[..1], JObject(ns));
    assert ns[..1][..0] == [] && ns[..1][0] == Member(tag, JString(x));
    assert once == [GString("")][0 := DecodeInto(SString, GString(""), JString(x))];
    assert DecodeMembers(t.fields, Zero(t).fields, ns, JObject(ns)) == once;
  }

  lemma {:induction false} FirstExactIsFirst(fields: seq<Field>, key: string, k: nat)
    requires k < |fields| && fields[k].name == key
    requires forall k' :: 0 <= k' < k ==> fields[k'].name != key
    ensures FirstExact(fields, key) == Some(k)
  {
    if k > 0 {
      FirstExactIsFirst(fields[1..], key, k - 1);
    }
  }

  /**
   * Decoding the one-member document `{"<key>": "<v>"}` into a struct with a string field `key`
   * gives the zero struct with only that field set: every other field is cleared.
   */
  lemma {:induction false} DecodeSingleString(s: Schema, key: string, v: string)
    requires HasStringField(s, key)
    ensures Compatible(s, JObject([Member(key, JString(v))]))
    ensures StringField(s, Decode(s, JObject([Member(key, JString(v))])), key) == v
    ensures var k := FirstExact(s.fields, key).value;
            Decode(s, JObject([Member(key, JString(v))])) == Zero(s).(fields := Zero(s).fields[k := GString(v)])
  {
    var ms := [Member(key, JString(v))];
    var j := JObject(ms);
    var k := FirstExact(s.fields, key).value;
    assert ms[0] < j;
    assert MemberCompatible(s.fields, ms[0], j);
    var z := Zero(s);
    assert ms[..0] == [];
    assert DecodeMembers(s.fields, z.fields, ms, j) == z.fields[k := GString(v)];
  }

  // ---------------------------------------------------------------------------
  // Flat structs: a reference reading of the decoder

  /** A struct all of whose fields are `string`, `int` or `bool`. */
  predicate Flat(fields: seq<Field>) {
    forall k :: 0 <= k < |fields| ==> fields[k].schema in {SString, SInt, SBool}
  }

  /** A member value a scalar field takes: `null`, or a JSON value of the field's own kind. */
  predicate FitsScalar(s: Schema, v: Json) {
    || v.JNull?
    || (s == SString && v.JString?)
    || (s == SBool && v.JBool?)
    || (s == SInt && v.JNumber? && GoText.ParseInt(v.literal).Some?)
  }

  /** The Go value a non-null JSON scalar stands for. */
  function ScalarOf(v: Json): GoValue
    requires v.JString? || v.JBool? || (v.JNumber? && GoText.ParseInt(v.literal).Some?)
  {
    match v
    case JString(x) => GString(x)
    case JBool(b) => GBool(b)
    case JNumber(lit) => GInt(GoText.ParseInt(lit).value)
  }

  /** The member lands in field `k`. */
  predicate LandsIn(fields: seq<Field>, m: Member, k: nat) {
    FieldIndex(fields, m.key) == Some(k)
  }

  /** Every member landing in field `k` holds `null` (in particular, when none lands there). */
  predicate NeverSet(fields: seq<Field>, ms: seq<Member>, k: nat) {
    forall i :: 0 <= i < |ms| && LandsIn(fields, ms[i], k) ==> ms[i].value.JNull?
  }

  /** Member `i` is the last member landing in field `k` with a non-null value. */
  predicate LastSet(fields: seq<Field>, ms: seq<Member>, i: int, k: nat) {
    && 0 <= i < |ms| && LandsIn(fields, ms[i], k) && !ms[i].value.JNull?
    && forall i' :: i < i' < |ms| && LandsIn(fields, ms[i'], k) ==> ms[i'].value.JNull?
  }

  /**
   * Decoding an object into a flat struct: the decode succeeds exactly when every member that
   * lands in a field holds `null` or a value of that field's kind. The result then holds, in
   * each field, the value of the last non-null member landing there, and the zero value where
   * no such member exists. Keys that land nowhere, and `null` members, change nothing.
   */
  lemma UnmarshalFlat(parse: string -> Option<Json>, fields: seq<Field>, text: string, ms: seq<Member>)
    requires Flat(fields) && parse(text) == Some(JObject(ms))
    ensures var r := Unmarshal(parse, SStruct(fields), text);
            && (r.Ok? <==> forall i, k :: 0 <= i < |ms| && 0 <= k < |fields| && LandsIn(fields, ms[i], k) ==>
                              FitsScalar(fields[k].schema, ms[i].value))
            && (r.Ok? ==> r.value.GStruct? && |r.value.fields| == |fields|)
            && (r.Ok? ==> forall k :: 0 <= k < |fields| && NeverSet(fields, ms, k) ==>
                            r.value.fields[k] == Zero(fields[k].schema))
            && (r.Ok? ==> forall i, k :: 0 <= k < |fields| && LastSet(fields, ms, i, k) ==>
                            FitsScalar(fields[k].schema, ms[i].value) && r.value.fields[k] == ScalarOf(ms[i].value))
  {
    var j := JObject(ms);
    var s := SStruct(fields);
    forall i | 0 <= i < |ms|
      ensures MemberCompatible(fields, ms[i], j) <==>
              forall k :: 0 <= k < |fields| && LandsIn(fields, ms[i], k) ==> FitsScalar(fields[k].schema, ms[i].value)
    {
      var fi := FieldIndex(fields, ms[i].key);
      if fi.Some? {
        assert LandsIn(fields, ms[i], fi.value);
        ScalarCompatible(fields[fi.value].schema, ms[i].value);
      }
    }
    if Compatible(s, j) {
      var z := Zero(s);
      var out := DecodeMembers(fields, z.fields, ms, j);
      assert Decode(s, j) == GStruct(out);
      forall k | 0 <= k < |fields|
        ensures NeverSet(fields, ms, k) ==> out[k] == Zero(fields[k].schema)
        ensures forall i :: LastSet(fields, ms, i, k) ==> FitsScalar(fields[k].schema, ms[i].value) && out[k] == ScalarOf(ms[i].value)
      {
        forall i | 0 <= i < |ms| && LandsIn(fields, ms[i], k)
          ensures FitsScalar(fields[k].schema, ms[i].value)
        {
          assert MemberCompatible(fields, ms[i], j);
        }
        if NeverSet(fields, ms, k) {
          FoldNeverSet(fields, z.fields, ms, j, k);
        }
        forall i | LastSet(fields, ms, i, k)
          ensures FitsScalar(fields[k].schema, ms[i].value) && out[k] == ScalarOf(ms[i].value)
        {
          FoldLastSet(fields, z.fields, ms, j, k, i);
        }
      }
    }
  }

  /** On a scalar field, `Compatible` is `FitsScalar`. */
  lemma ScalarCompatible(s: Schema, v: Json)
    requires s in {SString, SInt, SBool}
    ensures Compatible(s, v) <==> FitsScalar(s, v)
  {
  }

  /** A field no non-null member lands in keeps its value through the member-by-member fold. */
  lemma {:induction false} FoldNeverSet(fields: seq<Field>, cur: seq<GoValue>, ms: seq<Member>, whole: Json, k: nat)
    requires Flat(fields) && |cur| == |fields| && k < |fields|
    requires forall i :: 0 <= i < |ms| ==> ms[i].value < whole
    requires NeverSet(fields, ms, k)
    ensures DecodeMembers(fields, cur, ms, whole)[k] == cur[k]
  {
    if ms != [] {
      var n := |ms| - 1;
      var init := ms[..n];
      assert forall i :: 0 <= i < n ==> init[i] == ms[i];
      FoldNeverSet(fields, cur, init, whole, k);
      FoldStep(fields, cur, ms, whole, k);
    }
  }

  /** After the fold, a field holds the value of the last non-null member landing in it. */
  lemma {:induction false} FoldLastSet(fields: seq<Field>, cur: seq<GoValue>, ms: seq<Member>, whole: Json, k: nat, i: nat)
    requires Flat(fields) && |cur| == |fields| && k < |fields|
    requires forall i :: 0 <= i < |ms| ==> ms[i].value < whole
    requires forall i :: 0 <= i < |ms| && LandsIn(fields, ms[i], k) ==> FitsScalar(fields[k].schema, ms[i].value)
    requires LastSet(fields, ms, i, k)
    ensures FitsScalar(fields[k].schema, ms[i].value) && DecodeMembers(fields, cur, ms, whole)[k] == ScalarOf(ms[i].value)
  {
    var n := |ms| - 1;
    FoldStep(fields, cur, ms, whole, k);
    if i < n {
      LastSetEarlier(fields, ms, i, k);
      FoldLastSet(fields, cur, ms[..n], whole, k, i);
    }
  }

  /** A member set last but not at the end stays set last once the final member is dropped, and the final member does not set the field. */
  lemma LastSetEarlier(fields: seq<Field>, ms: seq<Member>, i: nat, k: nat)
    requires LastSet(fields, ms, i, k) && i < |ms| - 1
    ensures LastSet(fields, ms[..|ms| - 1], i, k)
    ensures !(LandsIn(fields, ms[|ms| - 1], k) && !ms[|ms| - 1].value.JNull?)
  {
  }

  /** One member of the fold, seen from field `k`: it sets the field or leaves it alone. */
  lemma FoldStep(fields: seq<Field>, cur: seq<GoValue>, ms: seq<Member>, whole: Json, k: nat)
    requires Flat(fields) && |cur| == |fields| && k < |fields| && ms != []
    requires forall i :: 0 <= i < |ms| ==> ms[i].value < whole
    requires LandsIn(fields, ms[|ms| - 1], k) ==> FitsScalar(fields[k].schema, ms[|ms| - 1].value)
    ensures var m := ms[|ms| - 1];
            var out, before := DecodeMembers(fields, cur, ms, whole), DecodeMembers(fields, cur, ms[..|ms| - 1], whole);
            if LandsIn(fields, m, k) && !m.value.JNull? then out[k] == ScalarOf(m.value) else out[k] == before[k]
  {
    var m := ms[|ms| - 1];
    var before := DecodeMembers(fields, cur, ms[..|ms| - 1], whole);
    match FieldIndex(fields, m.key)
    case None =>
    case Some(k') =>
      assert k' == k ==> LandsIn(fields, m, k);
      assert DecodeMembers(fields, cur, ms, whole) == before[k' := DecodeInto(fields[k'].schema, before[k'], m.value)];
  }
}
