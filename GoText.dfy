/**
 * The Go standard-library text primitives the core relies on:
 * `strings.TrimSpace`, `strings.ToUpper`/`ToLower` (on ASCII letters),
 * `html.EscapeString`, `strconv.Atoi` and `strconv.Itoa`.
 */
module GoText {
  import opened Wrappers

  // ---------------------------------------------------------------------------
  // strings.TrimSpace

  /** `unicode.IsSpace`: the Latin-1 spaces plus the other Unicode White_Space code points. */
  predicate IsSpace(c: char) {
    var n := c as int;
    (9 <= n <= 13) || n == 32 || n == 0x85 || n == 0xA0 || n == 0x1680
    || (0x2000 <= n <= 0x200A) || n == 0x2028 || n == 0x2029 || n == 0x202F
    || n == 0x205F || n == 0x3000
  }

  /** Drops trailing white space: the result is the longest prefix that does not end with a space. */
  function TrimRight(s: string): (r: string)
    ensures |r| <= |s| && r == s[..|r|]
    ensures r == [] || !IsSpace(r[|r| - 1])
    ensures forall i :: |r| <= i < |s| ==> IsSpace(s[i])
  {
    if s != [] && IsSpace(s[|s| - 1]) then TrimRight(s[..|s| - 1]) else s
  }

  /** `r` is `s[i..j]`, and everything before `i` and from `j` on is white space. */
  predicate TrimmedAt(s: string, r: string, i: int, j: int) {
    && 0 <= i <= j <= |s| && r == s[i..j]
    && (forall k :: 0 <= k < i ==> IsSpace(s[k]))
    && (forall k :: j <= k < |s| ==> IsSpace(s[k]))
  }

  /** A window of `s[1..]` is a window of `s` one further on, when `s` starts with a space. */
  lemma TrimShift(s: string, r: string)
    requires s != [] && IsSpace(s[0])
    requires exists i, j :: TrimmedAt(s[1..], r, i, j)
    ensures exists i, j :: TrimmedAt(s, r, i, j)
  {
    var t := s[1..];
    var i, j :| TrimmedAt(t, r, i, j);
    assert r == s[i + 1..j + 1];
    forall k | 0 <= k < i + 1
      ensures IsSpace(s[k])
    {
      if k > 0 {
        assert s[k] == t[k - 1];
      }
    }
    forall k | j + 1 <= k < |s|
      ensures IsSpace(s[k])
    {
      assert s[k] == t[k - 1];
    }
    assert TrimmedAt(s, r, i + 1, j + 1);
  }

  /** `strings.TrimSpace`: `s` with all leading and trailing white space removed. */
  function TrimSpace(s: string): (r: string)
    ensures exists i, j :: TrimmedAt(s, r, i, j)
    ensures r == [] || (!IsSpace(r[0]) && !IsSpace(r[|r| - 1]))
    decreases |s|
  {
    if s != [] && IsSpace(s[0]) then
      var r := TrimSpace(s[1..]);
      TrimShift(s, r);
      r
    else
      var r := TrimRight(s);
      assert TrimmedAt(s, r, 0, |r|);
      r
  }

  // ---------------------------------------------------------------------------
  // strings.ToUpper / strings.ToLower

  predicate IsAsciiUpper(c: char) { 'A' <= c <= 'Z' }
  predicate IsAsciiLower(c: char) { 'a' <= c <= 'z' }

  function UpperChar(c: char): char {
    if IsAsciiLower(c) then (c as int - 32) as char else c
  }

  function LowerChar(c: char): char {
    if IsAsciiUpper(c) then (c as int + 32) as char else c
  }

  /** `strings.ToUpper`, restricted to the ASCII letters. */
  function ToUpper(s: string): string {
    seq(|s|, i requires 0 <= i < |s| => UpperChar(s[i]))
  }

  /** `strings.ToLower`, restricted to the ASCII letters. */
  function ToLower(s: string): string {
    seq(|s|, i requires 0 <= i < |s| => LowerChar(s[i]))
  }

  /** Upper-casing twice is upper-casing once, so re-upper-casing an already rendered type changes nothing. */
  lemma ToUpperIdempotent(s: string)
    ensures ToUpper(ToUpper(s)) == ToUpper(s)
    ensures |ToUpper(s)| == |s|
    ensures forall i :: 0 <= i < |s| ==> !IsAsciiLower(ToUpper(s)[i])
  {
  }

  /** A text with no ASCII lower-case letter. */
  predicate IsUpper(s: string) {
    forall i :: 0 <= i < |s| ==> !IsAsciiLower(s[i])
  }

  /** Upper-casing yields an upper-case text, and leaves exactly the upper-case texts unchanged. */
  lemma UpperFixpoints(s: string)
    ensures IsUpper(ToUpper(s))
    ensures ToUpper(s) == s <==> IsUpper(s)
  {
    if !IsUpper(s) {
      var i :| 0 <= i < |s| && IsAsciiLower(s[i]);
      assert ToUpper(s)[i] != s[i];
    }
  }

  /** Lower-casing leaves no ASCII capital and changes only ASCII capitals. */
  lemma ToLowerSpec(s: string)
    ensures |ToLower(s)| == |s|
    ensures forall i :: 0 <= i < |s| ==> !IsAsciiUpper(ToLower(s)[i])
    ensures forall i :: 0 <= i < |s| && !IsAsciiUpper(s[i]) ==> ToLower(s)[i] == s[i]
  {
  }

  // ---------------------------------------------------------------------------
  // html.EscapeString

  /** The characters `html.EscapeString` never lets through raw (besides `&`, which it re-escapes). */
  predicate IsHtmlSpecial(c: char) { c == '<' || c == '>' || c == '"' || c == '\'' }

  function EscapeChar(c: char): string {
    if c == '&' then "&amp;"
    else if c == '\'' then "&#39;"
    else if c == '<' then "&lt;"
    else if c == '>' then "&gt;"
    else if c == '"' then "&#34;"
    else [c]
  }

  /** `html.EscapeString`: one left-to-right pass replacing `&`, `'`, `<`, `>` and `"` by entities. */
  function EscapeHtml(s: string): (r: string)
    ensures forall i :: 0 <= i < |r| ==> !IsHtmlSpecial(r[i])
    ensures |r| >= |s|
  {
    if s == [] then [] else EscapeChar(s[0]) + EscapeHtml(s[1..])
  }

  /** The inverse of `EscapeHtml` on the five entities it produces (the reference for its round trip). */
  function UnescapeHtml(s: string): string {
    if |s| >= 5 && s[..5] == "&amp;" then "&" + UnescapeHtml(s[5..])
    else if |s| >= 5 && s[..5] == "&#39;" then "'" + UnescapeHtml(s[5..])
    else if |s| >= 4 && s[..4] == "&lt;" then "<" + UnescapeHtml(s[4..])
    else if |s| >= 4 && s[..4] == "&gt;" then ">" + UnescapeHtml(s[4..])
    else if |s| >= 5 && s[..5] == "&#34;" then "\"" + UnescapeHtml(s[5..])
    else if s == [] then []
    else [s[0]] + UnescapeHtml(s[1..])
  }

  /** Unescaping reads an escaped special character back as that character. */
  lemma UnescapeEntity(c: char, t: string)
    requires c == '&' || IsHtmlSpecial(c)
    ensures UnescapeHtml(EscapeChar(c) + t) == [c] + UnescapeHtml(t)
  {
    if c == '&' {
      UnescapeAmp(t);
    } else if c == '<' || c == '>' {
      UnescapeNamed(c, t);
    } else {
      UnescapeNumeric(c, t);
    }
  }

  lemma UnescapeAmp(t: string)
    ensures UnescapeHtml("&amp;" + t) == "&" + UnescapeHtml(t)
  {
    var e := "&amp;" + t;
    assert e[..5] == "&amp;" && e[5..] == t;
  }

  /** The two four-character entities, `&lt;` and `&gt;`. */
  lemma UnescapeNamed(c: char, t: string)
    requires c == '<' || c == '>'
    ensures UnescapeHtml(EscapeChar(c) + t) == [c] + UnescapeHtml(t)
  {
    var e := EscapeChar(c) + t;
    assert e[1] == (if c == '<' then 'l' else 'g');
    assert e[..4] == EscapeChar(c) && e[4..] == t;
  }

  /** The two numeric entities, `&#39;` and `&#34;`. */
  lemma UnescapeNumeric(c: char, t: string)
    requires c == '\'' || c == '"'
    ensures UnescapeHtml(EscapeChar(c) + t) == [c] + UnescapeHtml(t)
  {
    var e := EscapeChar(c) + t;
    assert e[1] == '#' && e[2] == '3' && e[3] == (if c == '\'' then '9' else '4');
    assert e[..5] == EscapeChar(c) && e[5..] == t;
  }

  /** Unescaping passes a character other than `&` through. */
  lemma UnescapePlain(c: char, t: string)
    requires c != '&'
    ensures UnescapeHtml([c] + t) == [c] + UnescapeHtml(t)
  {
    var e := [c] + t;
    assert e[0] == c && e[1..] == t;
    assert |e| >= 4 ==> e[..4][0] == c;
    assert |e| >= 5 ==> e[..5][0] == c;
  }

  /** Escaping loses nothing: unescaping gives the original text back. */
  lemma {:induction false} EscapeRoundTrip(s: string)
    ensures UnescapeHtml(EscapeHtml(s)) == s
  {
    if s != [] {
      var c, t := s[0], EscapeHtml(s[1..]);
      assert EscapeChar(c) + t == EscapeHtml(s);
      if c == '&' || IsHtmlSpecial(c) {
        UnescapeEntity(c, t);
      } else {
        assert EscapeChar(c) == [c];
        UnescapePlain(c, t);
      }
      EscapeRoundTrip(s[1..]);
      assert s == [c] + s[1..];
    }
  }

  /** The last character of an escaped text is the closing `;` of an entity or the last character itself. */
  lemma {:induction false} EscapeLast(s: string)
    requires s != []
    ensures var e := EscapeHtml(s); e != [] && (e[|e| - 1] == ';' || e[|e| - 1] == s[|s| - 1])
  {
    if |s| > 1 {
      EscapeLast(s[1..]);
    }
  }

  lemma ToLowerConcat(a: string, b: string)
    ensures ToLower(a + b) == ToLower(a) + ToLower(b)
  {
    assert forall i :: 0 <= i < |a| ==> (a + b)[i] == a[i];
    assert forall i :: |a| <= i < |a| + |b| ==> (a + b)[i] == b[i - |a|];
  }

  lemma LowerEscapeChar(c: char)
    ensures ToLower(EscapeChar(c)) == EscapeChar(LowerChar(c))
  {
    if IsAsciiUpper(c) {
      assert ToLower([c]) == [LowerChar(c)];
    } else {
      var e := EscapeChar(c);
      assert forall i :: 0 <= i < |e| ==> !IsAsciiUpper(e[i]);
      assert ToLower(e) == e;
    }
  }

  /** Lower-casing an escaped text is escaping the lower-cased text: the entities hold no capitals. */
  lemma {:induction false} LowerEscapeCommute(s: string)
    ensures ToLower(EscapeHtml(s)) == EscapeHtml(ToLower(s))
  {
    if s != [] {
      var c, t := s[0], s[1..];
      var l := ToLower(s);
      assert l[0] == LowerChar(c) && l[1..] == ToLower(t);
      calc {
        ToLower(EscapeHtml(s));
        ToLower(EscapeChar(c) + EscapeHtml(t));
        { ToLowerConcat(EscapeChar(c), EscapeHtml(t)); }
        ToLower(EscapeChar(c)) + ToLower(EscapeHtml(t));
        { LowerEscapeChar(c); LowerEscapeCommute(t); }
        EscapeChar(LowerChar(c)) + EscapeHtml(ToLower(t));
        EscapeHtml(l);
      }
    }
  }

  // ---------------------------------------------------------------------------
  // strconv.Atoi / strconv.Itoa on a 64-bit platform

  const MinInt64: int := -0x8000_0000_0000_0000
  const MaxInt64: int := 0x7fff_ffff_ffff_ffff

  predicate IsDigit(c: char) { '0' <= c <= '9' }

  predicate AllDigits(s: string) { forall i :: 0 <= i < |s| ==> IsDigit(s[i]) }

  /** The value of a string of decimal digits, most significant first. */
  function DigitsValue(s: string): nat
    requires AllDigits(s)
  {
    if s == [] then 0 else DigitsValue(s[..|s| - 1]) * 10 + (s[|s| - 1] as int - '0' as int)
  }

  /**
   * `strconv.Atoi` (equivalently `strconv.ParseInt(s, 10, 64)`): an optional sign followed by
   * at least one decimal digit, whose value fits in 64 bits; anything else is an error.
   */
  function ParseInt(s: string): (r: Option<int>)
    ensures r.Some? ==> MinInt64 <= r.value <= MaxInt64
    ensures r.Some? ==> && |s| > 0 && (IsDigit(s[0]) || s[0] == '-' || s[0] == '+')
                        && (|s| > 1 || IsDigit(s[0]))
                        && (forall i :: 1 <= i < |s| ==> IsDigit(s[i]))
    ensures |s| > 0 && AllDigits(s) && DigitsValue(s) <= MaxInt64 ==> r == Some(DigitsValue(s))
    ensures |s| > 1 && s[0] == '+' && AllDigits(s[1..]) && DigitsValue(s[1..]) <= MaxInt64 ==> r == Some(DigitsValue(s[1..]))
    ensures |s| > 1 && s[0] == '-' && AllDigits(s[1..]) && DigitsValue(s[1..]) <= -MinInt64 ==> r == Some(0 - DigitsValue(s[1..]) as int)
    ensures AllDigits(s) && |s| > 0 && DigitsValue(s) > MaxInt64 ==> r == None
    ensures |s| > 1 && s[0] == '+' && AllDigits(s[1..]) && DigitsValue(s[1..]) > MaxInt64 ==> r == None
    ensures |s| > 1 && s[0] == '-' && AllDigits(s[1..]) && DigitsValue(s[1..]) > -MinInt64 ==> r == None
  {
    var signed := |s| > 0 && (s[0] == '-' || s[0] == '+');
    var body := if signed then s[1..] else s;
    if body == [] || !AllDigits(body) then None
    else
      var v: int := if |s| > 0 && s[0] == '-' then 0 - (DigitsValue(body) as int) else DigitsValue(body) as int;
      if MinInt64 <= v <= MaxInt64 then Some(v) else None
  }

  function DigitChar(d: nat): char
    requires d < 10
  {
    ('0' as int + d) as char
  }

  /** The decimal digits of `n`, without leading zeros. */
  function NatDigits(n: nat): (r: string)
    ensures |r| > 0 && AllDigits(r)
  {
    if n < 10 then [DigitChar(n)] else NatDigits(n / 10) + [DigitChar(n % 10)]
  }

  /** `strconv.Itoa`. */
  function Itoa(n: int): string {
    if n < 0 then "-" + NatDigits(-n) else NatDigits(n)
  }

  lemma {:induction false} NatDigitsValue(n: nat)
    ensures DigitsValue(NatDigits(n)) == n
  {
    if n >= 10 {
      var r := NatDigits(n);
      assert r[..|r| - 1] == NatDigits(n / 10);
      NatDigitsValue(n / 10);
    }
  }

  /** `strconv.Atoi` reads back what `strconv.Itoa` writes, for every 64-bit integer. */
  lemma ParseIntItoa(n: int)
    requires MinInt64 <= n <= MaxInt64
    ensures ParseInt(Itoa(n)) == Some(n)
  {
    if n < 0 {
      NatDigitsValue(-n);
      assert Itoa(n)[1..] == NatDigits(-n);
    } else {
      NatDigitsValue(n);
    }
  }
}
