/** Generic sequence helpers: keeping the successful results of a batch, and sorting by an integer key. */
module SeqUtil {
  import opened Wrappers

  /** The successful results of `f` over `ps`, in input order. */
  function KeepOk<A, B, E>(f: A -> Result<B, E>, ps: seq<A>): seq<B> {
    if ps == [] then []
    else
      var init := KeepOk(f, ps[..|ps| - 1]);
      match f(ps[|ps| - 1])
      case Ok(q) => init + [q]
      case Err(_) => init
  }

  /** The positions where `f` succeeds, in increasing order. */
  function OkPositions<A, B, E>(f: A -> Result<B, E>, ps: seq<A>): seq<nat> {
    if ps == [] then []
    else
      var init := OkPositions(f, ps[..|ps| - 1]);
      if f(ps[|ps| - 1]).Ok? then init + [|ps| - 1] else init
  }

  /** `KeepOk` holds, in order, one result per position where `f` succeeds, and nothing else. */
  lemma {:induction false} KeepOkSpec<A, B, E>(f: A -> Result<B, E>, ps: seq<A>)
    ensures var qs, idx := KeepOk(f, ps), OkPositions(f, ps);
            && |idx| == |qs| <= |ps|
            && (forall k :: 0 <= k < |idx| ==> idx[k] < |ps| && f(ps[idx[k]]) == Ok(qs[k]))
            && (forall k, l :: 0 <= k < l < |idx| ==> idx[k] < idx[l])
            && (forall i :: 0 <= i < |ps| ==> (f(ps[i]).Ok? <==> i in idx))
  {
    if ps != [] {
      var init := ps[..|ps| - 1];
      KeepOkSpec(f, init);
      var idx := OkPositions(f, init);
      assert forall k :: 0 <= k < |idx| ==> init[idx[k]] == ps[idx[k]];
      assert forall i :: 0 <= i < |init| ==> init[i] == ps[i];
    }
  }

  predicate SortedBy<T>(s: seq<T>, key: T -> int) {
    forall i, j :: 0 <= i < j < |s| ==> key(s[i]) <= key(s[j])
  }

  /** Inserts after every element with an equal or smaller key. */
  function InsertBy<T>(x: T, s: seq<T>, key: T -> int): (r: seq<T>)
    requires SortedBy(s, key)
    ensures |r| == |s| + 1
    ensures forall y :: y in r ==> y == x || y in s
    ensures SortedBy(r, key) && multiset(r) == multiset(s) + multiset{x}
  {
    if s == [] then [x]
    else if key(x) < key(s[0]) then [x] + s
    else
      var rest := InsertBy(x, s[1..], key);
      HeadLeast(s, key);
      ConsSorted(s[0], rest, key);
      assert s == [s[0]] + s[1..];
      [s[0]] + rest
  }

  /** The head of a sorted sequence has the least key. */
  lemma HeadLeast<T>(s: seq<T>, key: T -> int)
    requires s != [] && SortedBy(s, key)
    ensures forall y :: y in s[1..] ==> key(s[0]) <= key(y)
  {
    forall y | y in s[1..] ensures key(s[0]) <= key(y) {
      var j :| 0 <= j < |s[1..]| && s[1..][j] == y;
      assert s[j + 1] == y;
    }
  }

  /** A head whose key is at most every key of a sorted sequence keeps it sorted. */
  lemma ConsSorted<T>(h: T, s: seq<T>, key: T -> int)
    requires SortedBy(s, key) && forall y :: y in s ==> key(h) <= key(y)
    ensures SortedBy([h] + s, key)
  {
    var r := [h] + s;
    forall i, j | 0 <= i < j < |r| ensures key(r[i]) <= key(r[j]) {
      assert r[j] == s[j - 1];
      if i > 0 {
        assert r[i] == s[i - 1];
      } else {
        assert s[j - 1] in s;
      }
    }
  }

  /** Insertion sort by an integer key. */
  function SortBy<T>(s: seq<T>, key: T -> int): (r: seq<T>)
    ensures SortedBy(r, key) && multiset(r) == multiset(s)
  {
    if s == [] then []
    else
      var init := s[..|s| - 1];
      assert s == init + [s[|s| - 1]];
      InsertBy(s[|s| - 1], SortBy(init, key), key)
  }
}
