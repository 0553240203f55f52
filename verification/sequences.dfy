/** The sequence facts the program's loops share: the left-to-right "first
    element that matches" search of every lookup loop, the order-keeping
    subsequence relation of the filters, and the optional value a search
    returns. */
module Sequences {

  datatype Option<T> = None | Some(value: T)

  /** Index `i` holds the first element of `s` satisfying `f`. */
  predicate IsFirst<T>(s: seq<T>, f: T -> bool, i: int) {
    0 <= i < |s| && f(s[i]) && forall j :: 0 <= j < i ==> !f(s[j])
  }

  /** Scans `s` from the front and stops at the first match. */
  function Find<T>(s: seq<T>, f: T -> bool): (r: Option<nat>)
    ensures r.Some? <==> exists j :: 0 <= j < |s| && f(s[j])
    ensures r.Some? ==> IsFirst(s, f, r.value)
  {
    if |s| == 0 then None
    else if f(s[0]) then Some(0)
    else match Find(s[1..], f)
      case None =>
        assert forall j :: 1 <= j < |s| ==> s[j] == s[1..][j - 1];
        None
      case Some(k) =>
        assert forall j :: 1 <= j < |s| ==> s[j] == s[1..][j - 1];
        Some(k + 1)
  }

  /** There is at most one first match. */
  lemma FirstIsUnique<T>(s: seq<T>, f: T -> bool, i: int, k: int)
    requires IsFirst(s, f, i) && IsFirst(s, f, k)
    ensures i == k
  {
  }

  /** `a` is `b` with some entries dropped and the rest kept in order. */
  predicate IsSubsequence<T(==)>(a: seq<T>, b: seq<T>) {
    if |a| == 0 then true
    else if |b| == 0 then false
    else if a[0] == b[0] then IsSubsequence(a[1..], b[1..])
    else IsSubsequence(a, b[1..])
  }

  lemma {:induction false} SubsequenceOfTail<T>(a: seq<T>, b: seq<T>)
    requires |b| > 0 && IsSubsequence(a, b[1..])
    ensures IsSubsequence(a, b)
    decreases |a| + |b|
  {
    if |a| > 0 && a[0] == b[0] {
      SubsequenceDropHead(a, b[1..]);
    }
  }

  lemma {:induction false} SubsequenceDropHead<T>(a: seq<T>, c: seq<T>)
    requires |a| > 0 && IsSubsequence(a, c)
    ensures IsSubsequence(a[1..], c)
    decreases |a| + |c|
  {
    if a[0] == c[0] {
      SubsequenceOfTail(a[1..], c);
    } else {
      SubsequenceDropHead(a, c[1..]);
      SubsequenceOfTail(a[1..], c);
    }
  }
}
