/** Small facts about sequences used throughout the model. */
module Seqs {

  /** No element occurs twice. */
  predicate NoDup<T(==)>(s: seq<T>)
  {
    forall i, j :: 0 <= i < j < |s| ==> s[i] != s[j]
  }

  /** The elements of `s` that satisfy `p`, in their original order. */
  function Filter<T(==,!new)>(s: seq<T>, p: T -> bool): (r: seq<T>)
    ensures |r| <= |s|
    ensures forall x :: x in r <==> x in s && p(x)
    ensures NoDup(s) ==> NoDup(r)
  {
    if |s| == 0 then []
    else if p(s[0]) then [s[0]] + Filter(s[1..], p)
    else Filter(s[1..], p)
  }

  /** The head of a filtered sequence is the first element of `s` that satisfies `p`. */
  lemma {:induction false} FilterHead<T(!new)>(s: seq<T>, p: T -> bool)
    requires |Filter(s, p)| > 0
    ensures exists i :: 0 <= i < |s| && s[i] == Filter(s, p)[0] && p(s[i])
                        && forall j :: 0 <= j < i ==> !p(s[j])
  {
    if p(s[0]) {
      assert s[0] == Filter(s, p)[0];
    } else {
      FilterHead(s[1..], p);
      var i :| 0 <= i < |s[1..]| && s[1..][i] == Filter(s[1..], p)[0] && p(s[1..][i])
                && forall j :: 0 <= j < i ==> !p(s[1..][j]);
      assert s[i + 1] == Filter(s, p)[0];
      forall j | 0 <= j < i + 1
        ensures !p(s[j])
      {
        if j > 0 { assert s[j] == s[1..][j - 1]; }
      }
    }
  }

  /** The position of the first occurrence of `x` in `s`. */
  function IndexOf<T(==)>(s: seq<T>, x: T): (i: nat)
    requires x in s
    ensures i < |s| && s[i] == x
    ensures forall j :: 0 <= j < i ==> s[j] != x
  {
    if s[0] == x then 0 else 1 + IndexOf(s[1..], x)
  }

  lemma AppendFreshKeepsNoDup<T>(s: seq<T>, x: T)
    requires x !in s
    ensures NoDup(s) ==> NoDup(s + [x])
  {
  }

  lemma ConcatAssoc<T>(a: seq<T>, b: seq<T>, c: seq<T>)
    ensures (a + b) + c == a + (b + c)
  {
  }
}
