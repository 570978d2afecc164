/** Facts about duplicate-free sequences, the value of a tail queue. */
module Seqs {

  ghost predicate Distinct<T(!new)>(s: seq<T>) {
    forall i, j :: 0 <= i < j < |s| ==> s[i] != s[j]
  }

  /** The queue after TAILQ_REMOVE of its first entry equal to x. */
  function Remove<T(==)>(s: seq<T>, x: T): seq<T> {
    if s == [] then [] else if s[0] == x then s[1..] else [s[0]] + Remove(s[1..], x)
  }

  lemma {:induction false} RemoveKeepsOthers<T(!new)>(s: seq<T>, x: T)
    requires Distinct(s)
    ensures forall y :: y in Remove(s, x) <==> y in s && y != x
    ensures x in s ==> |Remove(s, x)| == |s| - 1
    ensures x !in s ==> Remove(s, x) == s
    ensures Distinct(Remove(s, x))
  {
    if s != [] {
      assert forall y :: y in s <==> y == s[0] || y in s[1..];
      if s[0] == x {
        assert forall y :: y in s[1..] ==> exists i :: 1 <= i < |s| && s[i] == y;
      } else {
        RemoveKeepsOthers(s[1..], x);
        var r := Remove(s[1..], x);
        assert s[0] !in r by { assert forall i :: 1 <= i < |s| ==> s[i] != s[0]; }
        forall i, j | 0 <= i < j < |Remove(s, x)| ensures Remove(s, x)[i] != Remove(s, x)[j] {
          if i == 0 { assert r[j - 1] in r; }
        }
        if x !in s { assert [s[0]] + s[1..] == s; }
      }
    }
  }

  lemma DistinctSnoc<T(!new)>(s: seq<T>, x: T)
    requires Distinct(s) && x !in s
    ensures Distinct(s + [x]) && Distinct([x] + s)
  {
  }
}
