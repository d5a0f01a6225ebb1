// Facts about sequences of any element type, kept apart so that proofs about texts need not
// look inside their elements.
module Sequences {

  lemma Assoc<T>(a: seq<T>, b: seq<T>, c: seq<T>)
    ensures a + b + c == a + (b + c)
  {
  }

  lemma Snoc<T>(a: seq<T>, x: T)
    ensures (a + [x])[..|a|] == a && (a + [x])[|a|] == x
    ensures forall y <- a + [x] :: y in a || y == x
    ensures forall y <- a :: y in a + [x]
  {
    forall y | y in a
      ensures y in a + [x]
    {
      var i :| 0 <= i < |a| && a[i] == y;
      assert (a + [x])[i] == y;
    }
  }

  lemma Middle<T>(a: seq<T>, x: T, c: seq<T>)
    ensures x in a + ([x] + c)
  {
    assert (a + ([x] + c))[|a|] == x;
  }

  lemma HeadTail<T>(s: seq<T>)
    requires s != []
    ensures s == [s[0]] + s[1..]
  {
  }

  lemma {:induction false} LastWhere<T>(s: seq<T>, p: T -> bool, some: nat, end: nat) returns (last: nat)
    requires some < end <= |s| && p(s[some])
    ensures last < end && p(s[last])
    ensures forall i | last < i < end :: !p(s[i])
  {
    last := end - 1;
    if !p(s[last]) {
      last := LastWhere(s, p, some, last);
    }
  }

  lemma Inside<T>(a: seq<T>, s: seq<T>, b: seq<T>, x: T)
    requires x !in a + s + b
    ensures x !in s
  {
    forall i | 0 <= i < |s|
      ensures s[i] != x
    {
      assert (a + s + b)[|a| + i] == s[i];
    }
  }
}
