/** Byte chunks: joining, counting and overwriting them. */
module Bytes {

  type byte = b: int | 0 <= b < 256

  function Concat<T>(chunks: seq<seq<T>>): (bytes: seq<T>)
    ensures |bytes| == Total(chunks)
  {
    if chunks == [] then [] else chunks[0] + Concat(chunks[1..])
  }

  function Total<T>(chunks: seq<seq<T>>): nat {
    if chunks == [] then 0 else |chunks[0]| + Total(chunks[1..])
  }

  lemma {:induction false} ConcatSplit<T>(a: seq<seq<T>>, b: seq<seq<T>>)
    ensures Concat(a + b) == Concat(a) + Concat(b)
    ensures Total(a + b) == Total(a) + Total(b)
  {
    hide Concat, Total;
    TotalSplit(a, b);
    ConcatStep(a);
    if a == [] {
      assert a + b == b;
    } else {
      ConcatSplit(a[1..], b);
      ConcatStep(a + b);
      assert (a + b)[1..] == a[1..] + b;
    }
  }

  lemma {:induction false} TotalSplit<T>(a: seq<seq<T>>, b: seq<seq<T>>)
    ensures Total(a + b) == Total(a) + Total(b)
  {
    hide Concat;
    if a == [] {
      assert a + b == b;
    } else {
      TotalSplit(a[1..], b);
      assert (a + b)[1..] == a[1..] + b;
    }
  }

  lemma ConcatStep<T>(chunks: seq<seq<T>>)
    ensures chunks == [] ==> Concat(chunks) == []
    ensures chunks != [] ==> Concat(chunks) == chunks[0] + Concat(chunks[1..])
  {
  }

  lemma ConcatLast<T>(chunks: seq<seq<T>>, c: seq<T>)
    ensures Concat(chunks + [c]) == Concat(chunks) + c
    ensures Total(chunks + [c]) == Total(chunks) + |c|
  {
    ConcatSplit(chunks, [c]);
    assert [c][1..] == [];
  }

  predicate Zeroed(s: seq<byte>) {
    forall i | 0 <= i < |s| :: s[i] == 0
  }

  function Zeros(n: nat): (s: seq<byte>)
    ensures |s| == n && Zeroed(s)
  {
    seq(n, _ => 0)
  }

  /** The only overwritten chunk of a length. */
  lemma ZeroedIsZeros(s: seq<byte>)
    requires Zeroed(s)
    ensures s == Zeros(|s|)
  {
  }
}
