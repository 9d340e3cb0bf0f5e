/** Sequence helpers shared by the loop models. */
module Seqs {

  /** `f` applied to every element, in order. */
  function MapSeq<A, B>(f: A -> B, xs: seq<A>): (ys: seq<B>)
    ensures |ys| == |xs|
    decreases |xs|
  {
    if |xs| == 0 then [] else MapSeq(f, xs[..|xs| - 1]) + [f(xs[|xs| - 1])]
  }

  lemma {:induction false} MapSeqAt<A, B>(f: A -> B, xs: seq<A>, i: nat)
    requires i < |xs|
    ensures MapSeq(f, xs)[i] == f(xs[i])
    decreases |xs|
  {
    if i < |xs| - 1 {
      MapSeqAt(f, xs[..|xs| - 1], i);
    }
  }

  lemma MapSeqAppend<A, B>(f: A -> B, a: seq<A>, b: seq<A>)
    ensures MapSeq(f, a + b) == MapSeq(f, a) + MapSeq(f, b)
  {
    forall i | 0 <= i < |a + b|
      ensures MapSeq(f, a + b)[i] == (MapSeq(f, a) + MapSeq(f, b))[i]
    {
      MapSeqAt(f, a + b, i);
      if i < |a| {
        MapSeqAt(f, a, i);
      } else {
        MapSeqAt(f, b, i - |a|);
      }
    }
  }

  lemma MapSeqPrefix<A, B>(f: A -> B, xs: seq<A>, j: nat)
    requires j <= |xs|
    ensures MapSeq(f, xs[..j]) == MapSeq(f, xs)[..j]
  {
    forall i | 0 <= i < j
      ensures MapSeq(f, xs[..j])[i] == MapSeq(f, xs)[i]
    {
      MapSeqAt(f, xs[..j], i);
      MapSeqAt(f, xs, i);
    }
  }
}
