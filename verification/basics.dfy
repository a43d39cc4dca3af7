/** Small shared vocabulary: an optional value and the two list combinators
    (`filter`, `flatMap`) that the board code leans on everywhere. */
module Basics {

  /** JavaScript `null`/`undefined` versus a present value. */
  datatype Option<T> = None | Some(value: T)

  /** `xs.filter(keep)`: the kept elements, in their original order. */
  function Filter<T(!new)>(xs: seq<T>, keep: T -> bool): (r: seq<T>)
    ensures |r| <= |xs|
    ensures forall x :: x in r ==> x in xs && keep(x)
  {
    if |xs| == 0 then []
    else
      assert xs == [xs[0]] + xs[1..];
      (if keep(xs[0]) then [xs[0]] else []) + Filter(xs[1..], keep)
  }

  /** Each kept value occurs as often as before; every other value is gone. */
  lemma {:induction false} FilterMultiset<T(!new)>(xs: seq<T>, keep: T -> bool)
    ensures forall x {:trigger multiset(Filter(xs, keep))[x]} ::
              multiset(Filter(xs, keep))[x] == if keep(x) then multiset(xs)[x] else 0
  {
    if |xs| > 0 {
      FilterMultiset(xs[1..], keep);
      assert xs == [xs[0]] + xs[1..];
    }
  }

  /** Filtering distributes over concatenation, so kept elements keep their
      relative order. */
  lemma {:induction false} FilterAppend<T(!new)>(a: seq<T>, b: seq<T>, keep: T -> bool)
    ensures Filter(a + b, keep) == Filter(a, keep) + Filter(b, keep)
  {
    if |a| == 0 {
      assert a + b == b;
    } else {
      assert (a + b)[1..] == a[1..] + b;
      FilterAppend(a[1..], b, keep);
    }
  }

  /** A filter that keeps everything is the identity. */
  lemma {:induction false} FilterKeepsAll<T(!new)>(xs: seq<T>, keep: T -> bool)
    requires forall i :: 0 <= i < |xs| ==> keep(xs[i])
    ensures Filter(xs, keep) == xs
  {
    if |xs| > 0 {
      FilterKeepsAll(xs[1..], keep);
    }
  }

  /** A filter that keeps nothing yields the empty list. */
  lemma {:induction false} FilterDropsAll<T(!new)>(xs: seq<T>, keep: T -> bool)
    requires forall i :: 0 <= i < |xs| ==> !keep(xs[i])
    ensures Filter(xs, keep) == []
  {
    if |xs| > 0 {
      FilterDropsAll(xs[1..], keep);
    }
  }

  /** `xs.flatMap(f)`: the pieces `f(x)` concatenated in list order. */
  function FlatMap<A, B>(xs: seq<A>, f: A -> seq<B>): (r: seq<B>)
    ensures |r| == TotalLength(xs, f)
  {
    if |xs| == 0 then []
    else
      TotalLengthCons(xs, f);
      f(xs[0]) + FlatMap(xs[1..], f)
  }

  /** The summed length of all pieces, defined independently of `FlatMap`. */
  function TotalLength<A, B>(xs: seq<A>, f: A -> seq<B>): nat
  {
    if |xs| == 0 then 0 else TotalLength(xs[..|xs| - 1], f) + |f(xs[|xs| - 1])|
  }

  /** Where the piece of `xs[i]` starts in the flattened list. */
  function Offset<A, B>(xs: seq<A>, f: A -> seq<B>, i: nat): nat
    requires i <= |xs|
  {
    TotalLength(xs[..i], f)
  }

  lemma {:induction false} TotalLengthCons<A, B>(xs: seq<A>, f: A -> seq<B>)
    requires |xs| > 0
    ensures TotalLength(xs, f) == |f(xs[0])| + TotalLength(xs[1..], f)
  {
    if |xs| > 1 {
      assert xs[..|xs| - 1][1..] == xs[1..][..|xs| - 2];
      TotalLengthCons(xs[..|xs| - 1], f);
      assert xs[1..][|xs| - 2] == xs[|xs| - 1];
    } else {
      assert xs[..0] == [];
    }
  }

  /** The piece of `xs[i]` ends where the next one starts. */
  lemma OffsetStep<A, B>(xs: seq<A>, f: A -> seq<B>, i: nat)
    requires i < |xs|
    ensures Offset(xs, f, i + 1) == Offset(xs, f, i) + |f(xs[i])|
  {
    assert xs[..i + 1][..i] == xs[..i];
    assert xs[..i + 1][i] == xs[i];
  }

  /** Offsets in `xs` are offsets in its tail, shifted by the first piece. */
  lemma OffsetTail<A, B>(xs: seq<A>, f: A -> seq<B>, i: nat)
    requires 0 < i <= |xs|
    ensures Offset(xs, f, i) == |f(xs[0])| + Offset(xs[1..], f, i - 1)
  {
    TotalLengthCons(xs[..i], f);
    assert xs[..i][0] == xs[0];
    assert xs[..i][1..] == xs[1..][..i - 1];
  }

  /** Element `j` of the piece of `xs[i]` sits at `Offset(xs, f, i) + j` of
      the flattened list: the output is in element-then-piece order and each
      piece appears whole. */
  lemma {:induction false} FlatMapIndex<A, B>(xs: seq<A>, f: A -> seq<B>, i: nat, j: nat)
    requires i < |xs| && j < |f(xs[i])|
    ensures Offset(xs, f, i) + j < |FlatMap(xs, f)|
    ensures Offset(xs, f, i + 1) == Offset(xs, f, i) + |f(xs[i])|
    ensures FlatMap(xs, f)[Offset(xs, f, i) + j] == f(xs[i])[j]
  {
    OffsetStep(xs, f, i);
    OffsetBound(xs, f, i + 1);
    assert FlatMap(xs, f) == f(xs[0]) + FlatMap(xs[1..], f);
    if i == 0 {
      assert xs[..0] == [];
    } else {
      OffsetTail(xs, f, i);
      assert xs[1..][i - 1] == xs[i];
      FlatMapIndex(xs[1..], f, i - 1, j);
    }
  }

  /** Offsets never pass the total length. */
  lemma {:induction false} OffsetBound<A, B>(xs: seq<A>, f: A -> seq<B>, i: nat)
    requires i <= |xs|
    ensures Offset(xs, f, i) <= TotalLength(xs, f)
    decreases |xs| - i
  {
    if i < |xs| {
      OffsetBound(xs, f, i + 1);
      assert xs[..i + 1][..i] == xs[..i];
    } else {
      assert xs[..i] == xs;
    }
  }

  /** Flattening after appending one element appends its piece. */
  lemma {:induction false} FlatMapAppendOne<A, B>(xs: seq<A>, x: A, f: A -> seq<B>)
    ensures FlatMap(xs + [x], f) == FlatMap(xs, f) + f(x)
  {
    if |xs| == 0 {
      assert xs + [x] == [x];
      assert [x][1..] == [];
    } else {
      assert (xs + [x])[1..] == xs[1..] + [x];
      FlatMapAppendOne(xs[1..], x, f);
    }
  }

  /** Two flattenings whose pieces have the same lengths element by element
      have the same total length and the same piece offsets. */
  lemma {:induction false} TotalLengthSameShape<A, B, C>(xs: seq<A>, f: A -> seq<B>, g: A -> seq<C>)
    requires forall i :: 0 <= i < |xs| ==> |f(xs[i])| == |g(xs[i])|
    ensures TotalLength(xs, f) == TotalLength(xs, g)
  {
    if |xs| > 0 {
      TotalLengthSameShape(xs[..|xs| - 1], f, g);
    }
  }

  lemma SameShapeOffsets<A, B, C>(xs: seq<A>, f: A -> seq<B>, g: A -> seq<C>)
    requires forall i :: 0 <= i < |xs| ==> |f(xs[i])| == |g(xs[i])|
    ensures TotalLength(xs, f) == TotalLength(xs, g)
    ensures forall i :: 0 <= i <= |xs| ==> Offset(xs, f, i) == Offset(xs, g, i)
  {
    TotalLengthSameShape(xs, f, g);
    forall i | 0 <= i <= |xs| ensures Offset(xs, f, i) == Offset(xs, g, i) {
      TotalLengthSameShape(xs[..i], f, g);
    }
  }

  /** When every piece of `g` is the piece of `f` mapped through `h`, the
      flattening by `g` is the flattening by `f` mapped through `h`. */
  lemma {:induction false} FlatMapMapped<A, B, C>(xs: seq<A>, f: A -> seq<B>, g: A -> seq<C>, h: B -> C)
    requires forall i :: 0 <= i < |xs| ==> |g(xs[i])| == |f(xs[i])|
    requires forall i, j :: 0 <= i < |xs| && 0 <= j < |f(xs[i])| ==> g(xs[i])[j] == h(f(xs[i])[j])
    ensures |FlatMap(xs, g)| == |FlatMap(xs, f)|
    ensures forall k :: 0 <= k < |FlatMap(xs, f)| ==> FlatMap(xs, g)[k] == h(FlatMap(xs, f)[k])
  {
    if |xs| > 0 {
      assert forall i :: 0 <= i < |xs[1..]| ==> xs[1..][i] == xs[i + 1];
      FlatMapMapped(xs[1..], f, g, h);
    }
  }
}
