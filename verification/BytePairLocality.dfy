/** Merging is local: what becomes of a stretch of symbols does not depend on what stands beside it. */
module BytePairLocality {
  import opened ByteStrings
  import opened BytePairMerging

  ghost predicate NoneEmpty(symbols: seq<Bytes>) {
    forall i :: 0 <= i < |symbols| ==> symbols[i] != []
  }

  function Size(symbols: seq<Bytes>): nat { |Flatten(symbols)| }

  lemma SizePlus(a: seq<Bytes>, b: seq<Bytes>)
    ensures Size(a + b) == Size(a) + Size(b)
  {
    FlattenAppend(a, b);
  }

  lemma SizeOne(x: Bytes)
    ensures Size([x]) == |x|
  {
    assert Flatten([x]) == x + Flatten([x][1..]) == x;
  }

  /** Longer fronts of nonempty symbols hold more text. */
  lemma {:induction false} SizeGrows(symbols: seq<Bytes>, i: nat, j: nat)
    requires NoneEmpty(symbols) && i <= j <= |symbols|
    ensures Size(symbols[..i]) + (j - i) <= Size(symbols[..j])
  {
    if i < j {
      SizeGrows(symbols, i, j - 1);
      assert symbols[..j] == symbols[..j - 1] + [symbols[j - 1]];
      SizePlus(symbols[..j - 1], [symbols[j - 1]]);
      SizeOne(symbols[j - 1]);
    }
  }

  lemma MergeStaysNonempty(symbols: seq<Bytes>, at: nat)
    requires NoneEmpty(symbols) && at + 1 < |symbols|
    ensures NoneEmpty(MergeAt(symbols, at))
  {
  }

  // ---- Boundaries only disappear --------------------------------------------------------------------

  /** Every boundary after one merge was a boundary before. */
  lemma BoundaryBefore(symbols: seq<Bytes>, at: nat, k: nat) returns (j: nat)
    requires at + 1 < |symbols| && k <= |symbols| - 1
    ensures j <= |symbols| && Size(symbols[..j]) == Size(MergeAt(symbols, at)[..k])
    ensures j != at + 1
  {
    var merged := MergeAt(symbols, at);
    if k <= at {
      j := k;
      assert merged[..k] == symbols[..k];
    } else {
      j := k + 1;
      var front := symbols[..j];
      assert merged[..k] == MergeAt(front, at);
      MergeKeepsText(front, at);
    }
  }

  lemma {:induction false} BoundaryWasThere(ranks: Ranks, from: seq<Bytes>, to: seq<Bytes>, k: nat) returns (j: nat)
    requires Merges(ranks, from, to) && k <= |to|
    ensures j <= |from| && Size(from[..j]) == Size(to[..k])
    decreases |from|
  {
    if from == to {
      j := k;
    } else {
      var at: nat :| IsBest(ranks, from, at) && Merges(ranks, MergeAt(from, at), to);
      var i := BoundaryWasThere(ranks, MergeAt(from, at), to, k);
      j := BoundaryBefore(from, at, i);
    }
  }

  /** A merge across a boundary removes it for good. */
  lemma MergedBoundaryIsGone(ranks: Ranks, symbols: seq<Bytes>, at: nat, to: seq<Bytes>, k: nat)
    requires NoneEmpty(symbols) && at + 1 < |symbols|
    requires Merges(ranks, MergeAt(symbols, at), to) && k <= |to|
    ensures Size(to[..k]) != Size(symbols[..at + 1])
  {
    var i := BoundaryWasThere(ranks, MergeAt(symbols, at), to, k);
    var j := BoundaryBefore(symbols, at, i);
    if j < at + 1 {
      SizeGrows(symbols, j, at + 1);
    } else {
      SizeGrows(symbols, at + 1, j);
    }
  }

  // ---- One stretch ------------------------------------------------------------------------------------

  /** The stretch y between x and z ends up as the single symbol s, between a and c. */
  ghost predicate Frames(x: seq<Bytes>, y: seq<Bytes>, z: seq<Bytes>, a: seq<Bytes>, s: Bytes, c: seq<Bytes>) {
    NoneEmpty(x + y + z) && y != [] && Size(x) == Size(a) && Flatten(y) == s
  }

  lemma BestInside(ranks: Ranks, x: seq<Bytes>, y: seq<Bytes>, z: seq<Bytes>, at: nat)
    requires IsBest(ranks, x + y + z, |x| + at) && at + 1 < |y|
    ensures IsBest(ranks, y, at)
  {
    var all := x + y + z;
    forall j | 0 <= j < |y| ensures all[|x| + j] == y[j] {}
    forall j | Ranked(ranks, y, j)
      ensures RankAt(ranks, y, at) <= RankAt(ranks, y, j) && (RankAt(ranks, y, at) == RankAt(ranks, y, j) ==> at <= j)
    {
      assert Ranked(ranks, all, |x| + j) && RankAt(ranks, all, |x| + j) == RankAt(ranks, y, j);
    }
  }

  lemma MergeInFront(x: seq<Bytes>, y: seq<Bytes>, z: seq<Bytes>, at: nat)
    requires at + 1 < |x|
    ensures MergeAt(x + y + z, at) == MergeAt(x, at) + y + z
  {
  }

  lemma MergeInside(x: seq<Bytes>, y: seq<Bytes>, z: seq<Bytes>, at: nat)
    requires at + 1 < |y|
    ensures MergeAt(x + y + z, |x| + at) == x + MergeAt(y, at) + z
  {
  }

  lemma MergeBehind(x: seq<Bytes>, y: seq<Bytes>, z: seq<Bytes>, at: nat)
    requires at + 1 < |z|
    ensures MergeAt(x + y + z, |x| + |y| + at) == x + y + MergeAt(z, at)
  {
  }

  /** When nothing is left to merge, the stretch is the symbol already. */
  lemma NothingMerged(x: seq<Bytes>, y: seq<Bytes>, z: seq<Bytes>, a: seq<Bytes>, s: Bytes, c: seq<Bytes>)
    requires Frames(x, y, z, a, s, c) && x + y + z == a + [s] + c
    ensures y == [s]
  {
    var all := x + y + z;
    assert all[..|x|] == x && all[..|a|] == a && all[..|x| + |y|] == x + y && all[..|a| + 1] == a + [s];
    SizePlus(x, y);
    SizePlus(a, [s]);
    SizeOne(s);
    SizeGrows(all, if |x| < |a| then |x| else |a|, if |x| < |a| then |a| else |x|);
    var m, n := |x| + |y|, |a| + 1;
    SizeGrows(all, if m < n then m else n, if m < n then n else m);
    assert y[0] == all[|x|];
  }

  /** Locality: the merges inside a stretch that survives as one symbol are the merges of that stretch alone. */
  lemma {:induction false} StretchMergesAlone(ranks: Ranks, x: seq<Bytes>, y: seq<Bytes>, z: seq<Bytes>,
                                              a: seq<Bytes>, s: Bytes, c: seq<Bytes>)
    requires Frames(x, y, z, a, s, c) && Merges(ranks, x + y + z, a + [s] + c)
    ensures Merges(ranks, y, [s])
    decreases |x + y + z|
  {
    hide MergeAt, IsBest, NoneEmpty, Flatten;
    var all, to := x + y + z, a + [s] + c;
    if all == to {
      NothingMerged(x, y, z, a, s, c);
    } else {
      var at := FirstMerge(ranks, all, to);
      BoundariesStay(ranks, x, y, z, a, s, c, at);
      MergeStaysNonempty(all, at);
      if at + 1 < |x| {
        MergeInFront(x, y, z, at);
        MergeKeepsText(x, at);
        StretchMergesAlone(ranks, MergeAt(x, at), y, z, a, s, c);
      } else if at >= |x| + |y| {
        MergeBehind(x, y, z, at - |x| - |y|);
        StretchMergesAlone(ranks, x, y, MergeAt(z, at - |x| - |y|), a, s, c);
      } else {
        var k := at - |x|;
        MergeInside(x, y, z, k);
        MergeKeepsText(y, k);
        BestInside(ranks, x, y, z, k);
        StretchMergesAlone(ranks, x, MergeAt(y, k), z, a, s, c);
      }
    }
  }

  lemma FirstMerge(ranks: Ranks, from: seq<Bytes>, to: seq<Bytes>) returns (at: nat)
    requires Merges(ranks, from, to) && from != to
    ensures at + 1 < |from| && IsBest(ranks, from, at) && Merges(ranks, MergeAt(from, at), to)
  {
    at :| IsBest(ranks, from, at) && Merges(ranks, MergeAt(from, at), to);
  }

  /** No merge goes across either end of the stretch. */
  lemma BoundariesStay(ranks: Ranks, x: seq<Bytes>, y: seq<Bytes>, z: seq<Bytes>, a: seq<Bytes>, s: Bytes,
                       c: seq<Bytes>, at: nat)
    requires Frames(x, y, z, a, s, c) && at + 1 < |x + y + z|
    requires Merges(ranks, MergeAt(x + y + z, at), a + [s] + c)
    ensures at + 1 != |x| && at + 1 != |x| + |y|
  {
    hide MergeAt, NoneEmpty, Merges;
    var all, to := x + y + z, a + [s] + c;
    MergedBoundaryIsGone(ranks, all, at, to, |a|);
    MergedBoundaryIsGone(ranks, all, at, to, |a| + 1);
    assert to[..|a|] == a && to[..|a| + 1] == a + [s] && all[..|x|] == x && all[..|x| + |y|] == x + y;
    SizePlus(x, y);
    SizePlus(a, [s]);
    SizeOne(s);
  }
}
