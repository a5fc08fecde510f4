/** Greedy byte-pair merging: the leftmost pair of the lowest rank, until no pair has a rank. */
module BytePairMerging {
  import opened ByteStrings
  import opened ByteAlphabet
  import opened Wrappers

  /** The rank table is keyed by the two symbols joined with a NUL byte. */
  function PairKey(a: Bytes, b: Bytes): Bytes {
    a + [0] + b
  }

  type Ranks = map<Bytes, nat>

  /** The joined key is unambiguous as soon as one side's symbols hold no NUL, whatever the table's spellings hold. */
  lemma PairKeyIsUnambiguous(a: Bytes, b: Bytes, c: Bytes, d: Bytes)
    requires 0 !in a && 0 !in b
    requires PairKey(a, b) == PairKey(c, d)
    ensures a == c && b == d
  {
    var k := PairKey(a, b);
    assert k[|a|] == 0 && k[|c|] == 0;
    assert k == a + ([0] + b);
    assert |a| == |c| by {
      assert forall i :: 0 <= i < |k| && k[i] == 0 ==> i == |a|;
    }
    assert a == k[..|a|] && c == k[..|c|] && b == k[|a| + 1..] && d == k[|c| + 1..];
  }

  predicate Ranked(ranks: Ranks, symbols: seq<Bytes>, i: int) {
    0 <= i < |symbols| - 1 && PairKey(symbols[i], symbols[i + 1]) in ranks
  }

  function RankAt(ranks: Ranks, symbols: seq<Bytes>, i: int): nat
    requires Ranked(ranks, symbols, i)
  {
    ranks[PairKey(symbols[i], symbols[i + 1])]
  }

  /** The leftmost pair of the lowest rank. */
  ghost predicate IsBest(ranks: Ranks, symbols: seq<Bytes>, at: int) {
    && Ranked(ranks, symbols, at)
    && forall j :: Ranked(ranks, symbols, j) ==>
         && RankAt(ranks, symbols, at) <= RankAt(ranks, symbols, j)
         && (RankAt(ranks, symbols, at) == RankAt(ranks, symbols, j) ==> at <= j)
  }

  function MergeAt(symbols: seq<Bytes>, at: nat): (merged: seq<Bytes>)
    requires at + 1 < |symbols|
    ensures |merged| == |symbols| - 1
  {
    symbols[..at] + [symbols[at] + symbols[at + 1]] + symbols[at + 2..]
  }

  /** A run of merges, each at the leftmost pair of the lowest rank. */
  ghost predicate Merges(ranks: Ranks, from: seq<Bytes>, to: seq<Bytes>)
    decreases |from|
  {
    from == to || exists at: nat :: IsBest(ranks, from, at) && Merges(ranks, MergeAt(from, at), to)
  }

  ghost predicate Irreducible(ranks: Ranks, symbols: seq<Bytes>) {
    forall i :: !Ranked(ranks, symbols, i)
  }

  /** One scan over the adjacent pairs; None when no pair has a rank. */
  method FindBest(ranks: Ranks, symbols: seq<Bytes>) returns (at: Option<nat>)
    requires |symbols| > 0
    ensures at.Some? ==> IsBest(ranks, symbols, at.value)
    ensures at.None? ==> Irreducible(ranks, symbols)
  {
    at := None;
    var best := 0;
    for i := 0 to |symbols| - 1
      invariant at.Some? ==>
        Ranked(ranks, symbols, at.value) && RankAt(ranks, symbols, at.value) == best && at.value < i
      invariant at.Some? ==> forall j :: 0 <= j < i && Ranked(ranks, symbols, j) ==>
        best <= RankAt(ranks, symbols, j) && (best == RankAt(ranks, symbols, j) ==> at.value <= j)
      invariant at.None? ==> forall j :: 0 <= j < i ==> !Ranked(ranks, symbols, j)
    {
      var key := PairKey(symbols[i], symbols[i + 1]);
      if key in ranks && (at.None? || ranks[key] < best) {
        best, at := ranks[key], Some(i);
      }
    }
  }

  lemma {:induction false} MergesOnce(ranks: Ranks, from: seq<Bytes>, mid: seq<Bytes>, at: nat)
    requires Merges(ranks, from, mid) && IsBest(ranks, mid, at)
    ensures Merges(ranks, from, MergeAt(mid, at))
    decreases |from|
  {
    var to := MergeAt(mid, at);
    if from == mid {
      assert Merges(ranks, MergeAt(from, at), to);
    } else {
      var first: nat :| IsBest(ranks, from, first) && Merges(ranks, MergeAt(from, first), mid);
      MergesOnce(ranks, MergeAt(from, first), mid, at);
    }
  }

  lemma BestBelow(ranks: Ranks, symbols: seq<Bytes>, n: nat) returns (at: Option<nat>)
    ensures at.Some? ==> at.value < n && Ranked(ranks, symbols, at.value)
    ensures at.Some? ==> forall j :: 0 <= j < n && Ranked(ranks, symbols, j) ==>
      var best := RankAt(ranks, symbols, at.value);
      best <= RankAt(ranks, symbols, j) && (best == RankAt(ranks, symbols, j) ==> at.value <= j)
    ensures at.None? ==> forall j :: 0 <= j < n ==> !Ranked(ranks, symbols, j)
  {
    if n == 0 {
      at := None;
    } else {
      at := BestBelow(ranks, symbols, n - 1);
      if Ranked(ranks, symbols, n - 1) &&
        (at.None? || RankAt(ranks, symbols, n - 1) < RankAt(ranks, symbols, at.value)) {
        at := Some(n - 1);
      }
    }
  }

  lemma BestExists(ranks: Ranks, symbols: seq<Bytes>)
    requires !Irreducible(ranks, symbols)
    ensures exists at: nat :: IsBest(ranks, symbols, at)
  {
    var at := BestBelow(ranks, symbols, |symbols|);
    assert IsBest(ranks, symbols, at.value);
  }

  /** The outcome of merging: the irreducible end of a greedy run. */
  ghost function Merged(ranks: Ranks, from: seq<Bytes>): (to: seq<Bytes>)
    ensures Merges(ranks, from, to) && Irreducible(ranks, to)
    decreases |from|
  {
    if Irreducible(ranks, from) then from
    else
      BestExists(ranks, from);
      var at: nat :| IsBest(ranks, from, at);
      Merged(ranks, MergeAt(from, at))
  }

  /** The merge loop of one piece. */
  method MergeSymbols(ranks: Ranks, initial: seq<Bytes>) returns (symbols: seq<Bytes>)
    ensures symbols == Merged(ranks, initial)
  {
    symbols := initial;
    while |symbols| > 1
      invariant Merges(ranks, initial, symbols)
      decreases |symbols|
    {
      var at := FindBest(ranks, symbols);
      if at.None? {
        break;
      }
      MergesOnce(ranks, initial, symbols, at.value);
      symbols := MergeAt(symbols, at.value);
    }
    MergingIsDeterministic(ranks, initial, symbols, Merged(ranks, initial));
  }

  /** The leftmost best pair is unique, so the result of merging is determined. */
  lemma {:induction false} MergingIsDeterministic(ranks: Ranks, from: seq<Bytes>, a: seq<Bytes>, b: seq<Bytes>)
    requires Merges(ranks, from, a) && Irreducible(ranks, a)
    requires Merges(ranks, from, b) && Irreducible(ranks, b)
    ensures a == b
    decreases |from|
  {
    if from != a && from != b {
      var i: nat :| IsBest(ranks, from, i) && Merges(ranks, MergeAt(from, i), a);
      var j: nat :| IsBest(ranks, from, j) && Merges(ranks, MergeAt(from, j), b);
      assert Ranked(ranks, from, i) && Ranked(ranks, from, j);
      MergingIsDeterministic(ranks, MergeAt(from, i), a, b);
    }
  }

  lemma {:induction false} MergeKeepsText(symbols: seq<Bytes>, at: nat)
    requires at + 1 < |symbols|
    ensures Flatten(MergeAt(symbols, at)) == Flatten(symbols)
    decreases at
  {
    var merged := MergeAt(symbols, at);
    if at == 0 {
      assert merged[1..] == symbols[1..][1..] == symbols[2..];
      Assoc(symbols[0], symbols[1], Flatten(symbols[2..]));
    } else {
      assert merged[0] == symbols[0] && merged[1..] == MergeAt(symbols[1..], at - 1);
      MergeKeepsText(symbols[1..], at - 1);
    }
  }

  /** Merging never changes the text. */
  lemma {:induction false} MergingKeepsText(ranks: Ranks, from: seq<Bytes>, to: seq<Bytes>)
    requires Merges(ranks, from, to)
    ensures Flatten(to) == Flatten(from)
    decreases |from|
  {
    if from != to {
      var at: nat :| IsBest(ranks, from, at) && Merges(ranks, MergeAt(from, at), to);
      MergeKeepsText(from, at);
      MergingKeepsText(ranks, MergeAt(from, at), to);
    }
  }

  /** Every ranked pair was admitted with a vocabulary entry for its concatenation. */
  ghost predicate RanksWithin(ranks: Ranks, vocab: set<Bytes>) {
    forall key :: key in ranks ==> exists a, b :: key == PairKey(a, b) && a + b in vocab
  }

  /** NUL-free symbols of the vocabulary. */
  ghost predicate Known(symbols: seq<Bytes>, vocab: set<Bytes>) {
    forall s :: s in symbols ==> s in vocab && 0 !in s
  }

  lemma MergeStaysKnown(ranks: Ranks, vocab: set<Bytes>, symbols: seq<Bytes>, at: nat)
    requires RanksWithin(ranks, vocab) && Known(symbols, vocab) && Ranked(ranks, symbols, at)
    ensures Known(MergeAt(symbols, at), vocab)
  {
    var x, y := symbols[at], symbols[at + 1];
    var a, b :| PairKey(x, y) == PairKey(a, b) && a + b in vocab;
    PairKeyIsUnambiguous(x, y, a, b);
  }

  /** The vocabulary lookup behind the merge loop never fails. */
  lemma {:induction false} MergingStaysKnown(ranks: Ranks, vocab: set<Bytes>, from: seq<Bytes>, to: seq<Bytes>)
    requires RanksWithin(ranks, vocab) && Known(from, vocab) && Merges(ranks, from, to)
    ensures Known(to, vocab)
    decreases |from|
  {
    if from != to {
      var at: nat :| IsBest(ranks, from, at) && Merges(ranks, MergeAt(from, at), to);
      MergeStaysKnown(ranks, vocab, from, at);
      MergingStaysKnown(ranks, vocab, MergeAt(from, at), to);
    }
  }
}
