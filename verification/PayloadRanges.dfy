/** Byte ranges of tensors: when a cursor walk over the sorted ranges succeeds, and what that means. */
module PayloadRanges {
  import opened StableSort

  datatype Range = Range(name: string, begin: int, end: int)

  predicate Nonempty(s: seq<Range>) { forall r :: r in s ==> r.begin < r.end }

  function At(p: int): Range -> bool { (r: Range) => r.begin <= p < r.end }

  /** Every byte from one end to the other lies in exactly one range, and no other byte lies in any. */
  ghost predicate ExactCover(s: seq<Range>, from: int, to: int) {
    forall p: int :: Count(s, At(p)) == if from <= p < to then 1 else 0
  }

  /** The ranges follow each other without gap or overlap. */
  predicate Tiles(s: seq<Range>, from: int, to: int) {
    if s == [] then from == to else s[0].begin == from && Tiles(s[1..], s[0].end, to)
  }

  predicate ByBegin(s: seq<Range>) { forall i, j :: 0 <= i < j < |s| ==> s[i].begin <= s[j].begin }

  lemma {:induction false} TilesGoForward(s: seq<Range>, from: int, to: int)
    requires Nonempty(s) && Tiles(s, from, to)
    ensures from <= to && (s != [] ==> from < to)
  {
    if s != [] {
      assert s[0] in s;
      TilesGoForward(s[1..], s[0].end, to);
    }
  }

  lemma {:induction false} NothingBefore(s: seq<Range>, p: int)
    requires forall r :: r in s ==> p < r.begin
    ensures Count(s, At(p)) == 0
  {
    if s != [] {
      assert s[0] in s;
      NothingBefore(s[1..], p);
    }
  }

  lemma {:induction false} TilesCover(s: seq<Range>, from: int, to: int)
    requires Nonempty(s) && Tiles(s, from, to)
    ensures ExactCover(s, from, to)
  {
    if s != [] {
      assert s[0] in s;
      TilesGoForward(s[1..], s[0].end, to);
      TilesCover(s[1..], s[0].end, to);
      forall p: int ensures Count(s, At(p)) == if from <= p < to then 1 else 0 {
        assert Count(s[1..], At(p)) == if s[0].end <= p < to then 1 else 0;
      }
    }
  }

  lemma CoverBegins(s: seq<Range>, from: int, to: int)
    requires s != [] && Nonempty(s) && ByBegin(s) && from <= to && ExactCover(s, from, to)
    ensures s[0].begin == from && s[0].end <= to
  {
    var a := s[0];
    assert a in s && Count(s, At(a.begin)) >= 1 && Count(s, At(a.end - 1)) >= 1;
    if from < a.begin {
      NothingBefore(s, from);
    }
  }

  /** Between ranges sorted by their beginnings, covering exactly and tiling are the same. */
  lemma {:induction false} CoverTiles(s: seq<Range>, from: int, to: int)
    requires Nonempty(s) && ByBegin(s) && from <= to && ExactCover(s, from, to)
    ensures Tiles(s, from, to)
  {
    if s == [] {
      assert Count(s, At(from)) == 0;
    } else {
      var a := s[0];
      assert a in s;
      CoverBegins(s, from, to);
      forall p: int ensures Count(s[1..], At(p)) == if a.end <= p < to then 1 else 0 {
        assert Count(s, At(p)) == if from <= p < to then 1 else 0;
      }
      CoverTiles(s[1..], a.end, to);
    }
  }

  lemma CoverPermutes(s: seq<Range>, t: seq<Range>, from: int, to: int)
    requires multiset(s) == multiset(t)
    ensures ExactCover(s, from, to) <==> ExactCover(t, from, to)
    ensures Nonempty(s) <==> Nonempty(t)
  {
    forall p: int ensures Count(s, At(p)) == Count(t, At(p)) {
      CountPermutes(s, t, At(p));
    }
    forall r ensures r in s <==> r in t {
      assert r in multiset(s) <==> r in multiset(t);
    }
  }

  // ---- The walk ----------------------------------------------------------------------------------------------

  /** Moves a cursor over sorted ranges and fails at the first gap or overlap. */
  method Walk(ordered: seq<Range>, from: int, to: int) returns (ok: bool)
    ensures ok <==> Tiles(ordered, from, to)
  {
    hide Tiles;
    var cursor := from;
    assert ordered[0..] == ordered;
    for i := 0 to |ordered|
      invariant Tiles(ordered, from, to) <==> Tiles(ordered[i..], cursor, to)
    {
      TilesStep(ordered, i, cursor, to);
      if ordered[i].begin < cursor { return false; }
      if ordered[i].begin > cursor { return false; }
      cursor := ordered[i].end;
    }
    TilesEnd(cursor, to);
    assert ordered[|ordered|..] == [];
    return cursor == to;
  }

  lemma TilesStep(s: seq<Range>, i: nat, cursor: int, to: int)
    requires i < |s|
    ensures Tiles(s[i..], cursor, to) <==> s[i].begin == cursor && Tiles(s[i + 1..], s[i].end, to)
  {
    assert s[i..][1..] == s[i + 1..];
  }

  lemma TilesEnd(cursor: int, to: int)
    ensures Tiles([], cursor, to) <==> cursor == to
  {
  }

  /** Sorting by begin, end and name. */
  function ByOffset(): (Range, Range) -> bool {
    (a: Range, b: Range) => OffsetLess(a, b)
  }

  predicate OffsetLess(a: Range, b: Range) {
    a.begin < b.begin || (a.begin == b.begin && (a.end < b.end || (a.end == b.end && StringLess(a.name, b.name))))
  }

  lemma ByOffsetIsOrder()
    ensures WeakOrder(ByOffset())
  {
    forall x: Range, y: Range, z: Range
      ensures !OffsetLess(x, x)
      ensures OffsetLess(x, y) && OffsetLess(y, z) ==> OffsetLess(x, z)
      ensures OffsetLess(x, z) ==> OffsetLess(x, y) || OffsetLess(y, z)
    {
      StringLessCompares(x.name, y.name, z.name);
    }
  }

  lemma SortedByOffset(s: seq<Range>)
    ensures ByBegin(Sort(s, ByOffset()))
  {
    ByOffsetIsOrder();
    SortIsStable(s, ByOffset());
    var t := Sort(s, ByOffset());
    forall i, j | 0 <= i < j < |t| ensures t[i].begin <= t[j].begin {
      assert !ByOffset()(t[j], t[i]);
    }
  }

  lemma SortedTilesIffCovered(s: seq<Range>, t: seq<Range>, from: int, to: int)
    requires Nonempty(s) && multiset(t) == multiset(s) && ByBegin(t) && from <= to
    ensures Tiles(t, from, to) <==> ExactCover(s, from, to)
  {
    CoverPermutes(s, t, from, to);
    if Tiles(t, from, to) {
      TilesCover(t, from, to);
    }
    if ExactCover(t, from, to) {
      CoverTiles(t, from, to);
    }
  }

  /** Accepts exactly the tensors that put every payload byte into one of them. */
  method ValidateContiguousRanges(tensors: seq<Range>, dataBytes: nat) returns (ok: bool)
    requires Nonempty(tensors)
    ensures ok <==> ExactCover(tensors, 0, dataBytes)
  {
    var ordered := Sort(tensors, ByOffset());
    SortedByOffset(tensors);
    SortedTilesIffCovered(tensors, ordered, 0, dataBytes);
    ok := Walk(ordered, 0, dataBytes);
  }
}
