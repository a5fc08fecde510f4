/** The tables of an admitted tokenizer, entry by entry, and greedy merging by the list of merges alone. */
module TokenizerTables {
  import opened ByteStrings
  import opened ByteAlphabet
  import opened BytePairMerging
  import opened TokenDecoding
  import opened TokenizerAdmission
  import opened TokenizerEncoding
  import opened TokenizerRoundTrip
  import opened Wrappers

  // ---- Added tokens --------------------------------------------------------------------------------------------

  /** Every added token is supported and in range, and no two share a text or an id. */
  predicate AddedDistinct(f: Family, list: seq<AddedToken>) {
    && (forall i :: 0 <= i < |list| ==>
        list[i].text != [] && 0 <= list[i].id < (if f.Qwen3? then 151936 else 129280) && !list[i].unsupported)
    && (forall i, j :: 0 <= i < j < |list| ==> list[i].text != list[j].text && list[i].id != list[j].id)
  }

  lemma {:induction false} SpecialsByIndex(list: seq<AddedToken>)
    ensures |SpecialsOf(list)| == |list|
    ensures forall i :: 0 <= i < |list| ==> SpecialsOf(list)[i] == Entry(list[i].text, list[i].id)
  {
    if list != [] {
      SpecialsByIndex(list[..|list| - 1]);
    }
  }

  lemma {:induction false} AddedIds(f: Family, list: seq<AddedToken>, id: int)
    ensures id in AddedOf(f, list) <==> exists i :: 0 <= i < |list| && list[i].id == id
  {
    if list != [] {
      var n := |list| - 1;
      AddedIds(f, list[..n], id);
      assert forall i :: 0 <= i < n ==> list[..n][i] == list[i];
    }
  }

  lemma AddedFitsIs(f: Family, list: seq<AddedToken>, n: nat)
    requires n < |list|
    ensures AddedFits(f, list, n) <==>
      && list[n].text != [] && 0 <= list[n].id < (if f.Qwen3? then 151936 else 129280) && !list[n].unsupported
      && forall i :: 0 <= i < n ==> list[i].text != list[n].text && list[i].id != list[n].id
  {
    var front := list[..n];
    SpecialsByIndex(front);
    AddedIds(f, front, list[n].id);
    assert forall i :: 0 <= i < n ==> front[i] == list[i] && SpecialsOf(front)[i] in SpecialsOf(front);
    if AddedFits(f, list, n) {
      forall i | 0 <= i < n ensures list[i].text != list[n].text && list[i].id != list[n].id {
        assert front[i] == list[i];
      }
    }
  }

  lemma AllAddedFit(f: Family, list: seq<AddedToken>)
    ensures (forall n :: 0 <= n < |list| ==> AddedFits(f, list, n)) <==> AddedDistinct(f, list)
  {
    hide AddedFits;
    forall n | 0 <= n < |list| {
      AddedFitsIs(f, list, n);
    }
  }

  lemma {:induction false} AddedByIndex(f: Family, list: seq<AddedToken>, i: nat)
    requires AddedDistinct(f, list) && i < |list|
    ensures list[i].id in AddedOf(f, list)
    ensures AddedOf(f, list)[list[i].id] == if f.Qwen3? && list[i].special then [] else list[i].text
  {
    var n := |list| - 1;
    if i < n {
      AddedByIndex(f, list[..n], i);
    }
  }

  // ---- Vocabulary ----------------------------------------------------------------------------------------------

  /** Every entry is in range, and no two share a text or an id. */
  predicate VocabDistinct(f: Family, list: seq<Entry>) {
    && (forall i :: 0 <= i < |list| ==> 0 <= list[i].id < (if f.Qwen3? then 151936 else 129280))
    && (forall i, j :: 0 <= i < j < |list| ==> list[i].text != list[j].text && list[i].id != list[j].id)
  }

  lemma {:induction false} VocabKeys(list: seq<Entry>, s: Bytes, id: int)
    ensures s in VocabOf(list) <==> exists i :: 0 <= i < |list| && list[i].text == s
    ensures id in SpellingOf(list) <==> exists i :: 0 <= i < |list| && list[i].id == id
  {
    if list != [] {
      var n := |list| - 1;
      VocabKeys(list[..n], s, id);
      assert forall i :: 0 <= i < n ==> list[..n][i] == list[i];
    }
  }

  lemma EntryFitsIs(f: Family, list: seq<Entry>, n: nat)
    requires n < |list|
    ensures EntryFits(f, list, n) <==>
      && 0 <= list[n].id < (if f.Qwen3? then 151936 else 129280)
      && forall i :: 0 <= i < n ==> list[i].text != list[n].text && list[i].id != list[n].id
  {
    var front := list[..n];
    VocabKeys(front, list[n].text, list[n].id);
    assert forall i :: 0 <= i < n ==> front[i] == list[i];
    if EntryFits(f, list, n) {
      forall i | 0 <= i < n ensures list[i].text != list[n].text && list[i].id != list[n].id {
        assert front[i] == list[i];
      }
    }
  }

  lemma AllEntriesFit(f: Family, list: seq<Entry>)
    ensures (forall n :: 0 <= n < |list| ==> EntryFits(f, list, n)) <==> VocabDistinct(f, list)
  {
    hide EntryFits;
    forall n | 0 <= n < |list| {
      EntryFitsIs(f, list, n);
    }
  }

  lemma {:induction false} VocabByIndex(f: Family, list: seq<Entry>, i: nat)
    requires VocabDistinct(f, list) && i < |list|
    ensures list[i].text in VocabOf(list) && VocabOf(list)[list[i].text] == list[i].id
    ensures list[i].id in SpellingOf(list) && SpellingOf(list)[list[i].id] == list[i].text
  {
    var n := |list| - 1;
    if i < n {
      VocabByIndex(f, list[..n], i);
    }
  }

  // ---- Merges ----------------------------------------------------------------------------------------------------

  /** The merge joins a and b: a pair of them, or a line with its first space between them. */
  predicate JoinsPair(m: Merge, a: Bytes, b: Bytes) {
    match m
    case Pair(first, second) => first == a && second == b
    case Line(text) => text == a + [0x20] + b && 0x20 !in a
  }

  lemma SpaceAt(text: Bytes, i: nat)
    requires i < |text|
    ensures OccursAt(text, [0x20], i) <==> text[i] == 0x20
  {
    assert text[i..][0] == text[i];
  }

  lemma FirstSpace(text: Bytes)
    requires Find(text, [0x20]).Some?
    ensures var at := Find(text, [0x20]).value;
      at < |text| && text == text[..at] + [0x20] + text[at + 1..] && 0x20 !in text[..at]
  {
    var at := Find(text, [0x20]).value;
    assert text[at..][0] == 0x20;
    forall i | 0 <= i < at ensures text[i] != 0x20 {
      SpaceAt(text, i);
    }
  }

  lemma SpaceIsFound(a: Bytes, b: Bytes)
    requires 0x20 !in a
    ensures Find(a + [0x20] + b, [0x20]) == Some(|a|)
  {
    var text := a + [0x20] + b;
    SpaceAt(text, |a|);
    assert Contains(text, [0x20]);
    FirstSpace(text);
    var at := Find(text, [0x20]).value;
    assert text[..|a|] == a;
  }

  lemma HalvesAre(m: Merge, a: Bytes, b: Bytes)
    ensures Halves(m) == Some((a, b)) <==> JoinsPair(m, a, b)
  {
    if m.Line? {
      hide Find, Contains;
      if Halves(m) == Some((a, b)) {
        FirstSpace(m.text);
      }
      if JoinsPair(m, a, b) {
        SpaceIsFound(a, b);
        assert m.text[..|a|] == a && m.text[|a| + 1..] == b;
      }
    }
  }

  /** The merge has a key, and it is this one. */
  ghost predicate HasKey(m: Merge, key: Bytes) {
    exists a, b :: JoinsPair(m, a, b) && PairKey(a, b) == key
  }

  lemma KeyOfIs(m: Merge, key: Bytes)
    ensures HasKey(m, key) <==> Halves(m).Some? && KeyOf(m) == key
  {
    if Halves(m).Some? {
      var (a, b) := Halves(m).value;
      HalvesAre(m, a, b);
    }
    if HasKey(m, key) {
      var a, b :| JoinsPair(m, a, b) && PairKey(a, b) == key;
      HalvesAre(m, a, b);
    }
  }

  /** Every merge joins two entries into a third, and no two merges have the same key. */
  ghost predicate MergesDistinct(vocab: seq<Entry>, list: seq<Merge>) {
    (forall i :: 0 <= i < |list| ==> JoinsEntries(vocab, list[i])) && KeysDistinct(list)
  }

  ghost predicate JoinsEntries(vocab: seq<Entry>, m: Merge) {
    exists a, b :: JoinsPair(m, a, b) && IsEntry(vocab, a) && IsEntry(vocab, b) && IsEntry(vocab, a + b)
  }

  ghost predicate SameKey(m: Merge, n: Merge) {
    exists key :: HasKey(m, key) && HasKey(n, key)
  }

  ghost predicate KeysDistinct(list: seq<Merge>) {
    forall i, j :: 0 <= i < j < |list| ==> !SameKey(list[i], list[j])
  }

  predicate IsEntry(vocab: seq<Entry>, s: Bytes) { exists i :: 0 <= i < |vocab| && vocab[i].text == s }

  lemma {:induction false} RankKeys(list: seq<Merge>, key: Bytes)
    requires forall i :: 0 <= i < |list| ==> Halves(list[i]).Some?
    ensures key in RanksOf(list) <==> exists i :: 0 <= i < |list| && HasKey(list[i], key)
  {
    hide HasKey, KeyOf, Halves;
    if list != [] {
      var n := |list| - 1;
      assert forall i :: 0 <= i < n ==> list[..n][i] == list[i];
      RankKeys(list[..n], key);
      KeyOfIs(list[n], key);
    }
  }

  lemma MergeFitsIs(entries: seq<Entry>, list: seq<Merge>, n: nat)
    requires n < |list| && forall i :: 0 <= i < n ==> Halves(list[i]).Some?
    ensures MergeFits(VocabOf(entries), list, n) <==>
      JoinsEntries(entries, list[n]) && forall i :: 0 <= i < n ==> !SameKey(list[i], list[n])
  {
    hide HasKey, KeyOf, RanksOf, VocabOf, IsEntry, JoinsPair;
    var front := list[..n];
    assert forall i :: 0 <= i < n ==> front[i] == list[i];
    if Halves(list[n]).Some? {
      var (a, b) := Halves(list[n]).value;
      HalvesAre(list[n], a, b);
      EntriesAreKeys(entries, a);
      EntriesAreKeys(entries, b);
      EntriesAreKeys(entries, a + b);
      RankKeys(front, PairKey(a, b));
      KeyOfPair(list[n], a, b);
      forall c, d | JoinsPair(list[n], c, d) ensures c == a && d == b {
        HalvesAre(list[n], c, d);
      }
      forall key | HasKey(list[n], key) ensures key == PairKey(a, b) {
        KeyOfIs(list[n], key);
      }
    } else {
      forall c, d | JoinsPair(list[n], c, d) ensures false {
        HalvesAre(list[n], c, d);
      }
    }
  }

  lemma KeyOfPair(m: Merge, a: Bytes, b: Bytes)
    requires Halves(m) == Some((a, b))
    ensures KeyOf(m) == PairKey(a, b) && HasKey(m, PairKey(a, b))
  {
    HalvesAre(m, a, b);
  }

  lemma EntriesAreKeys(entries: seq<Entry>, s: Bytes)
    ensures s in VocabOf(entries) <==> IsEntry(entries, s)
  {
    VocabKeys(entries, s, 0);
  }

  lemma FitsHasHalves(vocab: map<Bytes, int>, list: seq<Merge>, n: nat)
    requires n < |list| && MergeFits(vocab, list, n)
    ensures Halves(list[n]).Some?
  {
  }

  lemma JoinsHasHalves(entries: seq<Entry>, m: Merge)
    requires JoinsEntries(entries, m)
    ensures Halves(m).Some?
  {
    var a, b :| JoinsPair(m, a, b) && IsEntry(entries, a) && IsEntry(entries, b) && IsEntry(entries, a + b);
    HalvesAre(m, a, b);
  }

  lemma FittingMergesAreDistinct(entries: seq<Entry>, list: seq<Merge>)
    requires forall n :: 0 <= n < |list| ==> MergeFits(VocabOf(entries), list, n)
    ensures MergesDistinct(entries, list)
  {
    hide MergeFits, SameKey, VocabOf, JoinsEntries, Halves;
    forall n | 0 <= n < |list| ensures Halves(list[n]).Some? {
      FitsHasHalves(VocabOf(entries), list, n);
    }
    forall i | 0 <= i < |list| ensures JoinsEntries(entries, list[i]) {
      MergeFitsIs(entries, list, i);
    }
    forall i, j | 0 <= i < j < |list| ensures !SameKey(list[i], list[j]) {
      MergeFitsIs(entries, list, j);
    }
  }

  lemma DistinctMergesFit(entries: seq<Entry>, list: seq<Merge>)
    requires MergesDistinct(entries, list)
    ensures forall n :: 0 <= n < |list| ==> MergeFits(VocabOf(entries), list, n)
  {
    hide MergeFits, SameKey, VocabOf, JoinsEntries, Halves;
    forall n | 0 <= n < |list| ensures Halves(list[n]).Some? {
      JoinsHasHalves(entries, list[n]);
    }
    forall n | 0 <= n < |list| ensures MergeFits(VocabOf(entries), list, n) {
      MergeFitsIs(entries, list, n);
    }
  }

  lemma AllMergesFit(entries: seq<Entry>, vocab: map<Bytes, int>, list: seq<Merge>)
    requires vocab == VocabOf(entries)
    ensures (forall n :: 0 <= n < |list| ==> MergeFits(vocab, list, n)) <==> MergesDistinct(entries, list)
  {
    hide MergeFits, VocabOf, MergesDistinct;
    if MergesDistinct(entries, list) {
      DistinctMergesFit(entries, list);
    } else if forall n :: 0 <= n < |list| ==> MergeFits(vocab, list, n) {
      FittingMergesAreDistinct(entries, list);
    }
  }

  /** DeepSeek ids leave no gap: entries up to 128000, and added tokens for 0 to 2 and from there on to 129279. */
  predicate NoGaps(inv: Inventory) {
    && |inv.vocab| == 128000 && |inv.added| == 1283
    && (forall id :: 0 <= id < 128000 ==> HasEntryId(inv.vocab, id))
    && (forall id :: 0 <= id < 129280 ==> (HasAddedId(inv.added, id) <==> id < 3 || id >= 128000))
  }

  predicate HasEntryId(list: seq<Entry>, id: int) { exists i :: 0 <= i < |list| && list[i].id == id }

  predicate HasAddedId(list: seq<AddedToken>, id: int) { exists i :: 0 <= i < |list| && list[i].id == id }

  lemma {:induction false} SpellingSize(f: Family, list: seq<Entry>)
    requires VocabDistinct(f, list)
    ensures |SpellingOf(list)| == |list|
  {
    if list != [] {
      var n := |list| - 1;
      SpellingSize(f, list[..n]);
      VocabKeys(list[..n], [], list[n].id);
    }
  }

  lemma {:induction false} AddedSize(f: Family, list: seq<AddedToken>)
    requires AddedDistinct(f, list)
    ensures |AddedOf(f, list)| == |list|
  {
    if list != [] {
      var n := |list| - 1;
      AddedSize(f, list[..n]);
      AddedIds(f, list[..n], list[n].id);
    }
  }

  lemma DenseIsNoGaps(inv: Inventory)
    requires AddedDistinct(inv.family, inv.added) && VocabDistinct(inv.family, inv.vocab)
    ensures Dense(Built(inv).tables) <==> NoGaps(inv)
  {
    hide AddedDistinct, VocabDistinct, AddedOf, VocabOf, SpellingOf, RanksOf, SpecialsOf;
    SpellingSize(inv.family, inv.vocab);
    AddedSize(inv.family, inv.added);
    forall id ensures id in SpellingOf(inv.vocab) <==> HasEntryId(inv.vocab, id) {
      VocabKeys(inv.vocab, [], id);
    }
    forall id ensures id in AddedOf(inv.family, inv.added) <==> HasAddedId(inv.added, id) {
      AddedIds(inv.family, inv.added, id);
    }
    hide HasEntryId, HasAddedId;
  }

  /**
   * Admission from the lists alone: supported, distinct and in-range added tokens among them the
   * expected ones, distinct in-range entries among them a letter for every byte, merges of entries
   * into an entry without repeated keys, and dense ids outside Qwen.
   */
  lemma AdmissibleExactly(inv: Inventory)
    ensures Admissible(inv) <==>
      && AddedDistinct(inv.family, inv.added)
      && (forall e :: e in Expected(inv.family) ==>
          exists i :: 0 <= i < |inv.added| && inv.added[i].text == e.text && inv.added[i].id == e.id)
      && VocabDistinct(inv.family, inv.vocab)
      && (!inv.family.Qwen3? ==> NoGaps(inv))
      && MergesDistinct(inv.vocab, inv.merges)
      && (forall b: Byte :: IsEntry(inv.vocab, Letter(b)))
  {
    hide AddedDistinct, VocabDistinct, MergesDistinct, Dense, NoGaps, Letter, IsEntry, AddedFits, EntryFits, MergeFits,
      Expected, AddedOf, VocabOf, SpellingOf, RanksOf, SpecialsOf;
    AllAddedFit(inv.family, inv.added);
    AllEntriesFit(inv.family, inv.vocab);
    if AddedDistinct(inv.family, inv.added) && VocabDistinct(inv.family, inv.vocab) {
      DenseIsNoGaps(inv);
    }
    AllMergesFit(inv.vocab, Built(inv).vocab, inv.merges);
    SpecialsByIndex(inv.added);
    var specials := SpecialsOf(inv.added);
    forall e: Entry ensures e in specials <==>
      exists i :: 0 <= i < |inv.added| && inv.added[i].text == e.text && inv.added[i].id == e.id
    {
      if i :| 0 <= i < |inv.added| && inv.added[i].text == e.text && inv.added[i].id == e.id {
        assert specials[i] == e;
      }
    }
    forall b: Byte ensures Letter(b) in VocabOf(inv.vocab) <==> IsEntry(inv.vocab, Letter(b)) {
      EntriesAreKeys(inv.vocab, Letter(b));
    }
  }

  // ---- Ranks -----------------------------------------------------------------------------------------------------

  lemma LastKey(m: Merge, key: Bytes)
    ensures HasKey(m, key) ==> KeyOf(m) == key
    ensures KeyOf(m) == key && |key| > 0 ==> HasKey(m, key)
  {
    KeyOfIs(m, key);
  }

  lemma KeyIsNotEmpty(m: Merge, key: Bytes)
    requires HasKey(m, key)
    ensures |key| > 0
  {
  }

  /** The rank of a merge is its place in the list. */
  lemma {:induction false} RankOfIndex(list: seq<Merge>, i: nat, key: Bytes)
    requires i < |list| && HasKey(list[i], key) && KeysDistinct(list)
    ensures key in RanksOf(list) && RanksOf(list)[key] == i
  {
    hide HasKey, KeyOf;
    var n := |list| - 1;
    LastKey(list[n], key);
    KeyIsNotEmpty(list[i], key);
    if i < n {
      var front := list[..n];
      forall j, k | 0 <= j < k < n ensures !SameKey(front[j], front[k]) {
        assert front[j] == list[j] && front[k] == list[k];
      }
      assert !SameKey(list[i], list[n]);
      RankOfIndex(front, i, key);
    }
  }

  lemma AdmittedMerges(inv: Inventory)
    requires Admissible(inv)
    ensures KeysDistinct(inv.merges) && forall i :: 0 <= i < |inv.merges| ==> Halves(inv.merges[i]).Some?
  {
    hide AddedFits, EntryFits, Dense, Letter, Expected, HasKey, JoinsPair, IsEntry, Halves,
      AddedOf, VocabOf, SpellingOf, RanksOf, SpecialsOf, MergeFits;
    AllMergesFit(inv.vocab, Built(inv).vocab, inv.merges);
    forall i | 0 <= i < |inv.merges| ensures Halves(inv.merges[i]).Some? {
      assert MergeFits(Built(inv).vocab, inv.merges, i);
      FitsHasHalves(Built(inv).vocab, inv.merges, i);
    }
  }

  /** A pair of symbols has a rank if and only if some merge joins it, and the rank is the place of that merge. */
  lemma RanksAreListed(inv: Inventory, a: Bytes, b: Bytes)
    requires Admissible(inv) && 0 !in a && 0 !in b
    ensures PairKey(a, b) in Built(inv).ranks <==> exists i :: 0 <= i < |inv.merges| && JoinsPair(inv.merges[i], a, b)
    ensures forall i :: 0 <= i < |inv.merges| && JoinsPair(inv.merges[i], a, b) ==>
      PairKey(a, b) in Built(inv).ranks && Built(inv).ranks[PairKey(a, b)] == i
  {
    hide Admissible, RanksOf, JoinsPair, KeysDistinct, AddedOf, VocabOf, SpellingOf, SpecialsOf, Halves;
    AdmittedMerges(inv);
    var key := PairKey(a, b);
    RankKeys(inv.merges, key);
    forall i | 0 <= i < |inv.merges| ensures HasKey(inv.merges[i], key) <==> JoinsPair(inv.merges[i], a, b) {
      if HasKey(inv.merges[i], key) {
        var c, d :| JoinsPair(inv.merges[i], c, d) && PairKey(c, d) == key;
        PairKeyIsUnambiguous(a, b, c, d);
      }
    }
    hide HasKey;
    forall i | 0 <= i < |inv.merges| && JoinsPair(inv.merges[i], a, b)
      ensures key in RanksOf(inv.merges) && RanksOf(inv.merges)[key] == i
    {
      RankOfIndex(inv.merges, i, key);
    }
  }

  // ---- Merging by the list -----------------------------------------------------------------------------------------

  /** The i-th merge joins the symbols at a place. */
  predicate Stands(merges: seq<Merge>, symbols: seq<Bytes>, i: int, at: int) {
    0 <= i < |merges| && 0 <= at < |symbols| - 1 && JoinsPair(merges[i], symbols[at], symbols[at + 1])
  }

  /** The leftmost place of the earliest listed merge that stands anywhere. */
  ghost predicate Earliest(merges: seq<Merge>, symbols: seq<Bytes>, at: nat) {
    exists i :: Stands(merges, symbols, i, at)
      && (forall k, j :: k < i ==> !Stands(merges, symbols, k, j))
      && (forall j :: j < at ==> !Stands(merges, symbols, i, j))
  }

  /** A run of merges, each at the leftmost place of the earliest listed merge. */
  ghost predicate MergesListed(merges: seq<Merge>, from: seq<Bytes>, to: seq<Bytes>)
    decreases |from|
  {
    from == to ||
      exists at: nat :: at + 1 < |from| && Earliest(merges, from, at) && MergesListed(merges, MergeAt(from, at), to)
  }

  ghost predicate NulFree(symbols: seq<Bytes>) { forall s :: s in symbols ==> 0 !in s }

  lemma StandsIsRanked(inv: Inventory, symbols: seq<Bytes>, at: int)
    requires Admissible(inv) && NulFree(symbols)
    ensures Ranked(Built(inv).ranks, symbols, at) <==> exists i :: Stands(inv.merges, symbols, i, at)
    ensures forall i :: Stands(inv.merges, symbols, i, at) ==>
      Ranked(Built(inv).ranks, symbols, at) && RankAt(Built(inv).ranks, symbols, at) == i
  {
    hide Admissible, Built, JoinsPair;
    if 0 <= at < |symbols| - 1 {
      assert symbols[at] in symbols && symbols[at + 1] in symbols;
      RanksAreListed(inv, symbols[at], symbols[at + 1]);
      if Ranked(Built(inv).ranks, symbols, at) {
        var i :| 0 <= i < |inv.merges| && JoinsPair(inv.merges[i], symbols[at], symbols[at + 1]);
        assert Stands(inv.merges, symbols, i, at);
      }
    }
  }

  lemma BestIsEarliest(inv: Inventory, symbols: seq<Bytes>, at: nat)
    requires Admissible(inv) && NulFree(symbols)
    ensures IsBest(Built(inv).ranks, symbols, at) <==> Earliest(inv.merges, symbols, at)
  {
    hide Admissible, Built, Stands, RankAt;
    var ranks := Built(inv).ranks;
    forall j ensures Ranked(ranks, symbols, j) <==> exists i :: Stands(inv.merges, symbols, i, j) {
      StandsIsRanked(inv, symbols, j);
    }
    forall i, j | Stands(inv.merges, symbols, i, j)
      ensures Ranked(ranks, symbols, j) && RankAt(ranks, symbols, j) == i
    {
      StandsIsRanked(inv, symbols, j);
    }
    hide Ranked;
    if IsBest(ranks, symbols, at) {
      var i :| Stands(inv.merges, symbols, i, at);
      forall k, j | Stands(inv.merges, symbols, k, j) ensures i <= k && (k == i ==> at <= j) {
        assert RankAt(ranks, symbols, j) == k;
      }
    }
    if Earliest(inv.merges, symbols, at) {
      var i :| Stands(inv.merges, symbols, i, at) && (forall k, j :: k < i ==> !Stands(inv.merges, symbols, k, j))
        && (forall j :: j < at ==> !Stands(inv.merges, symbols, i, j));
      forall j | Ranked(ranks, symbols, j)
        ensures i <= RankAt(ranks, symbols, j) && (i == RankAt(ranks, symbols, j) ==> at <= j)
      {
        var k :| Stands(inv.merges, symbols, k, j);
      }
    }
  }

  lemma MergeStaysNulFree(symbols: seq<Bytes>, at: nat)
    requires NulFree(symbols) && at + 1 < |symbols|
    ensures NulFree(MergeAt(symbols, at))
  {
    assert symbols[at] in symbols && symbols[at + 1] in symbols;
  }

  lemma {:induction false} MergesByList(inv: Inventory, from: seq<Bytes>, to: seq<Bytes>)
    requires Admissible(inv) && NulFree(from)
    ensures Merges(Built(inv).ranks, from, to) <==> MergesListed(inv.merges, from, to)
    decreases |from|
  {
    hide Admissible, Built, Earliest, IsBest, NulFree;
    var ranks := Built(inv).ranks;
    forall at: nat | at + 1 < |from|
      ensures IsBest(ranks, from, at) <==> Earliest(inv.merges, from, at)
      ensures Merges(ranks, MergeAt(from, at), to) <==> MergesListed(inv.merges, MergeAt(from, at), to)
    {
      BestIsEarliest(inv, from, at);
      MergeStaysNulFree(from, at);
      MergesByList(inv, MergeAt(from, at), to);
    }
    forall at: nat | IsBest(ranks, from, at) ensures at + 1 < |from| {
      BestIsInside(ranks, from, at);
    }
  }

  lemma BestIsInside(ranks: Ranks, symbols: seq<Bytes>, at: nat)
    requires IsBest(ranks, symbols, at)
    ensures at + 1 < |symbols|
  {
  }

  lemma LettersAreNulFree(piece: Bytes)
    ensures NulFree(Letters(piece))
  {
  }

  lemma NothingStands(inv: Inventory, symbols: seq<Bytes>)
    requires Admissible(inv) && NulFree(symbols)
    ensures Irreducible(Built(inv).ranks, symbols) <==> forall i, at :: !Stands(inv.merges, symbols, i, at)
  {
    hide Admissible, Built, Stands, Ranked, NulFree;
    if Irreducible(Built(inv).ranks, symbols) {
      forall i, at ensures !Stands(inv.merges, symbols, i, at) {
        StandsIsRanked(inv, symbols, at);
      }
    }
    if forall i, at :: !Stands(inv.merges, symbols, i, at) {
      forall at ensures !Ranked(Built(inv).ranks, symbols, at) {
        StandsIsRanked(inv, symbols, at);
      }
    }
  }

  lemma {:induction false} ListedStaysNulFree(merges: seq<Merge>, from: seq<Bytes>, to: seq<Bytes>)
    requires NulFree(from) && MergesListed(merges, from, to)
    ensures NulFree(to)
    decreases |from|
  {
    hide Earliest, NulFree;
    if from != to {
      var at: nat :| at + 1 < |from| && Earliest(merges, from, at) && MergesListed(merges, MergeAt(from, at), to);
      MergeStaysNulFree(from, at);
      ListedStaysNulFree(merges, MergeAt(from, at), to);
    }
  }

  /**
   * Encoding by the list of merges alone: the symbols of a piece are what is left when the leftmost
   * place of the earliest listed merge is joined, again and again, until no listed merge stands.
   */
  lemma EncodingFollowsList(inv: Inventory, piece: Bytes, to: seq<Bytes>)
    requires Admissible(inv)
    ensures to == Merged(Built(inv).ranks, Letters(piece)) <==>
      MergesListed(inv.merges, Letters(piece), to) && forall i, at :: !Stands(inv.merges, to, i, at)
  {
    hide Admissible, Built, Letters, Stands, MergesListed, Merges, Irreducible, NulFree;
    var from, ranks := Letters(piece), Built(inv).ranks;
    LettersAreNulFree(piece);
    MergesByList(inv, from, to);
    if MergesListed(inv.merges, from, to) {
      ListedStaysNulFree(inv.merges, from, to);
      NothingStands(inv, to);
      if Irreducible(ranks, to) {
        MergingIsDeterministic(ranks, from, to, Merged(ranks, from));
      }
    }
  }

  // ---- Ids are in range --------------------------------------------------------------------------------

  predicate InRange(f: Family, ids: seq<int>) {
    forall i :: 0 <= i < |ids| ==> 0 <= ids[i] < (if f.Qwen3? then 151936 else 129280)
  }

  /** The tables of an admitted tokenizer hold what the lists say, and nothing else. */
  lemma TablesAreListed(inv: Inventory)
    requires Admissible(inv)
    ensures var t := Built(inv);
      && t.tables.family == inv.family
      && (forall i :: 0 <= i < |inv.added| ==>
          var a := inv.added[i];
          && a.id in t.tables.added
          && t.tables.added[a.id] == (if inv.family.Qwen3? && a.special then [] else a.text)
          && Entry(a.text, a.id) in t.specials)
      && (forall i :: 0 <= i < |inv.vocab| ==>
          var e := inv.vocab[i];
          && e.text in t.vocab && t.vocab[e.text] == e.id
          && e.id in t.tables.spelling && t.tables.spelling[e.id] == e.text)
      && (forall id :: id in t.tables.added ==> exists i :: 0 <= i < |inv.added| && inv.added[i].id == id)
      && (forall s :: s in t.vocab ==> IsEntry(inv.vocab, s))
      && (forall e :: e in t.specials ==>
            exists i :: 0 <= i < |inv.added| && Entry(inv.added[i].text, inv.added[i].id) == e)
  {
    hide AddedDistinct, VocabDistinct, MergesDistinct, Dense, Letter, IsEntry, AddedFits, EntryFits, MergeFits,
      Expected,
      AddedOf, VocabOf, SpellingOf, RanksOf, SpecialsOf;
    AllAddedFit(inv.family, inv.added);
    AllEntriesFit(inv.family, inv.vocab);
    SpecialsByIndex(inv.added);
    forall i | 0 <= i < |inv.added| ensures inv.added[i].id in AddedOf(inv.family, inv.added)
      && AddedOf(inv.family, inv.added)[inv.added[i].id] ==
           (if inv.family.Qwen3? && inv.added[i].special then [] else inv.added[i].text)
      && Entry(inv.added[i].text, inv.added[i].id) in SpecialsOf(inv.added)
    {
      AddedByIndex(inv.family, inv.added, i);
      assert SpecialsOf(inv.added)[i] in SpecialsOf(inv.added);
    }
    forall i | 0 <= i < |inv.vocab|
      ensures inv.vocab[i].text in VocabOf(inv.vocab) && VocabOf(inv.vocab)[inv.vocab[i].text] == inv.vocab[i].id
      ensures inv.vocab[i].id in SpellingOf(inv.vocab) && SpellingOf(inv.vocab)[inv.vocab[i].id] == inv.vocab[i].text
    {
      VocabByIndex(inv.family, inv.vocab, i);
    }
    forall id | id in AddedOf(inv.family, inv.added) ensures exists i :: 0 <= i < |inv.added| && inv.added[i].id == id {
      AddedIds(inv.family, inv.added, id);
    }
    forall s | s in VocabOf(inv.vocab) ensures IsEntry(inv.vocab, s) {
      EntriesAreKeys(inv.vocab, s);
    }
  }

  lemma VocabInRange(inv: Inventory, s: Bytes)
    requires Admissible(inv) && s in Built(inv).vocab
    ensures 0 <= Built(inv).vocab[s] < (if inv.family.Qwen3? then 151936 else 129280)
  {
    hide MergesDistinct, Dense, Letter, AddedFits, EntryFits, MergeFits, Expected,
      AddedOf, VocabOf, SpellingOf, RanksOf, SpecialsOf;
    AllEntriesFit(inv.family, inv.vocab);
    EntriesAreKeys(inv.vocab, s);
    var i :| 0 <= i < |inv.vocab| && inv.vocab[i].text == s;
    VocabByIndex(inv.family, inv.vocab, i);
  }

  lemma SpecialInRange(inv: Inventory, e: Entry)
    requires Admissible(inv) && e in Built(inv).specials
    ensures 0 <= e.id < (if inv.family.Qwen3? then 151936 else 129280)
  {
    hide MergesDistinct, Dense, Letter, AddedFits, EntryFits, MergeFits, Expected,
      AddedOf, VocabOf, SpellingOf, RanksOf, SpecialsOf;
    AllAddedFit(inv.family, inv.added);
    SpecialsByIndex(inv.added);
  }

  lemma PieceInRange(inv: Inventory, piece: Bytes)
    requires Admissible(inv) && Sane(Built(inv)) && EncodedPiece(Built(inv), piece).Some?
    ensures InRange(inv.family, EncodedPiece(Built(inv), piece).value)
  {
    hide Admissible, Built, Sane, Letters, Merged;
    var t := Built(inv);
    LookupNeverFails(t, piece);
    var symbols := Merged(t.ranks, Letters(piece));
    forall i | 0 <= i < |symbols| ensures 0 <= t.vocab[symbols[i]] < (if inv.family.Qwen3? then 151936 else 129280) {
      assert symbols[i] in symbols;
      VocabInRange(inv, symbols[i]);
    }
  }

  lemma {:induction false} PiecesInRange(inv: Inventory, pieces: seq<Chars>)
    requires Admissible(inv) && Sane(Built(inv)) && EncodedPieces(Built(inv), pieces).Some?
    ensures InRange(inv.family, EncodedPieces(Built(inv), pieces).value)
  {
    hide Admissible, Built, Sane, EncodedPiece;
    if pieces != [] {
      var n := |pieces| - 1;
      PiecesInRange(inv, pieces[..n]);
      PieceInRange(inv, Flatten(pieces[n]));
    }
  }

  lemma PlainInRange(inv: Inventory, ms: seq<Matcher>, text: Bytes)
    requires Admissible(inv) && Sane(Built(inv)) && EncodedPlain(Built(inv), ms, text).Some?
    ensures InRange(inv.family, EncodedPlain(Built(inv), ms, text).value)
  {
    hide Admissible, Built, Sane, EncodedPieces, InRange, SplitAll;
    PiecesInRange(inv, SplitAll(ms, [Characters(text)]).value);
  }

  lemma InRangeTogether(f: Family, a: seq<int>, id: int, b: seq<int>)
    requires InRange(f, a) && InRange(f, [id]) && InRange(f, b)
    ensures InRange(f, a + [id] + b)
  {
    assert [id][0] == id;
  }

  /** Every id an admitted tokenizer encodes to is an id of its vocabulary size. */
  lemma {:induction false} EncodedIdsAreInRange(inv: Inventory, ms: seq<Matcher>, text: Bytes)
    requires Admissible(inv) && Sane(Built(inv)) && Encoded(Built(inv), ms, text).Some?
    ensures InRange(inv.family, Encoded(Built(inv), ms, text).value)
    decreases |text|
  {
    var t := Built(inv);
    hide Admissible, Built, Sane, EncodedPlain, Nearest, InRange, Encoded;
    if text == [] {
      EncodedNothing(t, ms);
      NothingInRange(inv.family);
    } else if at: nat, e :| Nearest(t.specials, text, at, e) {
      EncodedAtSpecial(t, ms, text, at, e);
      NearestStands(t.specials, text, at, e);
      SpecialInRange(inv, e);
      OneInRange(inv.family, e.id);
      SpecialsAreNotEmpty(t);
      PlainInRange(inv, ms, text[..at]);
      EncodedIdsAreInRange(inv, ms, text[at + |e.text|..]);
      InRangeTogether(inv.family, EncodedPlain(t, ms, text[..at]).value, e.id,
        Encoded(t, ms, text[at + |e.text|..]).value);
    } else {
      EncodedWithoutNearest(t, ms, text);
      PlainInRange(inv, ms, text);
    }
  }

  lemma EncodedWithoutNearest(t: Tokenizer, ms: seq<Matcher>, text: Bytes)
    requires Sane(t) && text != [] && forall at: nat, e :: !Nearest(t.specials, text, at, e)
    ensures Encoded(t, ms, text) == EncodedPlain(t, ms, text)
  {
    hide Sane, EncodedPlain, Nearest;
  }

  lemma NothingInRange(f: Family)
    ensures InRange(f, [])
  {
  }

  lemma OneInRange(f: Family, id: int)
    requires 0 <= id < (if f.Qwen3? then 151936 else 129280)
    ensures InRange(f, [id])
  {
  }
}
