/** Which tokenizer inventories are admitted, and the tables built from them. */
module TokenizerAdmission {
  import opened ByteStrings
  import opened ByteAlphabet
  import opened BytePairMerging
  import opened TokenDecoding
  import Markers
  import opened Wrappers

  const PAD: Bytes :=
    [0x3C, 0xEF, 0xBD, 0x9C, 0xE2, 0x96, 0x81, 0x70, 0x61, 0x64, 0xE2, 0x96, 0x81, 0xEF, 0xBD, 0x9C, 0x3E]
  const END_OF_TEXT: Bytes := [0x3C, 0x7C, 0x65, 0x6E, 0x64, 0x6F, 0x66, 0x74, 0x65, 0x78, 0x74, 0x7C, 0x3E]
  const IM_START: Bytes := [0x3C, 0x7C, 0x69, 0x6D, 0x5F, 0x73, 0x74, 0x61, 0x72, 0x74, 0x7C, 0x3E]
  const IM_END: Bytes := [0x3C, 0x7C, 0x69, 0x6D, 0x5F, 0x65, 0x6E, 0x64, 0x7C, 0x3E]

  /** An added token; unsupported stands for any of its strip, single-word or normalisation options. */
  datatype AddedToken = AddedToken(text: Bytes, id: int, special: bool, unsupported: bool)
  datatype Entry = Entry(text: Bytes, id: int)
  /** A merge is a pair, or one line with the pair around its first space. */
  datatype Merge = Pair(first: Bytes, second: Bytes) | Line(text: Bytes)

  datatype Inventory = Inventory(family: Family, added: seq<AddedToken>, vocab: seq<Entry>, merges: seq<Merge>)

  datatype Tokenizer = Tokenizer(tables: Tables, specials: seq<Entry>, vocab: map<Bytes, int>, ranks: Ranks)

  function VocabularySize(f: Family): int { if f.Qwen3? then 151936 else 129280 }

  function Expected(f: Family): seq<Entry> {
    if f.Qwen3? then [Entry(END_OF_TEXT, 151643), Entry(IM_START, 151644), Entry(IM_END, 151645)]
    else [Entry(Markers.BOS, 0), Entry(Markers.EOS, 1), Entry(PAD, 2)]
  }

  /** Qwen output skips special tokens; DeepSeek output keeps every added token for its parser. */
  function AddedText(f: Family, a: AddedToken): Bytes {
    if f.Qwen3? && a.special then [] else a.text
  }

  /** The two halves of a merge; None for a line without a space. */
  function Halves(m: Merge): Option<(Bytes, Bytes)> {
    match m
    case Pair(first, second) => Some((first, second))
    case Line(text) =>
      match Find(text, [0x20])
      case None => None
      case Some(at) => Some((text[..at], text[at + 1..]))
  }

  function KeyOf(m: Merge): Bytes {
    match Halves(m) case None => [] case Some((a, b)) => PairKey(a, b)
  }

  // ---- The tables of an inventory --------------------------------------------------------------------

  function AddedOf(f: Family, list: seq<AddedToken>): map<int, Bytes> {
    if list == [] then map[]
    else var n := |list| - 1; AddedOf(f, list[..n])[list[n].id := AddedText(f, list[n])]
  }

  function VocabOf(list: seq<Entry>): map<Bytes, int> {
    if list == [] then map[] else var n := |list| - 1; VocabOf(list[..n])[list[n].text := list[n].id]
  }

  function SpellingOf(list: seq<Entry>): map<int, Bytes> {
    if list == [] then map[] else var n := |list| - 1; SpellingOf(list[..n])[list[n].id := list[n].text]
  }

  /** The rank of a merge is its position. */
  function RanksOf(list: seq<Merge>): Ranks {
    if list == [] then map[] else var n := |list| - 1; RanksOf(list[..n])[KeyOf(list[n]) := n]
  }

  function SpecialsOf(list: seq<AddedToken>): seq<Entry> {
    if list == [] then [] else var n := |list| - 1; SpecialsOf(list[..n]) + [Entry(list[n].text, list[n].id)]
  }

  function Built(inv: Inventory): Tokenizer {
    Tokenizer(Tables(inv.family, AddedOf(inv.family, inv.added), SpellingOf(inv.vocab)),
              SpecialsOf(inv.added), VocabOf(inv.vocab), RanksOf(inv.merges))
  }

  // ---- Admission --------------------------------------------------------------------------------------

  /** An added token is supported and repeats neither text nor id of an earlier one. */
  predicate AddedFits(f: Family, list: seq<AddedToken>, n: nat)
    requires n < |list|
  {
    var a := list[n];
    && a.text != [] && 0 <= a.id < VocabularySize(f) && !a.unsupported
    && (forall e :: e in SpecialsOf(list[..n]) ==> e.text != a.text)
    && a.id !in AddedOf(f, list[..n])
  }

  /** A vocabulary entry is in range and repeats neither text nor id of an earlier one. */
  predicate EntryFits(f: Family, list: seq<Entry>, n: nat)
    requires n < |list|
  {
    0 <= list[n].id < VocabularySize(f) && list[n].text !in VocabOf(list[..n]) && list[n].id !in SpellingOf(list[..n])
  }

  /** A merge joins two entries into a third and repeats no earlier merge. */
  predicate MergeFits(vocab: map<Bytes, int>, list: seq<Merge>, n: nat)
    requires n < |list|
  {
    match Halves(list[n])
    case None => false
    case Some((a, b)) => a in vocab && b in vocab && a + b in vocab && PairKey(a, b) !in RanksOf(list[..n])
  }

  /** DeepSeek ids are dense: 128000 vocabulary ids, and added ids exactly 0..2 and from 128000 on. */
  predicate Dense(t: Tables) {
    && |t.spelling| == 128000 && |t.added| == 1283
    && forall id :: 0 <= id < 129280 ==>
      (id < 128000 ==> id in t.spelling) && ((id < 3 || id >= 128000) == (id in t.added))
  }

  predicate Admissible(inv: Inventory) {
    var t := Built(inv);
    && (forall n :: 0 <= n < |inv.added| ==> AddedFits(inv.family, inv.added, n))
    && (forall e :: e in Expected(inv.family) ==> e in t.specials)
    && (forall n :: 0 <= n < |inv.vocab| ==> EntryFits(inv.family, inv.vocab, n))
    && (!inv.family.Qwen3? ==> Dense(t.tables))
    && (forall n :: 0 <= n < |inv.merges| ==> MergeFits(t.vocab, inv.merges, n))
    && (forall b: Byte :: Letter(b) in t.vocab)
  }

  method FillAdded(f: Family, list: seq<AddedToken>) returns (ok: bool, added: map<int, Bytes>, specials: seq<Entry>)
    ensures ok <==> forall n :: 0 <= n < |list| ==> AddedFits(f, list, n)
    ensures ok ==> added == AddedOf(f, list) && specials == SpecialsOf(list)
  {
    ok, added, specials := false, map[], [];
    for n := 0 to |list|
      invariant !ok && forall i :: 0 <= i < n ==> AddedFits(f, list, i)
      invariant added == AddedOf(f, list[..n]) && specials == SpecialsOf(list[..n])
    {
      var a := list[n];
      if a.text == [] || a.id < 0 || a.id >= VocabularySize(f) || a.unsupported {
        assert !AddedFits(f, list, n);
        return;
      }
      if exists e :: e in specials && e.text == a.text { assert !AddedFits(f, list, n); return; }
      if a.id in added { assert !AddedFits(f, list, n); return; }
      assert list[..n + 1][..n] == list[..n];
      specials, added := specials + [Entry(a.text, a.id)], added[a.id := AddedText(f, a)];
    }
    assert list[..|list|] == list;
    ok := true;
  }

  method FillVocab(f: Family, list: seq<Entry>) returns (ok: bool, vocab: map<Bytes, int>, spelling: map<int, Bytes>)
    ensures ok <==> forall n :: 0 <= n < |list| ==> EntryFits(f, list, n)
    ensures ok ==> vocab == VocabOf(list) && spelling == SpellingOf(list)
  {
    ok, vocab, spelling := false, map[], map[];
    for n := 0 to |list|
      invariant !ok && forall i :: 0 <= i < n ==> EntryFits(f, list, i)
      invariant vocab == VocabOf(list[..n]) && spelling == SpellingOf(list[..n])
    {
      var e := list[n];
      if e.id < 0 || e.id >= VocabularySize(f) || e.text in vocab || e.id in spelling {
        assert !EntryFits(f, list, n);
        return;
      }
      assert list[..n + 1][..n] == list[..n];
      vocab, spelling := vocab[e.text := e.id], spelling[e.id := e.text];
    }
    assert list[..|list|] == list;
    ok := true;
  }

  method FillRanks(vocab: map<Bytes, int>, list: seq<Merge>) returns (ok: bool, ranks: Ranks)
    ensures ok <==> forall n :: 0 <= n < |list| ==> MergeFits(vocab, list, n)
    ensures ok ==> ranks == RanksOf(list)
  {
    ok, ranks := false, map[];
    for n := 0 to |list|
      invariant !ok && forall i :: 0 <= i < n ==> MergeFits(vocab, list, i)
      invariant ranks == RanksOf(list[..n])
    {
      var halves := Halves(list[n]);
      if halves.None? { assert !MergeFits(vocab, list, n); return; }
      var (first, second) := halves.value;
      if first !in vocab || second !in vocab || first + second !in vocab || PairKey(first, second) in ranks {
        assert !MergeFits(vocab, list, n);
        return;
      }
      assert list[..n + 1][..n] == list[..n];
      ranks := ranks[PairKey(first, second) := n];
    }
    assert list[..|list|] == list;
    ok := true;
  }

  /** The admission checks of the constructor, in their order. */
  method Admit(inv: Inventory) returns (r: Option<Tokenizer>)
    ensures r == if Admissible(inv) then Some(Built(inv)) else None
  {
    hide AddedOf, VocabOf, SpellingOf, RanksOf, SpecialsOf, AddedFits, EntryFits, MergeFits, Dense, Expected, Letter;
    var ok, added, specials := FillAdded(inv.family, inv.added);
    if !ok { return None; }
    if exists e :: e in Expected(inv.family) && e !in specials { return None; }
    var vocab, spelling;
    ok, vocab, spelling := FillVocab(inv.family, inv.vocab);
    if !ok { return None; }
    var tables := Tables(inv.family, added, spelling);
    if !inv.family.Qwen3? && !Dense(tables) { return None; }
    var ranks;
    ok, ranks := FillRanks(vocab, inv.merges);
    if !ok { return None; }
    if exists b: Byte :: Letter(b) !in vocab { return None; }
    return Some(Tokenizer(tables, specials, vocab, ranks));
  }
}
