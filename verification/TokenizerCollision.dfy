/**
 * Where an admitted tokenizer falls short.  The letter of byte 0x41 has the id of an added token here, so
 * text is lost; and groups of its ids need not decode like their concatenation.
 */
module TokenizerCollision {
  import opened ByteStrings
  import opened ByteAlphabet
  import opened BytePairMerging
  import opened TokenDecoding
  import opened TokenizerAdmission
  import opened TokenizerEncoding
  import opened TokenizerRoundTrip
  import Utf8
  import opened Wrappers

  const ADDED: seq<AddedToken> :=
    [ AddedToken(END_OF_TEXT, 151643, true, false), AddedToken(IM_START, 151644, true, false),
      AddedToken(IM_END, 151645, true, false) ]

  function CollidingId(b: Byte): int { if b == 0x41 then 151643 else b }

  const VOCAB: seq<Entry> := seq(256, b requires 0 <= b < 256 => Entry(Letter(b), CollidingId(b)))

  const COLLIDING := Inventory(Qwen3, ADDED, VOCAB, [])

  lemma {:induction false} TablesHoldEntries(list: seq<Entry>)
    ensures forall s :: s in VocabOf(list) ==> exists i :: 0 <= i < |list| && list[i].text == s
    ensures forall id :: id in SpellingOf(list) ==> exists i :: 0 <= i < |list| && list[i].id == id
  {
    if list != [] {
      var n := |list| - 1;
      TablesHoldEntries(list[..n]);
      assert forall i :: 0 <= i < n ==> list[..n][i] == list[i];
    }
  }

  lemma {:induction false} EntryIsHeld(list: seq<Entry>, i: nat)
    requires i < |list| && forall j, k :: 0 <= j < k < |list| ==> list[j].text != list[k].text
    ensures list[i].text in VocabOf(list) && VocabOf(list)[list[i].text] == list[i].id
  {
    var n := |list| - 1;
    if i < n {
      EntryIsHeld(list[..n], i);
    }
  }

  lemma LetterIsInjective(a: Byte, b: Byte)
    ensures Letter(a) == Letter(b) ==> a == b
  {
    LetterIsWhole(a, []);
    LetterIsWhole(b, []);
    CodePointIsInjective(a, b);
  }

  lemma EntriesDiffer(j: nat, k: nat)
    requires j < k < 256
    ensures VOCAB[j].text != VOCAB[k].text && VOCAB[j].id != VOCAB[k].id
  {
    hide Letter;
    LetterIsInjective(j, k);
  }

  lemma VocabFits(n: nat)
    requires n < 256
    ensures EntryFits(Qwen3, VOCAB, n)
  {
    hide VocabOf, SpellingOf, Letter, VOCAB;
    VocabEntry(n);
    TablesHoldEntries(VOCAB[..n]);
    forall j | 0 <= j < n ensures VOCAB[..n][j].text != VOCAB[n].text && VOCAB[..n][j].id != VOCAB[n].id {
      EntriesDiffer(j, n);
    }
  }

  lemma VocabEntry(b: Byte)
    ensures |VOCAB| == 256 && VOCAB[b] == Entry(Letter(b), CollidingId(b))
  {
  }

  lemma LetterHasId(b: Byte)
    ensures Letter(b) in VocabOf(VOCAB) && VocabOf(VOCAB)[Letter(b)] == CollidingId(b)
  {
    hide VocabOf, Letter, VOCAB;
    VocabEntry(b);
    forall j, k | 0 <= j < k < |VOCAB| ensures VOCAB[j].text != VOCAB[k].text {
      EntriesDiffer(j, k);
    }
    EntryIsHeld(VOCAB, b);
  }

  lemma AddedTables()
    ensures SpecialsOf(ADDED) == Expected(Qwen3)
    ensures AddedOf(Qwen3, ADDED) == map[151643 := [], 151644 := [], 151645 := []]
    ensures forall n :: 0 <= n < 3 ==> AddedFits(Qwen3, ADDED, n)
  {
    var zero, one, two := ADDED[..0], ADDED[..1], ADDED[..2];
    assert one[..0] == zero && two[..1] == one && ADDED[..2] == two;
    assert SpecialsOf(one) == [Entry(END_OF_TEXT, 151643)];
    assert SpecialsOf(two) == [Entry(END_OF_TEXT, 151643), Entry(IM_START, 151644)];
    assert END_OF_TEXT[2] != IM_START[2] && |IM_END| == 10 && |IM_START| == 12;
    assert AddedFits(Qwen3, ADDED, 0) && AddedFits(Qwen3, ADDED, 1) && AddedFits(Qwen3, ADDED, 2);
  }

  lemma CollidingIsAdmitted()
    ensures Admissible(COLLIDING)
  {
    hide VocabOf, SpellingOf, AddedOf, SpecialsOf, Letter, AddedFits, EntryFits, Dense, VOCAB, ADDED;
    AddedTables();
    ListLengths();
    forall n | 0 <= n < 256 ensures EntryFits(Qwen3, VOCAB, n) {
      VocabFits(n);
    }
    forall b: Byte ensures Letter(b) in VocabOf(VOCAB) {
      LetterHasId(b);
    }
  }

  lemma ListLengths()
    ensures |ADDED| == 3 && |VOCAB| == 256
  {
  }

  /** Admission alone does not give the round trip: this tokenizer encodes "A" and decodes nothing. */
  lemma AdmissionIsNotEnough()
    ensures Admissible(COLLIDING) && Sane(Built(COLLIDING)) && !Harmless(Built(COLLIDING))
    ensures EncodedPlain(Built(COLLIDING), [], [0x41]) == Some([151643])
    ensures Decoded(Built(COLLIDING).tables, [151643]) == Some([])
  {
    CollidingIsAdmitted();
    AdmittedIsSane(COLLIDING);
    hide Sane, Admissible, VocabOf, SpellingOf, AddedOf, SpecialsOf, Letter, VOCAB, ADDED;
    var t := Built(COLLIDING);
    var w: Bytes := [0x41];
    AddedTables();
    LetterHasId(0x41);
    OneLetter(t.ranks, 0x41);
    LetterAIsValid();
    TokenTextRoundTripsExactly(t, w);
    OneDecodes(t, 151643);
    assert t.vocab[Spell(w)] == 151643;
  }

  lemma LetterAIsValid()
    ensures Utf8.Valid([0x41])
  {
    var w: Bytes := [0x41];
    assert w[1..] == [];
  }

  lemma OneLetter(ranks: Ranks, b: Byte)
    ensures Spell([b]) == Letter(b) && IsToken(ranks, [b])
  {
    hide Letter;
    var w: Bytes := [b];
    assert w[1..] == [] && Letter(b) + [] == Letter(b);
    assert Letters(w) == [Letter(b)];
    OneIsIrreducible(ranks, Letter(b));
  }

  // ---- Groups that do not decode together ----------------------------------------------------------------

  const TABLES := Built(COLLIDING).tables

  lemma LetterBDecodes()
    ensures !IsStop(TABLES, 0x42) && RawTokenBytes(TABLES, 0x42) == Some([0x42])
  {
    CollidingIsAdmitted();
    AdmittedIsSane(COLLIDING);
    hide Sane, Admissible, VocabOf, SpellingOf, AddedOf, SpecialsOf, Letter, VOCAB, ADDED, Unspell;
    AddedTables();
    LetterHasId(0x42);
    OneLetter(Built(COLLIDING).ranks, 0x42);
    SaneSpelling(Built(COLLIDING), Letter(0x42));
    UnspellSpell([0x42]);
  }

  lemma SaneSpelling(t: Tokenizer, s: Bytes)
    requires Sane(t) && s in t.vocab
    ensures t.vocab[s] in t.tables.spelling && t.tables.spelling[t.vocab[s]] == s
  {
  }

  lemma NoNegativeId()
    ensures RawTokenBytes(TABLES, -1) == None && !IsStop(TABLES, -1)
  {
    hide VocabOf, SpellingOf, AddedOf, SpecialsOf, Letter, VOCAB, ADDED, Unspell;
    AddedTables();
    TablesHoldEntries(VOCAB);
    if -1 in SpellingOf(VOCAB) {
      var i :| 0 <= i < |VOCAB| && VOCAB[i].id == -1;
      ListLengths();
      VocabEntry(i);
    }
  }

  lemma TwoGroups(a: seq<int>, b: seq<int>)
    ensures Flatten([a, b]) == a + b
  {
    var groups := [a, b];
    assert groups[1..] == [b];
    FlattenOne(b);
  }

  /** A stop in an earlier group hides the later groups from the whole, and only from the whole. */
  lemma StopHidesLaterGroups()
    ensures Admissible(COLLIDING)
    ensures var groups := [[151645], [0x42]];
      Grouped(TABLES, groups) == Some([0x42]) && DecodedBytes(TABLES, Flatten(groups)) == Some([])
    ensures var groups := [[151645], [-1]];
      Grouped(TABLES, groups) == None && DecodedBytes(TABLES, Flatten(groups)) == Some([])
  {
    hide TABLES, COLLIDING;
    CollidingIsAdmitted();
    LetterBDecodes();
    NoNegativeId();
    StopThen([0x42]);
    StopThen([-1]);
    assert [0x42][1..] == [] && [0x42] + [] == [0x42];
  }

  lemma StopThen(ids: seq<int>)
    ensures DecodedBytes(TABLES, Flatten([[151645], ids])) == Some([])
    ensures Grouped(TABLES, [[151645], ids]) == DecodedBytes(TABLES, ids)
  {
    hide DecodedBytes;
    var groups := [[151645], ids];
    TwoGroups([151645], ids);
    StopEnds(ids);
    StopEnds([]);
    assert [151645] + [] == [151645] && groups[1..] == [ids] && [ids][1..] == [];
    GroupedStep(TABLES, groups);
    GroupedStep(TABLES, [ids]);
    var d := DecodedBytes(TABLES, ids);
    assert d.Some? ==> d.value + [] == d.value && [] + d.value == d.value;
  }

  lemma StopEnds(ids: seq<int>)
    ensures DecodedBytes(TABLES, [151645] + ids) == Some([])
  {
    hide Built, COLLIDING;
    FamilyIsQwen();
  }

  lemma FamilyIsQwen()
    ensures TABLES.family == Qwen3
  {
  }

  lemma {:induction false} RepeatedSize(n: nat)
    ensures Size(TABLES, seq(n, _ => 0x42)) == Some(n)
  {
    hide TABLES, RawTokenBytes;
    if n > 0 {
      LetterBDecodes();
      RepeatedSize(n - 1);
      assert seq(n, _ => 0x42)[1..] == seq(n - 1, _ => 0x42);
    }
  }

  /** Groups that fit one by one need not fit together: the whole is refused, the groups are not. */
  lemma WholeCanBeTooLarge()
    ensures var groups := [seq(LIMIT, _ => 0x42), [0x42]];
      Grouped(TABLES, groups).Some? && DecodedBytes(TABLES, Flatten(groups)) == None
  {
    hide TABLES, DecodedBytes, Grouped, Size;
    var most: seq<int>, one: seq<int> := seq(LIMIT, _ => 0x42), [0x42];
    RepeatedSize(LIMIT);
    RepeatedSize(1);
    RepeatedSize(LIMIT + 1);
    assert one == seq(1, _ => 0x42) && most + one == seq(LIMIT + 1, _ => 0x42);
    TwoGroups(most, one);
    GroupedFits(TABLES, [most, one]);
    DecodesIffFits(TABLES, most + one);
  }
}
