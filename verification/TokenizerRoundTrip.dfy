/** Decoding undoes encoding, for every admitted tokenizer and every split of the text into pieces. */
module TokenizerRoundTrip {
  import opened ByteStrings
  import opened ByteAlphabet
  import opened BytePairMerging
  import opened BytePairLocality
  import opened TokenDecoding
  import opened TokenizerAdmission
  import opened TokenizerEncoding
  import Utf8
  import opened Wrappers

  // ---- What admission guarantees -------------------------------------------------------------------------

  lemma {:induction false} SpellingInvertsVocab(f: Family, list: seq<Entry>)
    requires forall n :: 0 <= n < |list| ==> EntryFits(f, list, n)
    ensures forall s :: s in VocabOf(list) ==>
      VocabOf(list)[s] in SpellingOf(list) && SpellingOf(list)[VocabOf(list)[s]] == s
  {
    if list != [] {
      var n := |list| - 1;
      var front := list[..n];
      forall i | 0 <= i < n ensures EntryFits(f, front, i) {
        assert EntryFits(f, list, i) && front[..i] == list[..i];
      }
      SpellingInvertsVocab(f, front);
      assert EntryFits(f, list, n);
    }
  }

  lemma {:induction false} RanksJoinEntries(vocab: map<Bytes, int>, list: seq<Merge>)
    requires forall n :: 0 <= n < |list| ==> MergeFits(vocab, list, n)
    ensures RanksWithin(RanksOf(list), vocab.Keys)
  {
    if list != [] {
      var n := |list| - 1;
      var front := list[..n];
      forall i | 0 <= i < n ensures MergeFits(vocab, front, i) {
        assert MergeFits(vocab, list, i) && front[..i] == list[..i];
      }
      RanksJoinEntries(vocab, front);
      assert MergeFits(vocab, list, n);
      var (a, b) := Halves(list[n]).value;
      assert KeyOf(list[n]) == PairKey(a, b);
      hide KeyOf, Halves;
    }
  }

  lemma {:induction false} SpecialsAreAdded(f: Family, list: seq<AddedToken>)
    requires forall n :: 0 <= n < |list| ==> AddedFits(f, list, n)
    ensures forall e :: e in SpecialsOf(list) ==> e.text != [] && e.id in AddedOf(f, list)
    ensures !f.Qwen3? ==> forall e :: e in SpecialsOf(list) ==> AddedOf(f, list)[e.id] == e.text
    ensures forall e, o :: e in SpecialsOf(list) && o in SpecialsOf(list) && e.text == o.text ==> e == o
  {
    if list != [] {
      var n := |list| - 1;
      var front := list[..n];
      forall i | 0 <= i < n ensures AddedFits(f, front, i) {
        assert AddedFits(f, list, i) && front[..i] == list[..i];
      }
      SpecialsAreAdded(f, front);
      assert AddedFits(f, list, n);
    }
  }

  lemma AdmittedIsSane(inv: Inventory)
    requires Admissible(inv)
    ensures Sane(Built(inv))
  {
    hide AddedOf, VocabOf, SpellingOf, RanksOf, SpecialsOf, AddedFits, EntryFits, MergeFits, Dense, Letter, RanksWithin;
    var t := Built(inv);
    SpellingInvertsVocab(inv.family, inv.vocab);
    RanksJoinEntries(t.vocab, inv.merges);
    SpecialsAreAdded(inv.family, inv.added);
    if inv.family.Qwen3? {
      assert Entry(END_OF_TEXT, 151643) in Expected(inv.family) && Entry(IM_END, 151645) in Expected(inv.family) by {
        assert Expected(inv.family)[0] == Entry(END_OF_TEXT, 151643) &&
          Expected(inv.family)[2] == Entry(IM_END, 151645);
      }
    }
  }

  // ---- Symbols --------------------------------------------------------------------------------------------

  /** A symbol that merging can leave: a letter, or the join of a ranked pair. */
  ghost predicate Producible(ranks: Ranks, s: Bytes) {
    (exists b: Byte :: s == Letter(b)) || (exists a, b :: PairKey(a, b) in ranks && s == a + b)
  }

  /** No id that merging can produce belongs to an added token. */
  ghost predicate Disjoint(t: Tokenizer) {
    forall s :: s in t.vocab && Producible(t.ranks, s) ==> t.vocab[s] !in t.tables.added
  }

  ghost predicate AllProducible(ranks: Ranks, symbols: seq<Bytes>) {
    forall s :: s in symbols ==> Producible(ranks, s)
  }

  lemma {:induction false} MergingStaysProducible(ranks: Ranks, from: seq<Bytes>, to: seq<Bytes>)
    requires AllProducible(ranks, from) && Merges(ranks, from, to)
    ensures AllProducible(ranks, to)
    decreases |from|
  {
    if from != to {
      var at: nat :| IsBest(ranks, from, at) && Merges(ranks, MergeAt(from, at), to);
      assert PairKey(from[at], from[at + 1]) in ranks;
      assert Producible(ranks, from[at] + from[at + 1]);
      hide Producible;
      MergingStaysProducible(ranks, MergeAt(from, at), to);
    }
  }

  /** A symbol written in the byte alphabet. */
  ghost predicate Spelled(s: Bytes) {
    exists b: Bytes :: s == Spell(b)
  }

  ghost predicate AllSpelled(symbols: seq<Bytes>) {
    forall s :: s in symbols ==> Spelled(s)
  }

  lemma {:induction false} MergingStaysSpelled(ranks: Ranks, from: seq<Bytes>, to: seq<Bytes>)
    requires AllSpelled(from) && Merges(ranks, from, to)
    ensures AllSpelled(to)
    decreases |from|
  {
    if from != to {
      var at: nat :| IsBest(ranks, from, at) && Merges(ranks, MergeAt(from, at), to);
      assert Spelled(from[at] + from[at + 1]) by {
        assert Spelled(from[at]) && Spelled(from[at + 1]);
        var a: Bytes :| from[at] == Spell(a);
        var b: Bytes :| from[at + 1] == Spell(b);
        SpellAppend(a, b);
      }
      hide Spelled;
      MergingStaysSpelled(ranks, MergeAt(from, at), to);
    }
  }

  lemma {:induction false} LettersSpell(piece: Bytes)
    ensures Flatten(Letters(piece)) == Spell(piece) && AllSpelled(Letters(piece))
  {
    if piece != [] {
      LettersSpell(piece[1..]);
      assert Letters(piece)[1..] == Letters(piece[1..]) && Letters(piece) == [Letter(piece[0])] + Letters(piece[1..]);
      assert Spelled(Letter(piece[0])) by {
        var one: Bytes := [piece[0]];
        assert one[1..] == [] && Spell(one) == Letter(piece[0]) + [];
        assert Letter(piece[0]) + [] == Letter(piece[0]);
      }
    }
  }

  lemma SpellIsInjective(a: Bytes, b: Bytes)
    requires Spell(a) == Spell(b)
    ensures a == b
  {
    UnspellSpell(a);
    UnspellSpell(b);
  }

  // ---- Tokens stand for themselves ------------------------------------------------------------------------

  /** A byte string that merging turns into one token. */
  ghost predicate IsToken(ranks: Ranks, w: Bytes) {
    1 <= |w| <= 8192 && Merged(ranks, Letters(w)) == [Spell(w)]
  }

  /** The bytes that spelled symbols spell together. */
  lemma {:induction false} SpelledTogether(symbols: seq<Bytes>) returns (bytes: Bytes)
    requires AllSpelled(symbols)
    ensures Flatten(symbols) == Spell(bytes)
  {
    if symbols == [] {
      bytes := [];
    } else {
      var s := symbols[0];
      assert s in symbols && Spelled(s);
      var b: Bytes :| s == Spell(b);
      var rest := SpelledTogether(symbols[1..]);
      bytes := b + rest;
      SpellAppend(b, rest);
    }
  }

  lemma LettersPlus(a: Bytes, b: Bytes)
    ensures Letters(a + b) == Letters(a) + Letters(b)
  {
    hide Letter;
  }

  lemma LettersAreNotEmpty(piece: Bytes)
    ensures NoneEmpty(Letters(piece))
  {
  }

  lemma {:induction false} MergingStaysNonempty(ranks: Ranks, from: seq<Bytes>, to: seq<Bytes>)
    requires NoneEmpty(from) && Merges(ranks, from, to)
    ensures NoneEmpty(to)
    decreases |from|
  {
    hide NoneEmpty, IsBest;
    if from != to {
      var at := FirstMerge(ranks, from, to);
      MergeStaysNonempty(from, at);
      MergingStaysNonempty(ranks, MergeAt(from, at), to);
    }
  }

  lemma SpellNothing()
    ensures Spell([]) == []
  {
  }

  lemma SpelledParts(a: seq<Bytes>, w: Bytes, c: seq<Bytes>, before: Bytes, behind: Bytes, piece: Bytes)
    requires Flatten(a) == Spell(before) && Flatten(c) == Spell(behind)
    requires Flatten(a + [Spell(w)] + c) == Spell(piece)
    ensures piece == before + w + behind
  {
    hide Spell, Flatten;
    var one := [Spell(w)];
    FlattenAppend(a, one);
    FlattenAppend(a + one, c);
    FlattenOne(Spell(w));
    SpellAppend(before, w);
    SpellAppend(before + w, behind);
    SpellIsInjective(piece, before + w + behind);
  }

  /** Every token of a piece is the encoding of the bytes it stands for. */
  lemma TokenStandsAlone(ranks: Ranks, piece: Bytes, i: nat) returns (w: Bytes)
    requires |piece| <= 8192 && i < |Merged(ranks, Letters(piece))|
    ensures Merged(ranks, Letters(piece))[i] == Spell(w) && IsToken(ranks, w)
  {
    hide Merged, Letters, Spell, Flatten, Merges;
    var from := Letters(piece);
    var symbols := Merged(ranks, from);
    LettersSpell(piece);
    MergingStaysSpelled(ranks, from, symbols);
    MergingKeepsText(ranks, from, symbols);
    var a, s, c := symbols[..i], symbols[i], symbols[i + 1..];
    assert symbols == a + [s] + c;
    assert s in symbols && Spelled(s);
    w :| s == Spell(w);
    var before := SpelledTogether(a);
    var behind := SpelledTogether(c);
    SpelledParts(a, w, c, before, behind, piece);
    StandsAlone(ranks, piece, before, w, behind, a, c);
  }

  lemma StandsAlone(ranks: Ranks, piece: Bytes, before: Bytes, w: Bytes, behind: Bytes, a: seq<Bytes>, c: seq<Bytes>)
    requires piece == before + w + behind && |piece| <= 8192
    requires Merged(ranks, Letters(piece)) == a + [Spell(w)] + c && Flatten(a) == Spell(before)
    ensures IsToken(ranks, w)
  {
    hide Letters, Spell, Flatten, Merges, Irreducible, NoneEmpty;
    var x, y, z := Letters(before), Letters(w), Letters(behind);
    LettersPlus(before, w);
    LettersPlus(before + w, behind);
    LettersAreNotEmpty(piece);
    MergingStaysNonempty(ranks, Letters(piece), a + [Spell(w)] + c);
    LettersSpell(before);
    LettersSpell(w);
    OneIsNotEmpty(a, Spell(w), c);
    SpellNothing();
    LettersCount(w);
    StretchMergesAlone(ranks, x, y, z, a, Spell(w), c);
    OneIsIrreducible(ranks, Spell(w));
    MergingIsDeterministic(ranks, y, [Spell(w)], Merged(ranks, y));
  }

  lemma LettersCount(w: Bytes)
    ensures |Letters(w)| == |w|
  {
  }

  lemma OneIsNotEmpty(a: seq<Bytes>, s: Bytes, c: seq<Bytes>)
    requires NoneEmpty(a + [s] + c)
    ensures s != []
  {
    assert (a + [s] + c)[|a|] == s;
  }

  lemma OneIsIrreducible(ranks: Ranks, s: Bytes)
    ensures Irreducible(ranks, [s])
  {
  }

  // ---- Decoding --------------------------------------------------------------------------------------------

  /** The id decodes to these bytes: no added token has it, or one with this very text that is no stop. */
  predicate Faithful(t: Tokenizer, id: int, w: Bytes) {
    id in t.tables.added ==> !IsStop(t.tables, id) && t.tables.added[id] == w
  }

  /**
   * No token shares its id with an added token of other text; there are at most as many tokens as
   * vocabulary entries.
   */
  ghost predicate Harmless(t: Tokenizer) {
    forall w: Bytes :: IsToken(t.ranks, w) && Spell(w) in t.vocab ==> Faithful(t, t.vocab[Spell(w)], w)
  }

  /** In particular, when no id that merging can produce belongs to an added token. */
  lemma DisjointIsHarmless(t: Tokenizer)
    requires Disjoint(t)
    ensures Harmless(t)
  {
    hide Merged, Letters, Spell, Producible;
    forall w: Bytes | IsToken(t.ranks, w) && Spell(w) in t.vocab ensures t.vocab[Spell(w)] !in t.tables.added {
      LettersAreProducible(t.ranks, w);
      MergingStaysProducible(t.ranks, Letters(w), [Spell(w)]);
      assert Spell(w) in [Spell(w)];
    }
  }

  lemma LettersAreProducible(ranks: Ranks, piece: Bytes)
    ensures AllProducible(ranks, Letters(piece))
  {
    hide Letter;
  }

  ghost predicate Decodes(t: Tokenizer, s: Bytes) {
    s in t.vocab && exists w: Bytes :: s == Spell(w) && Faithful(t, t.vocab[s], w)
  }

  lemma TokenDecodes(t: Tokenizer, s: Bytes, w: Bytes, rest: seq<int>)
    requires Sane(t) && s in t.vocab && s == Spell(w) && Faithful(t, t.vocab[s], w)
    ensures !IsStop(t.tables, t.vocab[s])
    ensures |w| <= LIMIT ==> DecodedBytes(t.tables, [t.vocab[s]] + rest) == Behind(w, DecodedBytes(t.tables, rest))
  {
    UnspellSpell(w);
    assert ([t.vocab[s]] + rest)[1..] == rest;
  }

  /** Symbols whose tokens decode to what they spell decode together. */
  lemma {:induction false} SymbolsDecode(t: Tokenizer, symbols: seq<Bytes>) returns (bytes: Bytes)
    requires Sane(t) && (forall s :: s in symbols ==> s in t.vocab) && forall s :: s in symbols ==> Decodes(t, s)
    ensures Flatten(symbols) == Spell(bytes) && NoStop(t.tables, Ids(t.vocab, symbols))
    ensures |bytes| <= LIMIT ==> DecodedBytes(t.tables, Ids(t.vocab, symbols)) == Some(bytes)
  {
    hide Sane, Spell, DecodedBytes, Faithful;
    var ids := Ids(t.vocab, symbols);
    if symbols == [] {
      bytes := [];
      SpellNothing();
      NothingDecodes(t.tables);
    } else {
      var s := symbols[0];
      assert s in symbols && Decodes(t, s);
      var b: Bytes :| s == Spell(b) && Faithful(t, t.vocab[s], b);
      var others := Ids(t.vocab, symbols[1..]);
      assert ids == [t.vocab[s]] + others;
      var rest := SymbolsDecode(t, symbols[1..]);
      bytes := b + rest;
      SpellAppend(b, rest);
      TokenDecodes(t, s, b, others);
    }
  }

  /** A piece decodes back if no token is misread. */
  lemma PieceRoundTrips(t: Tokenizer, piece: Bytes)
    requires Sane(t) && Harmless(t) && EncodedPiece(t, piece).Some?
    ensures NoStop(t.tables, EncodedPiece(t, piece).value)
    ensures DecodedBytes(t.tables, EncodedPiece(t, piece).value) == Some(piece)
  {
    hide Sane, Spell, DecodedBytes, Merged, Letters, Faithful, IsToken, NoStop;
    var symbols := Merged(t.ranks, Letters(piece));
    LookupNeverFails(t, piece);
    LettersSpell(piece);
    MergingKeepsText(t.ranks, Letters(piece), symbols);
    forall s | s in symbols ensures Decodes(t, s) {
      var i :| 0 <= i < |symbols| && symbols[i] == s;
      var w := TokenStandsAlone(t.ranks, piece, i);
    }
    var bytes := SymbolsDecode(t, symbols);
    SpellIsInjective(bytes, piece);
  }

  /** A single token comes back exactly when its id is not taken by other text or a stop. */
  lemma TokenRoundTripsExactly(t: Tokenizer, w: Bytes)
    requires Sane(t) && IsToken(t.ranks, w)
    ensures Spell(w) in t.vocab && EncodedPiece(t, w) == Some([t.vocab[Spell(w)]])
    ensures DecodedBytes(t.tables, EncodedPiece(t, w).value) == Some(w) <==> Faithful(t, t.vocab[Spell(w)], w)
  {
    LookupNeverFails(t, w);
    assert Spell(w) in [Spell(w)];
    var id := t.vocab[Spell(w)];
    assert Ids(t.vocab, [Spell(w)]) == [id];
    OneDecodes(t, id);
    UnspellSpell(w);
  }

  lemma OneDecodes(t: Tokenizer, id: int)
    ensures IsStop(t.tables, id) ==> DecodedBytes(t.tables, [id]) == Some([])
    ensures var raw := RawTokenBytes(t.tables, id);
      !IsStop(t.tables, id) && raw.Some? && |raw.value| <= LIMIT ==> DecodedBytes(t.tables, [id]) == raw
    ensures DecodedBytes(t.tables, [id]).Some? && !IsStop(t.tables, id) ==>
      DecodedBytes(t.tables, [id]) == RawTokenBytes(t.tables, id)
  {
    var ids := [id];
    assert ids[1..] == [];
    var raw := RawTokenBytes(t.tables, id);
    assert raw.Some? ==> raw.value + [] == raw.value;
  }

  /** The exact condition: every piece decodes back if and only if no token shares its id with other text. */
  lemma PiecesRoundTripExactly(t: Tokenizer)
    requires Sane(t)
    ensures Harmless(t) <==>
      forall piece :: EncodedPiece(t, piece).Some? ==>
        DecodedBytes(t.tables, EncodedPiece(t, piece).value) == Some(piece)
  {
    hide Sane, Spell, DecodedBytes, Merged, Letters, Faithful, EncodedPiece, IsToken;
    if Harmless(t) {
      forall piece | EncodedPiece(t, piece).Some?
        ensures DecodedBytes(t.tables, EncodedPiece(t, piece).value) == Some(piece) {
        PieceRoundTrips(t, piece);
      }
    } else {
      var w: Bytes :| IsToken(t.ranks, w) && Spell(w) in t.vocab && !Faithful(t, t.vocab[Spell(w)], w);
      TokenRoundTripsExactly(t, w);
    }
  }

  lemma {:induction false} PiecesRoundTrip(t: Tokenizer, pieces: seq<Chars>)
    requires Sane(t) && Harmless(t) && EncodedPieces(t, pieces).Some? && |Flatten(Flatten(pieces))| <= LIMIT
    ensures NoStop(t.tables, EncodedPieces(t, pieces).value)
    ensures DecodedBytes(t.tables, EncodedPieces(t, pieces).value) == Some(Flatten(Flatten(pieces)))
  {
    hide Sane, Harmless, EncodedPiece, RawTokenBytes;
    if pieces != [] {
      var n := |pieces| - 1;
      var front, last := pieces[..n], pieces[n];
      assert pieces == front + [last];
      FlattenAppend(front, [last]);
      FlattenOne(last);
      FlattenAppend(Flatten(front), last);
      PiecesRoundTrip(t, front);
      PieceRoundTrips(t, Flatten(last));
      var a, b := EncodedPieces(t, front).value, EncodedPiece(t, Flatten(last)).value;
      DecodedAppend(t.tables, a, b);
    }
  }

  lemma PlainRoundTrips(t: Tokenizer, ms: seq<Matcher>, text: Bytes)
    requires Sane(t) && Harmless(t) && EncodedPlain(t, ms, text).Some? && |text| <= LIMIT
    ensures NoStop(t.tables, EncodedPlain(t, ms, text).value)
    ensures DecodedBytes(t.tables, EncodedPlain(t, ms, text).value) == Some(text)
  {
    hide Sane, Harmless, DecodedBytes, EncodedPieces, SplitAll;
    var pieces := SplitAll(ms, [Characters(text)]).value;
    SplitConserves(ms, [Characters(text)]);
    FlattenOne(Characters(text));
    CharactersSpellText(text);
    PiecesRoundTrip(t, pieces);
  }

  /**
   * The tokenizer round trip: for every admitted tokenizer in which no token shares its id with other
   * text, and for every split of the text, decoding the ids of an accepted text gives the text back.
   */
  lemma TextRoundTrips(inv: Inventory, ms: seq<Matcher>, text: Bytes)
    requires Admissible(inv) && Harmless(Built(inv))
    requires |text| <= 1024 * 1024
    ensures Sane(Built(inv))
    ensures EncodedPlain(Built(inv), ms, text).Some? ==>
      Decoded(Built(inv).tables, EncodedPlain(Built(inv), ms, text).value) == Some(text)
  {
    hide Sane, Harmless, DecodedBytes, Admissible, Built, Utf8.Repair, SplitAll, EncodedPieces;
    AdmittedIsSane(inv);
    var t := Built(inv);
    if EncodedPlain(t, ms, text).Some? {
      PlainRoundTrips(t, ms, text);
      Utf8.RepairFixesExactlyValid(text);
    }
  }

  /** The id reads as this text: no added token has it, or one that is no stop and whose bytes repair to the text. */
  predicate Readable(t: Tokenizer, id: int, w: Bytes) {
    id in t.tables.added ==>
      !IsStop(t.tables, id) && |t.tables.added[id]| <= LIMIT && Utf8.Repair(t.tables.added[id]) == w
  }

  lemma UnsplitTextIsOnePiece(t: Tokenizer, w: Bytes)
    requires Sane(t) && Utf8.Valid(w)
    ensures EncodedPlain(t, [], w) == EncodedPiece(t, w)
  {
    hide Sane, EncodedPiece, Utf8.Valid, Characters;
    var pieces := [Characters(w)];
    CharactersSpellText(w);
    assert pieces[..0] == [];
    assert EncodedPieces(t, []) == Some([]);
    if EncodedPiece(t, w).Some? {
      assert [] + EncodedPiece(t, w).value == EncodedPiece(t, w).value;
    }
  }

  lemma OneReads(t: Tokenizer, id: int, w: Bytes)
    requires Sane(t) && Spell(w) in t.vocab && id == t.vocab[Spell(w)] && |w| <= LIMIT && w != [] && Utf8.Valid(w)
    ensures Decoded(t.tables, [id]) == Some(w) <==> Readable(t, id, w)
  {
    hide Spell, Utf8.Repair, Utf8.Valid, Unspell;
    OneDecodes(t, id);
    OneTooLong(t, id);
    UnspellSpell(w);
    Utf8.RepairFixesExactlyValid(w);
    RepairNothing();
  }

  lemma OneTooLong(t: Tokenizer, id: int)
    ensures DecodedBytes(t.tables, [id]).Some? ==> |DecodedBytes(t.tables, [id]).value| <= LIMIT
  {
    DecodesIffFits(t.tables, [id]);
  }

  /** The same for text: one valid token, encoded whole and decoded, comes back exactly when its id reads as it. */
  lemma TokenTextRoundTripsExactly(t: Tokenizer, w: Bytes)
    requires Sane(t) && IsToken(t.ranks, w) && Utf8.Valid(w)
    ensures Spell(w) in t.vocab && EncodedPlain(t, [], w) == Some([t.vocab[Spell(w)]])
    ensures DecodedBytes(t.tables, EncodedPlain(t, [], w).value) == Some(w) <==> Faithful(t, t.vocab[Spell(w)], w)
    ensures Decoded(t.tables, EncodedPlain(t, [], w).value) == Some(w) <==> Readable(t, t.vocab[Spell(w)], w)
  {
    hide Sane, Spell, DecodedBytes, Merged, Letters, Faithful, Readable, EncodedPiece, Utf8.Valid, Decoded,
      EncodedPlain;
    TokenRoundTripsExactly(t, w);
    UnsplitTextIsOnePiece(t, w);
    OneReads(t, t.vocab[Spell(w)], w);
  }

  lemma SpecialDecodes(t: Tokenizer, e: Entry, rest: seq<int>)
    requires Sane(t) && !t.tables.family.Qwen3? && e in t.specials
    ensures DecodedBytes(t.tables, [e.id] + rest) == Behind(e.text, DecodedBytes(t.tables, rest))
  {
    assert ([e.id] + rest)[1..] == rest;
  }

  /** The same for text with added tokens, in the families that keep their spelling. */
  lemma {:induction false} MarkedBytesRoundTrip(t: Tokenizer, ms: seq<Matcher>, text: Bytes)
    requires Sane(t) && Harmless(t) && !t.tables.family.Qwen3? && Encoded(t, ms, text).Some? && |text| <= LIMIT
    ensures DecodedBytes(t.tables, Encoded(t, ms, text).value) == Some(text)
    decreases |text|
  {
    hide Sane, Harmless, Nearest, EncodedPlain, DecodedBytes;
    if text == [] {
      NothingDecodes(t.tables);
    } else if at: nat, e :| Nearest(t.specials, text, at, e) {
      EncodedAtSpecial(t, ms, text, at, e);
      NearestStands(t.specials, text, at, e);
      var before, after := text[..at], text[at + |e.text|..];
      var a, b := EncodedPlain(t, ms, before).value, Encoded(t, ms, after).value;
      PlainRoundTrips(t, ms, before);
      MarkedBytesRoundTrip(t, ms, after);
      DecodedAppend(t.tables, a, [e.id] + b);
      SpecialDecodes(t, e, b);
      Assoc(a, [e.id], b);
      assert text == before + (e.text + after);
    } else {
      PlainRoundTrips(t, ms, text);
    }
  }

  lemma NothingDecodes(t: Tables)
    ensures DecodedBytes(t, []) == Some([])
  {
  }

  lemma NearestStands(specials: seq<Entry>, text: Bytes, at: nat, e: Entry)
    requires Nearest(specials, text, at, e)
    ensures e in specials && at + |e.text| <= |text| && text == text[..at] + (e.text + text[at + |e.text|..])
  {
    assert text[at..] == e.text + text[at..][|e.text|..];
  }

  lemma MarkedTextRoundTrips(inv: Inventory, ms: seq<Matcher>, text: Bytes)
    requires Admissible(inv) && Harmless(Built(inv)) && !inv.family.Qwen3?
    requires |text| <= 1024 * 1024 && Utf8.Valid(text)
    ensures Sane(Built(inv))
    ensures Encoded(Built(inv), ms, text).Some? ==>
      Decoded(Built(inv).tables, Encoded(Built(inv), ms, text).value) == Some(text)
  {
    hide Sane, Harmless, DecodedBytes, Admissible, Utf8.Repair, Encoded,
      AddedOf, VocabOf, SpellingOf, RanksOf, SpecialsOf;
    AdmittedIsSane(inv);
    var t := Built(inv);
    if Encoded(t, ms, text).Some? {
      MarkedBytesRoundTrip(t, ms, text);
      Utf8.RepairFixesExactlyValid(text);
    }
  }
}
