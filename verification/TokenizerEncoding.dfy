/** From text to token ids, and back: the byte-level tokenizer loses nothing. */
module TokenizerEncoding {
  import opened ByteStrings
  import opened ByteAlphabet
  import opened BytePairMerging
  import opened TokenDecoding
  import opened TokenizerAdmission
  import Utf8
  import opened Wrappers

  // ---- Pre-tokenisation: isolated splits -----------------------------------------------------------

  /** Text as its characters. */
  type Chars = seq<Bytes>

  function Characters(text: Bytes): Chars
    requires Utf8.Valid(text)
  {
    if text == [] then [] else
      var n := Utf8.UnitLength(text);
      [text[..n]] + Characters(text[n..])
  }

  lemma FlattenNothing()
    ensures Flatten<Byte>([]) == []
  {
  }

  lemma FlattenOneMore(first: Bytes, rest: seq<Bytes>)
    ensures Flatten([first] + rest) == first + Flatten(rest)
  {
    assert ([first] + rest)[1..] == rest;
  }

  lemma {:induction false} CharactersSpellText(text: Bytes)
    requires Utf8.Valid(text)
    ensures Flatten(Characters(text)) == text
    decreases |text|
  {
    hide Flatten, Utf8.WellFormed, Utf8.Scalar, Utf8.Initial;
    if text == [] {
      FlattenNothing();
    } else {
      var n := Utf8.UnitLength(text);
      CharactersSpellText(text[n..]);
      assert Characters(text) == [text[..n]] + Characters(text[n..]);
      FlattenOneMore(text[..n], Characters(text[n..]));
      assert text[..n] + text[n..] == text;
    }
  }

  datatype Span = Span(start: nat, end: nat)

  /** A regular-expression matcher: the spans it finds one after the other, or None when it gives up. */
  type Matcher = Chars -> Option<seq<Span>>

  /** Spans are ordered, disjoint, not empty and inside the input. */
  predicate Ordered(spans: seq<Span>, from: nat, length: nat)
    decreases |spans|
  {
    spans == [] || (from <= spans[0].start < spans[0].end <= length && Ordered(spans[1..], spans[0].end, length))
  }

  /** Every span is a piece, and so is every gap. */
  function Isolated(input: Chars, spans: seq<Span>, from: nat): seq<Chars>
    requires from <= |input| && Ordered(spans, from, |input|)
    decreases |spans|
  {
    if spans == [] then (if from < |input| then [input[from..]] else [])
    else
      var s := spans[0];
      (if s.start > from then [input[from..s.start]] else []) + [input[s.start..s.end]] +
        Isolated(input, spans[1..], s.end)
  }

  /** Isolating loses nothing. */
  lemma {:induction false} IsolatedConserves(input: Chars, spans: seq<Span>, from: nat)
    requires from <= |input| && Ordered(spans, from, |input|)
    ensures Flatten(Isolated(input, spans, from)) == input[from..]
    decreases |spans|
  {
    if spans == [] {
      if from < |input| {
        FlattenOne(input[from..]);
      }
    } else {
      var s := spans[0];
      var gap: seq<Chars> := if s.start > from then [input[from..s.start]] else [];
      var piece, rest := input[s.start..s.end], Isolated(input, spans[1..], s.end);
      IsolatedConserves(input, spans[1..], s.end);
      FlattenOne(piece);
      FlattenOne(input[from..s.start]);
      FlattenAppend(gap, [piece]);
      FlattenAppend(gap + [piece], rest);
      assert input[from..] == input[from..s.start] + piece + input[s.end..];
    }
  }

  /** Some piece ends at the place, counted from a start. */
  ghost predicate EndsAt(pieces: seq<Chars>, from: nat, k: int) {
    exists j :: 0 < j <= |pieces| && k == from + |Flatten(pieces[..j])|
  }

  lemma EndsAtMore(piece: Chars, rest: seq<Chars>, from: nat, k: int)
    ensures EndsAt([piece] + rest, from, k) <==> k == from + |piece| || EndsAt(rest, from + |piece|, k)
  {
    var all := [piece] + rest;
    forall j | 0 < j <= |all| ensures |Flatten(all[..j])| == |piece| + |Flatten(rest[..j - 1])| {
      assert all[..j] == [piece] + rest[..j - 1];
      assert ([piece] + rest[..j - 1])[1..] == rest[..j - 1];
    }
    if EndsAt(all, from, k) {
      var j :| 0 < j <= |all| && k == from + |Flatten(all[..j])|;
      if j == 1 {
        assert rest[..0] == [];
      } else {
        assert k == from + |piece| + |Flatten(rest[..j - 1])|;
      }
    }
    if k == from + |piece| {
      assert rest[..0] == [] && k == from + |Flatten(all[..1])|;
    }
    if EndsAt(rest, from + |piece|, k) {
      var j :| 0 < j <= |rest| && k == from + |piece| + |Flatten(rest[..j])|;
      assert k == from + |Flatten(all[..j + 1])|;
    }
  }

  lemma NoPieceEnds(from: nat, k: int)
    ensures !EndsAt([], from, k)
  {
  }

  /** A match begins or ends at the place. */
  predicate MatchEdge(spans: seq<Span>, k: int) {
    exists i :: 0 <= i < |spans| && (spans[i].start == k || spans[i].end == k)
  }

  lemma MatchEdgeMore(spans: seq<Span>, k: int)
    requires spans != []
    ensures MatchEdge(spans, k) <==> spans[0].start == k || spans[0].end == k || MatchEdge(spans[1..], k)
  {
    assert forall i :: 0 < i < |spans| ==> spans[i] == spans[1..][i - 1];
    assert forall i :: 0 <= i < |spans| - 1 ==> spans[1..][i] == spans[i + 1];
  }

  lemma IsolatedStep(input: Chars, spans: seq<Span>, from: nat)
    requires from <= |input| && Ordered(spans, from, |input|) && spans != []
    ensures var s := spans[0]; var rest := [input[s.start..s.end]] + Isolated(input, spans[1..], s.end);
      Isolated(input, spans, from) == if s.start > from then [input[from..s.start]] + rest else rest
  {
  }

  lemma {:induction false} NoPieceIsEmpty(input: Chars, spans: seq<Span>, from: nat)
    requires from <= |input| && Ordered(spans, from, |input|)
    ensures forall p :: p in Isolated(input, spans, from) ==> p != []
    decreases |spans|
  {
    if spans != [] {
      NoPieceIsEmpty(input, spans[1..], spans[0].end);
    }
  }

  lemma LastPieceEnds(input: Chars, from: nat, k: int)
    requires from <= |input|
    ensures EndsAt(Isolated(input, [], from), from, k) <==> from < k == |input|
  {
    hide EndsAt;
    NoPieceEnds(from, k);
    if from < |input| {
      assert [input[from..]] == [input[from..]] + [];
      EndsAtMore(input[from..], [], from, k);
      NoPieceEnds(|input|, k);
    }
  }

  /** Isolating cuts exactly at the edges of the matches, and leaves no empty piece. */
  lemma {:induction false} IsolatedCutsAtEdges(input: Chars, spans: seq<Span>, from: nat, k: int)
    requires from <= |input| && Ordered(spans, from, |input|)
    ensures forall p :: p in Isolated(input, spans, from) ==> p != []
    ensures EndsAt(Isolated(input, spans, from), from, k) <==> from < k && (k == |input| || MatchEdge(spans, k))
    decreases |spans|
  {
    hide EndsAt, MatchEdge, Isolated;
    NoPieceIsEmpty(input, spans, from);
    if spans == [] {
      NoMatchEdge(k);
      LastPieceEnds(input, from, k);
    } else {
      var s := spans[0];
      var rest := Isolated(input, spans[1..], s.end);
      IsolatedCutsAtEdges(input, spans[1..], s.end, k);
      IsolatedStep(input, spans, from);
      MatchEdgeMore(spans, k);
      EdgesAreBehind(spans[1..], s.end, |input|, k);
      var piece := input[s.start..s.end];
      EndsAtMore(piece, rest, s.start, k);
      if s.start > from {
        EndsAtMore(input[from..s.start], [piece] + rest, from, k);
      }
    }
  }

  lemma NoMatchEdge(k: int)
    ensures !MatchEdge([], k)
  {
  }

  lemma {:induction false} EdgesAreBehind(spans: seq<Span>, from: nat, length: nat, k: int)
    requires Ordered(spans, from, length)
    ensures MatchEdge(spans, k) ==> from <= k <= length
    decreases |spans|
  {
    hide MatchEdge;
    if spans == [] {
      NoMatchEdge(k);
    } else {
      MatchEdgeMore(spans, k);
      EdgesAreBehind(spans[1..], spans[0].end, length, k);
    }
  }

  lemma FlattenOne<T>(x: seq<T>)
    ensures Flatten([x]) == x
  {
    var one: seq<seq<T>> := [x];
    assert one[1..] == [] && x + [] == x;
  }

  /** One split stage over all pieces. */
  function SplitStage(m: Matcher, pieces: seq<Chars>): Option<seq<Chars>> {
    if pieces == [] then Some([])
    else
      var input := pieces[|pieces| - 1];
      var before :- SplitStage(m, pieces[..|pieces| - 1]);
      var spans :- m(input);
      if Ordered(spans, 0, |input|) then Some(before + Isolated(input, spans, 0)) else None
  }

  lemma {:induction false} StageConserves(m: Matcher, pieces: seq<Chars>)
    requires SplitStage(m, pieces).Some?
    ensures Flatten(SplitStage(m, pieces).value) == Flatten(pieces)
  {
    if pieces != [] {
      var n := |pieces| - 1;
      var input := pieces[n];
      StageConserves(m, pieces[..n]);
      IsolatedConserves(input, m(input).value, 0);
      FlattenAppend(SplitStage(m, pieces[..n]).value, Isolated(input, m(input).value, 0));
      FlattenAppend(pieces[..n], [input]);
      FlattenOne(input);
      assert pieces == pieces[..n] + [input] && input[0..] == input;
    }
  }

  function SplitAll(ms: seq<Matcher>, pieces: seq<Chars>): Option<seq<Chars>> {
    if ms == [] then Some(pieces)
    else
      var before :- SplitAll(ms[..|ms| - 1], pieces);
      SplitStage(ms[|ms| - 1], before)
  }

  /** The first stages cut the text, and the later ones cut what the first have left. */
  lemma {:induction false} StagesCompose(first: seq<Matcher>, later: seq<Matcher>, pieces: seq<Chars>)
    ensures SplitAll(first + later, pieces) ==
      match SplitAll(first, pieces) case None => None case Some(cut) => SplitAll(later, cut)
    decreases |later|
  {
    if later == [] {
      assert first + later == first;
    } else {
      var n := |later| - 1;
      StagesCompose(first, later[..n], pieces);
      assert (first + later)[..|first + later| - 1] == first + later[..n];
    }
  }

  lemma {:induction false} SplitConserves(ms: seq<Matcher>, pieces: seq<Chars>)
    requires SplitAll(ms, pieces).Some?
    ensures Flatten(SplitAll(ms, pieces).value) == Flatten(pieces)
  {
    if ms != [] {
      var n := |ms| - 1;
      SplitConserves(ms[..n], pieces);
      StageConserves(ms[n], SplitAll(ms[..n], pieces).value);
    }
  }

  method Isolate(input: Chars, spans: seq<Span>) returns (ok: bool, pieces: seq<Chars>)
    ensures ok <==> Ordered(spans, 0, |input|)
    ensures ok ==> pieces == Isolated(input, spans, 0)
  {
    ok, pieces := false, [];
    var consumed: nat := 0;
    assert spans[0..] == spans;
    for n := 0 to |spans|
      invariant consumed <= |input| && !ok
      invariant Ordered(spans, 0, |input|) <==> Ordered(spans[n..], consumed, |input|)
      invariant Ordered(spans, 0, |input|) ==>
        Isolated(input, spans, 0) == pieces + Isolated(input, spans[n..], consumed)
    {
      var s := spans[n];
      assert spans[n..][0] == s && spans[n..][1..] == spans[n + 1..];
      if s.start < consumed || s.end <= s.start || s.end > |input| { return; }
      var gap: seq<Chars> := if s.start > consumed then [input[consumed..s.start]] else [];
      if Ordered(spans[n + 1..], s.end, |input|) {
        Assoc(pieces, gap, [input[s.start..s.end]]);
        Assoc(pieces, gap + [input[s.start..s.end]], Isolated(input, spans[n + 1..], s.end));
      }
      pieces := pieces + gap + [input[s.start..s.end]];
      consumed := s.end;
    }
    if consumed < |input| {
      pieces := pieces + [input[consumed..]];
    }
    ok := true;
  }

  method SplitText(ms: seq<Matcher>, chars: Chars) returns (r: Option<seq<Chars>>)
    ensures r == SplitAll(ms, [chars])
  {
    var pieces: seq<Chars> := [chars];
    for n := 0 to |ms|
      invariant SplitAll(ms[..n], [chars]) == Some(pieces)
      invariant forall k :: 0 <= k < n ==> SplitAll(ms[..k], [chars]).Some?
    {
      assert ms[..n + 1][..n] == ms[..n];
      var next: seq<Chars> := [];
      for i := 0 to |pieces|
        invariant SplitStage(ms[n], pieces[..i]) == Some(next)
      {
        assert pieces[..i + 1][..i] == pieces[..i];
        var spans := ms[n](pieces[i]);
        var ok, split := false, [];
        if spans.Some? {
          ok, split := Isolate(pieces[i], spans.value);
        }
        if !ok {
          StageFails(ms[n], pieces, i + 1);
          SplitFails(ms, [chars], n + 1);
          return None;
        }
        next := next + split;
      }
      assert pieces[..|pieces|] == pieces;
      pieces := next;
    }
    assert ms[..|ms|] == ms;
    return Some(pieces);
  }

  lemma {:induction false} StageFails(m: Matcher, pieces: seq<Chars>, n: nat)
    requires n <= |pieces| && SplitStage(m, pieces[..n]).None?
    ensures SplitStage(m, pieces).None?
    decreases |pieces|
  {
    if n < |pieces| {
      assert pieces[..|pieces| - 1][..n] == pieces[..n];
      StageFails(m, pieces[..|pieces| - 1], n);
    } else {
      assert pieces[..n] == pieces;
    }
  }

  lemma {:induction false} SplitFails(ms: seq<Matcher>, pieces: seq<Chars>, n: nat)
    requires n <= |ms| && SplitAll(ms[..n], pieces).None?
    ensures SplitAll(ms, pieces).None?
    decreases |ms|
  {
    if n < |ms| {
      assert ms[..|ms| - 1][..n] == ms[..n];
      SplitFails(ms[..|ms| - 1], pieces, n);
    } else {
      assert ms[..n] == ms;
    }
  }

  // ---- Byte-pair encoding of a piece -----------------------------------------------------------------

  function Letters(piece: Bytes): seq<Bytes> {
    seq(|piece|, i requires 0 <= i < |piece| => Letter(piece[i]))
  }

  /** The ids of known symbols. */
  function Ids(vocab: map<Bytes, int>, symbols: seq<Bytes>): seq<int>
    requires forall s :: s in symbols ==> s in vocab
  {
    seq(|symbols|, i requires 0 <= i < |symbols| => vocab[symbols[i]])
  }

  ghost predicate Sane(t: Tokenizer) {
    && (forall b: Byte :: Letter(b) in t.vocab)
    && RanksWithin(t.ranks, t.vocab.Keys)
    && (forall s :: s in t.vocab ==> t.vocab[s] in t.tables.spelling && t.tables.spelling[t.vocab[s]] == s)
    && (t.tables.family.Qwen3? ==> 151643 in t.tables.added && 151645 in t.tables.added)
    && (!t.tables.family.Qwen3? ==> forall e :: e in t.specials ==>
      e.id in t.tables.added && t.tables.added[e.id] == e.text)
    && (forall e :: e in t.specials ==> e.text != [])
    && (forall e, o :: e in t.specials && o in t.specials && e.text == o.text ==> e == o)
  }

  lemma LettersAreKnown(t: Tokenizer, piece: Bytes)
    requires Sane(t)
    ensures Known(Letters(piece), t.vocab.Keys)
  {
    forall s | s in Letters(piece) ensures s in t.vocab && 0 !in s {
      var i :| 0 <= i < |piece| && s == Letter(piece[i]);
    }
  }

  /** The symbols of a piece after merging are all in the vocabulary. */
  lemma LookupNeverFails(t: Tokenizer, piece: Bytes)
    requires Sane(t)
    ensures Known(Merged(t.ranks, Letters(piece)), t.vocab.Keys)
  {
    LettersAreKnown(t, piece);
    MergingStaysKnown(t.ranks, t.vocab.Keys, Letters(piece), Merged(t.ranks, Letters(piece)));
  }

  /** The ids of a piece; None when it is too long. */
  ghost function EncodedPiece(t: Tokenizer, piece: Bytes): Option<seq<int>>
    requires Sane(t)
  {
    LookupNeverFails(t, piece);
    if |piece| <= 8192 then Some(Ids(t.vocab, Merged(t.ranks, Letters(piece)))) else None
  }

  method SpellPiece(piece: Bytes) returns (symbols: seq<Bytes>)
    ensures symbols == Letters(piece)
  {
    hide Letter;
    symbols := [];
    for i := 0 to |piece|
      invariant symbols == Letters(piece)[..i]
    {
      symbols := symbols + [Letter(piece[i])];
    }
  }

  method LookUp(vocab: map<Bytes, int>, symbols: seq<Bytes>) returns (ids: seq<int>)
    requires forall s :: s in symbols ==> s in vocab
    ensures ids == Ids(vocab, symbols)
  {
    ids := [];
    for i := 0 to |symbols|
      invariant ids == Ids(vocab, symbols)[..i]
    {
      ids := ids + [vocab[symbols[i]]];
    }
  }

  method EncodePiece(t: Tokenizer, piece: Bytes) returns (r: Option<seq<int>>)
    requires Sane(t)
    ensures r == EncodedPiece(t, piece)
  {
    hide Sane, Letters, Merged, Ids;
    if |piece| > 8192 { return None; }
    var symbols := SpellPiece(piece);
    symbols := MergeSymbols(t.ranks, symbols);
    LookupNeverFails(t, piece);
    var ids := LookUp(t.vocab, symbols);
    return Some(ids);
  }

  /** The ids of a list of pieces. */
  ghost function EncodedPieces(t: Tokenizer, pieces: seq<Chars>): Option<seq<int>>
    requires Sane(t)
  {
    if pieces == [] then Some([])
    else
      var n := |pieces| - 1;
      var before :- EncodedPieces(t, pieces[..n]);
      var last :- EncodedPiece(t, Flatten(pieces[n]));
      Some(before + last)
  }

  /** EncodePlain; None for text that is not UTF-8, a matcher that gives up and a piece that is too long. */
  ghost function EncodedPlain(t: Tokenizer, ms: seq<Matcher>, text: Bytes): Option<seq<int>>
    requires Sane(t)
  {
    if !Utf8.Valid(text) then None
    else
      var pieces :- SplitAll(ms, [Characters(text)]);
      EncodedPieces(t, pieces)
  }

  lemma {:induction false} PiecesFail(t: Tokenizer, pieces: seq<Chars>, n: nat)
    requires Sane(t) && n <= |pieces| && EncodedPieces(t, pieces[..n]).None?
    ensures EncodedPieces(t, pieces).None?
    decreases |pieces|
  {
    if n < |pieces| {
      assert pieces[..|pieces| - 1][..n] == pieces[..n];
      PiecesFail(t, pieces[..|pieces| - 1], n);
    } else {
      assert pieces[..n] == pieces;
    }
  }

  method EncodePlain(t: Tokenizer, ms: seq<Matcher>, text: Bytes) returns (r: Option<seq<int>>)
    requires Sane(t)
    ensures r == EncodedPlain(t, ms, text)
  {
    hide Sane;
    Utf8.RepairFixesExactlyValid(text);
    if Utf8.Repair(text) != text { return None; }
    var split := SplitText(ms, Characters(text));
    if split.None? { return None; }
    var pieces := split.value;
    var ids: seq<int> := [];
    for n := 0 to |pieces|
      invariant EncodedPieces(t, pieces[..n]) == Some(ids)
    {
      assert pieces[..n + 1][..n] == pieces[..n];
      var piece := EncodePiece(t, Flatten(pieces[n]));
      if piece.None? {
        PiecesFail(t, pieces, n + 1);
        return None;
      }
      ids := ids + piece.value;
    }
    assert pieces[..|pieces|] == pieces;
    return Some(ids);
  }

  method EncodeText(t: Tokenizer, ms: seq<Matcher>, text: Bytes) returns (r: Option<seq<int>>)
    requires Sane(t)
    ensures r == if |text| > 1024 * 1024 then None else EncodedPlain(t, ms, text)
  {
    if |text| > 1024 * 1024 { return None; }
    r := EncodePlain(t, ms, text);
  }

  // ---- Added tokens ------------------------------------------------------------------------------------

  /** The leftmost occurrence of an added token, and the longest token there. */
  ghost predicate Nearest(specials: seq<Entry>, text: Bytes, at: nat, e: Entry) {
    && e in specials && OccursAt(text, e.text, at)
    && forall o, i :: o in specials && 0 <= i && OccursAt(text, o.text, i) ==>
      at < i || (at == i && |o.text| <= |e.text|)
  }

  ghost predicate NoSpecial(specials: seq<Entry>, text: Bytes) {
    forall o :: o in specials ==> !Contains(text, o.text)
  }

  lemma NoneAtFirst(text: Bytes)
    ensures NoSpecial([], text)
  {
  }

  lemma FirstStep(specials: seq<Entry>, text: Bytes, o: Entry, position: Option<nat>)
    requires o.text != [] && position == Find(text, o.text) && NoSpecial(specials, text)
    ensures if position.Some? then Nearest(specials + [o], text, position.value, o) else NoSpecial(specials + [o], text)
  {
    hide OccursAt;
    forall p, i | p in specials && 0 <= i ensures !OccursAt(text, p.text, i) {
      BeyondTheEnd(text, p.text, i);
    }
  }

  lemma BeyondTheEnd(text: Bytes, p: Bytes, i: int)
    ensures OccursAt(text, p, i) ==> Contains(text, p)
  {
  }

  lemma NearestStep(specials: seq<Entry>, text: Bytes, at: nat, e: Entry, o: Entry, position: Option<nat>)
    requires o.text != [] && position == Find(text, o.text) && Nearest(specials, text, at, e)
    ensures if position.Some? && (position.value < at || (position.value == at && |o.text| > |e.text|))
      then Nearest(specials + [o], text, position.value, o) else Nearest(specials + [o], text, at, e)
  {
    hide OccursAt;
    forall i ensures OccursAt(text, o.text, i) ==> position.Some? && (i < 0 || position.value <= i) {
      BeyondTheEnd(text, o.text, i);
    }
  }

  method FindSpecial(specials: seq<Entry>, text: Bytes) returns (found: bool, at: nat, e: Entry)
    requires forall o :: o in specials ==> o.text != []
    ensures found ==> Nearest(specials, text, at, e)
    ensures !found ==> NoSpecial(specials, text)
  {
    hide OccursAt, Contains, Nearest, NoSpecial;
    found, at, e := false, 0, Entry([], 0);
    NoneAtFirst(text);
    for n := 0 to |specials|
      invariant found ==> Nearest(specials[..n], text, at, e)
      invariant !found ==> NoSpecial(specials[..n], text)
    {
      var o := specials[n];
      var position := Find(text, o.text);
      assert specials[..n + 1] == specials[..n] + [o];
      if found {
        NearestStep(specials[..n], text, at, e, o, position);
      } else {
        FirstStep(specials[..n], text, o, position);
      }
      if position.Some? && (!found || position.value < at || (position.value == at && |o.text| > |e.text|)) {
        found, at, e := true, position.value, o;
      }
    }
    assert specials[..|specials|] == specials;
  }

  /** Encode on text within the size bound: plain parts between added tokens, found leftmost-longest. */
  ghost function Encoded(t: Tokenizer, ms: seq<Matcher>, text: Bytes): Option<seq<int>>
    requires Sane(t)
    decreases |text|
  {
    if text == [] then Some([])
    else if at: nat, e :| Nearest(t.specials, text, at, e) then
      var before :- EncodedPlain(t, ms, text[..at]);
      var after :- Encoded(t, ms, text[at + |e.text|..]);
      Some(before + [e.id] + after)
    else EncodedPlain(t, ms, text)
  }

  lemma NearestIsUnique(t: Tokenizer, text: Bytes, at: nat, e: Entry, at': nat, e': Entry)
    requires Sane(t) && Nearest(t.specials, text, at, e) && Nearest(t.specials, text, at', e')
    ensures at == at' && e == e'
  {
    assert at == at' && |e.text| == |e'.text|;
    assert e.text == text[at..][..|e.text|] == e'.text;
  }

  lemma EncodedAtSpecial(t: Tokenizer, ms: seq<Matcher>, text: Bytes, at: nat, e: Entry)
    requires Sane(t) && Nearest(t.specials, text, at, e)
    ensures text != [] && at + |e.text| <= |text|
    ensures Encoded(t, ms, text) ==
      match (EncodedPlain(t, ms, text[..at]), Encoded(t, ms, text[at + |e.text|..]))
      case (Some(before), Some(after)) => Some(before + [e.id] + after)
      case _ => None
  {
    forall at': nat, e' | Nearest(t.specials, text, at', e') ensures at == at' && e == e' {
      NearestIsUnique(t, text, at, e, at', e');
    }
    hide Sane, EncodedPlain, Nearest;
  }

  lemma LongestIsNearest(specials: seq<Entry>, front: Bytes, e: Entry, rest: Bytes)
    requires e in specials
    requires forall o, i :: o in specials && 0 <= i < |front| ==> !(o.text <= (front + (e.text + rest))[i..])
    requires forall o :: o in specials && |o.text| > |e.text| ==> !(o.text <= e.text + rest)
    ensures Nearest(specials, front + (e.text + rest), |front|, e)
  {
    var text := front + (e.text + rest);
    assert text[|front|..] == e.text + rest;
    forall o, i | o in specials && 0 <= i && OccursAt(text, o.text, i)
      ensures |front| < i || (|front| == i && |o.text| <= |e.text|)
    {
      assert o.text <= text[i..];
    }
  }

  /** Text in front of which no added token begins is encoded as plain text, and then the longest token there is. */
  lemma LongestTokenIsTaken(t: Tokenizer, ms: seq<Matcher>, front: Bytes, e: Entry, rest: Bytes)
    requires Sane(t) && e in t.specials
    requires forall o, i :: o in t.specials && 0 <= i < |front| ==> !(o.text <= (front + (e.text + rest))[i..])
    requires forall o :: o in t.specials && |o.text| > |e.text| ==> !(o.text <= e.text + rest)
    ensures Encoded(t, ms, front + (e.text + rest)) ==
      match (EncodedPlain(t, ms, front), Encoded(t, ms, rest))
      case (Some(before), Some(after)) => Some(before + [e.id] + after)
      case _ => None
  {
    hide Sane, Encoded, EncodedPlain, Nearest, OccursAt;
    var text := front + (e.text + rest);
    LongestIsNearest(t.specials, front, e, rest);
    EncodedAtSpecial(t, ms, text, |front|, e);
    assert text[..|front|] == front && text[|front| + |e.text|..] == rest;
  }

  lemma EncodedWithoutSpecial(t: Tokenizer, ms: seq<Matcher>, text: Bytes)
    requires Sane(t) && NoSpecial(t.specials, text) && text != []
    ensures Encoded(t, ms, text) == EncodedPlain(t, ms, text)
  {
    hide Sane, EncodedPlain;
    assert forall at: nat, e :: !Nearest(t.specials, text, at, e);
  }

  /** What encoded text makes of the encoding of the rest. */
  function Then(front: seq<int>, rest: Option<seq<int>>): Option<seq<int>> {
    match rest case None => None case Some(ids) => Some(front + ids)
  }

  method Encode(t: Tokenizer, ms: seq<Matcher>, text: Bytes) returns (r: Option<seq<int>>)
    requires Sane(t)
    ensures r == if |text| > 1024 * 1024 then None else Encoded(t, ms, text)
  {
    if |text| > 1024 * 1024 { return None; }
    var rest, result: seq<int> := text, [];
    assert Then([], Encoded(t, ms, text)) == Encoded(t, ms, text) by {
      assert Encoded(t, ms, text).Some? ==> [] + Encoded(t, ms, text).value == Encoded(t, ms, text).value;
    }
    hide Sane, Encoded, EncodedPlain, Nearest, NoSpecial;
    while rest != []
      invariant Encoded(t, ms, text) == Then(result, Encoded(t, ms, rest))
      decreases |rest|
    {
      SpecialsAreNotEmpty(t);
      var found, at, e := FindSpecial(t.specials, rest);
      if found {
        EncodedAtSpecial(t, ms, rest, at, e);
      } else {
        EncodedWithoutSpecial(t, ms, rest);
      }
      var prefix := EncodePlain(t, ms, if found then rest[..at] else rest);
      if prefix.None? { return None; }
      if !found { return Some(result + prefix.value); }
      var after := rest[at + |e.text|..];
      if Encoded(t, ms, after).Some? {
        Assoc(result, prefix.value + [e.id], Encoded(t, ms, after).value);
        Assoc(result, prefix.value, [e.id]);
      }
      result, rest := result + prefix.value + [e.id], after;
    }
    assert Encoded(t, ms, []) == Some([]) by { EncodedNothing(t, ms); }
    assert result + [] == result;
    return Some(result);
  }

  lemma EncodedNothing(t: Tokenizer, ms: seq<Matcher>)
    requires Sane(t)
    ensures Encoded(t, ms, []) == Some([])
  {
  }

  lemma SpecialsAreNotEmpty(t: Tokenizer)
    requires Sane(t)
    ensures forall o :: o in t.specials ==> o.text != []
  {
  }
}
