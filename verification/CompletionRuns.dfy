/** What holds of every run of the streaming decoder, however the text was cut into pieces. */
module CompletionRuns {
  import opened ByteStrings
  import opened Markers
  import opened CompletionScan
  import opened CompletionParser
  import opened CompletionAgreement
  import opened CompletionDecoder
  import Utf8

  function Joined(a: Delta, b: Delta): Delta {
    Delta(a.reasoning + b.reasoning, a.content + b.content, a.calls + b.calls)
  }

  const NOTHING := Delta([], [], [])

  /** Feeding piece after piece; the deltas are concatenated. */
  ghost function FedAll(s: State, pieces: seq<Bytes>): Result<(State, Delta)>
    decreases |pieces|
  {
    if pieces == [] then Ok((s, NOTHING))
    else
      match Fed(s, pieces[0])
      case Err(e) => Err(e)
      case Ok((next, d)) =>
        match FedAll(next, pieces[1..])
        case Err(e) => Err(e)
        case Ok((last, rest)) => Ok((last, Joined(d, rest)))
  }

  ghost predicate AllUtf8(pieces: seq<Bytes>) {
    forall p :: p in pieces ==> Utf8.Valid(p)
  }

  /** The state a decoder is in after reading a text, whatever it emitted when. */
  ghost predicate Holds(s: State, thinking: bool, text: Bytes) {
    s.thinking == thinking && !s.finished && s.raw == text && Sound(s)
  }

  /** A feed succeeds exactly when the whole text so far has a reading, and then holds it. */
  lemma FedReadsOn(s: State, piece: Bytes)
    requires Sound(s) && !s.finished && Utf8.Valid(piece)
    ensures Fed(s, piece).Ok? <==> |s.raw + piece| <= LIMIT && Scan(Start(s.thinking), s.raw + piece).Read?
    ensures Fed(s, piece).Ok? ==>
      var (next, d) := Fed(s, piece).value;
      && Holds(next, s.thinking, s.raw + piece)
      && next.reasoning == s.reasoning + d.reasoning && next.content == s.content + d.content && d.calls == []
  {
    hide Scan, Utf8.Valid;
    ScanResumes(Start(s.thinking), s.raw, piece);
    if Fed(s, piece).Ok? {
      FedIsSound(s, piece);
      var (next, d) := Fed(s, piece).value;
      assert s.reasoning + [] == s.reasoning && s.content + [] == s.content;
    }
  }

  lemma NoReadingOfLonger(phase: Phase, s: Bytes, t: Bytes)
    requires Open(phase) && !Scan(phase, s).Read?
    ensures !Scan(phase, s + t).Read?
  {
    hide Scan;
    ScanResumes(phase, s, t);
  }

  /** A run succeeds exactly when the concatenation of its pieces has a reading, and then holds that reading. */
  lemma {:induction false} RunReadsText(s: State, pieces: seq<Bytes>)
    requires Sound(s) && !s.finished && AllUtf8(pieces)
    ensures FedAll(s, pieces).Ok? <==>
      |s.raw + Flatten(pieces)| <= LIMIT && Scan(Start(s.thinking), s.raw + Flatten(pieces)).Read?
    ensures FedAll(s, pieces).Ok? ==>
      var (last, d) := FedAll(s, pieces).value;
      && Holds(last, s.thinking, s.raw + Flatten(pieces))
      && last.reasoning == s.reasoning + d.reasoning && last.content == s.content + d.content && d.calls == []
    decreases |pieces|
  {
    hide Scan, Utf8.Valid, Fed;
    if pieces == [] {
      assert s.raw + [] == s.raw && s.reasoning + [] == s.reasoning && s.content + [] == s.content;
    } else {
      FedReadsOn(s, pieces[0]);
      Assoc(s.raw, pieces[0], Flatten(pieces[1..]));
      if Fed(s, pieces[0]).Ok? {
        var (next, d) := Fed(s, pieces[0]).value;
        RunReadsText(next, pieces[1..]);
        if FedAll(next, pieces[1..]).Ok? {
          var rest := FedAll(next, pieces[1..]).value.1;
          Assoc(s.reasoning, d.reasoning, rest.reasoning);
          Assoc(s.content, d.content, rest.content);
        }
      } else if !Scan(Start(s.thinking), s.raw + pieces[0]).Read? {
        NoReadingOfLonger(Start(s.thinking), s.raw + pieces[0], Flatten(pieces[1..]));
      }
    }
  }

  lemma InitialIsSound(thinking: bool)
    ensures Holds(Initial(thinking), thinking, [])
  {
  }

  /** Two decoders that hold the same text are the same. */
  lemma HeldStateIsDetermined(a: State, b: State, thinking: bool, text: Bytes)
    requires Holds(a, thinking, text) && Holds(b, thinking, text)
    ensures a == b
  {
    hide Scan, Utf8.Valid;
  }

  /**
   * Chunking independence: feeding a text in pieces fails exactly when feeding it whole fails;
   * otherwise the decoder ends in the same state and the concatenated deltas are the same.
   */
  lemma ChunkingIndependence(thinking: bool, pieces: seq<Bytes>)
    requires AllUtf8(pieces)
    ensures var cut := FedAll(Initial(thinking), pieces);
      var whole := Fed(Initial(thinking), Flatten(pieces));
      && (cut.Ok? <==> whole.Ok?)
      && (cut.Ok? ==> cut == whole)
  {
    hide Scan, Utf8.Valid, Fed, FedAll;
    var s := Initial(thinking);
    var text := Flatten(pieces);
    InitialIsSound(thinking);
    assert [] + text == text;
    Utf8.ValidFlatten(pieces);
    RunReadsText(s, pieces);
    FedReadsOn(s, text);
    var cut, whole := FedAll(s, pieces), Fed(s, text);
    if cut.Ok? {
      HeldStateIsDetermined(cut.value.0, whole.value.0, thinking, text);
      assert [] + cut.value.1.reasoning == cut.value.1.reasoning &&
        [] + whole.value.1.reasoning == whole.value.1.reasoning;
      assert [] + cut.value.1.content == cut.value.1.content && [] + whole.value.1.content == whole.value.1.content;
    }
  }

  /** A whole request: the pieces, then the end of the stream. */
  ghost function Run(json: JsonSyntax, thinking: bool, pieces: seq<Bytes>, stopped: bool): Result<(State, Delta)> {
    match FedAll(Initial(thinking), pieces)
    case Err(e) => Err(e)
    case Ok((s, d)) =>
      match Closed(json, s, stopped)
      case Err(e) => Err(e)
      case Ok((last, rest)) => Ok((last, Joined(d, rest)))
  }

  function MessageOf(s: State): Message {
    Message(s.content, s.reasoning, s.calls)
  }

  /**
   * The streaming decoder refines the strict parser: a stopped turn succeeds, cut into any pieces,
   * exactly when the strict parser accepts the whole text, and yields exactly the parsed message.
   */
  lemma StreamingRefinesStrictParser(json: JsonSyntax, thinking: bool, pieces: seq<Bytes>)
    requires AllUtf8(pieces)
    ensures var run := Run(json, thinking, pieces, true);
      var parsed := ParseCompletion(json, Flatten(pieces), thinking);
      && (run.Ok? <==> parsed.Some?)
      && (run.Ok? ==> MessageOf(run.value.0) == parsed.value)
  {
    hide Scan, Utf8.Valid, FedAll, ParseCompletion;
    var text := Flatten(pieces);
    InitialIsSound(thinking);
    assert [] + text == text;
    Utf8.ValidFlatten(pieces);
    RunReadsText(Initial(thinking), pieces);
    ParsedIsRead(json, text, thinking);
    var fed := FedAll(Initial(thinking), pieces);
    if fed.Ok? && ParseCompletion(json, text, thinking).Some? {
      NeverMismatched(json, fed.value.0);
    }
  }

  lemma ParsedIsRead(json: JsonSyntax, text: Bytes, thinking: bool)
    requires Utf8.Valid(text)
    ensures ParseCompletion(json, text, thinking).Some? ==> |text| <= LIMIT && Scan(Start(thinking), text).Read?
  {
    hide Scan, ParseCompletion, CallsAfter, Clean, Utf8.Valid;
    if |text| <= LIMIT {
      ParserAgrees(json, text, thinking);
    } else {
      LongTextIsRefused(json, text, thinking);
    }
  }

  lemma LongTextIsRefused(json: JsonSyntax, text: Bytes, thinking: bool)
    requires |text| > LIMIT
    ensures ParseCompletion(json, text, thinking).None?
  {
  }

  /** The concatenated deltas of a run spell the final message. */
  lemma DeltasSpellMessage(json: JsonSyntax, thinking: bool, pieces: seq<Bytes>, stopped: bool)
    requires AllUtf8(pieces) && Run(json, thinking, pieces, stopped).Ok?
    ensures var (s, d) := Run(json, thinking, pieces, stopped).value;
      s.finished && d == Delta(s.reasoning, s.content, s.calls)
  {
    hide Scan, Utf8.Valid, FedAll, ParseCompletion;
    InitialIsSound(thinking);
    RunReadsText(Initial(thinking), pieces);
    var (s, d) := FedAll(Initial(thinking), pieces).value;
    assert [] + d.reasoning == d.reasoning == d.reasoning + [] && [] + d.content == d.content == d.content + [];
    var (last, rest) := Closed(json, s, stopped).value;
    assert [] + rest.calls == rest.calls;
  }

  // ---- Truncated turns --------------------------------------------------------------------------------------

  /** What a truncated turn leaves out of its message: held text exactly when it opens a tool block. */
  ghost predicate Omitted(before: State, rest: Bytes) {
    match before.phase
    case End => rest == EOS
    case Tools => TOOL_START <= rest
    case _ => rest == if Contains(before.pending, DSML) then before.pending else []
  }

  /** Held text that shows the DSML token is the opening of a tool block and nothing else. */
  lemma OnlyToolOpeningIsDropped(pending: Bytes)
    requires Undecided(pending) && Contains(pending, DSML)
    ensures pending < TOOL_START && |pending| >= 13
  {
    var m: Marker :| pending < Spelling(m);
    hide Spelling;
    assert Spelling(m)[..|pending|] == pending;
    DsmlInside(m, |pending|);
    assert Spelling(ToolStart) == TOOL_START by { ToolStartSpelling(); }
  }

  lemma ToolStartSpelling()
    ensures Spelling(ToolStart) == TOOL_START && Spelling(Dsml) == DSML
  {
  }

  /** Plain positions in front of text without the token make text without the token. */
  lemma PlainBeforeNone(a: Bytes, b: Bytes)
    requires (forall i :: 0 <= i < |a| ==> Plain((a + b)[i..])) && !Contains(b, DSML)
    ensures !Contains(a + b, DSML)
  {
    hide Plain, OccursAt;
    ToolStartSpelling();
    PlainHasNo(a + b, |a|, Dsml);
    forall i | 0 <= i <= |a + b| ensures !OccursAt(a + b, DSML, i) {
      if i >= |a| {
        OccursAfter(a + b, DSML, |a|, i - |a|);
        assert (a + b)[|a|..] == b;
      }
    }
  }

  /** What one phase emits shows no DSML token, and neither does it together with held text that shows none. */
  lemma EmittedShowsNoDsml(phase: Phase, s: Bytes)
    requires Open(phase) && Scan(phase, s).Read?
    ensures var r := Scan(phase, s); var part := if phase.Reasoning? then r.reasoning else r.content;
      && !Contains(part, DSML)
      && (r.phase == phase && !Contains(r.pending, DSML) ==> !Contains(part + r.pending, DSML))
  {
    hide Scan, Undecided, Plain, Contains;
    var r := Scan(phase, s);
    var part := if phase.Reasoning? then r.reasoning else r.content;
    ScanConserves(phase, s);
    ScanEmitsPlain(phase, s);
    EmittedFirst(phase, s, r);
    ToolStartSpelling();
    PlainHasNo(s, |part|, Dsml);
    if r.phase == phase && !Contains(r.pending, DSML) {
      PlainBeforeNone(part, r.pending);
    }
  }

  /** The text begins with what the first phase emits, and ends behind it if the phase never changes. */
  lemma EmittedFirst(phase: Phase, s: Bytes, r: Reading)
    requires Open(phase) && Decomposes(phase, s, r)
    ensures var part := if phase.Reasoning? then r.reasoning else r.content;
      |part| <= |s| && part == s[..|part|] && (r.phase == phase ==> s == part + r.pending)
  {
    hide Undecided, END_THINK;
    var e := Emitted(phase, r);
    assert s == e + s[|e|..];
    if phase.Reasoning? {
      Assoc(r.reasoning, Terminator(phase, r.phase), r.content);
      assert e[..|r.reasoning|] == r.reasoning;
      if r.phase == phase {
        assert e == r.reasoning;
      }
    } else {
      assert e == r.content;
    }
  }

  /** Neither reasoning nor content of a reading ever shows the DSML token, nor do they with plain held text. */
  lemma ReadingShowsNoDsml(thinking: bool, s: Bytes)
    requires Scan(Start(thinking), s).Read?
    ensures var r := Scan(Start(thinking), s);
      && !Contains(r.reasoning, DSML) && !Contains(r.content, DSML)
      && (!Contains(r.pending, DSML) && r.phase.Reasoning? ==> !Contains(r.reasoning + r.pending, DSML))
      && (!Contains(r.pending, DSML) && r.phase.Content? ==> !Contains(r.content + r.pending, DSML))
  {
    hide Scan, Contains, Undecided, Plain, Clean, ParseThought;
    var r := Scan(Start(thinking), s);
    ScanConserves(Start(thinking), s);
    EmittedShowsNoDsml(Start(thinking), s);
    NothingShowsNoDsml();
    if thinking && !r.phase.Reasoning? {
      ThoughtRead(s);
      EmittedShowsNoDsml(Content, s[|r.reasoning| + |END_THINK|..]);
    }
  }

  lemma NothingShowsNoDsml()
    ensures !Contains([], DSML)
  {
  }

  /**
   * Truncated turns never invent calls: the message is the raw text without its reasoning
   * terminator, up to the end marker, a tool block, or held text exactly when that opens one.
   * No tool opening is ever told, and reasoning and content are never mixed.
   */
  lemma TruncatedTurn(json: JsonSyntax, thinking: bool, pieces: seq<Bytes>)
    requires AllUtf8(pieces) && Run(json, thinking, pieces, false).Ok?
    ensures var s := Run(json, thinking, pieces, false).value.0;
      var before := FedAll(Initial(thinking), pieces).value.0;
      var told := s.reasoning + Terminator(Start(thinking), before.phase) + s.content;
      && s.calls == []
      && told <= Flatten(pieces)
      && Omitted(before, Flatten(pieces)[|told|..])
      && !Contains(s.reasoning, DSML) && !Contains(s.content, DSML)
      && (before.phase.Reasoning? ==> s.content == []) && (!thinking ==> s.reasoning == [])
  {
    hide Utf8.Valid, FedAll, ParseCompletion, Scan, Contains;
    var text, from := Flatten(pieces), Start(thinking);
    InitialIsSound(thinking);
    assert [] + text == text;
    RunReadsText(Initial(thinking), pieces);
    var before := FedAll(Initial(thinking), pieces).value.0;
    var r := Scan(from, text);
    ScanConserves(from, text);
    ReadingShowsNoDsml(thinking, text);
    if before.phase.End? {
      ParserAgrees(json, text, thinking);
    }
    hide Undecided;
    if Open(before.phase) && !Contains(before.pending, DSML) {
      HeldIsTold(from, text, r);
    }
  }

  /** What is dropped in an open phase is a piece of the tool opening that already shows the DSML token. */
  lemma DroppedTextOpensTools(thinking: bool, pieces: seq<Bytes>)
    requires AllUtf8(pieces) && FedAll(Initial(thinking), pieces).Ok?
    ensures var before := FedAll(Initial(thinking), pieces).value.0;
      Open(before.phase) && Contains(before.pending, DSML) ==> before.pending < TOOL_START && |before.pending| >= 13
  {
    hide Utf8.Valid, FedAll, Scan, Contains, Undecided;
    InitialIsSound(thinking);
    assert [] + Flatten(pieces) == Flatten(pieces);
    RunReadsText(Initial(thinking), pieces);
    var before := FedAll(Initial(thinking), pieces).value.0;
    ScanConserves(Start(thinking), Flatten(pieces));
    if Open(before.phase) && Contains(before.pending, DSML) {
      OnlyToolOpeningIsDropped(before.pending);
    }
  }

  lemma HeldIsTold(from: Phase, text: Bytes, r: Reading)
    requires Open(from) && Decomposes(from, text, r) && Open(r.phase)
    ensures r.phase.Reasoning? ==> (r.reasoning + r.pending) + Terminator(from, r.phase) + r.content == text
    ensures r.phase.Content? ==> r.reasoning + Terminator(from, r.phase) + (r.content + r.pending) == text
  {
    hide Undecided;
    var e := Emitted(from, r);
    assert text == e + r.pending;
    if r.phase.Reasoning? {
      assert e == r.reasoning;
      assert (r.reasoning + r.pending) + [] + [] == text;
    } else {
      Assoc(r.reasoning + Terminator(from, r.phase), r.content, r.pending);
    }
  }
}
