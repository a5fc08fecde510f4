/** The streaming completion decoder: a resumable state machine fed with pieces of UTF-8 text. */
module CompletionDecoder {
  import opened ByteStrings
  import opened Markers
  import opened CompletionScan
  import opened CompletionParser
  import opened CompletionAgreement
  import Utf8
  import opened Wrappers

  datatype Result<+T> = Ok(value: T) | Err(error: Error)

  /** An OpenAI-style delta; an empty part is an absent field. */
  datatype Delta = Delta(reasoning: Bytes, content: Bytes, calls: seq<ToolCall>)

  datatype State = State(
    thinking: bool, finished: bool, phase: Phase,
    raw: Bytes, pending: Bytes, content: Bytes, reasoning: Bytes, calls: seq<ToolCall>)

  function Initial(thinking: bool): State {
    State(thinking, false, Start(thinking), [], [], [], [], [])
  }

  /** An unfinished decoder holds exactly the reading of everything it was fed. */
  ghost predicate Sound(s: State) {
    !s.finished ==>
      && Scan(Start(s.thinking), s.raw) == Read(s.phase, s.reasoning, s.content, s.pending)
      && Utf8.Valid(s.raw) && |s.raw| <= LIMIT && s.calls == []
  }

  /** One feed: the reading goes on from the held text. */
  ghost function Fed(s: State, piece: Bytes): Result<(State, Delta)> {
    if s.finished then Err(Finalized)
    else if |piece| > LIMIT then Err(TooLarge)
    else if !Utf8.Valid(piece) then Err(NotUtf8)
    else if s.phase.End? && piece != [] then Err(DataAfterEos)
    else if |s.raw| + |piece| > LIMIT then Err(TooLarge)
    else if !Open(s.phase) then Ok((s.(raw := s.raw + piece), Delta([], [], [])))
    else
      match Scan(s.phase, s.pending + piece)
      case Refused(e) => Err(e)
      case Read(phase, re, co, p) =>
        Ok((s.(raw := s.raw + piece, phase := phase, pending := p, content := s.content + co,
               reasoning := s.reasoning + re), Delta(re, co, [])))
  }

  /** The end of the stream: a stopped turn must parse, a truncated one keeps its text and makes no calls. */
  ghost function Closed(json: JsonSyntax, s: State, stopped: bool): Result<(State, Delta)> {
    if s.finished then Err(Finalized)
    else if stopped || s.phase.End? then
      match ParseCompletion(json, s.raw, s.thinking)
      case None => Err(Rejected)
      case Some(m) => Ok((s.(finished := true, pending := [], calls := m.calls), Delta([], [], m.calls)))
    else if Contains(s.pending, DSML) then Ok((s.(finished := true, pending := []), Delta([], [], [])))
    else if s.phase.Reasoning? then
      Ok((s.(finished := true, pending := [], reasoning := s.reasoning + s.pending), Delta(s.pending, [], [])))
    else if s.phase.Content? then
      Ok((s.(finished := true, pending := [], content := s.content + s.pending), Delta([], s.pending, [])))
    else Ok((s.(finished := true, pending := []), Delta([], [], [])))
  }

  /** A sound decoder never sees the incremental reading and the strict parse disagree. */
  lemma NeverMismatched(json: JsonSyntax, s: State)
    requires Sound(s) && !s.finished && ParseCompletion(json, s.raw, s.thinking).Some?
    ensures ParseCompletion(json, s.raw, s.thinking).value.content == s.content
    ensures ParseCompletion(json, s.raw, s.thinking).value.reasoning == s.reasoning
    ensures s.pending == [] && !Open(s.phase)
  {
    hide Scan, ParseCompletion, CallsAfter, Utf8.Valid;
    ParserAgrees(json, s.raw, s.thinking);
    ScanConserves(Start(s.thinking), s.raw);
  }

  /** Everything held or emitted is part of the raw text. */
  lemma SoundIsBounded(s: State)
    requires Sound(s) && !s.finished
    ensures |s.reasoning| + |s.content| + |s.pending| <= |s.raw|
    ensures !Open(s.phase) ==> s.pending == []
  {
    hide Scan, Utf8.Valid, Undecided;
    ScanConserves(Start(s.thinking), s.raw);
    var r := Scan(Start(s.thinking), s.raw);
    assert |Emitted(Start(s.thinking), r)| >= |r.reasoning| + |r.content|;
  }

  lemma FedIsSound(s: State, piece: Bytes)
    requires Sound(s) && Fed(s, piece).Ok?
    ensures Sound(Fed(s, piece).value.0)
  {
    hide Scan, Utf8.Valid;
    ScanResumes(Start(s.thinking), s.raw, piece);
    Utf8.ValidAppend(s.raw, piece);
    SoundIsBounded(s);
    if s.phase.End? {
      assert s.raw + piece == s.raw;
    }
  }

  // ---- The search of one loop iteration ---------------------------------------------------------

  /** The earliest marker in the text, trying the candidates in order. */
  method FirstMarker(text: Bytes) returns (at: nat, marker: Option<Marker>)
    ensures marker.Some? ==> OccursAt(text, Spelling(marker.value), at)
    ensures forall m: Marker, i :: 0 <= i < (if marker.Some? then at else |text| + 1) ==>
      !OccursAt(text, Spelling(m), i)
  {
    hide Spelling, CANDIDATES;
    at, marker := 0, None;
    for n := 0 to |CANDIDATES|
      invariant marker.Some? ==> OccursAt(text, Spelling(marker.value), at)
      invariant forall k, i :: 0 <= k < n && 0 <= i < (if marker.Some? then at else |text| + 1) ==>
        !OccursAt(text, Spelling(CANDIDATES[k]), i)
    {
      var position := Find(text, Spelling(CANDIDATES[n]));
      if position.Some? && (marker.None? || position.value < at) {
        at, marker := position.value, Some(CANDIDATES[n]);
      }
    }
    forall m: Marker, i | 0 <= i < (if marker.Some? then at else |text| + 1) ensures !OccursAt(text, Spelling(m), i) {
      CandidatesAreAll(m);
    }
  }

  /** The longest suffix over a given length that is a proper prefix of one marker, or that length if there is none. */
  method LongestPrefix(text: Bytes, w: Bytes, floor: nat) returns (count: nat)
    requires w != [] && floor <= |text|
    ensures floor <= count <= |text|
    ensures count > floor ==> text[|text| - count..] < w
    ensures forall i :: 0 <= i < |text| - count ==> !(text[i..] < w)
  {
    count := if |text| <= |w| - 1 then |text| else |w| - 1;
    while count > floor && !EndsWith(text, w[..count])
      invariant count <= |text| && count < |w|
      invariant forall i :: 0 <= i < |text| - count ==> !(text[i..] < w)
    {
      count := count - 1;
    }
    if count < floor {
      count := floor;
    }
  }

  /** The length of the longest suffix that is a proper prefix of some marker. */
  method Retained(text: Bytes) returns (retained: nat)
    ensures retained <= |text|
    ensures retained > 0 ==> Undecided(text[|text| - retained..])
    ensures forall i :: 0 <= i < |text| - retained ==> !Undecided(text[i..])
  {
    hide Spelling, CANDIDATES;
    retained := 0;
    for n := 0 to |CANDIDATES|
      invariant retained <= |text|
      invariant retained > 0 ==> Undecided(text[|text| - retained..])
      invariant forall k, i :: 0 <= k < n && 0 <= i < |text| - retained ==> !(text[i..] < Spelling(CANDIDATES[k]))
    {
      retained := LongestPrefix(text, Spelling(CANDIDATES[n]), retained);
    }
    forall m: Marker, i | 0 <= i < |text| - retained ensures !(text[i..] < Spelling(m)) {
      CandidatesAreAll(m);
    }
  }

  /** Before the first marker and the held suffix every position is plain. */
  lemma SearchedIsPlain(text: Bytes, k: nat)
    requires k <= |text|
    requires forall m: Marker, i :: 0 <= i < k ==> !OccursAt(text, Spelling(m), i)
    requires forall i :: 0 <= i < k ==> !Undecided(text[i..])
    ensures forall i :: 0 <= i < k ==> Plain(text[i..])
  {
    forall i | 0 <= i < k ensures Plain(text[i..]) {
      assert forall m: Marker :: !OccursAt(text, Spelling(m), i);
      Trichotomy(text[i..]);
    }
  }

  /** The reading from an inner point of the loop. */
  ghost function Onward(phase: Phase, pending: Bytes): Reading {
    if Open(phase) then Scan(phase, pending) else Read(phase, [], [], pending)
  }

  lemma ScanEmpty(phase: Phase)
    ensures Onward(phase, []) == Read(phase, [], [], [])
  {
  }

  /** The iteration that holds back a suffix, or finds nothing to hold. */
  lemma HeldSuffix(phase: Phase, text: Bytes, retained: nat)
    requires Open(phase) && retained <= |text|
    requires retained > 0 ==> Undecided(text[|text| - retained..])
    requires forall i :: 0 <= i < |text| - retained ==> !Undecided(text[i..])
    requires forall m: Marker, i :: 0 <= i < |text| - retained ==> !OccursAt(text, Spelling(m), i)
    ensures var h := |text| - retained; Scan(phase, text) == Emit(phase, text[..h], Read(phase, [], [], text[h..]))
  {
    hide Plain, Undecided;
    var h := |text| - retained;
    SearchedIsPlain(text, h);
    ScanRun(phase, text, h);
    if retained > 0 {
      ScanUndecided(phase, text[h..]);
    }
  }

  /** The iteration that consumes a marker. */
  lemma ConsumedMarker(phase: Phase, text: Bytes, at: nat, m: Marker)
    requires Open(phase) && OccursAt(text, Spelling(m), at)
    requires forall n: Marker, i :: 0 <= i < at ==> !OccursAt(text, Spelling(n), i)
    requires forall i :: 0 <= i < at ==> !Undecided(text[i..])
    ensures Scan(phase, text) == Emit(phase, text[..at], AtMarker(phase, m, text[at..][|Spelling(m)|..]))
  {
    hide Plain, Spelling, Scan, Undecided;
    SearchedIsPlain(text, at);
    ScanRun(phase, text, at);
    ScanMarker(phase, text[at..], m);
  }

  /** Emitting extends what was emitted before. */
  lemma EmittedMore(re: Bytes, co: Bytes, phase: Phase, part: Bytes, r: Reading)
    ensures Prepend(re, co, Emit(phase, part, r)) ==
      if phase.Reasoning? then Prepend(re + part, co, r) else Prepend(re, co + part, r)
  {
    if phase.Reasoning? {
      PrependTwice(re, co, part, [], r);
      assert co + [] == co;
    } else {
      PrependTwice(re, co, [], part, r);
      assert re + [] == re;
    }
  }

  /** How far plain text reaches, and the marker behind it unless the rest has to be held. */
  method NextEvent(ghost phase: Phase, text: Bytes) returns (cut: nat, event: Option<Marker>)
    requires Open(phase)
    ensures cut <= |text|
    ensures event.None? ==>
      Scan(phase, text) == CompletionScan.Emit(phase, text[..cut], Read(phase, [], [], text[cut..]))
    ensures event.Some? ==> OccursAt(text, Spelling(event.value), cut)
    ensures event.Some? ==>
      var rest := text[cut..][|Spelling(event.value)|..];
      Scan(phase, text) == CompletionScan.Emit(phase, text[..cut], AtMarker(phase, event.value, rest))
  {
    hide Scan, Undecided, Spelling, AtMarker;
    var at, marker := FirstMarker(text);
    var retained := Retained(text);
    if retained > 0 && (marker.None? || |text| - retained <= at) {
      HeldSuffix(phase, text, retained);
      return |text| - retained, None;
    }
    if marker.None? {
      HeldSuffix(phase, text, 0);
      return |text|, None;
    }
    ConsumedMarker(phase, text, at, marker.value);
    return at, marker;
  }

  /** Extends a text; None when that would exceed 8 MiB. */
  function Append(result: Bytes, text: Bytes): Option<Bytes> {
    if |text| > LIMIT - |result| then None else Some(result + text)
  }

  class DeepSeekCompletionDecoder {
    const thinking: bool
    var finished: bool
    var phase: Phase
    var raw: Bytes
    var pending: Bytes
    var content: Bytes
    var reasoning: Bytes
    var calls: seq<ToolCall>

    ghost function Now(): State
      reads this
    {
      State(thinking, finished, phase, raw, pending, content, reasoning, calls)
    }

    constructor (thinking: bool)
      ensures Now() == Initial(thinking) && Sound(Now())
    {
      this.thinking := thinking;
      finished, phase := false, Start(thinking);
      raw, pending, content, reasoning, calls := [], [], [], [], [];
    }

    /** Together the texts fit, and the delta is part of them. */
    predicate Fits(delta: Delta)
      reads this
    {
      && |reasoning| + |content| + |pending| <= LIMIT
      && |delta.reasoning| <= |reasoning| && |delta.content| <= |content|
    }

    /** Takes the first bytes of the held text as reasoning or content; no append is ever refused. */
    method Emit(count: nat, delta: Delta) returns (next: Delta)
      requires count <= |pending| && Open(phase) && Fits(delta)
      modifies `pending, `content, `reasoning
      ensures Fits(next)
      ensures var part := old(pending)[..count];
        if phase.Reasoning? then
          reasoning == old(reasoning) + part && content == old(content) &&
            next == delta.(reasoning := delta.reasoning + part)
        else
          content == old(content) + part && reasoning == old(reasoning) &&
            next == delta.(content := delta.content + part)
      ensures pending == old(pending)[count..]
    {
      var part := pending[..count];
      if phase == Reasoning {
        reasoning, next := Append(reasoning, part).value, delta.(reasoning := Append(delta.reasoning, part).value);
      } else {
        content, next := Append(content, part).value, delta.(content := Append(delta.content, part).value);
      }
      pending := pending[count..];
    }

    /** The loop of a feed: consumes held text up to what may still become a marker. */
    method Consume() returns (r: Result<Delta>)
      requires Open(phase) && |reasoning| + |content| + |pending| <= LIMIT
      modifies `phase, `pending, `content, `reasoning
      ensures match Scan(old(phase), old(pending))
        case Refused(e) => r == Err(e)
        case Read(ph, re, co, p) =>
          && r == Ok(Delta(re, co, []))
          && phase == ph && pending == p && reasoning == old(reasoning) + re && content == old(content) + co
    {
      hide Scan, Plain, Undecided, Spelling;
      var delta := Delta([], [], []);
      EmitNothing(Content, Onward(phase, pending));
      while pending != []
        invariant pending != [] ==> Open(phase)
        invariant Scan(old(phase), old(pending)) == Prepend(delta.reasoning, delta.content, Onward(phase, pending))
        invariant reasoning == old(reasoning) + delta.reasoning && content == old(content) + delta.content
        invariant delta.calls == [] && Fits(delta)
        decreases |pending|
      {
        var cut, event := NextEvent(phase, pending);
        Assoc(old(reasoning), delta.reasoning, pending[..cut]);
        Assoc(old(content), delta.content, pending[..cut]);
        EmittedMore(delta.reasoning, delta.content, phase, pending[..cut],
          if event.None? then Read(phase, [], [], pending[cut..])
          else AtMarker(phase, event.value, pending[cut..][|Spelling(event.value)|..]));
        delta := Emit(cut, delta);
        if event.None? {
          break;
        }
        var m := event.value;
        pending := pending[|Spelling(m)|..];
        if phase == Reasoning && m == EndThink {
          phase := Content;
        } else if phase == Content && m == ToolStart {
          phase, pending := Tools, [];
          break;
        } else if phase == Content && m == Eos {
          phase := End;
          if pending != [] { return Err(DataAfterEos); }
        } else {
          return Err(UnexpectedToken);
        }
      }
      r := Ok(delta);
      ScanEmpty(phase);
      assert delta.reasoning + [] == delta.reasoning && delta.content + [] == delta.content;
    }

    /** A decoder that reports an error is to be discarded, so nothing is said about it afterwards. */
    method Feed(decoded: Bytes) returns (r: Result<Delta>)
      requires Sound(Now())
      modifies this
      ensures match Fed(old(Now()), decoded)
        case Ok((s, d)) => r == Ok(d) && Now() == s && Sound(s)
        case Err(e) => r == Err(e)
    {
      if finished { return Err(Finalized); }
      if |decoded| > LIMIT { return Err(TooLarge); }
      Utf8.RepairFixesExactlyValid(decoded);
      if Utf8.Repair(decoded) != decoded { return Err(NotUtf8); }
      if phase == End && decoded != [] { return Err(DataAfterEos); }
      if |decoded| > LIMIT - |raw| { return Err(TooLarge); }
      hide Scan, Sound, Utf8.Valid, Utf8.Repair;
      ghost var before := Now();
      if Fed(before, decoded).Ok? {
        FedIsSound(before, decoded);
      }
      SoundIsBounded(before);
      raw := raw + decoded;
      if phase == Tools {
        return Ok(Delta([], [], []));
      }
      pending := Append(pending, decoded).value;
      if Open(phase) {
        r := Consume();
      } else {
        r := Ok(Delta([], [], []));
      }
    }

    method Finish(json: JsonSyntax, stopped: bool) returns (r: Result<Delta>)
      requires Sound(Now())
      modifies this
      ensures match Closed(json, old(Now()), stopped)
        case Ok((s, d)) => r == Ok(d) && Now() == s && Sound(s)
        case Err(e) => r == Err(e)
    {
      hide Scan, ParseCompletion, Utf8.Valid;
      if finished { return Err(Finalized); }
      SoundIsBounded(Now());
      var delta := Delta([], [], []);
      if stopped || phase == End {
        var parsed := ParseCompletion(json, raw, thinking);
        if parsed.None? { return Err(Rejected); }
        NeverMismatched(json, Now());
        assert parsed.value.content == content && parsed.value.reasoning == reasoning;
        calls := parsed.value.calls;
        delta := delta.(calls := calls);
      } else if Open(phase) {
        if Find(pending, DSML).None? {
          if phase == Reasoning {
            reasoning, delta := Append(reasoning, pending).value, delta.(reasoning := pending);
          } else {
            content, delta := Append(content, pending).value, delta.(content := pending);
          }
        }
      }
      pending, finished := [], true;
      r := Ok(delta);
    }

    /** The message is available once the decoder is finished. */
    method ReadMessage() returns (r: Result<Message>)
      ensures r == if finished then Ok(Message(content, reasoning, calls)) else Err(NotFinalized)
    {
      if !finished { return Err(NotFinalized); }
      return Ok(Message(content, reasoning, calls));
    }
  }
}
