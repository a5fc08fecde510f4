/** The one-pass reading and the strict parser accept the same completions and agree on what they say. */
module CompletionAgreement {
  import opened ByteStrings
  import opened Markers
  import opened CompletionScan
  import opened CompletionParser
  import Utf8
  import opened Wrappers

  /** A marker inside clean text is impossible. */
  lemma CleanHoldsNoMarker(text: Bytes, m: Marker, i: nat)
    requires OccursAt(text, Spelling(m), i)
    ensures !Clean(text)
  {
    if m == ToolStart {
      ToolStartHoldsDsml();
      assert text[i + 3..] == text[i..][3..];
      assert OccursAt(text, DSML, i + 3);
    }
  }

  /** Before a stop that follows clean text every position is plain. */
  lemma CleanIsPlain(s: Bytes, at: nat, stop: Marker, i: nat)
    requires i < at <= |s| && IsStop(stop) && OccursAt(s, Spelling(stop), at) && Clean(s[..at])
    ensures Plain(s[i..])
  {
    forall m: Marker ensures !Comparable(s[i..], Spelling(m)) {
      var w, k := Spelling(m), at - i;
      assert s[i..][k..] == s[at..];
      if w <= s[i..] && i + |w| <= at {
        assert s[..at][i..] == s[i..at] == s[i..][..k];
        CleanHoldsNoMarker(s[..at], m, i);
      } else if Comparable(s[i..], w) {
        assert Comparable(w[k..], s[at..]);
        StopsDoNotOverlap(m, k, stop);
      }
    }
  }

  /** Clean text in front of a stop is read as it is. */
  lemma CleanIsEmitted(phase: Phase, s: Bytes, at: nat, stop: Marker)
    requires Open(phase) && at <= |s| && IsStop(stop) && OccursAt(s, Spelling(stop), at) && Clean(s[..at])
    ensures Scan(phase, s) == Emit(phase, s[..at], Scan(phase, s[at..]))
  {
    forall i | 0 <= i < at ensures Plain(s[i..]) {
      CleanIsPlain(s, at, stop, i);
    }
    ScanRun(phase, s, at);
  }

  lemma PlainHasNo(s: Bytes, n: nat, m: Marker)
    requires n <= |s| && forall i :: 0 <= i < n ==> Plain(s[i..])
    ensures !Contains(s[..n], Spelling(m))
    ensures forall i :: 0 <= i < n ==> !OccursAt(s, Spelling(m), i)
  {
    forall i | 0 <= i <= n ensures !OccursAt(s[..n], Spelling(m), i) && (i < n ==> !OccursAt(s, Spelling(m), i)) {
      if i < n {
        assert Plain(s[i..]) && !Comparable(s[i..], Spelling(m));
        assert s[..n][i..] <= s[i..];
      }
    }
  }

  /** Text emitted by the reading is clean and holds no stop. */
  lemma PlainIsClean(s: Bytes, n: nat)
    requires n <= |s| && forall i :: 0 <= i < n ==> Plain(s[i..])
    ensures Clean(s[..n])
    ensures NoneBefore(s, [EOS, TOOL_START], n) && NoneBefore(s, [END_THINK, TOOL_START], n)
  {
    PlainHasNo(s, n, Bos);
    PlainHasNo(s, n, Eos);
    PlainHasNo(s, n, Think);
    PlainHasNo(s, n, EndThink);
    PlainHasNo(s, n, Dsml);
    PlainHasNo(s, n, ToolStart);
  }

  lemma StopsAreAntichain()
    ensures forall p, q :: p in [EOS, TOOL_START] && q in [EOS, TOOL_START] && p != q ==> !(p <= q)
    ensures forall p, q :: p in [END_THINK, TOOL_START] && q in [END_THINK, TOOL_START] && p != q ==> !(p <= q)
  {
    MarkersAreAntichain(Eos, ToolStart);
    MarkersAreAntichain(EndThink, ToolStart);
    assert EOS == Spelling(Eos) && TOOL_START == Spelling(ToolStart) && END_THINK == Spelling(EndThink);
  }

  /** The reading of an answer that ends or opens a tool block is what the parser's search finds. */
  lemma AnswerRead(s: Bytes)
    requires Scan(Content, s).Read? && !Open(Scan(Content, s).phase)
    ensures var r := Scan(Content, s);
      && Search(s, [EOS, TOOL_START]) == Some(Hit(|r.content|, if r.phase.End? then EOS else TOOL_START))
      && r.content == s[..|r.content|] && r.reasoning == [] && r.pending == []
      && Clean(r.content)
      && (r.phase.End? ==> |s| == |r.content| + |EOS|)
  {
    var r := Scan(Content, s);
    ScanConserves(Content, s);
    ScanEmitsPlain(Content, s);
    var n := |r.content|;
    assert Emitted(Content, r) == r.content;
    PlainIsClean(s, n);
    StopsAreAntichain();
    var stop := if r.phase.End? then EOS else TOOL_START;
    assert stop in [EOS, TOOL_START];
    SearchIs(s, [EOS, TOOL_START], n, stop);
  }

  /** What the parser's search cuts off, when clean, is what the reading emits. */
  lemma AnswerParsed(s: Bytes, at: nat, stop: Marker)
    requires stop.Eos? || stop.ToolStart?
    requires OccursAt(s, Spelling(stop), at) && Clean(s[..at])
    requires stop.Eos? ==> at + |EOS| == |s|
    ensures Scan(Content, s) == Read(if stop.Eos? then End else Tools, [], s[..at], [])
  {
    CleanIsEmitted(Content, s, at, stop);
    ScanMarker(Content, s[at..], stop);
    assert s[..at] + [] == s[..at];
  }

  /** The calls of a tool block that starts behind n bytes of text. */
  function CallsAfter(json: JsonSyntax, s: Bytes, n: nat): Option<seq<ToolCall>> {
    if n <= |s| then ParseBlock(json, s[n..]) else None
  }

  /** The parsed answer is clean exactly when the reading comes to an end or to a tool block, and then they agree. */
  lemma AnswerAgrees(json: JsonSyntax, s: Bytes)
    ensures var r := Scan(Content, s);
      var parsed := ParseAnswer(json, s);
      if r.Read? && r.phase.End? then parsed == Some((r.content, [])) && Clean(r.content)
      else if r.Read? && r.phase.Tools? then
        && Clean(r.content)
        && parsed == (match CallsAfter(json, s, |r.content| + |TOOL_START|)
                      case Some(calls) => Some((r.content, calls)) case None => None)
      else parsed.Some? ==> !Clean(parsed.value.0)
  {
    hide Scan, ParseBlock, Clean;
    var r := Scan(Content, s);
    if r.Read? && !Open(r.phase) {
      AnswerRead(s);
    } else if ParseAnswer(json, s).Some? && Clean(ParseAnswer(json, s).value.0) {
      var hit := Search(s, [EOS, TOOL_START]).value;
      AnswerParsed(s, hit.at, if hit.stop == EOS then Eos else ToolStart);
    }
  }

  /** A reading that left the reasoning phase did so at the terminator behind the reasoning. */
  lemma ThoughtShape(s: Bytes, r: Reading)
    requires Decomposes(Reasoning, s, r) && !r.phase.Reasoning?
    ensures |r.reasoning| <= |s| && r.reasoning == s[..|r.reasoning|] && OccursAt(s, END_THINK, |r.reasoning|)
  {
    hide END_THINK, Remainder;
    var n := |r.reasoning|;
    Assoc(r.reasoning, END_THINK, r.content);
    var e := r.reasoning + (END_THINK + r.content);
    assert e == Emitted(Reasoning, r) && s == e + s[|e|..];
    assert s[n..] == END_THINK + r.content + s[|e|..];
  }

  lemma ThoughtRead(s: Bytes)
    requires Scan(Reasoning, s).Read? && !Scan(Reasoning, s).phase.Reasoning?
    ensures var r := Scan(Reasoning, s);
      && |r.reasoning| + |END_THINK| <= |s|
      && ParseThought(s) == Some((r.reasoning, s[|r.reasoning| + |END_THINK|..]))
      && Clean(r.reasoning)
      && Scan(Content, s[|r.reasoning| + |END_THINK|..]) == Read(r.phase, [], r.content, r.pending)
  {
    var r := Scan(Reasoning, s);
    ScanConserves(Reasoning, s);
    ScanEmitsPlain(Reasoning, s);
    ThoughtShape(s, r);
    var n := |r.reasoning|;
    PlainIsClean(s, n);
    StopsAreAntichain();
    hide Scan, Clean, Plain, Remainder;
    assert END_THINK in [END_THINK, TOOL_START];
    SearchIs(s, [END_THINK, TOOL_START], n, END_THINK);
    ThoughtParsed(s, n);
    var tail := Scan(Content, s[n + |END_THINK|..]);
    ScanConserves(Content, s[n + |END_THINK|..]);
    assert [] + tail.content == tail.content;
  }

  lemma ThoughtParsed(s: Bytes, at: nat)
    requires OccursAt(s, END_THINK, at) && Clean(s[..at])
    ensures Scan(Reasoning, s) == Prepend(s[..at], [], Scan(Content, s[at + |END_THINK|..]))
  {
    CleanIsEmitted(Reasoning, s, at, EndThink);
    ScanMarker(Reasoning, s[at..], EndThink);
    assert s[at..][|END_THINK|..] == s[at + |END_THINK|..];
  }

  /** What a reading says about the finished message. */
  function Finished(json: JsonSyntax, text: Bytes, from: Phase, r: Reading): Option<Message> {
    if r.Read? && r.phase.End? then Some(Message(r.content, r.reasoning, []))
    else if r.Read? && r.phase.Tools? then
      match CallsAfter(json, text, |Emitted(from, r)| + |TOOL_START|)
      case Some(calls) => Some(Message(r.content, r.reasoning, calls))
      case None => None
    else None
  }

  lemma PlainParserAgrees(json: JsonSyntax, text: Bytes)
    requires Utf8.Valid(text) && |text| <= LIMIT
    ensures ParseCompletion(json, text, false) == Finished(json, text, Content, Scan(Content, text))
  {
    hide Scan, ParseAnswer, CallsAfter, Clean, Remainder, Utf8.Valid;
    var r := Scan(Content, text);
    if r.Read? {
      ScanConserves(Content, text);
      assert Emitted(Content, r) == r.content;
    }
    AnswerAgrees(json, text);
    EmptyIsClean();
  }

  lemma ThinkingParserAgrees(json: JsonSyntax, text: Bytes)
    requires Utf8.Valid(text) && |text| <= LIMIT
    requires Scan(Reasoning, text).Read? && !Scan(Reasoning, text).phase.Reasoning?
    ensures ParseCompletion(json, text, true) == Finished(json, text, Reasoning, Scan(Reasoning, text))
  {
    hide Scan, ParseAnswer, ParseThought, ParseBlock, Clean, Utf8.Valid;
    var r := Scan(Reasoning, text);
    ThoughtRead(text);
    var n := |r.reasoning| + |END_THINK|;
    AnswerAgrees(json, text[n..]);
    var k := |r.content| + |TOOL_START|;
    if n + k <= |text| {
      assert text[n..][k..] == text[n + k..];
    }
  }

  lemma UnfinishedThoughtIsRejected(json: JsonSyntax, text: Bytes)
    requires !Scan(Reasoning, text).Read? || Scan(Reasoning, text).phase.Reasoning?
    ensures ParseCompletion(json, text, true).None?
  {
    if ParseCompletion(json, text, true).Some? {
      var at := Search(text, [END_THINK, TOOL_START]).value.at;
      ThoughtParsed(text, at);
      var rest := text[at + |END_THINK|..];
      AnswerAgrees(json, rest);
      if Scan(Content, rest).Read? {
        ScanConserves(Content, rest);
      }
    }
  }

  /**
   * The strict parser accepts a completion exactly when the one-pass reading ends at the
   * end-of-sentence marker, or at a tool block whose calls parse; reasoning and content are the same.
   */
  lemma ParserAgrees(json: JsonSyntax, text: Bytes, thinking: bool)
    requires Utf8.Valid(text) && |text| <= LIMIT
    ensures ParseCompletion(json, text, thinking) == Finished(json, text, Start(thinking), Scan(Start(thinking), text))
  {
    hide Scan, ParseCompletion, CallsAfter, Utf8.Valid;
    if !thinking {
      PlainParserAgrees(json, text);
    } else if Scan(Reasoning, text).Read? && !Scan(Reasoning, text).phase.Reasoning? {
      ThinkingParserAgrees(json, text);
    } else {
      UnfinishedThoughtIsRejected(json, text);
    }
  }

  lemma EmptyIsClean()
    ensures Clean([])
  {
    forall m: Marker, i ensures !OccursAt([], Spelling(m), i) {}
    assert !Contains([], Spelling(Bos)) && !Contains([], Spelling(Eos)) && !Contains([], Spelling(Think));
    assert !Contains([], Spelling(EndThink)) && !Contains([], Spelling(Dsml));
  }
}
