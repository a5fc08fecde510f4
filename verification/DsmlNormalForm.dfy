/** Printing a parsed completion and parsing it again gives the same message. */
module DsmlNormalForm {
  import opened ByteStrings
  import opened Markers
  import opened CompletionParser
  import opened DsmlRenderer
  import opened DsmlRoundTrip
  import Utf8
  import opened Wrappers

  // ---- Cutting UTF-8 at delimiters --------------------------------------------------------------------------

  /** Valid text may be cut before every byte that continues nothing. */
  lemma {:induction false} ValidCut(a: Bytes, b: Bytes)
    requires Utf8.Valid(a + b) && (b == [] || !Utf8.IsContinuation(b[0]))
    ensures Utf8.Valid(a) && Utf8.Valid(b)
    decreases |a|
  {
    if a == [] {
      assert a + b == b;
    } else {
      Utf8.UnitExtends(a, b);
      var n := Utf8.UnitLength(a);
      assert (a + b)[n..] == a[n..] + b;
      ValidCut(a[n..], b);
    }
  }

  /** A delimiter is UTF-8 and begins with an ASCII byte. */
  predicate Delimiter(p: Bytes) {
    p != [] && p[0] < 0x80 && Utf8.Valid(p)
  }

  lemma DelimiterSplits(a: Bytes, p: Bytes, b: Bytes)
    requires Delimiter(p) && Utf8.Valid(a + (p + b))
    ensures Utf8.Valid(a) && Utf8.Valid(b)
  {
    ValidCut(a, p + b);
    Utf8.ValidAppend(p, b);
  }

  /** What stands before and behind a delimiter that was found is UTF-8. */
  lemma HitSplits(s: Bytes, p: Bytes, at: nat)
    requires Utf8.Valid(s) && Delimiter(p) && OccursAt(s, p, at)
    ensures at + |p| <= |s| && Utf8.Valid(s[..at]) && Utf8.Valid(s[at + |p|..])
  {
    hide Utf8.Valid, Delimiter;
    var a, b := s[..at], s[at + |p|..];
    assert s[at..] == p + s[at..][|p|..] && s[at..][|p|..] == b;
    assert s == a + (p + b);
    DelimiterSplits(a, p, b);
  }

  lemma TagDelimiters()
    ensures Delimiter(TOOL_START) && Delimiter(INVOKE) && Delimiter(PARAMETER)
    ensures Delimiter(END_INVOKE) && Delimiter(END_PARAMETER) && Delimiter(END_CALLS)
  {
    hide Utf8.Valid;
    OpeningTagsAreValid();
    ClosingTagsAreValid();
  }

  lemma WordDelimiters()
    ensures Delimiter(STRING_HEADER) && Delimiter(JSON_HEADER) && Delimiter(LESS)
    ensures Delimiter(SPACE + NAME_OPEN) && Delimiter(NAME_CLOSE) && Delimiter(NEWLINE)
  {
    hide Utf8.Valid;
    WordsAreValid();
  }

  lemma MarkerDelimiters()
    ensures Delimiter(EOS) && Delimiter(END_THINK)
  {
    hide Utf8.Valid;
    EndIsValid();
    AsciiIsValid(END_THINK);
  }

  // ---- Whatever parses is UTF-8 -------------------------------------------------------------------------------

  lemma Enclosed(open: Bytes, s: Bytes, close: Bytes, middle: Bytes)
    requires Delimiter(open) && Delimiter(close) && s == open + (middle + close) && Utf8.Valid(s)
    ensures Utf8.Valid(middle)
  {
    hide Utf8.Valid;
    Utf8.ValidAppend(open, middle + close);
    assert close + [] == close;
    DelimiterSplits(middle, close, []);
  }

  lemma ParsedTextIsValid(json: JsonSyntax, text: Bytes)
    requires ParseParameterText(json, text).Some? && Utf8.Valid(text)
    ensures ValidParameter(ParseParameterText(json, text).value)
  {
    hide Utf8.Valid, Delimiter, Search, OccursAt, STRING_HEADER, JSON_HEADER;
    var n := |text| - 1;
    ParsedTextLength(json, text);
    var body := text[7..n];
    assert text == (SPACE + NAME_OPEN) + (body + LESS);
    WordDelimiters();
    Enclosed(SPACE + NAME_OPEN, text, LESS, body);
    HeadersNotEmpty();
    var hit := Search(body, [STRING_HEADER, JSON_HEADER]).value;
    HitSplits(body, hit.stop, hit.at);
  }

  lemma ParsedParameterIsValid(json: JsonSyntax, text: Bytes, seen: seq<Parameter>)
    requires ParseParameter(json, text, seen).Some? && Utf8.Valid(text)
    ensures var (p, _, after) := ParseParameter(json, text, seen).value; ValidParameter(p) && Utf8.Valid(after)
  {
    hide Utf8.Valid, Delimiter, ValidParameter, Search, OccursAt, ParseParameterText, Keys,
      END_PARAMETER, PARAMETER, END_INVOKE, TAG_END;
    TagDelimiters();
    ParameterBytes(STRING_HEADER);
    HeaderBytes();
    var hit := Search(text, [END_PARAMETER]).value;
    HitSplits(text, END_PARAMETER, hit.at);
    ParsedTextIsValid(json, text[..hit.at]);
    var rest := text[hit.at + |END_PARAMETER|..];
    var between := Search(rest, [PARAMETER, END_INVOKE]).value;
    HitSplits(rest, between.stop, between.at);
  }

  lemma {:induction false} ParsedParametersAreValid(json: JsonSyntax, text: Bytes, seen: seq<Parameter>)
    requires ParseParameters(json, text, seen).Some? && Utf8.Valid(text) && forall p :: p in seen ==> ValidParameter(p)
    ensures var (ps, after) := ParseParameters(json, text, seen).value;
      (forall p :: p in ps ==> ValidParameter(p)) && Utf8.Valid(after)
    decreases |text|
  {
    hide Utf8.Valid, ValidParameter, ParseParameter, OpenArguments, PARAMETER;
    ParsedParameterIsValid(json, text, seen);
    var (p, stop, after) := ParseParameter(json, text, seen).value;
    if stop == PARAMETER {
      ParsedParametersAreValid(json, after, seen + [p]);
    }
  }

  lemma {:induction false} TrimmedIsValid(text: Bytes)
    requires Utf8.Valid(text)
    ensures Utf8.Valid(TrimLeadingSpace(text))
    decreases |text|
  {
    hide IsSpace, Utf8.Scalar;
    if text != [] {
      TrimmedIsValid(text[Utf8.UnitLength(text)..]);
    }
  }

  lemma ParsedNameIsValid(header: Bytes, noParameters: bool)
    requires ParseName(header, noParameters).Some? && Utf8.Valid(header)
    ensures Utf8.Valid(ParseName(header, noParameters).value)
  {
    hide Utf8.Valid, Delimiter, TrimLeadingSpace;
    TrimmedIsValid(header);
    NameDelimiters();
    hide NAME_OPEN, NAME_CLOSE, NEWLINE;
    var trimmed := TrimLeadingSpace(header);
    var name := ParseName(header, noParameters).value;
    var plain := NAME_OPEN + (name + NAME_CLOSE);
    if noParameters && EndsWith(trimmed, NAME_CLOSE + NEWLINE) {
      WithoutLineBreak(trimmed);
      Unwrapped(trimmed[..|trimmed| - 1]);
      assert NEWLINE + [] == NEWLINE;
      DelimiterSplits(plain, NEWLINE, []);
    } else {
      Unwrapped(trimmed);
    }
    Enclosed(NAME_OPEN, plain, NAME_CLOSE, name);
  }

  lemma WithoutLineBreak(text: Bytes)
    requires EndsWith(text, NAME_CLOSE + NEWLINE)
    ensures |text| >= 4 && text == text[..|text| - 1] + NEWLINE
  {
    var n := |text| - 1;
    assert text[n - 3..][3] == 0x0A;
    assert text[n..] == NEWLINE;
  }

  lemma Unwrapped(text: Bytes)
    requires NAME_OPEN <= text && EndsWith(text, NAME_CLOSE) && |text| >= 9
    ensures text == NAME_OPEN + (text[6..|text| - 3] + NAME_CLOSE)
  {
    assert text[..6] == NAME_OPEN && text[|text| - 3..] == NAME_CLOSE;
    assert text == text[..6] + (text[6..|text| - 3] + text[|text| - 3..]);
  }

  lemma NameDelimiters()
    ensures Delimiter(NAME_OPEN) && Delimiter(NAME_CLOSE) && Delimiter(NEWLINE)
  {
    hide Utf8.Valid;
    WordDelimiters();
    AsciiIsValid(NAME_OPEN);
  }

  lemma ParsedCallIsValid(json: JsonSyntax, text: Bytes)
    requires ParseInvoke(json, text).Some? && Utf8.Valid(text)
    ensures var (c, after) := ParseInvoke(json, text).value; ValidCall(c) && Utf8.Valid(after)
  {
    hide Utf8.Valid, Delimiter, ValidParameter, Search, OccursAt, ParseName, ParseParameters, Arguments,
      PARAMETER, END_INVOKE;
    TagDelimiters();
    HeaderBytes();
    var header := Search(text, [PARAMETER, END_INVOKE]).value;
    HitSplits(text, header.stop, header.at);
    ParsedNameIsValid(text[..header.at], header.stop == END_INVOKE);
    if header.stop == PARAMETER {
      ParsedParametersAreValid(json, text[header.at + |header.stop|..], []);
    }
  }

  lemma {:induction false} ParsedCallsAreValid(json: JsonSyntax, text: Bytes, seen: seq<ToolCall>)
    requires ParseCalls(json, text, seen).Some? && Utf8.Valid(text) && forall c :: c in seen ==> ValidCall(c)
    ensures forall c :: c in ParseCalls(json, text, seen).value.0 ==> ValidCall(c)
    decreases |text|
  {
    hide Utf8.Valid, Delimiter, ValidCall, Search, OccursAt, ParseInvoke, INVOKE, END_CALLS, TAG_END;
    TagDelimiters();
    TagsNotEmpty();
    var before := Search(text, [INVOKE, END_CALLS]).value;
    if before.stop != END_CALLS {
      HitSplits(text, before.stop, before.at);
      var after := text[before.at + |before.stop|..];
      ParsedCallIsValid(json, after);
      var (call, rest) := ParseInvoke(json, after).value;
      ParsedCallsAreValid(json, rest, seen + [call]);
    }
  }

  lemma ParsedAnswerIsValid(json: JsonSyntax, text: Bytes)
    requires ParseAnswer(json, text).Some? && Utf8.Valid(text)
    ensures var (content, calls) := ParseAnswer(json, text).value;
      Utf8.Valid(content) && forall c :: c in calls ==> ValidCall(c)
  {
    hide Utf8.Valid, Delimiter, ValidCall, Search, OccursAt, ParseCalls, EOS, TOOL_START;
    TagDelimiters();
    MarkerDelimiters();
    StopsNotEmpty();
    var summary := Search(text, [EOS, TOOL_START]).value;
    HitSplits(text, summary.stop, summary.at);
    if summary.stop == TOOL_START {
      ParsedCallsAreValid(json, text[summary.at + |summary.stop|..], []);
    }
  }

  lemma ParsedThoughtIsValid(text: Bytes)
    requires ParseThought(text).Some? && Utf8.Valid(text)
    ensures var (reasoning, rest) := ParseThought(text).value; Utf8.Valid(reasoning) && Utf8.Valid(rest)
  {
    hide Utf8.Valid, Delimiter, Search, OccursAt, END_THINK, TOOL_START;
    MarkerDelimiters();
    StopsNotEmpty();
    HitSplits(text, END_THINK, Search(text, [END_THINK, TOOL_START]).value.at);
  }

  /** Every part of a parsed completion is UTF-8. */
  lemma ParsedCompletionIsValid(json: JsonSyntax, text: Bytes, thinking: bool)
    requires ParseCompletion(json, text, thinking).Some?
    ensures var m := ParseCompletion(json, text, thinking).value;
      Utf8.Valid(m.content) && Utf8.Valid(m.reasoning) && forall c :: c in m.calls ==> ValidCall(c)
  {
    hide Utf8.Valid, ValidCall, ParseAnswer, ParseThought, Clean;
    if thinking {
      ParsedThoughtIsValid(text);
      ParsedAnswerIsValid(json, ParseThought(text).value.1);
    } else {
      ParsedAnswerIsValid(json, text);
      AsciiIsValid([]);
    }
  }

  // ---- The normal form ---------------------------------------------------------------------------------------------

  /** A turn of UTF-8 parts is printed as UTF-8. */
  lemma TurnIsValid(shown: bool, reasoning: Bytes, content: Bytes, calls: seq<ToolCall>)
    requires Utf8.Valid(reasoning) && Utf8.Valid(content) && forall c :: c in calls ==> ValidCall(c)
    ensures Utf8.Valid(AssistantTurn(shown, reasoning, content, calls))
  {
    hide Utf8.Valid, ValidCall, Rendered, EOS, END_THINK;
    MarkersAreValid();
    RenderedIsValid(calls);
    var block := if calls == [] then [] else Rendered(calls);
    var front := if shown then reasoning + END_THINK else [];
    ValidPair(block, EOS);
    ValidPair(content, block + EOS);
    ValidPair(reasoning, END_THINK);
    ValidPair(front, content + (block + EOS));
  }

  lemma MarkersAreValid()
    ensures Utf8.Valid(EOS) && Utf8.Valid(END_THINK) && Utf8.Valid([])
  {
    hide Utf8.Valid;
    MarkerDelimiters();
    AsciiIsValid([]);
  }

  /**
   * Printing is a normal form of accepted completions: whatever text the parser accepts, the turn
   * printed from its message is UTF-8, and parses to the same message exactly when it is within the
   * limit.
   */
  lemma PrintingIsNormal(json: JsonSyntax, text: Bytes, thinking: bool)
    requires ParseCompletion(json, text, thinking).Some?
    ensures var m := ParseCompletion(json, text, thinking).value;
      var turn := AssistantTurn(thinking, m.reasoning, m.content, m.calls);
      && Utf8.Valid(turn)
      && (ParseCompletion(json, turn, thinking) == Some(m) <==> |turn| <= LIMIT)
  {
    hide Utf8.Valid, Clean, CleanCalls, ValidCall, AssistantTurn;
    var m := ParseCompletion(json, text, thinking).value;
    ParsedCompletionIsClean(json, text, thinking);
    ParsedCompletionIsValid(json, text, thinking);
    TurnIsValid(thinking, m.reasoning, m.content, m.calls);
    UnthoughtIsEmpty(json, text, thinking);
    hide ParseCompletion;
    TurnRoundTrips(json, thinking, m.reasoning, m.content, m.calls);
  }

  lemma UnthoughtIsEmpty(json: JsonSyntax, text: Bytes, thinking: bool)
    requires ParseCompletion(json, text, thinking).Some?
    ensures thinking || ParseCompletion(json, text, thinking).value.reasoning == []
  {
    hide Utf8.Valid, Clean, ParseAnswer, ParseThought;
  }
}
