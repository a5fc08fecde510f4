/** The assistant turn as it is printed from a conversation history, and what parsing makes of it. */
module DsmlHistory {
  import opened ByteStrings
  import opened Markers
  import opened CompletionParser
  import opened DsmlRenderer
  import opened DsmlRoundTrip
  import opened ToolArguments
  import Utf8
  import opened Wrappers

  // ---- Printing -------------------------------------------------------------------------------------------

  lemma TurnFromCalls(shown: bool, reasoning: Bytes, content: Bytes, calls: seq<ToolCall>, before: Bytes)
    ensures before + AssistantTurn(shown, reasoning, content, calls) ==
      before + ((if shown then reasoning + END_THINK else []) +
        (content + ((if calls == [] then [] else Rendered(calls)) + (EOS + []))))
  {
    hide Rendered, EOS, END_THINK;
    assert EOS + [] == EOS;
  }

  /** An assistant message behind an earlier part of the prompt; None stands for every rejection. */
  method RenderTurn(before: Bytes, shown: bool, reasoning: Bytes, content: Bytes,
                    decode: Bytes -> Decoded, history: seq<HistoryCall>) returns (r: Option<Bytes>)
    ensures var turn := AssistantTurn(shown, reasoning, content, CallsOf(decode, history));
      && (r.Some? <==> |history| <= 128 && AllObjects(decode, history) && |before + turn| <= BUDGET)
      && (r.Some? ==> r.value == before + turn)
  {
    hide Rendered, Completes, EOS, END_THINK;
    ghost var calls := CallsOf(decode, history);
    ghost var whole := before + AssistantTurn(shown, reasoning, content, calls);
    ghost var block := if calls == [] then [] else Rendered(calls);
    TurnFromCalls(shown, reasoning, content, calls, before);
    ghost var rest := content + (block + (EOS + []));
    Begun(before, (if shown then reasoning + END_THINK else []) + rest, whole);
    r := if |before| <= BUDGET then Some(before) else None;
    if shown {
      Assoc(reasoning, END_THINK, rest);
      r := Extend(r, reasoning, END_THINK + rest, whole);
      r := Extend(r, END_THINK, rest, whole);
    } else {
      assert [] + rest == rest;
    }
    r := Extend(r, content, block + (EOS + []), whole);
    if history != [] {
      var text := RenderCalls(decode, history);
      if text.None? {
        PartIsShorter(before, shown, reasoning, content, calls);
        return None;
      }
      r := Extend(r, text.value, EOS + [], whole);
    } else {
      assert [] + (EOS + []) == EOS + [];
    }
    r := Extend(r, EOS, [], whole);
    Completed(r, whole);
  }

  lemma Begun(before: Bytes, rest: Bytes, whole: Bytes)
    requires whole == before + rest
    ensures Completes(if |before| <= BUDGET then Some(before) else None, rest, whole)
  {
  }

  lemma PartIsShorter(before: Bytes, shown: bool, reasoning: Bytes, content: Bytes, calls: seq<ToolCall>)
    requires calls != []
    ensures |Rendered(calls)| <= |before + AssistantTurn(shown, reasoning, content, calls)|
  {
    hide Rendered, EOS, END_THINK;
  }

  // ---- Parsing it again -------------------------------------------------------------------------------------

  /** The same names and parameters; the arguments text is not printed. */
  predicate SameCalls(a: seq<ToolCall>, b: seq<ToolCall>) {
    |a| == |b| && forall i :: 0 <= i < |a| ==> a[i].name == b[i].name && a[i].parameters == b[i].parameters
  }

  lemma {:induction false} InvokesAreSame(a: seq<ToolCall>, b: seq<ToolCall>, i: nat)
    requires SameCalls(a, b) && i <= |a|
    ensures InvokesFrom(a, i) == InvokesFrom(b, i)
    decreases |a| - i
  {
    hide InvokeText;
    if i < |a| {
      InvokesAreSame(a, b, i + 1);
    }
  }

  lemma TurnsAreSame(shown: bool, reasoning: Bytes, content: Bytes, a: seq<ToolCall>, b: seq<ToolCall>)
    requires SameCalls(a, b)
    ensures AssistantTurn(shown, reasoning, content, a) == AssistantTurn(shown, reasoning, content, b)
  {
    hide InvokesFrom, EOS, END_THINK, TOOL_START, TAG_END;
    InvokesAreSame(a, b, 0);
  }

  /** The name and the parameters avoid the delimiters, and the parameters have an arguments text. */
  predicate Printable(json: JsonSyntax, c: ToolCall) {
    && !Contains(c.name, PARAMETER) && !Contains(c.name, END_INVOKE)
    && CleanParameters(json, c.parameters) && Arguments(c.parameters).Some?
  }

  /** The calls with the arguments text the parser builds. */
  function Retold(calls: seq<ToolCall>): (r: seq<ToolCall>)
    ensures |r| == |calls|
  {
    seq(|calls|, i requires 0 <= i < |calls| =>
      var text := Arguments(calls[i].parameters);
      calls[i].(arguments := if text.Some? then text.value else []))
  }

  lemma RetoldIsClean(json: JsonSyntax, calls: seq<ToolCall>)
    ensures SameCalls(Retold(calls), calls)
    ensures CleanCalls(json, Retold(calls)) <==> |calls| <= 128 && forall c :: c in calls ==> Printable(json, c)
  {
    hide Contains, CleanParameters, Arguments, PARAMETER, END_INVOKE;
    var r := Retold(calls);
    forall i | 0 <= i < |calls| ensures CleanCall(json, r[i]) <==> Printable(json, calls[i]) {}
    if CleanCalls(json, r) {
      forall c | c in calls ensures Printable(json, c) {
        var i :| 0 <= i < |calls| && calls[i] == c;
        assert r[i] in r && CleanCall(json, r[i]);
      }
    }
    if |calls| <= 128 && forall c :: c in calls ==> Printable(json, c) {
      forall d | d in r ensures CleanCall(json, d) {
        var i :| 0 <= i < |r| && r[i] == d;
        assert calls[i] in calls;
      }
    }
  }

  lemma CleanIsRetold(json: JsonSyntax, a: seq<ToolCall>, b: seq<ToolCall>)
    requires CleanCalls(json, a) && SameCalls(a, b)
    ensures a == Retold(b)
  {
    hide Contains, CleanParameters, Arguments, PARAMETER, END_INVOKE;
    forall i | 0 <= i < |a| ensures a[i] == Retold(b)[i] {
      assert a[i] in a && CleanCall(json, a[i]);
    }
  }

  /**
   * The round trip of a history: for every history, parsing the printed turn gives back reasoning,
   * content, and the names and parameters of the calls exactly when the turn is UTF-8 within the
   * limit, shows any reasoning there is, and its parts are clean and have their arguments texts.
   */
  lemma HistoryRoundTrips(json: JsonSyntax, decode: Bytes -> Decoded, thinking: bool, reasoning: Bytes, content: Bytes,
                          history: seq<HistoryCall>)
    ensures var calls := CallsOf(decode, history);
      var text := AssistantTurn(thinking, reasoning, content, calls);
      var parsed := ParseCompletion(json, text, thinking);
      parsed.Some? && parsed.value.content == content && parsed.value.reasoning == reasoning &&
        SameCalls(parsed.value.calls, calls)
      <==>
      && Utf8.Valid(text) && |text| <= LIMIT && (thinking || reasoning == [])
      && Clean(content) && Clean(reasoning)
      && |calls| <= 128 && forall c :: c in calls ==> Printable(json, c)
  {
    hide Clean, CleanCalls, SameCalls, Printable, ParseCompletion, AssistantTurn, Retold, CallsOf, Utf8.Valid;
    var calls := CallsOf(decode, history);
    var retold := Retold(calls);
    var text := AssistantTurn(thinking, reasoning, content, calls);
    RetoldIsClean(json, calls);
    TurnsAreSame(thinking, reasoning, content, retold, calls);
    TurnRoundTrips(json, thinking, reasoning, content, retold);
    var parsed := ParseCompletion(json, text, thinking);
    if parsed.Some? && parsed.value.content == content && parsed.value.reasoning == reasoning &&
      SameCalls(parsed.value.calls, calls)
    {
      ParsedCompletionIsClean(json, text, thinking);
      CleanIsRetold(json, parsed.value.calls, calls);
    }
  }

  // ---- What the history says comes back -----------------------------------------------------------------------

  const ARGUMENTS_KEY: Bytes := [0x61, 0x72, 0x67, 0x75, 0x6D, 0x65, 0x6E, 0x74, 0x73]  // "arguments"

  /** The parameters a call of the history has: its members, or its whole text under one key when it is no JSON. */
  predicate Says(decode: Bytes -> Decoded, h: HistoryCall, ps: seq<Parameter>) {
    match decode(h.arguments)
    case Malformed => ps == [Parameter(ARGUMENTS_KEY, true, h.arguments)]
    case NotObject => ps == []
    case Object(members) => ps == members
  }

  lemma CallsSay(decode: Bytes -> Decoded, history: seq<HistoryCall>)
    ensures var calls := CallsOf(decode, history);
      && |calls| == |history|
      && forall i :: 0 <= i < |history| ==>
        calls[i].name == history[i].name && Says(decode, history[i], calls[i].parameters)
  {
  }

  /** A parsed call tells what a call of the history says: its name, its parameters, and their text as an object. */
  ghost predicate Retells(decode: Bytes -> Decoded, h: HistoryCall, c: ToolCall) {
    && c.name == h.name && Says(decode, h, c.parameters)
    && ReadObject(c.arguments, Bare(c.parameters)) == Some(c.parameters)
  }

  /**
   * End to end: when a printed turn comes back, its i-th call has the name of the i-th call of the
   * history, its parameters are the members of its arguments or, when those are no JSON, their text
   * under one key, and the arguments text reads back to exactly these parameters.
   */
  lemma HistoryIsRetold(json: JsonSyntax, decode: Bytes -> Decoded, thinking: bool, reasoning: Bytes, content: Bytes,
                        history: seq<HistoryCall>)
    requires var calls := CallsOf(decode, history);
      var parsed := ParseCompletion(json, AssistantTurn(thinking, reasoning, content, calls), thinking);
      parsed.Some? && SameCalls(parsed.value.calls, calls)
    ensures var calls := CallsOf(decode, history);
      var parsed := ParseCompletion(json, AssistantTurn(thinking, reasoning, content, calls), thinking).value;
      |parsed.calls| == |history|
      && forall i :: 0 <= i < |history| ==> Retells(decode, history[i], parsed.calls[i])
  {
    hide ParseCompletion, AssistantTurn, CallsOf, Says, ReadObject, Bare;
    var calls := CallsOf(decode, history);
    var text := AssistantTurn(thinking, reasoning, content, calls);
    var parsed := ParseCompletion(json, text, thinking).value;
    CallsSay(decode, history);
    CompletionArgumentsReadBack(json, text, thinking);
    forall i | 0 <= i < |history| ensures Retells(decode, history[i], parsed.calls[i]) {
      assert parsed.calls[i] in parsed.calls;
    }
  }
}
