/** The DSML renderer of tool calls and the assistant turn it is part of. */
module DsmlRenderer {
  import opened ByteStrings
  import opened Markers
  import opened CompletionParser
  import opened Wrappers

  const BUDGET := 1024 * 1024
  const GREATER: Bytes := [0x3E]
  const ARGUMENTS: Bytes := [0x61, 0x72, 0x67, 0x75, 0x6D, 0x65, 0x6E, 0x74, 0x73]  // "arguments"

  /** A call of the conversation history; its arguments are JSON text. */
  datatype HistoryCall = HistoryCall(name: Bytes, arguments: Bytes)

  /** What JsonValue::Parse makes of an arguments text: the members carry the text of their values. */
  datatype Decoded = Malformed | NotObject | Object(members: seq<Parameter>)

  function HeaderOf(p: Parameter): Bytes {
    if p.isString then STRING_HEADER else JSON_HEADER
  }

  /** The text between the tags of a parameter. */
  function Body(p: Parameter): Bytes {
    (SPACE + NAME_OPEN) + (p.key + HeaderOf(p) + p.value) + LESS
  }

  function ParameterText(p: Parameter): Bytes {
    PARAMETER + Body(p) + END_PARAMETER + GREATER
  }

  /** The text of the parameters from the i-th on, up to and including the closing invoke tag. */
  function ParametersFrom(ps: seq<Parameter>, i: nat): Bytes
    requires i <= |ps|
    decreases |ps| - i
  {
    if i == |ps| then NEWLINE + END_INVOKE + GREATER
    else (if i == 0 then [] else NEWLINE) + ParameterText(ps[i]) + ParametersFrom(ps, i + 1)
  }

  function InvokeText(name: Bytes, ps: seq<Parameter>): Bytes {
    INVOKE + (SPACE + NAME_OPEN) + name + NAME_CLOSE + ParametersFrom(ps, 0)
  }

  /** The text of the calls from the i-th on, up to and including the closing tag of the block. */
  function InvokesFrom(calls: seq<ToolCall>, i: nat): Bytes
    requires i <= |calls|
    decreases |calls| - i
  {
    if i == |calls| then NEWLINE + END_CALLS
    else (if i == 0 then [] else NEWLINE) + InvokeText(calls[i].name, calls[i].parameters) + InvokesFrom(calls, i + 1)
  }

  function Rendered(calls: seq<ToolCall>): Bytes {
    TOOL_START + TAG_END + InvokesFrom(calls, 0)
  }

  /** Syntactically invalid arguments travel as one string parameter. */
  function Members(decoded: Decoded, arguments: Bytes): Option<seq<Parameter>> {
    match decoded
    case Malformed => Some([Parameter(ARGUMENTS, true, arguments)])
    case NotObject => None
    case Object(members) => Some(members)
  }

  function CallOf(decode: Bytes -> Decoded, h: HistoryCall): ToolCall {
    var members := Members(decode(h.arguments), h.arguments);
    ToolCall(h.name, if members.Some? then members.value else [], h.arguments)
  }

  function CallsOf(decode: Bytes -> Decoded, history: seq<HistoryCall>): seq<ToolCall> {
    seq(|history|, i requires 0 <= i < |history| => CallOf(decode, history[i]))
  }

  /** No arguments of the history are JSON without being an object. */
  predicate AllObjects(decode: Bytes -> Decoded, history: seq<HistoryCall>) {
    forall i :: 0 <= i < |history| ==> !decode(history[i].arguments).NotObject?
  }

  /** Appends within a byte budget; None when it is exceeded. */
  function Append(output: Bytes, part: Bytes): Option<Bytes> {
    if |output| > BUDGET || |part| > BUDGET - |output| then None else Some(output + part)
  }

  /** An accumulated text and what is still to come make up the whole. */
  ghost predicate Completes(output: Option<Bytes>, rest: Bytes, whole: Bytes) {
    if output.Some? then output.value + rest == whole && |output.value| <= BUDGET else |whole| > BUDGET
  }

  method Extend(output: Option<Bytes>, part: Bytes, ghost rest: Bytes, ghost whole: Bytes)
    returns (longer: Option<Bytes>)
    requires Completes(output, part + rest, whole)
    ensures Completes(longer, rest, whole)
  {
    longer := if output.None? then None else Append(output.value, part);
    if output.Some? {
      Assoc(output.value, part, rest);
    }
  }

  method RenderParameter(output: Option<Bytes>, p: Parameter, ghost rest: Bytes, ghost whole: Bytes)
    returns (longer: Option<Bytes>)
    requires Completes(output, ParameterText(p) + rest, whole)
    ensures Completes(longer, rest, whole)
  {
    hide Completes, PARAMETER, END_PARAMETER, STRING_HEADER, JSON_HEADER, SPACE, NAME_OPEN, LESS, GREATER;
    ghost var closing := LESS + END_PARAMETER + GREATER;
    assert ParameterText(p) + rest ==
      (PARAMETER + (SPACE + NAME_OPEN)) + (p.key + (HeaderOf(p) + (p.value + (closing + rest))));
    longer := Extend(output, PARAMETER + (SPACE + NAME_OPEN),
      p.key + (HeaderOf(p) + (p.value + (closing + rest))), whole);
    longer := Extend(longer, p.key, HeaderOf(p) + (p.value + (closing + rest)), whole);
    longer := Extend(longer, HeaderOf(p), p.value + (closing + rest), whole);
    longer := Extend(longer, p.value, closing + rest, whole);
    longer := Extend(longer, LESS + END_PARAMETER + GREATER, rest, whole);
  }

  method RenderInvoke(output: Option<Bytes>, name: Bytes, ps: seq<Parameter>, ghost rest: Bytes, ghost whole: Bytes)
    returns (longer: Option<Bytes>)
    requires Completes(output, InvokeText(name, ps) + rest, whole)
    ensures Completes(longer, rest, whole)
  {
    hide Completes, ParameterText, INVOKE, END_INVOKE, SPACE, NAME_OPEN, NAME_CLOSE, NEWLINE, GREATER;
    ghost var behind := ParametersFrom(ps, 0);
    assert InvokeText(name, ps) + rest == (INVOKE + (SPACE + NAME_OPEN)) + (name + (NAME_CLOSE + (behind + rest)));
    longer := Extend(output, INVOKE + (SPACE + NAME_OPEN), name + (NAME_CLOSE + (behind + rest)), whole);
    longer := Extend(longer, name, NAME_CLOSE + (behind + rest), whole);
    longer := Extend(longer, NAME_CLOSE, behind + rest, whole);
    for i := 0 to |ps|
      invariant Completes(longer, ParametersFrom(ps, i) + rest, whole)
    {
      ghost var next := ParametersFrom(ps, i + 1);
      Assoc(ParameterText(ps[i]), next, rest);
      if i != 0 {
        assert ParametersFrom(ps, i) + rest == NEWLINE + (ParameterText(ps[i]) + (next + rest));
        longer := Extend(longer, NEWLINE, ParameterText(ps[i]) + (next + rest), whole);
      } else {
        assert ParametersFrom(ps, i) == ParameterText(ps[i]) + next;
      }
      longer := RenderParameter(longer, ps[i], next + rest, whole);
    }
    longer := Extend(longer, NEWLINE + END_INVOKE + GREATER, rest, whole);
  }

  method RenderNext(output: Option<Bytes>, ghost calls: seq<ToolCall>, i: nat, name: Bytes, ps: seq<Parameter>,
                    ghost whole: Bytes)
    returns (longer: Option<Bytes>)
    requires i < |calls| && calls[i].name == name && calls[i].parameters == ps
    requires Completes(output, InvokesFrom(calls, i), whole)
    ensures Completes(longer, InvokesFrom(calls, i + 1), whole)
  {
    hide Completes, NEWLINE, InvokeText;
    longer := output;
    ghost var text, next := InvokeText(name, ps), InvokesFrom(calls, i + 1);
    if i != 0 {
      Assoc(NEWLINE, text, next);
      longer := Extend(longer, NEWLINE, text + next, whole);
    } else {
      assert InvokesFrom(calls, i) == text + next;
    }
    longer := RenderInvoke(longer, name, ps, next, whole);
  }

  /** RenderCalls; None stands for every rejection. */
  method RenderCalls(decode: Bytes -> Decoded, history: seq<HistoryCall>) returns (r: Option<Bytes>)
    ensures r.Some? <==>
      |history| <= 128 && AllObjects(decode, history) && |Rendered(CallsOf(decode, history))| <= BUDGET
    ensures r.Some? ==> r.value == Rendered(CallsOf(decode, history))
  {
    hide InvokesFrom, Completes, Rendered, TOOL_START, TAG_END, NEWLINE, END_CALLS;
    if |history| > 128 { return None; }
    ghost var calls := CallsOf(decode, history);
    ghost var whole := Rendered(calls);
    r := Some(TOOL_START + TAG_END);
    FirstPart(calls);
    for i := 0 to |history|
      invariant Completes(r, InvokesFrom(calls, i), whole)
      invariant forall k :: 0 <= k < i ==> !decode(history[k].arguments).NotObject?
    {
      var members := Members(decode(history[i].arguments), history[i].arguments);
      if members.None? { return None; }
      r := RenderNext(r, calls, i, history[i].name, members.value, whole);
    }
    LastPart(calls);
    r := Extend(r, NEWLINE + END_CALLS, [], whole);
    Completed(r, whole);
  }

  lemma FirstPart(calls: seq<ToolCall>)
    ensures Completes(Some(TOOL_START + TAG_END), InvokesFrom(calls, 0), Rendered(calls))
  {
    hide InvokesFrom;
  }

  lemma LastPart(calls: seq<ToolCall>)
    ensures InvokesFrom(calls, |calls|) == NEWLINE + END_CALLS + []
  {
  }

  lemma Completed(output: Option<Bytes>, whole: Bytes)
    requires Completes(output, [], whole)
    ensures output == if |whole| <= BUDGET then Some(whole) else None
  {
    if output.Some? {
      assert output.value + [] == output.value;
    }
  }
}
