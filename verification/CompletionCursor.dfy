/** The strict parser as it runs: one cursor over the text, moved from stop to stop. */
module CompletionCursor {
  import opened ByteStrings
  import opened Markers
  import opened CompletionParser
  import Utf8
  import opened Wrappers

  /** One more candidate changes the search only if it occurs earlier. */
  function Nearer(found: Option<Hit>, other: Option<Hit>): Option<Hit> {
    if other.Some? && (found.None? || other.value.at < found.value.at) then other else found
  }

  lemma {:induction false} AtFrontMore(s: Bytes, stops: seq<Bytes>, p: Bytes)
    ensures AtFront(s, stops + [p]) == if AtFront(s, stops).Some? then AtFront(s, stops) else AtFront(s, [p])
  {
    if stops == [] {
      assert stops + [p] == [p];
    } else {
      assert (stops + [p])[1..] == stops[1..] + [p];
      AtFrontMore(s, stops[1..], p);
    }
  }

  lemma {:induction false} SearchMore(s: Bytes, stops: seq<Bytes>, p: Bytes)
    requires [] !in stops && p != []
    ensures Search(s, stops + [p]) == Nearer(Search(s, stops), Search(s, [p]))
  {
    hide NoneBefore, OccursAt;
    if s != [] {
      AtFrontMore(s, stops, p);
      SearchMore(s[1..], stops, p);
      hide AtFront;
    }
  }

  lemma FindIsSearch(s: Bytes, p: Bytes)
    requires p != []
    ensures Search(s, [p]) == if Find(s, p).None? then None else Some(Hit(Find(s, p).value, p))
  {
  }

  /** Moves the cursor behind the nearest stop and returns the text in between; without a stop, to the end. */
  method Until(text: Bytes, index: nat, stops: seq<Bytes>) returns (segment: Bytes, stop: Option<Bytes>, next: nat)
    requires index <= |text| && [] !in stops
    ensures index <= next <= |text|
    ensures match Search(text[index..], stops)
      case None => stop == None && segment == text[index..] && next == |text|
      case Some(hit) =>
        && stop == Some(hit.stop) && segment == text[index..][..hit.at]
        && text[next..] == text[index..][hit.at + |hit.stop|..] && next == index + hit.at + |hit.stop|
  {
    hide NoneBefore, OccursAt, Contains, Search;
    ghost var rest := text[index..];
    var end := |text|;
    stop := None;
    assert stops[..0] == [];
    SearchNothing(rest);
    for n := 0 to |stops|
      invariant stop.None? ==> end == |text|
      invariant stop.Some? ==> index <= end && end + |stop.value| <= |text|
      invariant Search(rest, stops[..n]) == if stop.None? then None else Some(Hit(end - index, stop.value))
    {
      assert stops[..n + 1] == stops[..n] + [stops[n]];
      SearchMore(rest, stops[..n], stops[n]);
      FindIsSearch(rest, stops[n]);
      OccursFits(rest, stops[n], Find(rest, stops[n]));
      var at := Find(text[index..], stops[n]);
      if at.Some? && index + at.value < end {
        end, stop := index + at.value, Some(stops[n]);
      }
    }
    assert stops[..|stops|] == stops;
    segment := text[index..end];
    next := if stop.None? then end else end + |stop.value|;
  }

  lemma OccursFits(s: Bytes, p: Bytes, at: Option<nat>)
    requires p != [] && (at.Some? ==> OccursAt(s, p, at.value))
    ensures at.Some? ==> at.value + |p| <= |s|
  {
  }

  lemma {:induction false} SearchNothing(s: Bytes)
    ensures Search(s, []) == None
  {
    if s != [] {
      SearchNothing(s[1..]);
    }
  }

  /** One parameter, read with a moving cursor. */
  method ReadParameter(json: JsonSyntax, text: Bytes, index: nat, ghost seen: seq<Parameter>, keys: set<Bytes>)
    returns (p: Option<Parameter>, stop: Bytes, next: nat)
    requires index <= |text| && keys == Keys(seen) && |keys| == |seen|
    ensures match ParseParameter(json, text[index..], seen)
      case None => p == None
      case Some((q, s, after)) => p == Some(q) && stop == s && index < next <= |text| && text[next..] == after
  {
    hide Search, ParseParameterText, Keys;
    p, stop, next := None, [], index;
    var segment, end, after := Until(text, index, [END_PARAMETER]);
    if end.None? { return; }
    var parsed := ParseParameterText(json, segment);
    if parsed.None? || parsed.value.key in keys || |keys| >= 1024 { return; }
    var between, tag, behind := Until(text, after, [PARAMETER, END_INVOKE]);
    if tag.None? || between != TAG_END { return; }
    p, stop, next := parsed, tag.value, behind;
  }

  method ReadParameters(json: JsonSyntax, text: Bytes, index: nat)
    returns (ok: bool, parameters: seq<Parameter>, arguments: Bytes, next: nat)
    requires index <= |text|
    ensures match ParseParameters(json, text[index..], [])
      case None => !ok
      case Some((ps, rest)) =>
        && ok && parameters == ps && OpenArguments(ps) == Some(arguments)
        && next <= |text| && text[next..] == rest
  {
    hide ParseParameter, WithArgument, PARAMETER, END_INVOKE;
    ok, parameters, arguments, next := false, [], [0x7B], index;
    var keys: set<Bytes> := {};
    while true
      invariant next <= |text| && !ok
      invariant ParseParameters(json, text[index..], []) == ParseParameters(json, text[next..], parameters)
      invariant keys == Keys(parameters) && |keys| == |parameters| && OpenArguments(parameters) == Some(arguments)
      decreases |text| - next
    {
      var p, stop, after := ReadParameter(json, text, next, parameters, keys);
      if p.None? { return; }
      assert (parameters + [p.value])[..|parameters|] == parameters;
      ParsedKeyIsNew(json, text[next..], parameters);
      var longer := WithArgument(arguments, |parameters| == 0, p.value);
      if longer.None? { return; }
      KeysMore(parameters, p.value);
      keys, arguments, next := keys + {p.value.key}, longer.value, after;
      parameters := parameters + [p.value];
      if stop != PARAMETER {
        ok := true;
        return;
      }
    }
  }

  lemma ParsedKeyIsNew(json: JsonSyntax, text: Bytes, seen: seq<Parameter>)
    ensures ParseParameter(json, text, seen).Some? ==> ParseParameter(json, text, seen).value.0.key !in Keys(seen)
  {
    hide Search, ParseParameterText;
  }

  lemma KeysMore(parameters: seq<Parameter>, p: Parameter)
    ensures Keys(parameters + [p]) == Keys(parameters) + {p.key}
  {
    assert forall q :: q in parameters + [p] <==> q in parameters || q == p;
  }

  method ReadInvoke(json: JsonSyntax, text: Bytes, index: nat) returns (call: Option<ToolCall>, next: nat)
    requires index <= |text|
    ensures match ParseInvoke(json, text[index..])
      case None => call == None
      case Some((c, rest)) => call == Some(c) && next <= |text| && text[next..] == rest
  {
    hide Search, ParseName, ParseParameters;
    call, next := None, index;
    var header, stop, after := Until(text, index, [PARAMETER, END_INVOKE]);
    if stop.None? { return; }
    var name := ParseName(header, stop.value == END_INVOKE);
    if name.None? { return; }
    var parameters: seq<Parameter>, arguments: Bytes := [], [0x7B];
    if stop.value == PARAMETER {
      var ok;
      ok, parameters, arguments, after := ReadParameters(json, text, after);
      if !ok { return; }
    }
    if |arguments| + 1 > LIMIT { return; }
    call, next := Some(ToolCall(name.value, parameters, arguments + [0x7D])), after;
  }

  method ReadCalls(json: JsonSyntax, text: Bytes, index: nat) returns (ok: bool, calls: seq<ToolCall>, next: nat)
    requires index <= |text|
    ensures match ParseCalls(json, text[index..], [])
      case None => !ok
      case Some((cs, rest)) => ok && calls == cs && next <= |text| && text[next..] == rest
  {
    hide Search, ParseInvoke;
    ok, calls, next := false, [], index;
    while next < |text|
      invariant next <= |text| && !ok
      invariant ParseCalls(json, text[index..], []) == ParseCalls(json, text[next..], calls)
      decreases |text| - next
    {
      var before, stop, after := Until(text, next, [INVOKE, END_CALLS]);
      if before != TAG_END || stop.None? { return; }
      if stop.value == END_CALLS {
        return true, calls, after;
      }
      if |calls| >= 128 { return; }
      var call, behind := ReadInvoke(json, text, after);
      if call.None? { return; }
      calls, next := calls + [call.value], behind;
    }
    assert text[next..] == [];
    NothingFound([INVOKE, END_CALLS]);
  }

  lemma NothingFound(stops: seq<Bytes>)
    requires [] !in stops
    ensures Search([], stops) == None
  {
  }

  method ReadAnswer(json: JsonSyntax, text: Bytes, index: nat) returns (r: Option<(Bytes, seq<ToolCall>)>)
    requires index <= |text|
    ensures r == ParseAnswer(json, text[index..])
  {
    hide Search, ParseCalls;
    var summary, stop, next := Until(text, index, [EOS, TOOL_START]);
    var calls: seq<ToolCall> := [];
    if stop == Some(TOOL_START) {
      var ok;
      ok, calls, next := ReadCalls(json, text, next);
      if !ok { return None; }
      EndingIs(text[next..]);
      var ending, last, end := Until(text, next, [EOS]);
      if ending != [] || last != Some(EOS) { return None; }
      next := end;
    } else if stop != Some(EOS) {
      return None;
    }
    if next != |text| { return None; }
    return Some((summary, calls));
  }

  /** ParseDeepSeekCompletion. */
  method ReadCompletion(json: JsonSyntax, text: Bytes, thinking: bool) returns (r: Option<Message>)
    ensures r == ParseCompletion(json, text, thinking)
  {
    hide Search, ParseAnswer, Contains;
    Utf8.RepairFixesExactlyValid(text);
    hide Utf8.Repair, Utf8.Valid;
    if |text| > LIMIT || Utf8.Repair(text) != text { return None; }
    var index, reasoning := 0, [];
    assert text[0..] == text;
    if thinking {
      var thought, stop, next := Until(text, 0, [END_THINK, TOOL_START]);
      if stop != Some(END_THINK) { return None; }
      reasoning, index := thought, next;
    }
    var answer := ReadAnswer(json, text, index);
    if answer.None? || !Clean(answer.value.0) || !Clean(reasoning) { return None; }
    return Some(Message(answer.value.0, reasoning, answer.value.1));
  }

  /** The text behind the calls is the end marker alone exactly when the search finds it at once and nothing behind. */
  lemma EndingIs(rest: Bytes)
    ensures rest == EOS <==> Search(rest, [EOS]) == Some(Hit(0, EOS)) && |rest| == |EOS|
  {
    assert EOS in [EOS];
  }
}
