/** The strict parser undoes the renderer, exactly on the calls that avoid the delimiters it searches for. */
module DsmlRoundTrip {
  import opened ByteStrings
  import opened Markers
  import opened CompletionScan
  import opened CompletionParser
  import opened CompletionAgreement
  import opened DsmlRenderer
  import Utf8
  import opened Wrappers

  // ---- Searching structured text ------------------------------------------------------------------

  function Shifted(n: nat, r: Option<Hit>): Option<Hit> {
    match r case None => None case Some(h) => Some(Hit(n + h.at, h.stop))
  }

  lemma SearchStep(s: Bytes, stops: seq<Bytes>)
    requires s != [] && [] !in stops && forall p :: p in stops ==> !OccursAt(s, p, 0)
    ensures Search(s, stops) == Shifted(1, Search(s[1..], stops))
  {
    hide NoneBefore, OccursAt;
  }

  /** A part that no stop begins in is skipped. */
  lemma {:induction false} SkipPart(a: Bytes, c: Bytes, stops: seq<Bytes>)
    requires [] !in stops
    requires NoneBefore(a + c, stops, |a|)
    ensures Search(a + c, stops) == Shifted(|a|, Search(c, stops))
    decreases |a|
  {
    hide Search, OccursAt;
    if a == [] {
      assert a + c == c;
    } else {
      var s := a + c;
      assert s[1..] == a[1..] + c;
      SearchStep(s, stops);
      forall i, p | 0 <= i < |a| - 1 && p in stops ensures !OccursAt(s[1..], p, i) {
        OccursAfter(s, p, 1, i);
      }
      SkipPart(a[1..], c, stops);
    }
  }

  lemma OccursBegins(a: Bytes, c: Bytes, p: Bytes, i: nat)
    requires p != [] && i < |a| && OccursAt(a + c, p, i)
    ensures p[0] in a
  {
    assert p[0] == (a + c)[i..][0] == a[i];
  }

  /** No stop begins with a byte of the part. */
  lemma SkipForeign(a: Bytes, c: Bytes, stops: seq<Bytes>)
    requires [] !in stops && forall p :: p in stops ==> p[0] !in a
    ensures Search(a + c, stops) == Shifted(|a|, Search(c, stops))
  {
    hide Search, OccursAt;
    forall i, p | 0 <= i < |a| && p in stops && OccursAt(a + c, p, i) ensures false {
      OccursBegins(a, c, p, i);
    }
    SkipPart(a, c, stops);
  }

  /** A pattern that begins before a byte it does not hold ends before it too. */
  lemma OccursGuarded(a: Bytes, b: Byte, c: Bytes, p: Bytes, i: nat)
    requires i <= |a| && p != [] && OccursAt(a + [b] + c, p, i)
    ensures OccursAt(a, p, i) || b in p
  {
    var s := a + [b] + c;
    if i + |p| <= |a| {
      assert p == s[i..][..|p|] == a[i..][..|p|];
    } else {
      assert p[|a| - i] == s[i..][|a| - i] == s[|a|] == b;
    }
  }

  /** The part holds no stop, and the byte behind it occurs in none. */
  lemma SkipGuarded(a: Bytes, b: Byte, c: Bytes, stops: seq<Bytes>)
    requires [] !in stops && forall p :: p in stops ==> b !in p && !Contains(a, p)
    ensures Search(a + [b] + c, stops) == Shifted(|a| + 1, Search(c, stops))
  {
    hide Search, OccursAt;
    forall i, p | 0 <= i < |a| + 1 && p in stops && OccursAt(a + [b] + c, p, i) ensures false {
      OccursGuarded(a, b, c, p, i);
    }
    SkipPart(a + [b], c, stops);
  }

  lemma StopAtFront(stop: Bytes, after: Bytes, stops: seq<Bytes>)
    requires [] !in stops && stop in stops
    requires forall p, q :: p in stops && q in stops && p != q ==> !(p <= q)
    ensures Search(stop + after, stops) == Some(Hit(0, stop))
  {
    assert (stop + after)[0..] == stop + after;
    SearchIs(stop + after, stops, 0, stop);
  }

  lemma TagStops()
    ensures forall p, q :: p in [PARAMETER, END_INVOKE] && q in [PARAMETER, END_INVOKE] && p != q ==> !(p <= q)
    ensures forall p, q :: p in [INVOKE, END_CALLS] && q in [INVOKE, END_CALLS] && p != q ==> !(p <= q)
  {
    assert PARAMETER[1] != END_INVOKE[1] && INVOKE[1] != END_CALLS[1];
  }

  lemma HeaderStops()
    ensures forall p, q :: p in [STRING_HEADER, JSON_HEADER] && q in [STRING_HEADER, JSON_HEADER] && p != q ==>
      !(p <= q)
  {
    assert STRING_HEADER[10] != JSON_HEADER[10];
  }

  /** Behind a closing tag comes the next tag of the same level. */
  lemma TagThenStop(stop: Bytes, after: Bytes, stops: seq<Bytes>)
    requires stops == [PARAMETER, END_INVOKE] || stops == [INVOKE, END_CALLS]
    requires stop in stops
    ensures Search(TAG_END + (stop + after), stops) == Some(Hit(2, stop))
  {
    TagStops();
    StopAtFront(stop, after, stops);
    SkipForeign(TAG_END, stop + after, stops);
  }

  // ---- The conditions -----------------------------------------------------------------------------

  /** The key and the value avoid the delimiters the parser searches for, and a bare value is JSON. */
  predicate CleanParameter(json: JsonSyntax, p: Parameter) {
    && !Contains(p.key, END_PARAMETER) && !Contains(p.key, STRING_HEADER) && !Contains(p.key, JSON_HEADER)
    && !Contains(p.value, END_PARAMETER)
    && (p.isString || json(p.value))
  }

  predicate DistinctKeys(ps: seq<Parameter>) {
    forall i, j :: 0 <= i < j < |ps| ==> ps[i].key != ps[j].key
  }

  predicate CleanParameters(json: JsonSyntax, ps: seq<Parameter>) {
    |ps| <= 1024 && DistinctKeys(ps) && forall p :: p in ps ==> CleanParameter(json, p)
  }

  predicate CleanCall(json: JsonSyntax, c: ToolCall) {
    && !Contains(c.name, PARAMETER) && !Contains(c.name, END_INVOKE)
    && CleanParameters(json, c.parameters)
    && Arguments(c.parameters) == Some(c.arguments)
  }

  predicate CleanCalls(json: JsonSyntax, calls: seq<ToolCall>) {
    |calls| <= 128 && forall c :: c in calls ==> CleanCall(json, c)
  }

  // ---- One parameter ---------------------------------------------------------------------------------

  /** No header stands across the end of a key. */
  lemma HeadersDoNotOverlap(h: Bytes, k: nat, g: Bytes)
    requires h in [STRING_HEADER, JSON_HEADER] && g in [STRING_HEADER, JSON_HEADER] && 1 <= k < |h|
    ensures !Comparable(h[k..], g)
  {
    QuotesInHeader(h, k);
    assert h[k..][0] != g[0] || (|h[k..]| >= 2 && h[k..][1] != g[1]);
  }

  lemma QuotesInHeader(h: Bytes, k: nat)
    requires h in [STRING_HEADER, JSON_HEADER] && 1 <= k < |h|
    ensures h[k] == 0x22 ==> k + 1 < |h| && h[k + 1] != 0x20
  {
    if h == STRING_HEADER {
      assert h[k] == 0x22 ==> k == 9 || k == 14;
    } else {
      assert h[k] == 0x22 ==> k == 9 || k == 15;
    }
  }

  /** The header behind a key that holds none is the first one. */
  lemma HeaderFound(key: Bytes, header: Bytes, value: Bytes)
    requires header in [STRING_HEADER, JSON_HEADER] && !Contains(key, STRING_HEADER) && !Contains(key, JSON_HEADER)
    ensures Search(key + header + value, [STRING_HEADER, JSON_HEADER]) == Some(Hit(|key|, header))
  {
    hide STRING_HEADER, JSON_HEADER;
    var s, stops := key + header + value, [STRING_HEADER, JSON_HEADER];
    assert s[|key|..] == header + value;
    forall i, p | 0 <= i < |key| && p in stops && OccursAt(s, p, i) ensures false {
      HeaderOccursInKey(key, header, value, p, i);
    }
    HeadersNotEmpty();
    HeaderStops();
    SearchIs(s, stops, |key|, header);
  }

  lemma HeadersNotEmpty()
    ensures [] !in [STRING_HEADER, JSON_HEADER]
  {
  }

  lemma HeaderOccursInKey(key: Bytes, header: Bytes, value: Bytes, p: Bytes, i: nat)
    requires header in [STRING_HEADER, JSON_HEADER] && p in [STRING_HEADER, JSON_HEADER]
    requires i < |key| && OccursAt(key + header + value, p, i)
    ensures OccursAt(key, p, i)
  {
    hide STRING_HEADER, JSON_HEADER;
    var s, k := key + header + value, |key| - i;
    if |p| <= k {
      assert p == s[i..][..|p|] == key[i..][..|p|];
    } else {
      assert s[i..][k..] == header + value;
      assert Comparable(p[k..], header);
      HeadersDoNotOverlap(p, k, header);
    }
  }

  lemma Sandwich(open: Bytes, middle: Bytes, close: Bytes)
    ensures var text := open + middle + close;
      open <= text && EndsWith(text, close) && text[|open|..|text| - |close|] == middle
  {
    var text := open + middle + close;
    assert text[|text| - |close|..] == close;
  }

  /** The header search inside the body, as the parser does it. */
  lemma InnerParses(json: JsonSyntax, p: Parameter, b: Bytes)
    requires b == p.key + HeaderOf(p) + p.value && CleanParameter(json, p)
    ensures Search(b, [STRING_HEADER, JSON_HEADER]) == Some(Hit(|p.key|, HeaderOf(p)))
    ensures p == Parameter(b[..|p.key|], HeaderOf(p) == STRING_HEADER, b[|p.key| + |HeaderOf(p)|..])
  {
    HeaderFound(p.key, HeaderOf(p), p.value);
    hide Search, Contains;
    assert STRING_HEADER != JSON_HEADER by { assert |STRING_HEADER| != |JSON_HEADER|; }
    hide STRING_HEADER, JSON_HEADER;
    assert b[..|p.key|] == p.key && b[|p.key| + |HeaderOf(p)|..] == p.value;
  }

  lemma BodyParses(json: JsonSyntax, p: Parameter)
    requires CleanParameter(json, p)
    ensures ParseParameterText(json, Body(p)) == Some(p)
  {
    var b := p.key + HeaderOf(p) + p.value;
    InnerParses(json, p, b);
    hide Search, Contains, HeaderOf, STRING_HEADER, JSON_HEADER;
    Sandwich(SPACE + NAME_OPEN, b, LESS);
  }

  // ---- The parameters of a call ------------------------------------------------------------------------

  lemma ParameterBytes(h: Bytes)
    requires h == STRING_HEADER || h == JSON_HEADER
    ensures END_PARAMETER != [] && 0x22 !in END_PARAMETER && 0x3C !in END_PARAMETER
    ensures END_PARAMETER[0] !in SPACE + NAME_OPEN && END_PARAMETER[0] !in h[1..]
    ensures h == [0x22] + h[1..] && LESS == [0x3C]
  {
  }

  lemma RegroupBody(o: Bytes, k: Bytes, q: Bytes, h: Bytes, v: Bytes, l: Bytes, t: Bytes)
    ensures (o + (k + (q + h) + v) + l) + t == o + (k + q + (h + (v + l + t)))
  {
    Assoc(o + (k + (q + h) + v), l, t);
    Assoc(o, k + (q + h) + v, l + t);
    Assoc(k + (q + h), v, l + t);
    Assoc(v, l, t);
    Assoc(k, q, h);
    Assoc(k + q, h, v + l + t);
  }

  lemma Slices(a: Bytes, b: Bytes, c: Bytes)
    ensures (a + (b + c))[..|a|] == a && (a + (b + c))[|a| + |b|..] == c
  {
  }

  /** The closing tag behind a parameter is the first one. */
  lemma ClosingFound(json: JsonSyntax, p: Parameter, after: Bytes)
    requires CleanParameter(json, p)
    ensures Search(Body(p) + (END_PARAMETER + after), [END_PARAMETER]) == Some(Hit(|Body(p)|, END_PARAMETER))
  {
    hide Search, Contains, END_PARAMETER, STRING_HEADER, JSON_HEADER, SPACE, NAME_OPEN, LESS;
    var open, header, stops := SPACE + NAME_OPEN, HeaderOf(p), [END_PARAMETER];
    ParameterBytes(header);
    var t0 := END_PARAMETER + after;
    var t1 := p.value + [0x3C] + t0;
    var t2 := header[1..] + t1;
    var t3 := p.key + [0x22] + t2;
    RegroupBody(open, p.key, [0x22], header[1..], p.value, [0x3C], t0);
    StopAtFront(END_PARAMETER, after, stops);
    SkipGuarded(p.value, 0x3C, t0, stops);
    SkipForeign(header[1..], t1, stops);
    SkipGuarded(p.key, 0x22, t2, stops);
    SkipForeign(open, t3, stops);
  }

  lemma TagLengths()
    ensures |TAG_END| == 2 && |SPACE + NAME_OPEN| == 7 && NAME_CLOSE == [0x22] + TAG_END && TAG_END == GREATER + NEWLINE
  {
  }

  /** One rendered parameter and the tag behind it parse back. */
  lemma ParameterParses(json: JsonSyntax, p: Parameter, stop: Bytes, after: Bytes, seen: seq<Parameter>)
    requires CleanParameter(json, p) && p.key !in Keys(seen) && |seen| < 1024
    requires stop == PARAMETER || stop == END_INVOKE
    ensures ParseParameter(json, Body(p) + (END_PARAMETER + (TAG_END + (stop + after))), seen) == Some((p, stop, after))
  {
    hide Search, ParseParameterText, Body, Keys, CleanParameter, END_PARAMETER, PARAMETER, END_INVOKE, TAG_END;
    var rest := TAG_END + (stop + after);
    ClosingFound(json, p, rest);
    BodyParses(json, p);
    TagThenStop(stop, after, [PARAMETER, END_INVOKE]);
    TagLengths();
    Slices(Body(p), END_PARAMETER, rest);
    Slices(TAG_END, stop, after);
  }

  /** What stands behind the opening tag of the i-th parameter. */
  function Behind(ps: seq<Parameter>, i: nat, more: Bytes): Bytes
    requires i < |ps|
    decreases |ps| - i
  {
    Body(ps[i]) + (END_PARAMETER + (TAG_END +
      (if i + 1 == |ps| then END_INVOKE + (GREATER + more) else PARAMETER + Behind(ps, i + 1, more))))
  }

  lemma {:induction false} BehindIsRendered(ps: seq<Parameter>, i: nat, more: Bytes)
    requires i < |ps|
    ensures ParametersFrom(ps, i) + more == (if i == 0 then [] else NEWLINE) + (PARAMETER + Behind(ps, i, more))
    decreases |ps| - i
  {
    hide Body, PARAMETER, END_PARAMETER, END_INVOKE, GREATER, NEWLINE, TAG_END;
    var sep := if i == 0 then [] else NEWLINE;
    var p := ParameterText(ps[i]);
    var next := ParametersFrom(ps, i + 1) + more;
    Assoc(sep + p, ParametersFrom(ps, i + 1), more);
    Assoc(sep, p, next);
    var tail := if i + 1 == |ps| then END_INVOKE + (GREATER + more) else PARAMETER + Behind(ps, i + 1, more);
    assert next == NEWLINE + tail by {
      if i + 1 < |ps| {
        BehindIsRendered(ps, i + 1, more);
      } else {
        Assoc(NEWLINE + END_INVOKE, GREATER, more);
        Assoc(NEWLINE, END_INVOKE, GREATER + more);
      }
    }
    Regroup(PARAMETER, Body(ps[i]), END_PARAMETER, tail);
  }

  lemma Regroup(a: Bytes, b: Bytes, c: Bytes, tail: Bytes)
    ensures (a + b + c + GREATER) + (NEWLINE + tail) == a + (b + (c + (TAG_END + tail)))
  {
    assert GREATER + (NEWLINE + tail) == TAG_END + tail;
    Assoc(a + b + c, GREATER, NEWLINE + tail);
    Assoc(a + b, c, TAG_END + tail);
    Assoc(a, b, c + (TAG_END + tail));
  }

  lemma {:induction false} ArgumentPrefixes(ps: seq<Parameter>, k: nat)
    requires k <= |ps| && OpenArguments(ps).Some?
    ensures OpenArguments(ps[..k]).Some?
    decreases |ps|
  {
    if k < |ps| {
      ArgumentPrefixes(ps[..|ps| - 1], k);
      assert ps[..|ps| - 1][..k] == ps[..k];
    } else {
      assert ps[..k] == ps;
    }
  }

  lemma NewKey(ps: seq<Parameter>, i: nat)
    requires i < |ps| && DistinctKeys(ps)
    ensures ps[i].key !in Keys(ps[..i])
  {
  }

  lemma {:induction false} ParametersParse(json: JsonSyntax, ps: seq<Parameter>, i: nat, more: Bytes)
    requires i < |ps| && CleanParameters(json, ps) && OpenArguments(ps).Some?
    ensures ParseParameters(json, Behind(ps, i, more), ps[..i]) == Some((ps, GREATER + more))
    decreases |ps| - i
  {
    hide CleanParameter, OpenArguments, Keys, ParseParameter, Body, PARAMETER, END_PARAMETER, END_INVOKE;
    NewKey(ps, i);
    ArgumentPrefixes(ps, i + 1);
    assert ps[..i] + [ps[i]] == ps[..i + 1];
    TagsDiffer();
    if i + 1 == |ps| {
      assert ps[..i + 1] == ps;
      ParameterParses(json, ps[i], END_INVOKE, GREATER + more, ps[..i]);
    } else {
      ParameterParses(json, ps[i], PARAMETER, Behind(ps, i + 1, more), ps[..i]);
      ParametersParse(json, ps, i + 1, more);
    }
  }

  lemma TagsDiffer()
    ensures PARAMETER != END_INVOKE && INVOKE != END_CALLS
  {
    assert PARAMETER[1] != END_INVOKE[1] && INVOKE[1] != END_CALLS[1];
  }

  // ---- The calls --------------------------------------------------------------------------------------

  lemma TrimsOneSpace(name: Bytes)
    ensures TrimLeadingSpace(SPACE + (NAME_OPEN + name)) == NAME_OPEN + name
  {
    var inner := NAME_OPEN + name;
    var text := SPACE + inner;
    assert inner[0] == 0x6E && text[0] == 0x20;
    assert text[..1] == [0x20] && text[1..] == inner && inner[..1] == [0x6E];
  }

  /** The name of a rendered header is read back, with and without the extra line break. */
  lemma NameParses(name: Bytes, noParameters: bool)
    ensures var gap := if noParameters then NEWLINE else [];
      ParseName((SPACE + NAME_OPEN) + (name + NAME_CLOSE + gap), noParameters) == Some(name)
  {
    hide TrimLeadingSpace;
    var extra := if noParameters then NEWLINE else [];
    var inner := name + NAME_CLOSE + extra;
    Assoc(SPACE, NAME_OPEN, inner);
    TrimsOneSpace(inner);
    var trimmed := NAME_OPEN + inner;
    var plain := NAME_OPEN + name + NAME_CLOSE;
    assert trimmed == plain + extra;
    Sandwich(NAME_OPEN, name, NAME_CLOSE);
    assert |plain| >= 9;
    if noParameters {
      assert trimmed == (NAME_OPEN + name) + (NAME_CLOSE + NEWLINE);
      assert EndsWith(trimmed, NAME_CLOSE + NEWLINE);
      assert trimmed[..|trimmed| - 1] == plain;
    } else {
      assert trimmed == plain;
    }
  }

  lemma HeaderBytes()
    ensures [] !in [PARAMETER, END_INVOKE] && 0x22 !in PARAMETER && 0x22 !in END_INVOKE
    ensures PARAMETER[0] == 0x3C == END_INVOKE[0] && 0x3C !in SPACE + NAME_OPEN && 0x3C !in TAG_END &&
      0x3C !in TAG_END + NEWLINE
  {
  }

  /** The first tag behind the name of a call. */
  lemma HeaderFoundBehindName(name: Bytes, gap: Bytes, stop: Bytes, after: Bytes)
    requires !Contains(name, PARAMETER) && !Contains(name, END_INVOKE)
    requires stop == PARAMETER || stop == END_INVOKE
    requires gap == [] || gap == NEWLINE
    ensures Search((SPACE + NAME_OPEN) + (name + NAME_CLOSE + gap) + (stop + after), [PARAMETER, END_INVOKE])
      == Some(Hit(|(SPACE + NAME_OPEN) + (name + NAME_CLOSE + gap)|, stop))
  {
    hide Search, Contains, PARAMETER, END_INVOKE, SPACE, NAME_OPEN, NAME_CLOSE, TAG_END, NEWLINE;
    var open, stops := SPACE + NAME_OPEN, [PARAMETER, END_INVOKE];
    HeaderBytes();
    TagLengths();
    TagStops();
    var t0 := stop + after;
    var t1 := (TAG_END + gap) + t0;
    var t2 := name + [0x22] + t1;
    assert TAG_END + [] == TAG_END;
    StopAtFront(stop, after, stops);
    SkipForeign(TAG_END + gap, t0, stops);
    SkipGuarded(name, 0x22, t1, stops);
    SkipForeign(open, t2, stops);
    RegroupHeader(open, name, [0x22], TAG_END, gap, t0);
  }

  lemma RegroupHeader(o: Bytes, n: Bytes, q: Bytes, e: Bytes, g: Bytes, t: Bytes)
    ensures o + (n + (q + e) + g) + t == o + (n + q + ((e + g) + t))
  {
    Assoc(o, n + (q + e) + g, t);
    Assoc(n + (q + e), g, t);
    Assoc(n, q, e);
    Assoc(n + q, e, g + t);
    Assoc(e, g, t);
  }

  /** What stands behind the opening invoke tag of a call. */
  function CallBehind(c: ToolCall, more: Bytes): Bytes {
    var none := c.parameters == [];
    (SPACE + NAME_OPEN) + (c.name + NAME_CLOSE + (if none then NEWLINE else [])) +
      (if none then END_INVOKE + (GREATER + more) else PARAMETER + Behind(c.parameters, 0, more))
  }

  lemma CallParses(json: JsonSyntax, c: ToolCall, more: Bytes)
    requires CleanCall(json, c)
    ensures ParseInvoke(json, CallBehind(c, more)) == Some((c, GREATER + more))
  {
    hide Search, Contains, ParseName, ParseParameters, Behind, CleanParameters, OpenArguments,
      PARAMETER, END_INVOKE, SPACE, NAME_OPEN, NAME_CLOSE, NEWLINE, GREATER;
    var none := c.parameters == [];
    var stop := if none then END_INVOKE else PARAMETER;
    var after := if none then GREATER + more else Behind(c.parameters, 0, more);
    var gap := if none then NEWLINE else [];
    var head := (SPACE + NAME_OPEN) + (c.name + NAME_CLOSE + gap);
    HeaderFoundBehindName(c.name, gap, stop, after);
    NameParses(c.name, none);
    Slices(head, stop, after);
    TagsDiffer();
    if !none {
      assert c.parameters[..0] == [];
      ParametersParse(json, c.parameters, 0, more);
    }
  }

  /** What stands behind a tag, from the i-th call on. */
  function CallsBehind(calls: seq<ToolCall>, i: nat, tail: Bytes): Bytes
    requires i <= |calls|
    decreases |calls| - i
  {
    if i == |calls| then END_CALLS + tail
    else INVOKE + CallBehind(calls[i], NEWLINE + CallsBehind(calls, i + 1, tail))
  }

  lemma CallIsRendered(c: ToolCall, more: Bytes)
    ensures InvokeText(c.name, c.parameters) + more == INVOKE + CallBehind(c, more)
  {
    hide ParameterText, Body, INVOKE, PARAMETER, END_INVOKE, SPACE, NAME_OPEN, NAME_CLOSE, NEWLINE, GREATER,
      END_PARAMETER;
    var open, ps := SPACE + NAME_OPEN, c.parameters;
    var gap := if ps == [] then NEWLINE else [];
    var rest := if ps == [] then END_INVOKE + (GREATER + more) else PARAMETER + Behind(ps, 0, more);
    assert ParametersFrom(ps, 0) + more == gap + rest by {
      if ps == [] {
        Assoc(NEWLINE, END_INVOKE, GREATER);
        Assoc(NEWLINE, END_INVOKE + GREATER, more);
        Assoc(END_INVOKE, GREATER, more);
      } else {
        BehindIsRendered(ps, 0, more);
      }
    }
    RegroupCall(INVOKE, open, c.name, NAME_CLOSE, ParametersFrom(ps, 0), more, gap, rest);
  }

  lemma RegroupCall(i: Bytes, o: Bytes, n: Bytes, c: Bytes, p: Bytes, more: Bytes, gap: Bytes, rest: Bytes)
    requires p + more == gap + rest
    ensures (i + o + n + c + p) + more == i + (o + (n + c + gap) + rest)
  {
    Assoc(i + o + n + c, p, more);
    Assoc(i + o + n + c, gap, rest);
    Assoc(i + o, n, c);
    Assoc(i + o, n + c, gap);
    Assoc(i, o, n + c + gap);
    Assoc(i, o + (n + c + gap), rest);
  }

  lemma {:induction false} CallsAreRendered(calls: seq<ToolCall>, i: nat, tail: Bytes)
    requires i <= |calls|
    ensures InvokesFrom(calls, i) + tail ==
      (if i == 0 && calls != [] then [] else NEWLINE) + CallsBehind(calls, i, tail)
    decreases |calls| - i
  {
    hide InvokeText, CallBehind, NEWLINE, END_CALLS;
    if i == |calls| {
      Assoc(NEWLINE, END_CALLS, tail);
    } else {
      CallsAreRendered(calls, i + 1, tail);
      var sep := if i == 0 then [] else NEWLINE;
      var text, next := InvokeText(calls[i].name, calls[i].parameters), InvokesFrom(calls, i + 1);
      Assoc(sep + text, next, tail);
      Assoc(sep, text, next + tail);
      CallIsRendered(calls[i], next + tail);
    }
  }

  lemma CallsStep(json: JsonSyntax, c: ToolCall, next: Bytes, seen: seq<ToolCall>)
    requires CleanCall(json, c) && |seen| < 128
    ensures ParseCalls(json, TAG_END + (INVOKE + CallBehind(c, NEWLINE + next)), seen)
      == ParseCalls(json, TAG_END + next, seen + [c])
  {
    hide Search, CleanCall, CallBehind, ParseInvoke, INVOKE, END_CALLS, TAG_END, NEWLINE, GREATER;
    TagsDiffer();
    TagLengths();
    var after := CallBehind(c, NEWLINE + next);
    TagThenStop(INVOKE, after, [INVOKE, END_CALLS]);
    Slices(TAG_END, INVOKE, after);
    CallParses(json, c, NEWLINE + next);
    Assoc(GREATER, NEWLINE, next);
  }

  lemma CallsEnd(json: JsonSyntax, tail: Bytes, seen: seq<ToolCall>)
    ensures ParseCalls(json, TAG_END + (END_CALLS + tail), seen) == Some((seen, tail))
  {
    hide Search, ParseInvoke, INVOKE, END_CALLS, TAG_END;
    TagsDiffer();
    TagLengths();
    TagThenStop(END_CALLS, tail, [INVOKE, END_CALLS]);
    Slices(TAG_END, END_CALLS, tail);
  }

  lemma {:induction false} CallsParse(json: JsonSyntax, calls: seq<ToolCall>, i: nat, tail: Bytes)
    requires i <= |calls| && CleanCalls(json, calls)
    ensures ParseCalls(json, TAG_END + CallsBehind(calls, i, tail), calls[..i]) == Some((calls, tail))
    decreases |calls| - i
  {
    hide ParseCalls, CleanCall, CallBehind, INVOKE, END_CALLS, TAG_END, NEWLINE;
    if i == |calls| {
      assert calls[..i] == calls;
      CallsEnd(json, tail, calls);
    } else {
      CallsStep(json, calls[i], CallsBehind(calls, i + 1, tail), calls[..i]);
      assert calls[..i] + [calls[i]] == calls[..i + 1];
      CallsParse(json, calls, i + 1, tail);
    }
  }

  /** A rendered block of clean calls parses back. */
  lemma BlockParses(json: JsonSyntax, calls: seq<ToolCall>)
    requires calls != [] && CleanCalls(json, calls)
    ensures ParseBlock(json, TAG_END + InvokesFrom(calls, 0) + EOS) == Some(calls)
  {
    hide InvokesFrom, CallsBehind, ParseCalls, CleanCalls, TAG_END, EOS;
    CallsAreRendered(calls, 0, EOS);
    Assoc(TAG_END, InvokesFrom(calls, 0), EOS);
    assert [] + CallsBehind(calls, 0, EOS) == CallsBehind(calls, 0, EOS);
    assert calls[..0] == [];
    CallsParse(json, calls, 0, EOS);
  }

  // ---- Whatever parses is clean --------------------------------------------------------------------------

  lemma SliceHolds(s: Bytes, a: nat, b: nat, p: Bytes)
    requires a <= b <= |s| && Contains(s[a..b], p)
    ensures Contains(s, p)
  {
    var i :| 0 <= i <= b - a && OccursAt(s[a..b], p, i);
    assert s == s[..a] + s[a..b] + s[b..];
    OccursInside(s[..a], s[a..b], s[b..], p, i);
  }

  lemma NothingBeforeHit(s: Bytes, stops: seq<Bytes>, at: nat, p: Bytes)
    requires at <= |s| && p in stops && p != [] && NoneBefore(s, stops, at)
    ensures !Contains(s[..at], p)
  {
    forall i | 0 <= i <= at && OccursAt(s[..at], p, i) ensures false {
      assert s == [] + s[..at] + s[at..];
      OccursInside([], s[..at], s[at..], p, i);
    }
  }

  lemma ParsedTextIsClean(json: JsonSyntax, text: Bytes)
    requires ParseParameterText(json, text).Some? && !Contains(text, END_PARAMETER)
    ensures CleanParameter(json, ParseParameterText(json, text).value)
  {
    hide Contains, Search, END_PARAMETER, STRING_HEADER, JSON_HEADER;
    var p := ParseParameterText(json, text).value;
    var n := |text| - 1;
    ParsedTextLength(json, text);
    var body := text[7..n];
    HeadersNotEmpty();
    var hit := Search(body, [STRING_HEADER, JSON_HEADER]).value;
    HitFits(body, hit);
    NothingBeforeHit(body, [STRING_HEADER, JSON_HEADER], hit.at, STRING_HEADER);
    NothingBeforeHit(body, [STRING_HEADER, JSON_HEADER], hit.at, JSON_HEADER);
    assert p.key == text[7..7 + hit.at];
    assert p.value == text[7 + hit.at + |hit.stop|..n];
    if Contains(p.key, END_PARAMETER) {
      SliceHolds(text, 7, 7 + hit.at, END_PARAMETER);
    }
    if Contains(p.value, END_PARAMETER) {
      SliceHolds(text, 7 + hit.at + |hit.stop|, n, END_PARAMETER);
    }
  }

  lemma ParsedTextLength(json: JsonSyntax, text: Bytes)
    requires ParseParameterText(json, text).Some?
    ensures |text| >= 8
  {
    assert text[6] == 0x22 && text[|text| - 1] == 0x3C;
  }

  lemma HitFits(s: Bytes, hit: Hit)
    requires OccursAt(s, hit.stop, hit.at)
    ensures hit.at + |hit.stop| <= |s|
  {
  }

  lemma ParsedParameterIsClean(json: JsonSyntax, text: Bytes, seen: seq<Parameter>)
    requires ParseParameter(json, text, seen).Some?
    ensures var p := ParseParameter(json, text, seen).value.0;
      CleanParameter(json, p) && p.key !in Keys(seen) && |seen| < 1024
  {
    hide Search, ParseParameterText, CleanParameter, Contains, END_PARAMETER, PARAMETER, END_INVOKE, TAG_END, OccursAt;
    ParameterBytes(STRING_HEADER);
    var hit := Search(text, [END_PARAMETER]).value;
    HitFits(text, hit);
    NothingBeforeHit(text, [END_PARAMETER], hit.at, END_PARAMETER);
    ParsedTextIsClean(json, text[..hit.at]);
  }

  lemma CleanMore(json: JsonSyntax, seen: seq<Parameter>, p: Parameter)
    requires CleanParameters(json, seen) && CleanParameter(json, p) && p.key !in Keys(seen) && |seen| < 1024
    ensures CleanParameters(json, seen + [p])
  {
    hide CleanParameter;
    assert forall q :: q in seen ==> q.key in Keys(seen);
  }

  lemma {:induction false} ParsedParametersAreClean(json: JsonSyntax, text: Bytes, seen: seq<Parameter>)
    requires CleanParameters(json, seen) && ParseParameters(json, text, seen).Some?
    ensures CleanParameters(json, ParseParameters(json, text, seen).value.0)
    decreases |text|
  {
    hide ParseParameter, CleanParameter, CleanParameters, OpenArguments, PARAMETER;
    ParsedParameterIsClean(json, text, seen);
    var (p, stop, after) := ParseParameter(json, text, seen).value;
    CleanMore(json, seen, p);
    if stop == PARAMETER {
      ParsedParametersAreClean(json, after, seen + [p]);
    }
  }

  lemma {:induction false} TrimIsSuffix(text: Bytes) returns (k: nat)
    ensures k <= |text| && TrimLeadingSpace(text) == text[k..]
    decreases |text|
  {
    if text != [] && Utf8.Whole(text) && TrimLeadingSpace(text) != text {
      var n := Utf8.UnitLength(text);
      var j := TrimIsSuffix(text[n..]);
      k := n + j;
    } else {
      k := 0;
    }
  }

  /** The name is a part of the header, so it holds nothing the header does not. */
  lemma ParsedNameIsPart(header: Bytes, noParameters: bool, p: Bytes)
    requires ParseName(header, noParameters).Some? && Contains(ParseName(header, noParameters).value, p)
    ensures Contains(header, p)
  {
    hide TrimLeadingSpace, Contains;
    var name := ParseName(header, noParameters).value;
    var k := TrimIsSuffix(header);
    assert name == header[k + 6..k + 6 + |name|];
    SliceHolds(header, k + 6, k + 6 + |name|, p);
  }

  lemma ParsedCallIsClean(json: JsonSyntax, text: Bytes)
    requires ParseInvoke(json, text).Some?
    ensures CleanCall(json, ParseInvoke(json, text).value.0)
  {
    hide Search, Contains, ParseName, ParseParameters, OccursAt, CleanParameters, Arguments, PARAMETER, END_INVOKE;
    HeaderBytes();
    var header := Search(text, [PARAMETER, END_INVOKE]).value;
    HitFits(text, header);
    NothingBeforeHit(text, [PARAMETER, END_INVOKE], header.at, PARAMETER);
    NothingBeforeHit(text, [PARAMETER, END_INVOKE], header.at, END_INVOKE);
    var name := ParseName(text[..header.at], header.stop == END_INVOKE).value;
    if Contains(name, PARAMETER) {
      ParsedNameIsPart(text[..header.at], header.stop == END_INVOKE, PARAMETER);
    }
    if Contains(name, END_INVOKE) {
      ParsedNameIsPart(text[..header.at], header.stop == END_INVOKE, END_INVOKE);
    }
    NoParametersAreClean(json);
    if header.stop == PARAMETER {
      ParsedParametersAreClean(json, text[header.at + |header.stop|..], []);
    }
  }

  lemma NoParametersAreClean(json: JsonSyntax)
    ensures CleanParameters(json, [])
  {
  }

  lemma TagsNotEmpty()
    ensures [] !in [INVOKE, END_CALLS]
  {
  }

  lemma {:induction false} ParsedCallsAreClean(json: JsonSyntax, text: Bytes, seen: seq<ToolCall>)
    requires CleanCalls(json, seen) && ParseCalls(json, text, seen).Some?
    ensures CleanCalls(json, ParseCalls(json, text, seen).value.0)
    decreases |text|
  {
    hide Search, ParseInvoke, CleanCall, INVOKE, END_CALLS, TAG_END;
    TagsNotEmpty();
    var before := Search(text, [INVOKE, END_CALLS]).value;
    if before.stop != END_CALLS {
      var after := text[before.at + |before.stop|..];
      ParsedCallIsClean(json, after);
      var (call, rest) := ParseInvoke(json, after).value;
      ParsedCallsAreClean(json, rest, seen + [call]);
    }
  }

  // ---- The assistant turn -----------------------------------------------------------------------------------

  /** The assistant turn of a conversation: reasoning when it is shown, content, calls if any, end marker. */
  function AssistantTurn(shown: bool, reasoning: Bytes, content: Bytes, calls: seq<ToolCall>): Bytes {
    (if shown then reasoning + END_THINK else []) + (content + ((if calls == [] then [] else Rendered(calls)) + EOS))
  }

  /** Behind the content stands a stop: the end marker, or the opening of the block. */
  lemma TurnTail(calls: seq<ToolCall>)
    ensures (if calls == [] then [] else Rendered(calls)) + EOS ==
      if calls == [] then EOS + [] else TOOL_START + (TAG_END + InvokesFrom(calls, 0) + EOS)
  {
    hide InvokesFrom, EOS, TOOL_START, TAG_END;
    if calls == [] {
      assert [] + EOS == EOS + [];
    } else {
      Assoc(TOOL_START, TAG_END, InvokesFrom(calls, 0));
      Assoc(TOOL_START, TAG_END + InvokesFrom(calls, 0), EOS);
    }
  }

  lemma AnswerParses(json: JsonSyntax, content: Bytes, calls: seq<ToolCall>)
    requires Clean(content) && CleanCalls(json, calls)
    ensures ParseAnswer(json, content + ((if calls == [] then [] else Rendered(calls)) + EOS)) == Some((content, calls))
  {
    hide Clean, CleanCalls, ParseBlock, InvokesFrom, EOS, TOOL_START, Search, TAG_END, Rendered, Spelling;
    var stop := if calls == [] then Eos else ToolStart;
    var block := if calls == [] then [] else TAG_END + InvokesFrom(calls, 0) + EOS;
    StopSpellings();
    TurnTail(calls);
    StopBehindClean(content, stop, block);
    Slices(content, Spelling(stop), block);
    if calls != [] {
      BlockParses(json, calls);
    }
  }

  lemma StopSpellings()
    ensures Spelling(Eos) == EOS && Spelling(ToolStart) == TOOL_START && Spelling(EndThink) == END_THINK
    ensures EOS != TOOL_START && END_THINK != TOOL_START
  {
    MarkersAreAntichain(Eos, ToolStart);
    MarkersAreAntichain(EndThink, ToolStart);
  }

  /** Behind clean text the search finds the stop that follows, newlines before it or not. */
  lemma StopBehindClean(text: Bytes, stop: Marker, after: Bytes)
    requires Clean(text) && IsStop(stop)
    ensures !stop.EndThink? ==>
      Search(text + (Spelling(stop) + after), [EOS, TOOL_START]) == Some(Hit(|text|, Spelling(stop)))
    ensures !stop.Eos? ==>
      Search(text + (Spelling(stop) + after), [END_THINK, TOOL_START]) == Some(Hit(|text|, Spelling(stop)))
  {
    hide Clean, Spelling, EOS, TOOL_START, END_THINK, Search, Plain;
    var s, n := text + (Spelling(stop) + after), |text|;
    assert s[..n] == text && s[n..] == Spelling(stop) + after;
    forall i | 0 <= i < n ensures Plain(s[i..]) {
      CleanIsPlain(s, n, stop, i);
    }
    PlainIsClean(s, n);
    StopsAreAntichain();
    StopSpellings();
    StopsNotEmpty();
    if !stop.EndThink? {
      SearchIs(s, [EOS, TOOL_START], n, Spelling(stop));
    }
    if !stop.Eos? {
      SearchIs(s, [END_THINK, TOOL_START], n, Spelling(stop));
    }
  }

  lemma StopsNotEmpty()
    ensures [] !in [EOS, TOOL_START] && [] !in [END_THINK, TOOL_START]
  {
  }

  lemma ThoughtParses(reasoning: Bytes, rest: Bytes)
    requires Clean(reasoning)
    ensures ParseThought((reasoning + END_THINK) + rest) == Some((reasoning, rest))
  {
    hide Clean, Search, END_THINK, TOOL_START;
    StopBehindClean(reasoning, EndThink, rest);
    StopSpellings();
    Assoc(reasoning, END_THINK, rest);
    Slices(reasoning, END_THINK, rest);
  }

  lemma ParsedCompletionIsClean(json: JsonSyntax, text: Bytes, thinking: bool)
    requires ParseCompletion(json, text, thinking).Some?
    ensures var m := ParseCompletion(json, text, thinking).value;
      Clean(m.content) && Clean(m.reasoning) && CleanCalls(json, m.calls)
  {
    hide Clean, CleanCalls, ParseCalls, ParseThought, Search, EOS, TOOL_START, Utf8.Valid;
    StopsNotEmpty();
    NoCallsAreClean(json);
    var rest := if thinking then ParseThought(text).value.1 else text;
    var summary := Search(rest, [EOS, TOOL_START]).value;
    if summary.stop == TOOL_START {
      ParsedCallsAreClean(json, rest[summary.at + |summary.stop|..], []);
    }
  }

  lemma NoCallsAreClean(json: JsonSyntax)
    ensures CleanCalls(json, [])
  {
  }

  /**
   * The DSML round trip: parsing a rendered assistant turn gives back its reasoning, content and
   * calls exactly when the turn is UTF-8 within the limit, shows any reasoning there is, and text,
   * names, keys and values avoid the delimiters the parser searches for.
   */
  lemma TurnRoundTrips(json: JsonSyntax, thinking: bool, reasoning: Bytes, content: Bytes, calls: seq<ToolCall>)
    ensures var text := AssistantTurn(thinking, reasoning, content, calls);
      ParseCompletion(json, text, thinking) == Some(Message(content, reasoning, calls))
      <==>
      && Utf8.Valid(text) && |text| <= LIMIT && (thinking || reasoning == [])
      && Clean(content) && Clean(reasoning) && CleanCalls(json, calls)
  {
    hide Clean, CleanCalls, ParseAnswer, ParseThought, Rendered, EOS, END_THINK, Utf8.Valid;
    var text := AssistantTurn(thinking, reasoning, content, calls);
    if ParseCompletion(json, text, thinking) == Some(Message(content, reasoning, calls)) {
      ParsedCompletionIsClean(json, text, thinking);
    }
    if (thinking || reasoning == []) && Clean(content) && Clean(reasoning) && CleanCalls(json, calls) {
      var rest := content + ((if calls == [] then [] else Rendered(calls)) + EOS);
      AnswerParses(json, content, calls);
      if thinking {
        ThoughtParses(reasoning, rest);
      } else {
        assert text == rest;
      }
    }
  }

  // ---- A turn that does not come back -------------------------------------------------------------------

  const BAR: Bytes := [0xEF, 0xBD, 0x9C]
  const BLOCK: Bytes := [0xE2, 0x96, 0x81]

  predicate IsAscii(s: Bytes) {
    forall i :: 0 <= i < |s| ==> s[i] < 0x80
  }

  lemma {:induction false} AsciiIsValid(s: Bytes)
    requires IsAscii(s)
    ensures Utf8.Valid(s)
    decreases |s|
  {
    if s != [] {
      assert Utf8.UnitLength(s) == 1 == Utf8.Announced(s[0]);
      AsciiIsValid(s[1..]);
    }
  }

  lemma ValidPair(a: Bytes, b: Bytes)
    requires Utf8.Valid(a) && Utf8.Valid(b)
    ensures Utf8.Valid(a + b)
  {
    Utf8.ValidAppend(a, b);
  }

  lemma SignsAreValid()
    ensures Utf8.Valid(BAR) && Utf8.Valid(BLOCK)
  {
    assert BAR[3..] == [] && BLOCK[3..] == [];
  }

  /** ASCII text around two characters of three bytes. */
  lemma Framed(a: Bytes, sign: Bytes, b: Bytes, next: Bytes, c: Bytes)
    requires sign in [BAR, BLOCK] && next in [BAR, BLOCK] && IsAscii(a) && IsAscii(b) && IsAscii(c)
    ensures Utf8.Valid(a + (sign + b + next) + c)
  {
    hide Utf8.Valid, IsAscii, BAR, BLOCK;
    SignsAreValid();
    AsciiIsValid(a);
    AsciiIsValid(b);
    AsciiIsValid(c);
    ValidPair(sign, b);
    ValidPair(sign + b, next);
    ValidPair(a, sign + b + next);
    ValidPair(a + (sign + b + next), c);
  }

  lemma DsmlIsFramed()
    ensures IsAscii([0x44, 0x53, 0x4D, 0x4C]) && DSML == BAR + [0x44, 0x53, 0x4D, 0x4C] + BAR
  {
  }

  /** A tag: something before the bars, something behind them. */
  lemma TagIsValid(tag: Bytes, a: nat)
    requires a + 10 <= |tag| && tag[a..][..10] == DSML
    requires forall i :: 0 <= i < |tag| && !(a <= i < a + 10) ==> tag[i] < 0x80
    ensures Utf8.Valid(tag)
  {
    hide DSML, Utf8.Valid;
    var front, back := tag[..a], tag[a + 10..];
    assert tag == front + tag[a..][..10] + back;
    assert IsAscii(front) && IsAscii(back);
    DsmlIsFramed();
    Framed(front, BAR, [0x44, 0x53, 0x4D, 0x4C], BAR, back);
  }

  lemma OpeningTagParts()
    ensures |TOOL_START| == 23 && TOOL_START[3..][..10] == DSML
    ensures |INVOKE| == 17 && INVOKE[1..][..10] == DSML
    ensures |PARAMETER| == 20 && PARAMETER[1..][..10] == DSML
  {
  }

  lemma ClosingTagParts()
    ensures |END_INVOKE| == 18 && END_INVOKE[2..][..10] == DSML
    ensures |END_PARAMETER| == 20 && END_PARAMETER[1..][..10] == DSML
    ensures |END_CALLS| == 23 && END_CALLS[2..][..10] == DSML
  {
  }

  lemma OpeningTagsAreValid()
    ensures Utf8.Valid(TOOL_START) && Utf8.Valid(INVOKE) && Utf8.Valid(PARAMETER)
  {
    hide DSML, Utf8.Valid;
    OpeningTagParts();
    TagIsValid(TOOL_START, 3);
    TagIsValid(INVOKE, 1);
    TagIsValid(PARAMETER, 1);
  }

  lemma ClosingTagsAreValid()
    ensures Utf8.Valid(END_INVOKE) && Utf8.Valid(END_PARAMETER) && Utf8.Valid(END_CALLS)
  {
    hide DSML, Utf8.Valid;
    ClosingTagParts();
    TagIsValid(END_INVOKE, 2);
    TagIsValid(END_PARAMETER, 1);
    TagIsValid(END_CALLS, 2);
  }

  const SENTENCE: Bytes := [0x73, 0x65, 0x6E, 0x74, 0x65, 0x6E, 0x63, 0x65]

  lemma EndParts()
    ensures EOS == ([0x3C] + (BAR + [0x65, 0x6E, 0x64] + BLOCK) + [0x6F, 0x66]) +
      ([] + (BLOCK + SENTENCE + BAR) + [0x3E])
    ensures IsAscii([0x3C]) && IsAscii([0x65, 0x6E, 0x64]) && IsAscii([0x6F, 0x66])
    ensures IsAscii([]) && IsAscii(SENTENCE) && IsAscii([0x3E])
  {
  }

  lemma EndIsValid()
    ensures Utf8.Valid(EOS)
  {
    hide Utf8.Valid, IsAscii, EOS, BAR, BLOCK, SENTENCE;
    EndParts();
    Framed([0x3C], BAR, [0x65, 0x6E, 0x64], BLOCK, [0x6F, 0x66]);
    Framed([], BLOCK, SENTENCE, BAR, [0x3E]);
    ValidPair([0x3C] + (BAR + [0x65, 0x6E, 0x64] + BLOCK) + [0x6F, 0x66], [] + (BLOCK + SENTENCE + BAR) + [0x3E]);
  }

  lemma WordsAreValid()
    ensures Utf8.Valid(NEWLINE) && Utf8.Valid(GREATER) && Utf8.Valid(LESS) && Utf8.Valid(TAG_END)
    ensures Utf8.Valid(SPACE + NAME_OPEN) && Utf8.Valid(NAME_CLOSE)
    ensures Utf8.Valid(STRING_HEADER) && Utf8.Valid(JSON_HEADER)
  {
    hide Utf8.Valid;
    AsciiIsValid(NEWLINE);
    AsciiIsValid(GREATER);
    AsciiIsValid(LESS);
    AsciiIsValid(TAG_END);
    AsciiIsValid(SPACE + NAME_OPEN);
    AsciiIsValid(NAME_CLOSE);
    AsciiIsValid(STRING_HEADER);
    AsciiIsValid(JSON_HEADER);
  }

  predicate ValidParameter(p: Parameter) {
    Utf8.Valid(p.key) && Utf8.Valid(p.value)
  }

  predicate ValidCall(c: ToolCall) {
    Utf8.Valid(c.name) && forall p :: p in c.parameters ==> ValidParameter(p)
  }

  lemma ParameterIsValid(p: Parameter)
    requires ValidParameter(p)
    ensures Utf8.Valid(ParameterText(p))
  {
    hide Utf8.Valid, PARAMETER, END_PARAMETER, SPACE, NAME_OPEN, STRING_HEADER, JSON_HEADER, LESS, GREATER;
    OpeningTagsAreValid();
    ClosingTagsAreValid();
    WordsAreValid();
    ValidPair(p.key, HeaderOf(p));
    ValidPair(p.key + HeaderOf(p), p.value);
    ValidPair(SPACE + NAME_OPEN, p.key + HeaderOf(p) + p.value);
    ValidPair((SPACE + NAME_OPEN) + (p.key + HeaderOf(p) + p.value), LESS);
    ValidPair(PARAMETER, Body(p));
    ValidPair(PARAMETER + Body(p), END_PARAMETER);
    ValidPair(PARAMETER + Body(p) + END_PARAMETER, GREATER);
  }

  lemma {:induction false} ParametersAreValid(ps: seq<Parameter>, i: nat)
    requires i <= |ps| && forall p :: p in ps ==> ValidParameter(p)
    ensures Utf8.Valid(ParametersFrom(ps, i))
    decreases |ps| - i
  {
    hide Utf8.Valid, ValidParameter, ParameterText, END_INVOKE, NEWLINE, GREATER;
    ClosingTagsAreValid();
    WordsAreValid();
    if i == |ps| {
      ValidPair(NEWLINE, END_INVOKE);
      ValidPair(NEWLINE + END_INVOKE, GREATER);
    } else {
      ParameterIsValid(ps[i]);
      ParametersAreValid(ps, i + 1);
      assert Utf8.Valid([]) by { AsciiIsValid([]); }
      var sep := if i == 0 then [] else NEWLINE;
      ValidPair(sep, ParameterText(ps[i]));
      ValidPair(sep + ParameterText(ps[i]), ParametersFrom(ps, i + 1));
    }
  }

  lemma InvokeIsValid(c: ToolCall)
    requires ValidCall(c)
    ensures Utf8.Valid(InvokeText(c.name, c.parameters))
  {
    hide Utf8.Valid, ValidParameter, ParametersFrom, INVOKE, SPACE, NAME_OPEN, NAME_CLOSE;
    OpeningTagsAreValid();
    WordsAreValid();
    ParametersAreValid(c.parameters, 0);
    ValidPair(INVOKE, SPACE + NAME_OPEN);
    ValidPair(INVOKE + (SPACE + NAME_OPEN), c.name);
    ValidPair(INVOKE + (SPACE + NAME_OPEN) + c.name, NAME_CLOSE);
    ValidPair(INVOKE + (SPACE + NAME_OPEN) + c.name + NAME_CLOSE, ParametersFrom(c.parameters, 0));
  }

  lemma {:induction false} InvokesAreValid(calls: seq<ToolCall>, i: nat)
    requires i <= |calls| && forall c :: c in calls ==> ValidCall(c)
    ensures Utf8.Valid(InvokesFrom(calls, i))
    decreases |calls| - i
  {
    hide Utf8.Valid, ValidCall, InvokeText, END_CALLS, NEWLINE;
    ClosingTagsAreValid();
    WordsAreValid();
    if i == |calls| {
      ValidPair(NEWLINE, END_CALLS);
    } else {
      InvokeIsValid(calls[i]);
      InvokesAreValid(calls, i + 1);
      assert Utf8.Valid([]) by { AsciiIsValid([]); }
      var sep, text := if i == 0 then [] else NEWLINE, InvokeText(calls[i].name, calls[i].parameters);
      ValidPair(sep, text);
      ValidPair(sep + text, InvokesFrom(calls, i + 1));
    }
  }

  /** Calls whose names, keys and values are UTF-8 are printed as UTF-8. */
  lemma RenderedIsValid(calls: seq<ToolCall>)
    requires forall c :: c in calls ==> ValidCall(c)
    ensures Utf8.Valid(Rendered(calls))
  {
    hide Utf8.Valid, ValidCall, InvokesFrom, TOOL_START, TAG_END;
    OpeningTagsAreValid();
    WordsAreValid();
    InvokesAreValid(calls, 0);
    ValidPair(TOOL_START, TAG_END);
    ValidPair(TOOL_START + TAG_END, InvokesFrom(calls, 0));
  }

  lemma {:induction false} QuotedLength(text: Bytes)
    ensures |QuotedBody(text)| <= 6 * |text|
    decreases |text|
  {
    if text != [] {
      QuotedLength(text[1..]);
    }
  }

  /** A parameter "k" whose value is the closing tag of a parameter. */
  const TRAP: Parameter := Parameter([0x6B], true, END_PARAMETER)

  lemma LetterIsValid(b: Byte)
    requires b < 0x80
    ensures Utf8.Valid([b])
  {
    AsciiIsValid([b]);
  }

  lemma TrapParts()
    ensures TRAP.isString && ValidParameter(TRAP) && |TRAP.key| == 1 && |TRAP.value| == 20
  {
    hide Utf8.Valid, END_PARAMETER;
    ClosingTagsAreValid();
    LetterIsValid(0x6B);
    ClosingTagParts();
  }

  lemma ShortArgumentQuotes(p: Parameter)
    requires p.isString && ValidParameter(p) && |p.key| <= 100 && |p.value| <= 100
    ensures Arguments([p]).Some?
  {
    hide Utf8.Valid, QuotedBody;
    QuotedLength(p.key);
    QuotedLength(p.value);
    assert [p][..0] == [] && OpenArguments([]) == Some([0x7B]);
    assert OpenArguments([p]) == WithArgument([0x7B], true, p);
  }

  lemma TrapIsShort(call: ToolCall)
    requires call.name == [0x66] && call.parameters == [TRAP]
    ensures |Rendered([call]) + EOS| <= 300
  {
    OpeningTagParts();
    ClosingTagParts();
    TagLengths();
    hide TOOL_START, INVOKE, END_INVOKE, PARAMETER, END_PARAMETER, END_CALLS, DSML;
    assert |ParameterText(TRAP)| <= 100;
    assert |ParametersFrom([TRAP], 1)| <= 20;
    assert |InvokeText([0x66], [TRAP])| <= 160;
    assert |InvokesFrom([call], 1)| <= 24;
  }

  /**
   * A turn that does not come back: its one call is UTF-8 throughout and within every limit, but the
   * value of its parameter holds the tag that closes parameters.
   */
  lemma DelimiterInValueIsLost(json: JsonSyntax)
    ensures Arguments([TRAP]).Some?
    ensures var call := ToolCall([0x66], [TRAP], Arguments([TRAP]).value);
      var text := AssistantTurn(false, [], [], [call]);
      && Utf8.Valid(text) && |text| <= LIMIT
      && ParseCompletion(json, text, false) != Some(Message([], [], [call]))
  {
    TrapParts();
    ShortArgumentQuotes(TRAP);
    var call := ToolCall([0x66], [TRAP], Arguments([TRAP]).value);
    TrapIsShort(call);
    TrapIsValid(call);
    TurnRoundTrips(json, false, [], [], [call]);
    TrapIsNotClean(json, call);
    hide Utf8.Valid, ParseCompletion, Rendered, EOS, CleanCalls, Arguments;
    assert AssistantTurn(false, [], [], [call]) == Rendered([call]) + EOS;
  }

  lemma TrapIsValid(call: ToolCall)
    requires call.name == [0x66] && call.parameters == [TRAP]
    ensures Utf8.Valid(Rendered([call]) + EOS)
  {
    hide Utf8.Valid, ValidParameter, Rendered, EOS, TRAP;
    EndIsValid();
    LetterIsValid(0x66);
    TrapParts();
    RenderedIsValid([call]);
    ValidPair(Rendered([call]), EOS);
  }

  lemma TrapIsNotClean(json: JsonSyntax, call: ToolCall)
    requires call.parameters == [TRAP]
    ensures !CleanCalls(json, [call])
  {
    hide END_PARAMETER;
    assert OccursAt(END_PARAMETER, END_PARAMETER, 0);
    assert TRAP in call.parameters && call in [call];
    assert !CleanParameter(json, TRAP);
  }
}
