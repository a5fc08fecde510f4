/** The strict parser of a finished completion, with its DSML tool-call block. */
module CompletionParser {
  import opened ByteStrings
  import opened Markers
  import Utf8
  import opened Wrappers

  const LIMIT := 8 * 1024 * 1024

  const INVOKE: Bytes :=  // "<|DSML|invoke"
    [0x3C, 0xEF, 0xBD, 0x9C, 0x44, 0x53, 0x4D, 0x4C, 0xEF, 0xBD, 0x9C, 0x69, 0x6E, 0x76, 0x6F, 0x6B, 0x65]
  const END_INVOKE: Bytes :=  // "</|DSML|invoke"
    [0x3C, 0x2F, 0xEF, 0xBD, 0x9C, 0x44, 0x53, 0x4D, 0x4C, 0xEF, 0xBD, 0x9C, 0x69, 0x6E, 0x76, 0x6F, 0x6B, 0x65]
  const PARAMETER: Bytes :=  // "<|DSML|parameter"
    [0x3C, 0xEF, 0xBD, 0x9C, 0x44, 0x53, 0x4D, 0x4C, 0xEF, 0xBD, 0x9C,
     0x70, 0x61, 0x72, 0x61, 0x6D, 0x65, 0x74, 0x65, 0x72]
  const END_PARAMETER: Bytes :=  // "/|DSML|parameter"
    [0x2F, 0xEF, 0xBD, 0x9C, 0x44, 0x53, 0x4D, 0x4C, 0xEF, 0xBD, 0x9C,
     0x70, 0x61, 0x72, 0x61, 0x6D, 0x65, 0x74, 0x65, 0x72]
  const END_CALLS: Bytes :=  // "</|DSML|tool_calls>"
    [0x3C, 0x2F, 0xEF, 0xBD, 0x9C, 0x44, 0x53, 0x4D, 0x4C, 0xEF, 0xBD, 0x9C,
     0x74, 0x6F, 0x6F, 0x6C, 0x5F, 0x63, 0x61, 0x6C, 0x6C, 0x73, 0x3E]
  const TAG_END: Bytes := [0x3E, 0x0A]  // ">\n"
  const SPACE: Bytes := [0x20]
  const NAME_OPEN: Bytes := [0x6E, 0x61, 0x6D, 0x65, 0x3D, 0x22]  // "name=\""
  const NAME_CLOSE: Bytes := [0x22, 0x3E, 0x0A]  // "\">\n"
  const NEWLINE: Bytes := [0x0A]
  const LESS: Bytes := [0x3C]
  const STRING_HEADER: Bytes :=  // "\" string=\"true\">"
    [0x22, 0x20, 0x73, 0x74, 0x72, 0x69, 0x6E, 0x67, 0x3D, 0x22, 0x74, 0x72, 0x75, 0x65, 0x22, 0x3E]
  const JSON_HEADER: Bytes :=  // "\" string=\"false\">"
    [0x22, 0x20, 0x73, 0x74, 0x72, 0x69, 0x6E, 0x67, 0x3D, 0x22, 0x66, 0x61, 0x6C, 0x73, 0x65, 0x22, 0x3E]

  datatype Parameter = Parameter(key: Bytes, isString: bool, value: Bytes)
  datatype ToolCall = ToolCall(name: Bytes, parameters: seq<Parameter>, arguments: Bytes)
  datatype Message = Message(content: Bytes, reasoning: Bytes, calls: seq<ToolCall>)

  /** Whether JsonValue::Parse accepts a text; JSON itself is not part of this model. */
  type JsonSyntax = Bytes -> bool

  // ---- JSON text of the arguments -------------------------------------------------------------

  function HexDigit(n: int): Byte
    requires 0 <= n < 16
  {
    if n < 10 then 0x30 + n else 0x61 + n - 10
  }

  function QuotedByte(c: Byte): Bytes {
    if c == 0x22 then [0x5C, 0x22]
    else if c == 0x5C then [0x5C, 0x5C]
    else if c == 0x08 then [0x5C, 0x62]
    else if c == 0x0C then [0x5C, 0x66]
    else if c == 0x0A then [0x5C, 0x6E]
    else if c == 0x0D then [0x5C, 0x72]
    else if c == 0x09 then [0x5C, 0x74]
    else if c < 32 then [0x5C, 0x75, 0x30, 0x30, HexDigit(c / 16), HexDigit(c % 16)]
    else [c]
  }

  function QuotedBody(text: Bytes): Bytes {
    if text == [] then [] else QuotedByte(text[0]) + QuotedBody(text[1..])
  }

  /** QuoteText: None when the text is not UTF-8 or the quoted form is over the budget. */
  function QuoteText(text: Bytes): Option<Bytes> {
    var quoted := [0x22] + QuotedBody(text) + [0x22];
    if Utf8.Valid(text) && |quoted| <= LIMIT then Some(quoted) else None
  }

  /** The argument object text with one more member, within the byte budget. */
  function WithArgument(text: Bytes, first: bool, p: Parameter): (r: Option<Bytes>)
    ensures r.Some? ==> |r.value| <= LIMIT
  {
    var key :- QuoteText(p.key);
    var value :- if p.isString then QuoteText(p.value) else Some(p.value);
    var longer := text + (if first then [] else [0x2C, 0x20]) + key + [0x3A, 0x20] + value;
    if |longer| <= LIMIT then Some(longer) else None
  }

  /** The argument object of a parameter list, up to but not including its closing brace. */
  function OpenArguments(parameters: seq<Parameter>): (r: Option<Bytes>)
    ensures r.Some? ==> |r.value| <= LIMIT
  {
    if parameters == [] then Some([0x7B])
    else
      var before :- OpenArguments(parameters[..|parameters| - 1]);
      WithArgument(before, |parameters| == 1, parameters[|parameters| - 1])
  }

  function Arguments(parameters: seq<Parameter>): Option<Bytes> {
    var text :- OpenArguments(parameters);
    if |text| + 1 <= LIMIT then Some(text + [0x7D]) else None
  }

  // ---- Tag headers -----------------------------------------------------------------------------

  /** The Unicode White_Space property, and the four information separators. */
  predicate IsSpace(c: int) {
    || 0x09 <= c <= 0x0D || 0x1C <= c <= 0x20 || c == 0x85 || c == 0xA0 || c == 0x1680
    || 0x2000 <= c <= 0x200A || c == 0x2028 || c == 0x2029 || c == 0x202F || c == 0x205F || c == 0x3000
  }

  function TrimLeadingSpace(text: Bytes): Bytes {
    if text == [] || !Utf8.Whole(text) then text
    else
      Utf8.WholeIsWellFormed(text);
      var n := Utf8.UnitLength(text);
      if IsSpace(Utf8.Scalar(text[..n])) then TrimLeadingSpace(text[n..]) else text
  }

  /** The tool name of an invoke header; an argument-free call carries one extra line break. */
  function ParseName(header: Bytes, noParameters: bool): Option<Bytes> {
    var trimmed := TrimLeadingSpace(header);
    var name := if noParameters && EndsWith(trimmed, NAME_CLOSE + NEWLINE) then trimmed[..|trimmed| - 1] else trimmed;
    if NAME_OPEN <= name && EndsWith(name, NAME_CLOSE) && |name| >= 9 then Some(name[6..|name| - 3]) else None
  }

  /** A parameter from the text between its opening and closing tags. */
  function ParseParameterText(json: JsonSyntax, text: Bytes): Option<Parameter> {
    if SPACE + NAME_OPEN <= text && EndsWith(text, LESS) then
      assert text[6] == 0x22 && text[|text| - 1] == 0x3C;
      var body := text[7..|text| - 1];
      match Search(body, [STRING_HEADER, JSON_HEADER])
      case None => None
      case Some(Hit(at, header)) =>
        var p := Parameter(body[..at], header == STRING_HEADER, body[at + |header|..]);
        if p.isString || json(p.value) then Some(p) else None
    else None
  }

  function Keys(parameters: seq<Parameter>): set<Bytes> {
    set p | p in parameters :: p.key
  }

  // ---- The tool-call block ----------------------------------------------------------------------

  /** One parameter and the tag behind it, from just after an opening parameter tag. */
  function ParseParameter(json: JsonSyntax, text: Bytes, seen: seq<Parameter>): (r: Option<(Parameter, Bytes, Bytes)>)
    ensures r.Some? ==> |r.value.2| < |text| && (r.value.1 == PARAMETER || r.value.1 == END_INVOKE)
  {
    match Search(text, [END_PARAMETER])
    case None => None
    case Some(hit) =>
      var p :- ParseParameterText(json, text[..hit.at]);
      if p.key in Keys(seen) || |seen| >= 1024 then None
      else
        var rest := text[hit.at + |END_PARAMETER|..];
        match Search(rest, [PARAMETER, END_INVOKE])
        case None => None
        case Some(between) =>
          if rest[..between.at] != TAG_END then None
          else Some((p, between.stop, rest[between.at + |between.stop|..]))
  }

  /** The parameters of one call, from just after an opening parameter tag to just after the closing invoke tag. */
  function ParseParameters(json: JsonSyntax, text: Bytes, seen: seq<Parameter>): (r: Option<(seq<Parameter>, Bytes)>)
    ensures r.Some? ==> |r.value.1| < |text|
    decreases |text|
  {
    var (p, stop, after) :- ParseParameter(json, text, seen);
    if OpenArguments(seen + [p]).None? then None
    else if stop == PARAMETER then ParseParameters(json, after, seen + [p])
    else Some((seen + [p], after))
  }

  /** One call, from just after its opening invoke tag to just after its closing one. */
  function ParseInvoke(json: JsonSyntax, text: Bytes): (r: Option<(ToolCall, Bytes)>)
    ensures r.Some? ==> |r.value.1| < |text|
  {
    match Search(text, [PARAMETER, END_INVOKE])
    case None => None
    case Some(header) =>
      var name :- ParseName(text[..header.at], header.stop == END_INVOKE);
      var after := text[header.at + |header.stop|..];
      var (parameters, rest) :- if header.stop == PARAMETER then ParseParameters(json, after, [])
        else Some(([], after));
      var arguments :- Arguments(parameters);
      Some((ToolCall(name, parameters, arguments), rest))
  }

  /** All calls, from just after the tool-call opening to just after its closing tag. */
  function ParseCalls(json: JsonSyntax, text: Bytes, calls: seq<ToolCall>): (r: Option<(seq<ToolCall>, Bytes)>)
    decreases |text|
  {
    match Search(text, [INVOKE, END_CALLS])
    case None => None
    case Some(before) =>
      var after := text[before.at + |before.stop|..];
      if text[..before.at] != TAG_END then None
      else if before.stop == END_CALLS then Some((calls, after))
      else if |calls| >= 128 then None
      else
        var (call, rest) :- ParseInvoke(json, after);
        ParseCalls(json, rest, calls + [call])
  }

  /** The calls of a block that is followed by the end-of-sentence marker and nothing else. */
  function ParseBlock(json: JsonSyntax, text: Bytes): Option<seq<ToolCall>> {
    var (calls, rest) :- ParseCalls(json, text, []);
    if rest == EOS then Some(calls) else None
  }

  // ---- The whole completion -----------------------------------------------------------------------

  /** No structural token inside ordinary text. */
  predicate Clean(text: Bytes) {
    !Contains(text, BOS) && !Contains(text, EOS) && !Contains(text, THINK) && !Contains(text, END_THINK)
    && !Contains(text, DSML)
  }

  function ParseAnswer(json: JsonSyntax, text: Bytes): Option<(Bytes, seq<ToolCall>)> {
    match Search(text, [EOS, TOOL_START])
    case None => None
    case Some(summary) =>
      var after := text[summary.at + |summary.stop|..];
      var calls :- if summary.stop == TOOL_START then ParseBlock(json, after)
                   else if after == [] then Some([]) else None;
      Some((text[..summary.at], calls))
  }

  function ParseThought(text: Bytes): Option<(Bytes, Bytes)> {
    match Search(text, [END_THINK, TOOL_START])
    case Some(Hit(at, stop)) => if stop == END_THINK then Some((text[..at], text[at + |stop|..])) else None
    case None => None
  }

  /** ParseDeepSeekCompletion; None stands for every rejection. */
  function ParseCompletion(json: JsonSyntax, text: Bytes, thinking: bool): Option<Message> {
    if |text| > LIMIT || !Utf8.Valid(text) then None
    else
      var (reasoning, rest) :- if thinking then ParseThought(text) else Some(([], text));
      var (content, calls) :- ParseAnswer(json, rest);
      if Clean(content) && Clean(reasoning) then Some(Message(content, reasoning, calls)) else None
  }
}
