/** The arguments text of a tool call: a reader of JSON objects, written apart, gives the parameters back. */
module ToolArguments {
  import opened ByteStrings
  import opened Markers
  import opened CompletionParser
  import Utf8
  import opened Wrappers

  // ---- Reading ----------------------------------------------------------------------------------------------

  function HexValue(c: Byte): Option<Byte> {
    if 0x30 <= c <= 0x39 then Some(c - 0x30)
    else if 0x41 <= c <= 0x46 then Some(c - 0x37)
    else if 0x61 <= c <= 0x66 then Some(c - 0x57)
    else None
  }

  /** What a JSON escape of two characters stands for. */
  function Escaped(c: Byte): Option<Byte> {
    if c == 0x22 || c == 0x5C || c == 0x2F then Some(c)
    else if c == 0x62 then Some(0x08)
    else if c == 0x66 then Some(0x0C)
    else if c == 0x6E then Some(0x0A)
    else if c == 0x72 then Some(0x0D)
    else if c == 0x74 then Some(0x09)
    else None
  }

  /** The code point of four hexadecimal digits, as far as it is an ASCII character. */
  function FourDigits(s: Bytes): Option<Byte>
    requires |s| == 4
  {
    var a :- HexValue(s[0]);
    var b :- HexValue(s[1]);
    var c :- HexValue(s[2]);
    var d :- HexValue(s[3]);
    if a == 0 && b == 0 && c < 8 then Some(16 * c + d) else None
  }

  /** The string up to its closing quote, and what stands behind; the opening quote has been read. */
  function Unquoted(s: Bytes): (r: Option<(Bytes, Bytes)>)
    ensures r.Some? ==> |r.value.1| < |s|
    decreases |s|
  {
    if s == [] || s[0] < 0x20 then None
    else if s[0] == 0x22 then Some(([], s[1..]))
    else if s[0] != 0x5C then
      var (text, rest) :- Unquoted(s[1..]);
      Some(([s[0]] + text, rest))
    else if |s| >= 6 && s[1] == 0x75 then
      var c :- FourDigits(s[2..6]);
      var (text, rest) :- Unquoted(s[6..]);
      Some(([c] + text, rest))
    else if |s| >= 2 then
      var c :- Escaped(s[1]);
      var (text, rest) :- Unquoted(s[2..]);
      Some(([c] + text, rest))
    else None
  }

  /** One member of an object and what stands behind it; its value is a quoted string unless a bare text is given. */
  function ReadMember(s: Bytes, bare: Option<Bytes>): (r: Option<(Parameter, Bytes)>)
    ensures r.Some? ==> |r.value.1| < |s|
  {
    if s == [] || s[0] != 0x22 then None
    else
      var (key, behind) :- Unquoted(s[1..]);
      if !([0x3A, 0x20] <= behind) then None
      else
        var value := behind[2..];
        match bare
        case Some(text) => if text <= value then Some((Parameter(key, false, text), value[|text|..])) else None
        case None =>
          if value == [] || value[0] != 0x22 then None
          else
            var (text, rest) :- Unquoted(value[1..]);
            Some((Parameter(key, true, text), rest))
  }

  /** The members up to the closing brace; all but the first are set off by a comma and a space. */
  function ReadMembers(s: Bytes, bare: seq<Option<Bytes>>, first: bool): Option<seq<Parameter>>
    decreases |bare|
  {
    if bare == [] then (if s == [0x7D] then Some([]) else None)
    else if !first && !([0x2C, 0x20] <= s) then None
    else
      var (p, rest) :- ReadMember(if first then s else s[2..], bare[0]);
      var others :- ReadMembers(rest, bare[1..], false);
      Some([p] + others)
  }

  /** An object whose bare values are given; None stands for a quoted string. */
  function ReadObject(s: Bytes, bare: seq<Option<Bytes>>): Option<seq<Parameter>> {
    if s != [] && s[0] == 0x7B then ReadMembers(s[1..], bare, true) else None
  }

  /** The members of an object of strings, with nothing given. */
  function ReadStrings(s: Bytes, first: bool): Option<seq<Parameter>>
    decreases |s|
  {
    if s == [0x7D] then Some([])
    else if !first && !([0x2C, 0x20] <= s) then None
    else
      var (p, rest) :- ReadMember(if first then s else s[2..], None);
      var others :- ReadStrings(rest, false);
      Some([p] + others)
  }

  // ---- Unquoting undoes quoting ---------------------------------------------------------------------------------

  lemma UnquotedByte(c: Byte, s: Bytes)
    ensures Unquoted(QuotedByte(c) + s) == match Unquoted(s)
      case None => None
      case Some((text, rest)) => Some(([c] + text, rest))
  {
    var q := QuotedByte(c);
    var all := q + s;
    assert all[|q|..] == s;
    if |q| == 6 {
      assert all[2..6] == q[2..6];
      assert HexValue(q[4]) == Some(c / 16) && HexValue(q[5]) == Some(c % 16);
    }
  }

  lemma {:induction false} UnquotedBody(text: Bytes, rest: Bytes)
    ensures Unquoted(QuotedBody(text) + ([0x22] + rest)) == Some((text, rest))
    decreases |text|
  {
    hide QuotedByte, Unquoted;
    var end := [0x22] + rest;
    if text == [] {
      assert QuotedBody(text) + end == end;
      ClosingQuote(rest);
    } else {
      UnquotedBody(text[1..], rest);
      UnquotedByte(text[0], QuotedBody(text[1..]) + end);
      Assoc(QuotedByte(text[0]), QuotedBody(text[1..]), end);
      assert text == [text[0]] + text[1..];
    }
  }

  lemma ClosingQuote(rest: Bytes)
    ensures Unquoted([0x22] + rest) == Some(([], rest))
  {
    assert ([0x22] + rest)[1..] == rest;
  }

  // ---- The text as a whole --------------------------------------------------------------------------------------

  function Quoted(text: Bytes): Bytes { [0x22] + QuotedBody(text) + [0x22] }

  function MemberText(p: Parameter): Bytes {
    Quoted(p.key) + ([0x3A, 0x20] + (if p.isString then Quoted(p.value) else p.value))
  }

  function Part(ps: seq<Parameter>, i: nat): Bytes
    requires i < |ps|
  {
    (if i == 0 then [] else [0x2C, 0x20]) + MemberText(ps[i])
  }

  function Parts(ps: seq<Parameter>): (r: seq<Bytes>)
    ensures |r| == |ps|
  {
    seq(|ps|, i requires 0 <= i < |ps| => Part(ps, i))
  }

  /** The object of all members. */
  function ObjectText(ps: seq<Parameter>): Bytes { [0x7B] + Flatten(Parts(ps)) + [0x7D] }

  /** Keys and strings are UTF-8. */
  predicate Quotable(p: Parameter) { Utf8.Valid(p.key) && (p.isString ==> Utf8.Valid(p.value)) }

  predicate AllQuotable(ps: seq<Parameter>) { forall p :: p in ps ==> Quotable(p) }

  lemma PartsMore(ps: seq<Parameter>)
    requires ps != []
    ensures var n := |ps| - 1; Flatten(Parts(ps)) == Flatten(Parts(ps[..n])) + Part(ps, n)
  {
    hide MemberText;
    var n := |ps| - 1;
    assert Parts(ps) == Parts(ps[..n]) + [Part(ps, n)];
    FlattenAppend(Parts(ps[..n]), [Part(ps, n)]);
    assert [Part(ps, n)][1..] == [] && Part(ps, n) + [] == Part(ps, n);
  }

  lemma RegroupMember(text: Bytes, sep: Bytes, key: Bytes, colon: Bytes, value: Bytes)
    ensures text + sep + key + colon + value == text + (sep + (key + (colon + value)))
  {
    Assoc(text + sep + key, colon, value);
    Assoc(text + sep, key, colon + value);
    Assoc(text, sep, key + (colon + value));
  }

  lemma QuoteTextIs(text: Bytes)
    ensures QuoteText(text) == if Utf8.Valid(text) && |Quoted(text)| <= LIMIT then Some(Quoted(text)) else None
  {
    hide QuotedBody, Utf8.Valid;
  }

  lemma WithArgumentIs(text: Bytes, first: bool, p: Parameter)
    ensures var longer := text + ((if first then [] else [0x2C, 0x20]) + MemberText(p));
      WithArgument(text, first, p) == if Quotable(p) && |longer| <= LIMIT then Some(longer) else None
  {
    hide Quoted, QuoteText, Utf8.Valid;
    QuoteTextIs(p.key);
    QuoteTextIs(p.value);
    RegroupMember(text, if first then [] else [0x2C, 0x20], Quoted(p.key), [0x3A, 0x20],
      if p.isString then Quoted(p.value) else p.value);
  }

  lemma {:induction false} OpenArgumentsIs(ps: seq<Parameter>)
    ensures var text := [0x7B] + Flatten(Parts(ps));
      OpenArguments(ps) == if AllQuotable(ps) && |text| <= LIMIT then Some(text) else None
    decreases |ps|
  {
    hide WithArgument, Part, Quotable;
    if ps == [] {
      assert [0x7B] + [] == [0x7B];
    } else {
      var n := |ps| - 1;
      var front := ps[..n];
      OpenArgumentsIs(front);
      PartsMore(ps);
      assert ps == front + [ps[n]];
      var text := [0x7B] + Flatten(Parts(front));
      WithArgumentIs(text, n == 0, ps[n]);
      LastPart(ps);
      Assoc([0x7B], Flatten(Parts(front)), Part(ps, n));
    }
  }

  lemma LastPart(ps: seq<Parameter>)
    requires ps != []
    ensures var n := |ps| - 1; Part(ps, n) == (if n == 0 then [] else [0x2C, 0x20]) + MemberText(ps[n])
  {
  }

  /** The arguments text exists exactly when keys and strings are UTF-8 and the object is within 8 MiB. */
  lemma ArgumentsAreObject(ps: seq<Parameter>)
    ensures Arguments(ps) == if AllQuotable(ps) && |ObjectText(ps)| <= LIMIT then Some(ObjectText(ps)) else None
  {
    hide Parts, OpenArguments, Quotable;
    OpenArgumentsIs(ps);
  }

  // ---- Reading it back ------------------------------------------------------------------------------------------

  /** The bare values a reader has to be given. */
  function Bare(ps: seq<Parameter>): (r: seq<Option<Bytes>>)
    ensures |r| == |ps|
  {
    seq(|ps|, i requires 0 <= i < |ps| => if ps[i].isString then None else Some(ps[i].value))
  }

  lemma QuotedThen(text: Bytes, rest: Bytes)
    ensures Quoted(text) + rest == [0x22] + (QuotedBody(text) + ([0x22] + rest))
    ensures (Quoted(text) + rest)[1..] == QuotedBody(text) + ([0x22] + rest)
  {
    hide QuotedBody;
    Assoc([0x22] + QuotedBody(text), [0x22], rest);
    Assoc([0x22], QuotedBody(text), [0x22] + rest);
  }

  lemma MemberReads(p: Parameter, rest: Bytes)
    ensures ReadMember(MemberText(p) + rest, if p.isString then None else Some(p.value)) == Some((p, rest))
  {
    hide Unquoted, Quoted;
    var value := if p.isString then Quoted(p.value) else p.value;
    var colon: Bytes := [0x3A, 0x20];
    var behind := colon + (value + rest);
    Assoc(Quoted(p.key), colon + value, rest);
    Assoc(colon, value, rest);
    QuotedThen(p.key, behind);
    UnquotedBody(p.key, behind);
    assert behind[2..] == value + rest;
    if p.isString {
      QuotedThen(p.value, rest);
      UnquotedBody(p.value, rest);
    } else {
      assert (value + rest)[|value|..] == rest;
    }
  }

  lemma PartsFrom(ps: seq<Parameter>, i: nat)
    requires i < |ps|
    ensures Flatten(Parts(ps)[i..]) == Part(ps, i) + Flatten(Parts(ps)[i + 1..])
  {
    hide Part;
    assert Parts(ps)[i..][1..] == Parts(ps)[i + 1..];
  }

  lemma PartReads(ps: seq<Parameter>, i: nat, rest: Bytes)
    requires i < |ps|
    ensures var s := Part(ps, i) + rest;
      && (i > 0 ==> [0x2C, 0x20] <= s)
      && ReadMember(if i == 0 then s else s[2..], Bare(ps)[i]) == Some((ps[i], rest))
  {
    hide MemberText, ReadMember;
    MemberReads(ps[i], rest);
    var s := Part(ps, i) + rest;
    if i == 0 {
      assert s == MemberText(ps[i]) + rest;
    } else {
      assert s == [0x2C, 0x20] + (MemberText(ps[i]) + rest);
      assert s[2..] == MemberText(ps[i]) + rest;
    }
  }

  lemma {:induction false} MembersRead(ps: seq<Parameter>, i: nat)
    requires i <= |ps|
    ensures ReadMembers(Flatten(Parts(ps)[i..]) + [0x7D], Bare(ps)[i..], i == 0) == Some(ps[i..])
    decreases |ps| - i
  {
    hide Part, ReadMember, Parts, Bare;
    if i == |ps| {
      assert Parts(ps)[i..] == [] && [] + [0x7D] == [0x7D];
    } else {
      var rest := Flatten(Parts(ps)[i + 1..]) + [0x7D];
      PartsFrom(ps, i);
      Assoc(Part(ps, i), Flatten(Parts(ps)[i + 1..]), [0x7D]);
      PartReads(ps, i, rest);
      MembersRead(ps, i + 1);
      assert Bare(ps)[i..][1..] == Bare(ps)[i + 1..] && ps[i..] == [ps[i]] + ps[i + 1..];
    }
  }

  /** The arguments text tells keys, kinds and values in their order, to a reader that is given the bare values. */
  lemma ArgumentsReadBack(ps: seq<Parameter>)
    requires Arguments(ps).Some?
    ensures ReadObject(Arguments(ps).value, Bare(ps)) == Some(ps)
  {
    hide Parts, Bare, Arguments, Quotable, ReadMembers;
    ArgumentsAreObject(ps);
    MembersRead(ps, 0);
    assert Parts(ps)[0..] == Parts(ps) && Bare(ps)[0..] == Bare(ps) && ps[0..] == ps;
    var inner := Flatten(Parts(ps)) + [0x7D];
    Assoc([0x7B], Flatten(Parts(ps)), [0x7D]);
    assert ([0x7B] + inner)[1..] == inner;
  }

  lemma {:induction false} StringsRead(ps: seq<Parameter>, i: nat)
    requires i <= |ps| && forall p :: p in ps ==> p.isString
    ensures ReadStrings(Flatten(Parts(ps)[i..]) + [0x7D], i == 0) == Some(ps[i..])
    decreases |ps| - i
  {
    hide Part, ReadMember, Parts;
    if i == |ps| {
      assert Parts(ps)[i..] == [] && [] + [0x7D] == [0x7D];
    } else {
      var rest := Flatten(Parts(ps)[i + 1..]) + [0x7D];
      PartsFrom(ps, i);
      Assoc(Part(ps, i), Flatten(Parts(ps)[i + 1..]), [0x7D]);
      PartReads(ps, i, rest);
      assert ps[i] in ps;
      PartGoesOn(ps, i, rest);
      StringsRead(ps, i + 1);
      assert ps[i..] == [ps[i]] + ps[i + 1..];
    }
  }

  lemma PartGoesOn(ps: seq<Parameter>, i: nat, rest: Bytes)
    requires i < |ps|
    ensures Part(ps, i) + rest != [0x7D]
  {
    hide QuotedBody;
    assert |MemberText(ps[i])| >= 4;
  }

  /** Without anything given for an object of strings. */
  lemma StringArgumentsReadBack(ps: seq<Parameter>)
    requires Arguments(ps).Some? && forall p :: p in ps ==> p.isString
    ensures Arguments(ps).value[..1] == [0x7B] && ReadStrings(Arguments(ps).value[1..], true) == Some(ps)
  {
    hide Parts, Arguments, Quotable, ReadStrings;
    ArgumentsAreObject(ps);
    StringsRead(ps, 0);
    assert Parts(ps)[0..] == Parts(ps) && ps[0..] == ps;
    var inner := Flatten(Parts(ps)) + [0x7D];
    Assoc([0x7B], Flatten(Parts(ps)), [0x7D]);
    assert ([0x7B] + inner)[1..] == inner;
  }

  // ---- What parsed calls hand out -----------------------------------------------------------------------------

  /** The arguments of every call the parser returns read back to the parameters of that call. */
  lemma {:induction false} ParsedArgumentsReadBack(json: JsonSyntax, text: Bytes, seen: seq<ToolCall>)
    requires ParseCalls(json, text, seen).Some?
    requires forall c :: c in seen ==> ReadObject(c.arguments, Bare(c.parameters)) == Some(c.parameters)
    ensures forall c :: c in ParseCalls(json, text, seen).value.0 ==>
      ReadObject(c.arguments, Bare(c.parameters)) == Some(c.parameters)
    decreases |text|
  {
    hide Search, ParseInvoke, ReadObject, Bare, INVOKE, END_CALLS, TAG_END;
    TagsAreThere();
    var before := Search(text, [INVOKE, END_CALLS]).value;
    if before.stop != END_CALLS {
      var after := text[before.at + |before.stop|..];
      ParsedCallReadsBack(json, after);
      var (call, rest) := ParseInvoke(json, after).value;
      ParsedArgumentsReadBack(json, rest, seen + [call]);
    }
  }

  lemma TagsAreThere()
    ensures [] !in [INVOKE, END_CALLS] && [] !in [PARAMETER, END_INVOKE]
  {
  }

  lemma ParsedCallReadsBack(json: JsonSyntax, text: Bytes)
    requires ParseInvoke(json, text).Some?
    ensures var c := ParseInvoke(json, text).value.0; ReadObject(c.arguments, Bare(c.parameters)) == Some(c.parameters)
  {
    hide Search, ParseName, ParseParameters, Arguments, ReadObject, Bare, PARAMETER, END_INVOKE;
    TagsAreThere();
    var c := ParseInvoke(json, text).value.0;
    ArgumentsReadBack(c.parameters);
  }

  lemma CompletionArgumentsReadBack(json: JsonSyntax, text: Bytes, thinking: bool)
    requires ParseCompletion(json, text, thinking).Some?
    ensures forall c :: c in ParseCompletion(json, text, thinking).value.calls ==>
      ReadObject(c.arguments, Bare(c.parameters)) == Some(c.parameters)
  {
    hide Clean, ParseCalls, ParseThought, Search, Utf8.Valid, ReadObject, Bare, EOS, TOOL_START;
    MarkersAreThere();
    var rest := if thinking then ParseThought(text).value.1 else text;
    var summary := Search(rest, [EOS, TOOL_START]).value;
    if summary.stop == TOOL_START {
      ParsedArgumentsReadBack(json, rest[summary.at + |summary.stop|..], []);
    }
  }

  lemma MarkersAreThere()
    ensures [] !in [EOS, TOOL_START]
  {
  }
}
