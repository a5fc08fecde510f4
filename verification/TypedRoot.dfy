/** Typed hash preimages: domain, NUL, field count, then id, type, length and value of every field. */
module TypedRoot {
  import opened ByteStrings
  import opened Wrappers

  const MAX_U16 := 0xFFFF
  const MAX_U32 := 0xFFFF_FFFF
  const MAX_U64 := 0xFFFF_FFFF_FFFF_FFFF

  const U32 := 1
  const U64 := 2
  const BYTES := 3
  const HASH256 := 4

  /** Identifier, type and value as the caller gives them. */
  datatype Field = Field(id: int, kind: int, value: Bytes)

  // ---- Little-endian integers --------------------------------------------------------------------------

  function Power(width: nat): (r: nat)
    ensures r >= 1
  {
    if width == 0 then 1 else 256 * Power(width - 1)
  }

  lemma PowersOfWidths()
    ensures Power(2) == MAX_U16 + 1 && Power(4) == MAX_U32 + 1 && Power(8) == MAX_U64 + 1
  {
    assert Power(4) == 256 * 256 * Power(2);
    assert Power(8) == 256 * 256 * 256 * 256 * Power(4);
  }

  function LittleEndian(value: nat, width: nat): (r: Bytes)
    ensures |r| == width
  {
    if width == 0 then [] else [value % 256] + LittleEndian(value / 256, width - 1)
  }

  function ValueOf(b: Bytes): nat {
    if b == [] then 0 else b[0] + 256 * ValueOf(b[1..])
  }

  lemma {:induction false} LittleEndianReadsBack(value: nat, width: nat)
    requires value < Power(width)
    ensures ValueOf(LittleEndian(value, width)) == value
  {
    if width > 0 {
      LittleEndianReadsBack(value / 256, width - 1);
      assert LittleEndian(value, width)[1..] == LittleEndian(value / 256, width - 1);
    }
  }

  lemma {:induction false} ReadingWritesBack(b: Bytes)
    ensures ValueOf(b) < Power(|b|) && LittleEndian(ValueOf(b), |b|) == b
  {
    if b != [] {
      ReadingWritesBack(b[1..]);
      assert ValueOf(b) / 256 == ValueOf(b[1..]) && ValueOf(b) % 256 == b[0];
    }
  }

  /** Python's value.to_bytes(width, "little") behind the range check; every width but 4 is checked as 64 bits. */
  function IntegerBytes(value: int, width: nat): (r: Option<Bytes>)
    requires width == 4 || width == 8
    ensures r.Some? <==> 0 <= value < Power(width)
    ensures r.Some? ==> |r.value| == width && ValueOf(r.value) == value
  {
    PowersOfWidths();
    if 0 <= value <= (if width == 4 then MAX_U32 else MAX_U64) then
      LittleEndianReadsBack(value, width);
      Some(LittleEndian(value, width))
    else None
  }

  // ---- Encoding -------------------------------------------------------------------------------------------

  predicate DomainValid(domain: string) {
    && 1 <= |domain| <= 127 && "pih:" <= domain
    && forall i :: 0 <= i < |domain| ==> 0x20 <= domain[i] as int <= 0x7E
  }

  /** Identifier, type and fixed width of a field. */
  predicate FieldOrdered(previous: int, f: Field) {
    && previous < f.id <= MAX_U16
    && U32 <= f.kind <= HASH256
    && (f.kind == U32 ==> |f.value| == 4)
    && (f.kind == U64 ==> |f.value| == 8)
    && (f.kind == HASH256 ==> |f.value| == 32)
  }

  predicate FieldValid(previous: int, f: Field) { FieldOrdered(previous, f) && |f.value| <= MAX_U64 }

  predicate Encodable(f: Field) { 0 <= f.id <= MAX_U16 && 0 <= f.kind < 256 && |f.value| <= MAX_U64 }

  function LastId(fields: seq<Field>): int { if fields == [] then 0 else fields[|fields| - 1].id }

  /** Every field is valid and its identifier exceeds the one before. */
  predicate FieldsValid(fields: seq<Field>): (valid: bool)
    ensures valid ==> LastId(fields) >= 0 && forall f :: f in fields ==> Encodable(f)
  {
    fields == [] ||
    var n := |fields| - 1;
    FieldsValid(fields[..n]) && FieldValid(LastId(fields[..n]), fields[n])
  }

  predicate Accepted(domain: string, fields: seq<Field>) {
    DomainValid(domain) && |fields| <= MAX_U32 && FieldsValid(fields)
  }

  function Ascii(s: string): (r: Bytes)
    requires forall i :: 0 <= i < |s| ==> s[i] as int < 128
    ensures |r| == |s|
  {
    seq(|s|, i requires 0 <= i < |s| => s[i] as int)
  }

  function EncodeField(f: Field): (r: Bytes)
    requires Encodable(f)
  {
    LittleEndian(f.id, 2) + [f.kind] + LittleEndian(|f.value|, 8) + f.value
  }

  function EncodeFields(fields: seq<Field>): Bytes
    requires forall f :: f in fields ==> Encodable(f)
  {
    if fields == [] then [] else EncodeFields(fields[..|fields| - 1]) + EncodeField(fields[|fields| - 1])
  }

  function Preimage(domain: string, fields: seq<Field>): Bytes
    requires Accepted(domain, fields)
  {
    Ascii(domain) + [0] + LittleEndian(|fields|, 4) + EncodeFields(fields)
  }

  /** Feeds a hash object; None is a refusal. */
  method TypedRootOf<Digest>(hash: Bytes -> Digest, domain: string, fields: seq<Field>) returns (root: Option<Digest>)
    ensures root.Some? <==> Accepted(domain, fields)
    ensures root.Some? ==> root.value == hash(Preimage(domain, fields))
  {
    hide EncodeField, LittleEndian;
    if !DomainValid(domain) { return None; }
    var fed := Ascii(domain);
    fed := fed + [0];
    var count := IntegerBytes(|fields|, 4);
    PowersOfWidths();
    if count.None? { return None; }
    IntegerBytesAre(|fields|, 4);
    fed := fed + count.value;
    var head := fed;
    var previous := 0;
    for n := 0 to |fields|
      invariant previous == LastId(fields[..n])
      invariant FieldsValid(fields[..n])
      invariant fed == head + EncodeFields(fields[..n])
    {
      var f := fields[n];
      var length := IntegerBytes(|f.value|, 8);
      if !FieldOrdered(previous, f) || length.None? {
        InvalidStays(fields, n);
        return None;
      }
      ValidGrows(fields, n);
      Assoc(head, EncodeFields(fields[..n]), EncodeField(f));
      FieldIsFed(f, length.value, fed);
      fed := fed + LittleEndian(f.id, 2);
      fed := fed + [f.kind];
      fed := fed + length.value;
      fed := fed + f.value;
      previous := f.id;
    }
    assert fields[..|fields|] == fields;
    return Some(hash(fed));
  }

  lemma IntegerBytesAre(value: int, width: nat)
    requires (width == 4 || width == 8) && IntegerBytes(value, width).Some?
    ensures value >= 0 && IntegerBytes(value, width).value == LittleEndian(value, width)
  {
  }

  /** The four parts of a field, fed one after the other. */
  lemma FieldIsFed(f: Field, length: Bytes, fed: Bytes)
    requires Encodable(f) && IntegerBytes(|f.value|, 8) == Some(length)
    ensures fed + LittleEndian(f.id, 2) + [f.kind] + length + f.value == fed + EncodeField(f)
  {
    hide LittleEndian, IntegerBytes;
    IntegerBytesAre(|f.value|, 8);
    var a, b, c := LittleEndian(f.id, 2), [f.kind], f.value;
    assert fed + a + b + length + c == fed + (a + b + length + c);
  }

  lemma ValidGrows(fields: seq<Field>, n: nat)
    requires n < |fields| && FieldsValid(fields[..n]) && FieldValid(LastId(fields[..n]), fields[n])
    ensures FieldsValid(fields[..n + 1])
    ensures EncodeFields(fields[..n + 1]) == EncodeFields(fields[..n]) + EncodeField(fields[n])
  {
    hide EncodeField;
    assert fields[..n + 1][..n] == fields[..n];
  }

  lemma {:induction false} InvalidStays(fields: seq<Field>, n: nat)
    requires n < |fields| && !FieldValid(LastId(fields[..n]), fields[n])
    ensures !FieldsValid(fields)
  {
    var last := |fields| - 1;
    if n < last {
      assert fields[..last][..n] == fields[..n];
      InvalidStays(fields[..last], n);
    }
  }

  // ---- Decoding -------------------------------------------------------------------------------------------

  /** One field off the front, and what follows it. */
  function ReadField(b: Bytes): (r: Option<(Field, Bytes)>)
    ensures r.Some? ==> Encodable(r.value.0) && b == EncodeField(r.value.0) + r.value.1
  {
    if |b| < 11 then None
    else
      var length := ValueOf(b[3..11]);
      if |b| - 11 < length then None
      else
        var f := Field(ValueOf(b[..2]), b[2], b[11..11 + length]);
        ReadFieldIsExact(b, f);
        Some((f, b[11 + length..]))
  }

  lemma ReadFieldIsExact(b: Bytes, f: Field)
    requires |b| >= 11 && ValueOf(b[3..11]) <= |b| - 11
    requires f == Field(ValueOf(b[..2]), b[2], b[11..11 + ValueOf(b[3..11])])
    ensures Encodable(f) && b == EncodeField(f) + b[11 + |f.value|..]
  {
    PowersOfWidths();
    ReadingWritesBack(b[..2]);
    ReadingWritesBack(b[3..11]);
    var parts := b[..2] + [b[2]] + b[3..11] + f.value;
    assert parts + b[11 + |f.value|..] == b;
    assert EncodeField(f) == parts;
  }

  lemma ReadFieldInverts(f: Field, rest: Bytes)
    requires Encodable(f)
    ensures ReadField(EncodeField(f) + rest) == Some((f, rest))
  {
    hide LittleEndian, ValueOf;
    PowersOfWidths();
    LittleEndianReadsBack(f.id, 2);
    LittleEndianReadsBack(|f.value|, 8);
    var b := EncodeField(f) + rest;
    assert b[..2] == LittleEndian(f.id, 2);
    assert b[3..11] == LittleEndian(|f.value|, 8);
    assert b[11..11 + |f.value|] == f.value;
    assert b[11 + |f.value|..] == rest;
  }

  function ReadFields(b: Bytes, n: nat): Option<(seq<Field>, Bytes)> {
    if n == 0 then Some(([], b))
    else
      match ReadField(b)
      case None => None
      case Some((f, rest)) =>
        match ReadFields(rest, n - 1)
        case None => None
        case Some((fields, end)) => Some(([f] + fields, end))
  }

  lemma {:induction false} ReadFieldsInverts(fields: seq<Field>, rest: Bytes)
    requires forall f :: f in fields ==> Encodable(f)
    ensures ReadFields(EncodeFields(fields) + rest, |fields|) == Some((fields, rest))
  {
    hide ReadField, EncodeField;
    if fields == [] {
      assert EncodeFields(fields) + rest == rest;
    } else {
      var f, others := fields[0], fields[1..];
      FirstField(fields);
      Assoc(EncodeField(f), EncodeFields(others), rest);
      ReadFieldInverts(f, EncodeFields(others) + rest);
      ReadFieldsInverts(others, rest);
      assert fields == [f] + others;
    }
  }

  lemma {:induction false} FirstField(fields: seq<Field>)
    requires fields != [] && forall f :: f in fields ==> Encodable(f)
    ensures EncodeFields(fields) == EncodeField(fields[0]) + EncodeFields(fields[1..])
  {
    hide EncodeField;
    var n := |fields| - 1;
    if n == 0 {
      assert EncodeFields(fields[..0]) + EncodeField(fields[0]) == EncodeField(fields[0]);
      assert EncodeField(fields[0]) + EncodeFields(fields[1..]) == EncodeField(fields[0]);
    } else {
      FirstField(fields[..n]);
      assert fields[..n][1..] == fields[1..][..n - 1];
      Assoc(EncodeField(fields[0]), EncodeFields(fields[1..][..n - 1]), EncodeField(fields[n]));
    }
  }

  lemma {:induction false} ReadFieldsIsExact(b: Bytes, n: nat)
    requires ReadFields(b, n).Some?
    ensures var (fields, rest) := ReadFields(b, n).value;
      |fields| == n && (forall f :: f in fields ==> Encodable(f)) && b == EncodeFields(fields) + rest
    decreases n
  {
    hide ReadField, EncodeField;
    var (fields, rest) := ReadFields(b, n).value;
    if n == 0 {
      assert EncodeFields(fields) + rest == rest;
    } else {
      var (f, tail) := ReadField(b).value;
      ReadFieldsIsExact(tail, n - 1);
      assert fields[1..] == ReadFields(tail, n - 1).value.0;
      FirstField(fields);
      Assoc(EncodeField(f), EncodeFields(fields[1..]), rest);
    }
  }

  /** The position of the first NUL, or the end. */
  function FirstNul(b: Bytes): (n: nat)
    ensures n <= |b| && (n < |b| ==> b[n] == 0) && forall i :: 0 <= i < n ==> b[i] != 0
  {
    if b == [] || b[0] == 0 then 0 else 1 + FirstNul(b[1..])
  }

  datatype Decoded = Decoded(domain: string, fields: seq<Field>, rest: Bytes)

  /** Reads a preimage off the front of a byte string and refuses whatever is not one. */
  function Decode(b: Bytes): Option<Decoded> {
    var n := FirstNul(b);
    if |b| < n + 5 || exists i :: 0 <= i < n && b[i] >= 128 then None
    else
      var domain := seq(n, i requires 0 <= i < n => b[i] as char);
      match ReadFields(b[n + 5..], ValueOf(b[n + 1..n + 5]))
      case None => None
      case Some((fields, rest)) => if Accepted(domain, fields) then Some(Decoded(domain, fields, rest)) else None
  }

  /** The decoder gives back every accepted input, whatever bytes follow its preimage. */
  lemma DecodeInverts(domain: string, fields: seq<Field>, rest: Bytes)
    requires Accepted(domain, fields)
    ensures Decode(Preimage(domain, fields) + rest) == Some(Decoded(domain, fields, rest))
  {
    hide LittleEndian, ValueOf, ReadFields, FieldsValid, Ascii;
    PowersOfWidths();
    LittleEndianReadsBack(|fields|, 4);
    ReadFieldsInverts(fields, rest);
    var b := Preimage(domain, fields) + rest;
    var n := |domain|;
    Sections(Ascii(domain), LittleEndian(|fields|, 4), EncodeFields(fields), rest);
    DomainReadsBack(domain, b);
  }

  lemma Sections(domain: Bytes, count: Bytes, body: Bytes, rest: Bytes)
    requires |count| == 4
    ensures var b, n := domain + [0] + count + body + rest, |domain|;
      |b| >= n + 5 && b[..n] == domain && b[n] == 0 && b[n + 1..n + 5] == count && b[n + 5..] == body + rest
  {
  }

  lemma DomainReadsBack(domain: string, b: Bytes)
    requires DomainValid(domain) && |domain| < |b| && b[..|domain|] == Ascii(domain) && b[|domain|] == 0
    ensures FirstNul(b) == |domain|
    ensures forall i :: 0 <= i < |domain| ==> b[i] < 128
    ensures seq(|domain|, i requires 0 <= i < |domain| => b[i] as char) == domain
  {
    forall i | 0 <= i < |domain| ensures b[i] == domain[i] as int && b[i] != 0 {
      assert b[i] == b[..|domain|][i];
    }
  }

  /** The decoder reads nothing but preimages. */
  lemma DecodeIsExact(b: Bytes)
    requires Decode(b).Some?
    ensures var d := Decode(b).value; Accepted(d.domain, d.fields) && b == Preimage(d.domain, d.fields) + d.rest
  {
    hide LittleEndian, ValueOf, ReadFields, FieldsValid;
    var d := Decode(b).value;
    var n := FirstNul(b);
    ReadFieldsIsExact(b[n + 5..], ValueOf(b[n + 1..n + 5]));
    ReadingWritesBack(b[n + 1..n + 5]);
    assert Ascii(d.domain) == b[..n];
    assert b == b[..n] + [0] + b[n + 1..n + 5] + b[n + 5..];
    Assoc(b[..n] + [0] + b[n + 1..n + 5], EncodeFields(d.fields), d.rest);
  }

  /**
   * Injectivity: accepted inputs with comparable preimages are the same input; in particular no preimage
   * extends another.
   */
  lemma PreimagesAreUnambiguous(d1: string, f1: seq<Field>, d2: string, f2: seq<Field>)
    requires Accepted(d1, f1) && Accepted(d2, f2)
    requires Preimage(d1, f1) <= Preimage(d2, f2)
    ensures d1 == d2 && f1 == f2
  {
    hide Preimage, Accepted, Decode;
    var p1, p2 := Preimage(d1, f1), Preimage(d2, f2);
    var rest := p2[|p1|..];
    DecodeInverts(d1, f1, rest);
    DecodeInverts(d2, f2, []);
    assert p1 + rest == p2 == p2 + [];
  }
}
