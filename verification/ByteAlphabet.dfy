/** The byte alphabet of a byte-level tokenizer: one printable character for every byte. */
module ByteAlphabet {
  import opened ByteStrings
  import Utf8
  import opened Wrappers

  /** Bytes whose character is the code point of the same number. */
  predicate Printable(b: int) {
    33 <= b <= 126 || 161 <= b <= 172 || 174 <= b <= 255
  }

  /** The code point that stands for a byte. */
  function CodePoint(b: Byte): (c: int)
    ensures Printable(b) <==> c == b
    ensures 33 <= c < 324
  {
    if Printable(b) then b
    else if b <= 32 then 256 + b
    else if b <= 160 then 256 + 33 + (b - 127)
    else 323
  }

  /** UTF-8 of a code point below U+0800. */
  function ShortUtf8(c: int): Bytes
    requires 0 <= c < 0x800
  {
    if c < 0x80 then [c] else [0xC0 + c / 64, 0x80 + c % 64]
  }

  function Letter(b: Byte): Bytes {
    ShortUtf8(CodePoint(b))
  }

  /** The constructor numbers the unprintable bytes upwards from U+0100 in byte order. */
  method FillAlphabet() returns (letters: seq<Bytes>, inverse: map<int, Byte>)
    ensures |letters| == 256 && forall b: Byte :: letters[b] == Letter(b)
    ensures forall b: Byte :: CodePoint(b) in inverse && inverse[CodePoint(b)] == b
    ensures forall c :: c in inverse ==> CodePoint(inverse[c]) == c
  {
    letters, inverse := [], map[];
    var extra := 0;
    for b := 0 to 256
      invariant |letters| == b
      invariant extra == if b <= 33 then b else if b <= 127 then 33
                         else if b <= 161 then b - 94 else if b <= 173 then 67 else 68
      invariant forall k :: 0 <= k < b ==> letters[k] == Letter(k)
      invariant forall k :: 0 <= k < b ==> CodePoint(k) in inverse && inverse[CodePoint(k)] == k
      invariant forall c :: c in inverse ==> CodePoint(inverse[c]) == c && inverse[c] < b
    {
      var codepoint := if Printable(b) then b else 256 + extra;
      if !Printable(b) {
        extra := extra + 1;
      }
      assert codepoint == CodePoint(b);
      letters := letters + [ShortUtf8(codepoint)];
      inverse := inverse[codepoint := b];
    }
  }

  /** The byte a code point stands for. */
  function ByteOf(c: int): (r: Option<Byte>)
    ensures r.Some? ==> CodePoint(r.value) == c
    ensures r.None? ==> forall b: Byte :: CodePoint(b) != c
  {
    if 0 <= c < 256 && Printable(c) then Some(c)
    else if 256 <= c <= 288 then Some(c - 256)
    else if 289 <= c <= 322 then Some(c - 162)
    else if c == 323 then Some(173)
    else None
  }

  /** A byte string written in the alphabet. */
  function Spell(bytes: Bytes): Bytes {
    if bytes == [] then [] else Letter(bytes[0]) + Spell(bytes[1..])
  }

  /** A spelling read back; None when it leaves the alphabet. */
  function Unspell(s: Bytes): Option<Bytes>
    decreases |s|
  {
    if s == [] then Some([])
    else if !Utf8.Whole(s) then None
    else
      Utf8.WholeIsWellFormed(s);
      var n := Utf8.UnitLength(s);
      var b :- ByteOf(Utf8.Scalar(s[..n]));
      var rest :- Unspell(s[n..]);
      Some([b] + rest)
  }

  lemma LetterIsWhole(b: Byte, rest: Bytes)
    ensures var s := Letter(b) + rest;
      && Utf8.Whole(s) && Utf8.UnitLength(s) == |Letter(b)| && s[..|Letter(b)|] == Letter(b) && s[|Letter(b)|..] == rest
      && Utf8.WellFormed(Letter(b)) && Utf8.Scalar(Letter(b)) == CodePoint(b)
  {
    var s := Letter(b) + rest;
    assert s[0] == Letter(b)[0];
    if CodePoint(b) >= 0x80 {
      assert s[1] == Letter(b)[1];
    }
    assert s[..|Letter(b)|] == Letter(b) && s[|Letter(b)|..] == rest;
  }

  lemma CodePointIsInjective(a: Byte, b: Byte)
    ensures CodePoint(a) == CodePoint(b) ==> a == b
  {
  }

  /** Reading a spelling gives the bytes back. */
  lemma {:induction false} UnspellSpell(bytes: Bytes)
    ensures Unspell(Spell(bytes)) == Some(bytes)
  {
    if bytes != [] {
      LetterIsWhole(bytes[0], Spell(bytes[1..]));
      CodePointIsInjective(bytes[0], ByteOf(CodePoint(bytes[0])).value);
      UnspellSpell(bytes[1..]);
      assert [bytes[0]] + bytes[1..] == bytes;
    }
  }

  lemma {:induction false} SpellAppend(a: Bytes, b: Bytes)
    ensures Spell(a + b) == Spell(a) + Spell(b)
  {
    if a == [] {
      assert a + b == b;
    } else {
      assert (a + b)[1..] == a[1..] + b;
      SpellAppend(a[1..], b);
      Assoc(Letter(a[0]), Spell(a[1..]), Spell(b));
    }
  }

  lemma {:induction false} SpellHasNoNul(bytes: Bytes)
    ensures 0 !in Spell(bytes)
  {
    if bytes != [] {
      SpellHasNoNul(bytes[1..]);
    }
  }
}
