/** UTF-8 as ICU reads it: well-formed characters pass, every maximal ill-formed subpart becomes U+FFFD. */
module Utf8 {
  import opened ByteStrings

  predicate IsContinuation(b: Byte) { 0x80 <= b <= 0xBF }

  /** The number of bytes a lead byte announces; 0 for a byte that leads nothing. */
  function Announced(lead: Byte): nat {
    if lead <= 0x7F then 1
    else if 0xC2 <= lead <= 0xDF then 2
    else if 0xE0 <= lead <= 0xEF then 3
    else if 0xF0 <= lead <= 0xF4 then 4
    else 0
  }

  /** The second bytes each lead admits: section 4 of RFC 3629. */
  predicate SecondFits(lead: Byte, b: Byte) {
    if lead == 0xE0 then 0xA0 <= b <= 0xBF
    else if lead == 0xED then 0x80 <= b <= 0x9F
    else if lead == 0xF0 then 0x90 <= b <= 0xBF
    else if lead == 0xF4 then 0x80 <= b <= 0x8F
    else IsContinuation(b)
  }

  /** One well-formed character. */
  predicate WellFormed(w: Bytes) {
    && w != []
    && |w| == Announced(w[0])
    && (|w| >= 2 ==> SecondFits(w[0], w[1]))
    && forall i :: 2 <= i < |w| ==> IsContinuation(w[i])
  }

  /** The six payload bits of a continuation byte. */
  function Low(b: int): int { b - 0x80 }

  /** The scalar value of a well-formed character. */
  function Scalar(w: Bytes): int
    requires WellFormed(w)
  {
    var lead: int := w[0];
    match |w|
    case 1 => lead
    case 2 => (lead - 0xC0) * 64 + Low(w[1])
    case 3 => (lead - 0xE0) * 4096 + Low(w[1]) * 64 + Low(w[2])
    case _ => (lead - 0xF0) * 262144 + Low(w[1]) * 4096 + Low(w[2]) * 64 + Low(w[3])
  }

  /** A Unicode scalar value: a code point that is no surrogate. */
  predicate IsScalar(c: int) { 0 <= c <= 0x10FFFF && !(0xD800 <= c <= 0xDFFF) }

  /** The octets of a scalar value, six bits at a time: section 3 of RFC 3629. */
  function Encode(c: int): Bytes
    requires IsScalar(c)
  {
    var d := c / 64;
    var e := d / 64;
    if c < 0x80 then [c]
    else if c < 0x800 then [0xC0 + d, 0x80 + c % 64]
    else if c < 0x10000 then [0xE0 + e, 0x80 + d % 64, 0x80 + c % 64]
    else [0xF0 + e / 64, 0x80 + e % 64, 0x80 + d % 64, 0x80 + c % 64]
  }

  lemma SixBits(high: int, low: int)
    requires 0 <= high && 0 <= low < 64
    ensures (64 * high + low) / 64 == high && (64 * high + low) % 64 == low
  {
  }

  lemma EncodesTwo(w: Bytes)
    requires WellFormed(w) && |w| == 2
    ensures IsScalar(Scalar(w)) && Encode(Scalar(w)) == w
  {
    SixBits(w[0] - 0xC0, Low(w[1]));
  }

  lemma EncodesThree(w: Bytes)
    requires WellFormed(w) && |w| == 3
    ensures IsScalar(Scalar(w)) && Encode(Scalar(w)) == w
  {
    var x, y, z := w[0] - 0xE0, Low(w[1]), Low(w[2]);
    SixBits(x, y);
    SixBits(64 * x + y, z);
    assert Scalar(w) == 64 * (64 * x + y) + z;
  }

  lemma EncodesFour(w: Bytes)
    requires WellFormed(w) && |w| == 4
    ensures IsScalar(Scalar(w)) && Encode(Scalar(w)) == w
  {
    var v, x, y, z := w[0] - 0xF0, Low(w[1]), Low(w[2]), Low(w[3]);
    SixBits(v, x);
    SixBits(64 * v + x, y);
    SixBits(64 * (64 * v + x) + y, z);
    assert Scalar(w) == 64 * (64 * (64 * v + x) + y) + z;
  }

  /** Every well-formed character is the encoding of its scalar value. */
  lemma WellFormedIsEncoded(w: Bytes)
    requires WellFormed(w)
    ensures IsScalar(Scalar(w)) && Encode(Scalar(w)) == w
  {
    if |w| == 2 {
      EncodesTwo(w);
    } else if |w| == 3 {
      EncodesThree(w);
    } else if |w| == 4 {
      EncodesFour(w);
    }
  }

  lemma Divided(c: int)
    requires c >= 0
    ensures c == 64 * (c / 64) + c % 64 && 0 <= c % 64 < 64
  {
  }

  /** And the encoding of every scalar value is well-formed and has that value. */
  lemma EncodedIsWellFormed(c: int)
    requires IsScalar(c)
    ensures WellFormed(Encode(c)) && Scalar(Encode(c)) == c
    ensures Encode(0xFFFD) == REPLACEMENT
  {
    var d := c / 64;
    var e := d / 64;
    Divided(c);
    Divided(d);
    Divided(e);
    var w := Encode(c);
    if 0x800 <= c < 0x10000 {
      assert |w| == 3 && 0 <= e < 16;
      assert Scalar(w) == 4096 * e + 64 * (d % 64) + c % 64;
    } else if c >= 0x10000 {
      assert |w| == 4 && 0 <= e / 64 <= 4;
      assert Scalar(w) == 262144 * (e / 64) + 4096 * (e % 64) + 64 * (d % 64) + c % 64;
    }
  }

  /** A byte string some well-formed character begins with. */
  ghost predicate Initial(p: Bytes) {
    exists w :: WellFormed(w) && p <= w
  }

  const REPLACEMENT: Bytes := [0xEF, 0xBF, 0xBD]

  /** The number of bytes the decoder takes in one step. */
  function UnitLength(s: Bytes): (n: nat)
    requires s != []
    ensures 1 <= n <= |s| && n <= 4
    ensures forall i :: 1 <= i < n ==> IsContinuation(s[i])
  {
    var need := Announced(s[0]);
    if need <= 1 || |s| < 2 || !SecondFits(s[0], s[1]) then 1
    else if need == 2 || |s| < 3 || !IsContinuation(s[2]) then 2
    else if need == 3 || |s| < 4 || !IsContinuation(s[3]) then 3
    else 4
  }

  /** The step is a whole character exactly when it has the announced length. */
  predicate Whole(s: Bytes)
    requires s != []
  {
    UnitLength(s) == Announced(s[0])
  }

  lemma WholeIsWellFormed(s: Bytes)
    requires s != []
    ensures Whole(s) <==> exists k :: 0 < k <= |s| && WellFormed(s[..k])
    ensures Whole(s) ==> WellFormed(s[..UnitLength(s)])
  {
    if Whole(s) {
      assert WellFormed(s[..UnitLength(s)]);
    }
    forall k | 0 < k <= |s| && WellFormed(s[..k]) ensures Whole(s) {
      assert s[..k][0] == s[0] && k == Announced(s[0]);
      assert k >= 2 ==> s[..k][1] == s[1];
      assert k >= 3 ==> s[..k][2] == s[2];
      assert k >= 4 ==> s[..k][3] == s[3];
    }
  }

  /**
   * Each step takes a maximal subpart (Unicode Standard section 3.9): the longest prefix some
   * well-formed character begins with, or a single byte if there is none.
   */
  lemma UnitIsMaximalSubpart(s: Bytes)
    requires s != []
    ensures UnitLength(s) > 1 ==> Initial(s[..UnitLength(s)])
    ensures forall k :: UnitLength(s) < k <= |s| ==> !Initial(s[..k])
  {
    var n := UnitLength(s);
    if n > 1 {
      var pad: Bytes := if n == Announced(s[0]) then [] else if n + 1 == Announced(s[0]) then [0x80] else [0x80, 0x80];
      assert WellFormed(s[..n] + pad);
    }
    forall k | n < k <= |s| ensures !Initial(s[..k]) {
      forall w | WellFormed(w) ensures !(s[..k] <= w) {
        if s[..k] <= w {
          assert false;
        }
      }
    }
  }

  /** What one step writes. */
  function Unit(s: Bytes): Bytes
    requires s != []
  {
    if Whole(s) then s[..UnitLength(s)] else REPLACEMENT
  }

  /** UnicodeString::fromUTF8 followed by toUTF8String. */
  function Repair(s: Bytes): Bytes {
    if s == [] then [] else Unit(s) + Repair(s[UnitLength(s)..])
  }

  /** A concatenation of well-formed characters. */
  predicate Valid(s: Bytes) {
    s == [] || (Whole(s) && Valid(s[UnitLength(s)..]))
  }

  /** RequireUtf8 compares a text with its repaired copy; that test is validity. */
  lemma {:induction false} RepairFixesExactlyValid(s: Bytes)
    ensures Repair(s) == s <==> Valid(s)
  {
    if s != [] {
      var n := UnitLength(s);
      RepairFixesExactlyValid(s[n..]);
      assert s == s[..n] + s[n..];
      if Whole(s) {
        assert Repair(s)[n..] == Repair(s[n..]) && Repair(s)[..n] == s[..n];
      } else if Repair(s) == s {
        assert false;
      }
    }
  }

  /** A step never looks past itself unless it is cut short by the end of the text. */
  lemma UnitExtends(s: Bytes, t: Bytes)
    requires s != []
    requires t == [] || !IsContinuation(t[0]) || UnitLength(s) < |s| || Whole(s) || Announced(s[0]) == 0
    ensures UnitLength(s + t) == UnitLength(s) && Whole(s + t) == Whole(s)
  {
  }

  /** The decoder always starts a step at a byte that is not a continuation byte. */
  lemma {:induction false} RepairSplitsBeforeLead(a: Bytes, b: Bytes)
    requires b == [] || !IsContinuation(b[0])
    ensures Repair(a + b) == Repair(a) + Repair(b)
    decreases |a|
  {
    if a == [] {
      assert a + b == b;
    } else {
      UnitExtends(a, b);
      var n := UnitLength(a);
      assert (a + b)[n..] == a[n..] + b && (a + b)[..n] == a[..n];
      RepairSplitsBeforeLead(a[n..], b);
      Assoc(Unit(a), Repair(a[n..]), Repair(b));
    }
  }

  /** ... and after a run of continuation bytes no lead byte claims any more. */
  lemma {:induction false} RepairSplitsAfterClosed(run: Bytes, t: Bytes)
    requires forall i :: 0 <= i < |run| ==> IsContinuation(run[i])
    ensures Repair(run + t) == Repair(run) + Repair(t)
    decreases |run|
  {
    if run == [] {
      assert run + t == t;
    } else {
      assert UnitLength(run + t) == 1 == UnitLength(run);
      assert (run + t)[1..] == run[1..] + t;
      RepairSplitsAfterClosed(run[1..], t);
      Assoc(Unit(run), Repair(run[1..]), Repair(t));
    }
  }

  lemma RepairSplitsAfterFilled(s: Bytes, t: Bytes)
    requires s != [] && forall i :: 1 <= i < |s| ==> IsContinuation(s[i])
    requires |s| >= Announced(s[0])
    ensures Repair(s + t) == Repair(s) + Repair(t)
  {
    UnitExtends(s, t);
    var n := UnitLength(s);
    assert (s + t)[n..] == s[n..] + t && (s + t)[..n] == s[..n];
    RepairSplitsAfterClosed(s[n..], t);
    Assoc(Unit(s), Repair(s[n..]), Repair(t));
  }

  lemma {:induction false} ValidAppend(a: Bytes, b: Bytes)
    requires Valid(a)
    ensures Valid(a + b) <==> Valid(b)
    decreases |a|
  {
    if a == [] {
      assert a + b == b;
    } else {
      UnitExtends(a, b);
      var n := UnitLength(a);
      assert (a + b)[n..] == a[n..] + b;
      ValidAppend(a[n..], b);
    }
  }

  lemma {:induction false} ValidFlatten(parts: seq<Bytes>)
    requires forall p :: p in parts ==> Valid(p)
    ensures Valid(Flatten(parts))
  {
    if parts != [] {
      ValidAppend(parts[0], Flatten(parts[1..]));
      ValidFlatten(parts[1..]);
    }
  }

  /** Repairing always yields valid text. */
  lemma {:induction false} RepairIsValid(s: Bytes)
    ensures Valid(Repair(s))
    decreases |s|
  {
    if s != [] {
      var n := UnitLength(s);
      RepairIsValid(s[n..]);
      var head := Unit(s);
      assert Valid(head) by {
        if Whole(s) {
          assert head[0] == s[0] && UnitLength(head) == n && head[n..] == [];
        } else {
          assert head[3..] == [];
        }
      }
      ValidAppend(head, Repair(s[n..]));
    }
  }
}
