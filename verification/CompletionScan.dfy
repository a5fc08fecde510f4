/**
 * The reference reading of a completion: one pass over the text, one position at a time.  A position
 * where a marker stands changes the phase, a position that could still become a marker is held back,
 * and every other byte is reasoning or content.
 */
module CompletionScan {
  import opened ByteStrings
  import opened Markers

  datatype Phase = Reasoning | Content | Tools | End

  datatype Error = Finalized | NotFinalized | NotUtf8 | TooLarge | DataAfterEos | UnexpectedToken | Rejected | Mismatch

  datatype Reading = Refused(error: Error) | Read(phase: Phase, reasoning: Bytes, content: Bytes, pending: Bytes)

  predicate Open(phase: Phase) { phase.Reasoning? || phase.Content? }

  function Start(thinking: bool): Phase { if thinking then Reasoning else Content }

  /** The text neither begins with a marker nor can grow into one. */
  ghost predicate Plain(s: Bytes) {
    s != [] && forall m: Marker :: !Comparable(s, Spelling(m))
  }

  /** The text may still become a marker. */
  ghost predicate Undecided(s: Bytes) {
    exists m: Marker :: s < Spelling(m)
  }

  function Prepend(reasoning: Bytes, content: Bytes, r: Reading): Reading {
    match r
    case Refused(_) => r
    case Read(phase, re, co, p) => Read(phase, reasoning + re, content + co, p)
  }

  function Emit(phase: Phase, text: Bytes, r: Reading): Reading {
    if phase.Reasoning? then Prepend(text, [], r) else Prepend([], text, r)
  }

  ghost function Scan(phase: Phase, s: Bytes): Reading
    requires Open(phase)
    decreases |s|
  {
    if s == [] then Read(phase, [], [], [])
    else if exists m: Marker :: Spelling(m) <= s then
      var m: Marker :| Spelling(m) <= s;
      var rest := s[|Spelling(m)|..];
      match (phase, m)
      case (Reasoning, EndThink) => Scan(Content, rest)
      case (Content, ToolStart) => Read(Tools, [], [], [])
      case (Content, Eos) => if rest == [] then Read(End, [], [], []) else Refused(DataAfterEos)
      case _ => Refused(UnexpectedToken)
    else if Undecided(s) then Read(phase, [], [], s)
    else Emit(phase, s[..1], Scan(phase, s[1..]))
  }

  /** What the reading does when the text goes on. */
  ghost function Resume(r: Reading, more: Bytes): Reading
  {
    match r
    case Refused(_) => r
    case Read(phase, re, co, p) =>
      if Open(phase) then Prepend(re, co, Scan(phase, p + more))
      else if phase.Tools? || more == [] then r
      else Refused(DataAfterEos)
  }

  /** What a marker and the text behind it make of the reading. */
  ghost function AtMarker(phase: Phase, m: Marker, rest: Bytes): Reading {
    if phase.Reasoning? && m.EndThink? then Scan(Content, rest)
    else if phase.Content? && m.ToolStart? then Read(Tools, [], [], [])
    else if phase.Content? && m.Eos? then if rest == [] then Read(End, [], [], []) else Refused(DataAfterEos)
    else Refused(UnexpectedToken)
  }

  /** At a marker the reading is determined by that marker. */
  lemma ScanMarker(phase: Phase, s: Bytes, m: Marker)
    requires Open(phase) && Spelling(m) <= s
    ensures Scan(phase, s) == AtMarker(phase, m, s[|Spelling(m)|..])
  {
    assert exists n: Marker :: Spelling(n) <= s;
    forall n: Marker | Spelling(n) <= s ensures n == m {
      MarkersAreAntichain(m, n);
    }
    hide Spelling;
  }

  /** Text that may still become a marker is held. */
  lemma ScanUndecided(phase: Phase, s: Bytes)
    requires Open(phase) && Undecided(s)
    ensures Scan(phase, s) == Read(phase, [], [], s)
  {
    var m: Marker :| s < Spelling(m);
    forall n: Marker | Spelling(n) <= s ensures false {
      MarkersAreAntichain(m, n);
    }
  }

  lemma ScanPlain(phase: Phase, s: Bytes)
    requires Open(phase) && Plain(s)
    ensures Scan(phase, s) == Emit(phase, s[..1], Scan(phase, s[1..]))
  {
    forall m: Marker ensures !(Spelling(m) <= s) && !(s < Spelling(m)) {
      assert !Comparable(s, Spelling(m));
    }
  }

  /** A front that is not plain is a marker or may become one. */
  lemma Trichotomy(s: Bytes)
    requires s != []
    ensures Plain(s) || Undecided(s) || exists m: Marker :: Spelling(m) <= s
  {
    if !Plain(s) {
      var m: Marker :| Comparable(s, Spelling(m));
    }
  }

  /** What is plain stays plain when the text grows. */
  lemma PlainExtends(s: Bytes, t: Bytes)
    requires Plain(s)
    ensures Plain(s + t)
  {
    forall m: Marker ensures !Comparable(s + t, Spelling(m)) {
      assert !Comparable(s, Spelling(m));
    }
  }

  /** A run of plain positions is emitted as it is. */
  lemma {:induction false} ScanRun(phase: Phase, s: Bytes, k: nat)
    requires Open(phase) && k <= |s|
    requires forall i :: 0 <= i < k ==> Plain(s[i..])
    ensures Scan(phase, s) == Emit(phase, s[..k], Scan(phase, s[k..]))
    decreases k
  {
    if k == 0 {
      assert s[0..] == s;
      EmitNothing(phase, Scan(phase, s));
    } else {
      assert s[0..] == s;
      ScanPlain(phase, s);
      forall i | 0 <= i < k - 1 ensures Plain(s[1..][i..]) {
        assert s[1..][i..] == s[i + 1..];
      }
      ScanRun(phase, s[1..], k - 1);
      assert s[1..][k - 1..] == s[k..];
      EmitTwice(phase, s[..1], s[1..][..k - 1], Scan(phase, s[k..]));
      assert s[..1] + s[1..][..k - 1] == s[..k];
    }
  }

  lemma EmitNothing(phase: Phase, r: Reading)
    ensures Emit(phase, [], r) == r
  {
    if r.Read? {
      assert [] + r.reasoning == r.reasoning && [] + r.content == r.content;
    }
  }

  lemma EmitTwice(phase: Phase, a: Bytes, b: Bytes, r: Reading)
    ensures Emit(phase, a, Emit(phase, b, r)) == Emit(phase, a + b, r)
  {
    if r.Read? {
      assert a + (b + r.reasoning) == (a + b) + r.reasoning;
      assert a + (b + r.content) == (a + b) + r.content;
      assert [] + r.content == r.content && [] + r.reasoning == r.reasoning;
    }
  }

  lemma PrependTwice(a: Bytes, b: Bytes, c: Bytes, d: Bytes, r: Reading)
    ensures Prepend(a, b, Prepend(c, d, r)) == Prepend(a + c, b + d, r)
  {
    if r.Read? {
      assert a + (c + r.reasoning) == (a + c) + r.reasoning;
      assert b + (d + r.content) == (b + d) + r.content;
    }
  }

  lemma ResumeEmit(phase: Phase, t: Bytes, r: Reading, more: Bytes)
    ensures Resume(Emit(phase, t, r), more) == Emit(phase, t, Resume(r, more))
  {
    if r.Read? && Open(r.phase) {
      var a, b := if phase.Reasoning? then t else [], if phase.Reasoning? then [] else t;
      PrependTwice(a, b, r.reasoning, r.content, Scan(r.phase, r.pending + more));
    }
  }

  lemma ResumesAtMarker(phase: Phase, s: Bytes, t: Bytes, m: Marker)
    requires Open(phase) && Spelling(m) <= s
    requires phase.Reasoning? && m.EndThink? ==>
      Scan(Content, s[|Spelling(m)|..] + t) == Resume(Scan(Content, s[|Spelling(m)|..]), t)
    ensures Scan(phase, s + t) == Resume(Scan(phase, s), t)
  {
    hide Scan, Spelling;
    ScanMarker(phase, s, m);
    ScanMarker(phase, s + t, m);
    var n := |Spelling(m)|;
    assert (s + t)[n..] == s[n..] + t;
  }

  lemma PlainIsNonempty(s: Bytes)
    requires Plain(s)
    ensures s != []
  {
    assert Comparable([], Spelling(Eos));
  }

  lemma ResumesAtPlain(phase: Phase, s: Bytes, t: Bytes)
    requires Open(phase) && Plain(s)
    requires Scan(phase, s[1..] + t) == Resume(Scan(phase, s[1..]), t)
    ensures Scan(phase, s + t) == Resume(Scan(phase, s), t)
  {
    hide Scan, Emit, Resume, Plain;
    PlainIsNonempty(s);
    PlainExtends(s, t);
    ScanPlain(phase, s);
    ScanPlain(phase, s + t);
    assert (s + t)[1..] == s[1..] + t && (s + t)[..1] == s[..1];
    ResumeEmit(phase, s[..1], Scan(phase, s[1..]), t);
  }

  lemma ResumesAtUndecided(phase: Phase, s: Bytes, t: Bytes)
    requires Open(phase) && Undecided(s)
    ensures Scan(phase, s + t) == Resume(Scan(phase, s), t)
  {
    ScanUndecided(phase, s);
    EmitNothing(phase, Scan(phase, s + t));
  }

  /** The reading of a longer text resumes the reading of its front: the pass can stop anywhere. */
  lemma {:induction false} ScanResumes(phase: Phase, s: Bytes, t: Bytes)
    requires Open(phase)
    ensures Scan(phase, s + t) == Resume(Scan(phase, s), t)
    decreases |s|
  {
    if Undecided(s) {
      ResumesAtUndecided(phase, s, t);
    } else if m: Marker :| Spelling(m) <= s {
      ScanResumes(Content, s[|Spelling(m)|..], t);
      ResumesAtMarker(phase, s, t, m);
    } else {
      assert s != [] by { assert [] < Spelling(Eos); }
      Trichotomy(s);
      ScanResumes(phase, s[1..], t);
      ResumesAtPlain(phase, s, t);
    }
  }

  /** What remains of the text once reasoning and content are taken out. */
  ghost predicate Remainder(phase: Phase, rest: Bytes, pending: Bytes) {
    match phase
    case Tools => TOOL_START <= rest && pending == []
    case End => rest == EOS && pending == []
    case _ => rest == pending && Undecided(rest)
  }

  function Terminator(from: Phase, to: Phase): Bytes {
    if from.Reasoning? && !to.Reasoning? then END_THINK else []
  }

  /** The text up to the remainder is exactly what was emitted. */
  function Emitted(from: Phase, r: Reading): Bytes
    requires r.Read?
  {
    r.reasoning + Terminator(from, r.phase) + r.content
  }

  /** Nothing is lost, added or reordered: a successful reading decomposes the text. */
  ghost predicate Decomposes(from: Phase, s: Bytes, r: Reading) {
    && r.Read?
    && Emitted(from, r) <= s
    && Remainder(r.phase, s[|Emitted(from, r)|..], r.pending)
    && (from.Content? ==> !r.phase.Reasoning? && r.reasoning == [])
    && (r.phase.Reasoning? ==> r.content == [])
  }

  lemma TerminatorDecomposes(s: Bytes, r: Reading)
    requires END_THINK <= s && Decomposes(Content, s[|END_THINK|..], r)
    ensures Decomposes(Reasoning, s, r)
  {
    var n := |END_THINK|;
    assert Emitted(Content, r) == r.content && Emitted(Reasoning, r) == END_THINK + r.content;
    assert s == END_THINK + s[n..];
    assert s[|Emitted(Reasoning, r)|..] == s[n..][|r.content|..];
  }

  lemma ConservesAtMarker(phase: Phase, s: Bytes, m: Marker)
    requires Open(phase) && Spelling(m) <= s && Scan(phase, s).Read?
    requires phase.Reasoning? ==> Scan(Content, s[|Spelling(m)|..]).Read? ==>
      Decomposes(Content, s[|Spelling(m)|..], Scan(Content, s[|Spelling(m)|..]))
    ensures Decomposes(phase, s, Scan(phase, s))
  {
    ScanMarker(phase, s, m);
    hide Scan, Undecided;
    if phase.Reasoning? {
      TerminatorDecomposes(s, Scan(phase, s));
    } else {
      assert Emitted(phase, Scan(phase, s)) == [] && s[0..] == s;
    }
  }

  lemma EmitDecomposes(phase: Phase, text: Bytes, s: Bytes, r: Reading)
    requires Open(phase) && Decomposes(phase, s, r)
    ensures Decomposes(phase, text + s, Emit(phase, text, r))
  {
    hide Remainder, END_THINK;
    var e := Emit(phase, text, r);
    var t := Terminator(phase, r.phase);
    assert Emitted(phase, e) == text + Emitted(phase, r) by {
      if phase.Reasoning? {
        Assoc(text, r.reasoning, t);
        Assoc(text, r.reasoning + t, r.content);
      } else {
        assert [] + [] + (text + r.content) == text + ([] + [] + r.content);
      }
    }
    DropTogether(text, s, |Emitted(phase, r)|);
    assert text + Emitted(phase, r) <= text + s;
  }

  lemma DropTogether(text: Bytes, s: Bytes, n: nat)
    requires n <= |s|
    ensures (text + s)[|text| + n..] == s[n..]
  {
  }

  lemma ConservesAtUndecided(phase: Phase, s: Bytes)
    requires Open(phase) && Undecided(s)
    ensures Decomposes(phase, s, Scan(phase, s))
  {
    hide Scan, Undecided;
    ScanUndecided(phase, s);
    assert s[0..] == s;
  }

  lemma ConservesAtPlain(phase: Phase, s: Bytes)
    requires Open(phase) && Plain(s) && Decomposes(phase, s[1..], Scan(phase, s[1..]))
    ensures Decomposes(phase, s, Scan(phase, s))
  {
    hide Scan, Plain, Decomposes, Emit;
    PlainIsNonempty(s);
    ScanPlain(phase, s);
    EmitDecomposes(phase, s[..1], s[1..], Scan(phase, s[1..]));
    assert s == s[..1] + s[1..];
  }

  lemma PlainReadsOn(phase: Phase, s: Bytes)
    requires Open(phase) && Plain(s) && Scan(phase, s).Read?
    ensures s != [] && Scan(phase, s[1..]).Read?
  {
    hide Scan, Plain;
    PlainIsNonempty(s);
    ScanPlain(phase, s);
  }

  lemma {:induction false} ScanConserves(phase: Phase, s: Bytes)
    requires Open(phase) && Scan(phase, s).Read?
    ensures Decomposes(phase, s, Scan(phase, s))
    decreases |s|
  {
    hide Scan, Decomposes, Undecided, Plain;
    if Undecided(s) {
      ConservesAtUndecided(phase, s);
    } else if m: Marker :| Spelling(m) <= s {
      if Scan(Content, s[|Spelling(m)|..]).Read? {
        ScanConserves(Content, s[|Spelling(m)|..]);
      }
      ConservesAtMarker(phase, s, m);
    } else {
      EmptyIsUndecided();
      Trichotomy(s);
      PlainReadsOn(phase, s);
      ScanConserves(phase, s[1..]);
      ConservesAtPlain(phase, s);
    }
  }

  lemma EmptyIsUndecided()
    ensures Undecided([])
  {
    assert [] < Spelling(Eos);
  }

  /** No marker stands at an emitted position. */
  lemma {:induction false} ScanEmitsPlain(phase: Phase, s: Bytes)
    requires Open(phase) && Scan(phase, s).Read?
    ensures var r := Scan(phase, s);
      |Emitted(phase, r)| <= |s|
      && (forall i :: 0 <= i < |if phase.Reasoning? then r.reasoning else r.content| ==> Plain(s[i..]))
    decreases |s|
  {
    var r := Scan(phase, s);
    ScanConserves(phase, s);
    if s == [] {
    } else if m: Marker :| Spelling(m) <= s {
      ScanMarker(phase, s, m);
      if phase.Reasoning? {
        ScanConserves(Content, s[|Spelling(m)|..]);
      }
    } else if Undecided(s) {
      ScanUndecided(phase, s);
    } else {
      Trichotomy(s);
      ScanPlain(phase, s);
      ScanEmitsPlain(phase, s[1..]);
      forall i | 0 <= i < |if phase.Reasoning? then r.reasoning else r.content| ensures Plain(s[i..]) {
        if i > 0 {
          assert s[1..][i - 1..] == s[i..];
        } else {
          assert s[0..] == s;
        }
      }
    }
  }
}
