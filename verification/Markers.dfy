/** The structural tokens of a DeepSeek completion and how their spellings relate. */
module Markers {
  import opened ByteStrings

  const TOOL_START: Bytes :=  // "\n\n<|DSML|tool_calls", with the full-width bars of the vocabulary
    [0x0A, 0x0A, 0x3C, 0xEF, 0xBD, 0x9C, 0x44, 0x53, 0x4D, 0x4C, 0xEF, 0xBD, 0x9C,
     0x74, 0x6F, 0x6F, 0x6C, 0x5F, 0x63, 0x61, 0x6C, 0x6C, 0x73]
  const BOS: Bytes :=  // "<|begin_of_sentence|>"
    [0x3C, 0xEF, 0xBD, 0x9C, 0x62, 0x65, 0x67, 0x69, 0x6E, 0xE2, 0x96, 0x81, 0x6F, 0x66, 0xE2, 0x96, 0x81,
     0x73, 0x65, 0x6E, 0x74, 0x65, 0x6E, 0x63, 0x65, 0xEF, 0xBD, 0x9C, 0x3E]
  const EOS: Bytes :=  // "<|end_of_sentence|>"
    [0x3C, 0xEF, 0xBD, 0x9C, 0x65, 0x6E, 0x64, 0xE2, 0x96, 0x81, 0x6F, 0x66, 0xE2, 0x96, 0x81,
     0x73, 0x65, 0x6E, 0x74, 0x65, 0x6E, 0x63, 0x65, 0xEF, 0xBD, 0x9C, 0x3E]
  const THINK: Bytes := [0x3C, 0x74, 0x68, 0x69, 0x6E, 0x6B, 0x3E]  // "<think>"
  const END_THINK: Bytes := [0x3C, 0x2F, 0x74, 0x68, 0x69, 0x6E, 0x6B, 0x3E]  // "</think>"
  const DSML: Bytes := [0xEF, 0xBD, 0x9C, 0x44, 0x53, 0x4D, 0x4C, 0xEF, 0xBD, 0x9C]  // "|DSML|"

  datatype Marker = ToolStart | Bos | Eos | Think | EndThink | Dsml

  function Spelling(m: Marker): (s: Bytes)
    ensures |s| >= 7
  {
    match m
    case ToolStart => TOOL_START
    case Bos => BOS
    case Eos => EOS
    case Think => THINK
    case EndThink => END_THINK
    case Dsml => DSML
  }

  /** The order in which the decoder tries the candidates. */
  const CANDIDATES: seq<Marker> := [ToolStart, Bos, Eos, Think, EndThink, Dsml]

  lemma CandidatesAreAll(m: Marker)
    ensures m in CANDIDATES
  {
    var i := match m case ToolStart => 0 case Bos => 1 case Eos => 2 case Think => 3 case EndThink => 4 case Dsml => 5;
    assert CANDIDATES[i] == m;
  }

  /** No marker is a prefix of another. */
  lemma MarkersAreAntichain(m: Marker, n: Marker)
    ensures Comparable(Spelling(m), Spelling(n)) ==> m == n
  {
    var a, b := Spelling(m), Spelling(n);
    if Comparable(a, b) {
      assert a[0] == b[0] && a[1] == b[1] && a[4] == b[4];
    }
  }

  /** The markers at which the strict parser cuts a completion. */
  predicate IsStop(m: Marker) {
    m.Eos? || m.ToolStart? || m.EndThink?
  }

  /** Where a marker repeats the first byte of a stop: only inside the tool-call opening. */
  lemma StopBytesInside(m: Marker, k: nat)
    requires 1 <= k < |Spelling(m)|
    ensures Spelling(m)[k] == 0x3C ==> m == ToolStart && k == 2
    ensures Spelling(m)[k] == 0x0A ==> m == ToolStart && k == 1
  {
    match m
    case ToolStart =>
    case Bos =>
    case Eos =>
    case Think =>
    case EndThink =>
    case Dsml =>
  }

  /** A stop never stands across the end of a marker, and never inside one. */
  lemma StopsDoNotOverlap(m: Marker, k: nat, stop: Marker)
    requires 1 <= k < |Spelling(m)| && IsStop(stop)
    ensures !Comparable(Spelling(m)[k..], Spelling(stop))
  {
    hide Spelling;
    StopBytesInside(m, k);
    FirstOfStop(stop);
    var tail, s := Spelling(m)[k..], Spelling(stop);
    if Comparable(tail, s) {
      assert tail[0] == s[0] && tail[0] == Spelling(m)[k];
      OpeningTails(stop);
    }
  }

  lemma FirstOfStop(stop: Marker)
    requires IsStop(stop)
    ensures Spelling(stop)[0] == if stop.ToolStart? then 0x0A else 0x3C
  {
  }

  lemma OpeningTails(stop: Marker)
    requires IsStop(stop)
    ensures !Comparable(Spelling(ToolStart)[if stop.ToolStart? then 1 else 2..], Spelling(stop))
  {
    var tail, s := TOOL_START[if stop.ToolStart? then 1 else 2..], Spelling(stop);
    if stop.Eos? {
      assert tail[4] == TOOL_START[6] == 0x44 && s[4] == EOS[4];
    } else {
      assert tail[1] == TOOL_START[if stop.ToolStart? then 2 else 3];
    }
  }

  /** Where a marker holds the letter D: inside the DSML token only. */
  lemma LetterDInside(m: Marker, k: nat)
    requires k < |Spelling(m)| && Spelling(m)[k] == 0x44
    ensures (m == ToolStart && k == 6) || (m == Dsml && k == 3)
  {
    match m
    case ToolStart =>
    case Bos =>
    case Eos =>
    case Think =>
    case EndThink =>
    case Dsml =>
  }

  /** The tool-call opening is the only marker with the DSML token strictly inside it. */
  lemma DsmlInside(m: Marker, n: nat)
    requires n < |Spelling(m)| && Contains(Spelling(m)[..n], DSML)
    ensures m == ToolStart && n >= 13
  {
    hide Spelling;
    var w := Spelling(m)[..n];
    var i :| 0 <= i <= n && OccursAt(w, DSML, i);
    FourthByte(w, i);
    LetterDInside(m, i + 3);
    DsmlLength();
  }

  lemma DsmlLength()
    ensures |Spelling(Dsml)| == 10
  {
  }

  lemma FourthByte(w: Bytes, i: nat)
    requires OccursAt(w, DSML, i)
    ensures i + 10 <= |w| && w[i + 3] == 0x44
  {
    assert w[i..][3] == DSML[3];
  }

  lemma ToolStartHoldsDsml()
    ensures OccursAt(TOOL_START, DSML, 3)
  {
    assert TOOL_START[3..][..10] == DSML;
  }
}
