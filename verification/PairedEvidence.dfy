/** The paired performance evidence: the run schedule, the pairing of captures, and the verdict. */
module PairedEvidence {
  import opened Wrappers

  const MAX_U64 := 0xFFFF_FFFF_FFFF_FFFF

  datatype Role = Control | Candidate | Vllm | Sglang

  // ---- The schedule -------------------------------------------------------------------------------------------

  datatype Slot = Slot(ordinal: nat, role: Role, pair: nat, slot: nat)

  /** Which role runs first in a pair: control in odd ones. */
  function RunOrder(pair: nat): (r: seq<Role>)
    ensures |r| == 2 && Control in r && Candidate in r
  {
    if pair % 2 == 1 then [Control, Candidate] else [Candidate, Control]
  }

  /** The n-th slot of a schedule with so many repetitions. */
  function SlotAt(repetitions: nat, n: nat): Slot
    requires n < 2 * repetitions + 2
  {
    if n < 2 * repetitions then Slot(n + 1, RunOrder(n / 2 + 1)[n % 2], n / 2 + 1, n % 2)
    else Slot(n + 1, if n == 2 * repetitions then Vllm else Sglang, 0, 0)
  }

  function Schedule(repetitions: nat): (r: seq<Slot>)
    ensures |r| == 2 * repetitions + 2
  {
    seq(2 * repetitions + 2, n requires 0 <= n < 2 * repetitions + 2 => SlotAt(repetitions, n))
  }

  /** Counts the execution ordinal through the pairs and the two baselines. */
  method BuildSchedule(repetitions: nat) returns (schedule: seq<Slot>)
    ensures schedule == Schedule(repetitions)
  {
    schedule := [];
    var ordinal := 1;
    for pair := 1 to repetitions + 1
      invariant ordinal == 2 * pair - 1
      invariant schedule == Schedule(repetitions)[..2 * pair - 2]
    {
      var roles := RunOrder(pair);
      for slot := 0 to 2
        invariant ordinal == 2 * pair - 1 + slot
        invariant schedule == Schedule(repetitions)[..2 * pair - 2 + slot]
      {
        ghost var n := 2 * pair - 2 + slot;
        assert n / 2 == pair - 1 && n % 2 == slot;
        assert Schedule(repetitions)[..n + 1] == Schedule(repetitions)[..n] + [SlotAt(repetitions, n)];
        schedule := schedule + [Slot(ordinal, roles[slot], pair, slot)];
        ordinal := ordinal + 1;
      }
    }
    schedule := schedule + [Slot(ordinal, Vllm, 0, 0)];
    ordinal := ordinal + 1;
    schedule := schedule + [Slot(ordinal, Sglang, 0, 0)];
  }

  // ---- Captures -----------------------------------------------------------------------------------------------

  datatype Request = Request(ordinal: nat, input: int, prompt: nat, output: nat, completed: bool, outputRoot: int,
                             prefill: nat, decode: nat, ttft: nat, itl: seq<nat>)
  type Observation = seq<Request>
  datatype Capture = Capture(at: Slot, started: nat, finished: nat, observation: Observation)

  /** Captures follow the schedule slot by slot. */
  predicate Follows(captures: seq<Capture>, repetitions: nat) {
    |captures| == 2 * repetitions + 2 && forall n :: 0 <= n < |captures| ==> captures[n].at == SlotAt(repetitions, n)
  }

  function ByRole(captures: seq<Capture>, role: Role): seq<Capture> {
    if captures == [] then []
    else
      var n := |captures| - 1;
      ByRole(captures[..n], role) + (if captures[n].at.role == role then [captures[n]] else [])
  }

  predicate NumbersPairs(s: seq<Capture>, role: Role, n: nat) {
    |s| == n && forall k :: 0 <= k < n ==> s[k].at.pair == k + 1 && s[k].at.role == role
  }

  lemma TwoMore(captures: seq<Capture>, role: Role, n: nat)
    requires n + 2 <= |captures|
    ensures ByRole(captures[..n + 2], role) == ByRole(captures[..n], role)
      + (if captures[n].at.role == role then [captures[n]] else [])
      + (if captures[n + 1].at.role == role then [captures[n + 1]] else [])
  {
    assert captures[..n + 2][..n + 1] == captures[..n + 1];
    assert captures[..n + 1][..n] == captures[..n];
  }

  lemma {:induction false} PairsAreNumbered(captures: seq<Capture>, repetitions: nat, role: Role, n: nat)
    requires Follows(captures, repetitions) && n <= repetitions && (role == Control || role == Candidate)
    ensures NumbersPairs(ByRole(captures[..2 * n], role), role, n)
  {
    hide ByRole;
    if n > 0 {
      var m := 2 * n - 2;
      PairsAreNumbered(captures, repetitions, role, n - 1);
      TwoMore(captures, role, m);
      assert m / 2 == n - 1 && m % 2 == 0 && (m + 1) / 2 == n - 1 && (m + 1) % 2 == 1;
      assert captures[m].at == SlotAt(repetitions, m) && captures[m + 1].at == SlotAt(repetitions, m + 1);
    } else {
      NoCaptures(role);
    }
  }

  lemma NoCaptures(role: Role)
    ensures ByRole([], role) == []
  {
  }

  /** Despite the alternating order, the k-th control and the k-th candidate capture belong to pair k + 1. */
  lemma ZipPairsSameOrdinal(captures: seq<Capture>, repetitions: nat, role: Role)
    requires Follows(captures, repetitions) && (role == Control || role == Candidate)
    ensures NumbersPairs(ByRole(captures, role), role, repetitions)
  {
    hide ByRole, NumbersPairs;
    var m := 2 * repetitions;
    PairsAreNumbered(captures, repetitions, role, repetitions);
    TwoMore(captures, role, m);
    assert captures[m].at == SlotAt(repetitions, m) && captures[m + 1].at == SlotAt(repetitions, m + 1);
    assert captures[..m + 2] == captures;
    assert ByRole(captures, role) == ByRole(captures[..m], role);
  }

  /** Every capture ends after it began, and no two overlap. */
  predicate Disjoint(captures: seq<Capture>) {
    && (forall i :: 0 <= i < |captures| ==> captures[i].started < captures[i].finished)
    && (forall i, j :: 0 <= i < j < |captures| ==> captures[i].finished <= captures[j].started)
  }

  /** Comparing each capture with the one before is enough. */
  method CheckIntervals(captures: seq<Capture>) returns (ok: bool)
    ensures ok <==> Disjoint(captures)
  {
    var previous: int := -1;
    for n := 0 to |captures|
      invariant Disjoint(captures[..n])
      invariant previous == if n == 0 then -1 else captures[n - 1].finished
    {
      if captures[n].finished <= captures[n].started { return false; }
      if captures[n].started < previous { return false; }
      forall i | 0 <= i < n ensures captures[i].finished <= captures[n].started {
        if i < n - 1 {
          assert captures[..n][i].finished <= captures[..n][n - 1].started;
          assert captures[..n][n - 1].started < captures[..n][n - 1].finished;
        }
      }
      assert captures[..n + 1] == captures[..n] + [captures[n]];
      previous := captures[n].finished;
    }
    assert captures[..|captures|] == captures;
    return true;
  }

  // ---- Metrics ------------------------------------------------------------------------------------------------

  datatype Metrics = Metrics(completed: nat, prefillTokens: nat, prefillNs: nat, decodeTokens: nat, decodeNs: nat,
                             ttftNs: nat, itlNs: nat, itlCount: nat)

  function Sum(s: seq<nat>): nat { if s == [] then 0 else Sum(s[..|s| - 1]) + s[|s| - 1] }

  function Added(m: Metrics, r: Request): Metrics {
    if !r.completed then m
    else Metrics(m.completed + 1, m.prefillTokens + r.prompt, m.prefillNs + r.prefill, m.decodeTokens + r.output,
                 m.decodeNs + r.decode, m.ttftNs + r.ttft, m.itlNs + Sum(r.itl), m.itlCount + |r.itl|)
  }

  function Totals(o: Observation): Metrics {
    if o == [] then Metrics(0, 0, 0, 0, 0, 0, 0, 0) else Added(Totals(o[..|o| - 1]), o[|o| - 1])
  }

  predicate InRange(m: Metrics) {
    && m.prefillTokens <= MAX_U64 && m.decodeTokens <= MAX_U64 && m.prefillNs <= MAX_U64
    && m.decodeNs <= MAX_U64 && m.ttftNs <= MAX_U64 && m.itlNs <= MAX_U64
  }

  /** Every denominator is there. */
  predicate Sufficient(m: Metrics) { m.completed != 0 && m.prefillNs != 0 && m.decodeNs != 0 && m.itlCount != 0 }

  function RatioCompare(a: int, b: int, c: int, d: int): int {
    var left, right := a * d, c * b;
    (if left > right then 1 else 0) - (if left < right then 1 else 0)
  }

  function Rate(a: nat, b: nat): real
    requires b > 0
  {
    a as real / b as real
  }

  function Sign(x: real): int { if x > 0.0 then 1 else if x < 0.0 then -1 else 0 }

  lemma Scale(x: real, y: real, z: real)
    requires z > 0.0
    ensures x > y <==> x * z > y * z
    ensures x < y <==> x * z < y * z
  {
    assert (x - y) * z == x * z - y * z;
    if x > y { assert (x - y) * z > 0.0; }
    if x < y { assert (y - x) * z > 0.0; }
  }

  lemma Product(a: nat, d: nat)
    ensures (a * d) as real == a as real * d as real
  {
  }

  /** The cross product compares the exact ratios. */
  lemma RatioIsExact(a: nat, b: nat, c: nat, d: nat)
    requires b > 0 && d > 0
    ensures RatioCompare(a, b, c, d) == Sign(Rate(a, b) - Rate(c, d))
  {
    var x, y, p, q := Rate(a, b), Rate(c, d), b as real, d as real;
    assert x * p == a as real && y * q == c as real;
    assert p * q > 0.0;
    Scale(x, y, p * q);
    assert x * (p * q) == (x * p) * q;
    assert y * (p * q) == (y * q) * p;
    Product(a, d);
    Product(c, b);
  }

  /** How much better the right run is in the k-th metric: throughputs up, latencies down. */
  function Compare(left: Metrics, right: Metrics, k: nat): int
    requires k < 4
  {
    match k
    case 0 => RatioCompare(right.prefillTokens, right.prefillNs, left.prefillTokens, left.prefillNs)
    case 1 => RatioCompare(right.decodeTokens, right.decodeNs, left.decodeTokens, left.decodeNs)
    case 2 => -RatioCompare(right.ttftNs, right.completed, left.ttftNs, left.completed)
    case _ => -RatioCompare(right.itlNs, right.itlCount, left.itlNs, left.itlCount)
  }

  /** The exact value of the k-th metric, larger being better. */
  function Score(m: Metrics, k: nat): real
    requires k < 4 && Sufficient(m)
  {
    match k
    case 0 => Rate(m.prefillTokens, m.prefillNs)
    case 1 => Rate(m.decodeTokens, m.decodeNs)
    case 2 => -Rate(m.ttftNs, m.completed)
    case _ => -Rate(m.itlNs, m.itlCount)
  }

  lemma CompareIsExact(left: Metrics, right: Metrics, k: nat)
    requires k < 4 && Sufficient(left) && Sufficient(right)
    ensures Compare(left, right, k) == Sign(Score(right, k) - Score(left, k))
  {
    hide RatioCompare, Rate;
    match k
    case 0 => RatioIsExact(right.prefillTokens, right.prefillNs, left.prefillTokens, left.prefillNs);
    case 1 => RatioIsExact(right.decodeTokens, right.decodeNs, left.decodeTokens, left.decodeNs);
    case 2 => RatioIsExact(right.ttftNs, right.completed, left.ttftNs, left.completed);
    case _ => RatioIsExact(right.itlNs, right.itlCount, left.itlNs, left.itlCount);
  }

  // ---- The verdict --------------------------------------------------------------------------------------------

  datatype Verdict = NotEvaluated | Insufficient | ObservedBetter | ObservedNotBetter

  predicate RequestsMatch(a: Request, b: Request) {
    && a.ordinal == b.ordinal && a.input == b.input && a.prompt == b.prompt && a.output == b.output
    && a.completed && b.completed && a.outputRoot == b.outputRoot
  }

  predicate Matches(a: Observation, b: Observation) {
    |a| == |b| && forall i :: 0 <= i < |a| ==> RequestsMatch(a[i], b[i])
  }

  predicate Regresses(a: Observation, b: Observation) {
    exists k :: 0 <= k < 4 && Compare(Totals(a), Totals(b), k) < 0
  }

  predicate Improves(a: Observation, b: Observation) {
    exists k :: 0 <= k < 4 && Compare(Totals(a), Totals(b), k) > 0
  }

  predicate PairSufficient(a: Observation, b: Observation) { Sufficient(Totals(a)) && Sufficient(Totals(b)) }

  predicate PairInRange(a: Observation, b: Observation) { InRange(Totals(a)) && InRange(Totals(b)) }

  function Judged(control: seq<Observation>, candidate: seq<Observation>): Verdict
    requires |control| == |candidate|
  {
    if exists i :: 0 <= i < |control| && !Matches(control[i], candidate[i]) then NotEvaluated
    else if exists i :: 0 <= i < |control| && !PairSufficient(control[i], candidate[i]) then Insufficient
    else if (forall i :: 0 <= i < |control| ==> !Regresses(control[i], candidate[i]))
      && (exists i :: 0 <= i < |control| && Improves(control[i], candidate[i])) then ObservedBetter
    else ObservedNotBetter
  }

  function Combined(m: Metrics, n: Metrics): Metrics {
    Metrics(m.completed + n.completed, m.prefillTokens + n.prefillTokens, m.prefillNs + n.prefillNs,
            m.decodeTokens + n.decodeTokens, m.decodeNs + n.decodeNs, m.ttftNs + n.ttftNs, m.itlNs + n.itlNs,
            m.itlCount + n.itlCount)
  }

  function Aggregate(runs: seq<Observation>): Metrics {
    if runs == [] then Metrics(0, 0, 0, 0, 0, 0, 0, 0)
    else Combined(Aggregate(runs[..|runs| - 1]), Totals(runs[|runs| - 1]))
  }

  /** Refuses captures whose counts differ and sums beyond 64 bits, in one run or over all of them. */
  function Derived(control: seq<Observation>, candidate: seq<Observation>): Option<Verdict> {
    if |control| != |candidate| then None
    else if exists i :: 0 <= i < |control| && !PairInRange(control[i], candidate[i]) then None
    else if !InRange(Aggregate(control)) || !InRange(Aggregate(candidate)) then None
    else Some(Judged(control, candidate))
  }

  method CompareRequests(a: Observation, b: Observation) returns (correct: bool)
    ensures correct == Matches(a, b)
  {
    correct := true;
    if |a| != |b| { return false; }
    for i := 0 to |a|
      invariant correct == forall j :: 0 <= j < i ==> RequestsMatch(a[j], b[j])
    {
      if !RequestsMatch(a[i], b[i]) {
        correct := false;
      }
    }
  }

  method Measure(o: Observation) returns (m: Metrics)
    ensures m == Totals(o)
  {
    m := Metrics(0, 0, 0, 0, 0, 0, 0, 0);
    for i := 0 to |o|
      invariant m == Totals(o[..i])
    {
      assert o[..i + 1][..i] == o[..i];
      m := Added(m, o[i]);
    }
    assert o[..|o|] == o;
  }

  method MeasureAll(runs: seq<Observation>) returns (m: Metrics)
    ensures m == Aggregate(runs)
  {
    m := Metrics(0, 0, 0, 0, 0, 0, 0, 0);
    for i := 0 to |runs|
      invariant m == Aggregate(runs[..i])
    {
      assert runs[..i + 1][..i] == runs[..i];
      var one := Measure(runs[i]);
      m := Combined(m, one);
    }
    assert runs[..|runs|] == runs;
  }

  /** Keeps four flags over the pairs; a pair without enough data is not compared. */
  method Derive(control: seq<Observation>, candidate: seq<Observation>) returns (r: Option<Verdict>)
    ensures r == Derived(control, candidate)
  {
    hide Matches, Totals, Compare, Aggregate;
    if |control| != |candidate| { return None; }
    var correctness, sufficient, noRegression, strictlyBetter := true, true, true, false;
    for i := 0 to |control|
      invariant forall j :: 0 <= j < i ==> PairInRange(control[j], candidate[j])
      invariant correctness == forall j :: 0 <= j < i ==> Matches(control[j], candidate[j])
      invariant sufficient == forall j :: 0 <= j < i ==> PairSufficient(control[j], candidate[j])
      invariant sufficient ==> noRegression == forall j :: 0 <= j < i ==> !Regresses(control[j], candidate[j])
      invariant sufficient ==> strictlyBetter == exists j :: 0 <= j < i && Improves(control[j], candidate[j])
    {
      var same := CompareRequests(control[i], candidate[i]);
      correctness := correctness && same;
      var left := Measure(control[i]);
      if !InRange(left) { return None; }
      var right := Measure(candidate[i]);
      if !InRange(right) { return None; }
      if Sufficient(left) && Sufficient(right) {
        var worse := exists k :: 0 <= k < 4 && Compare(left, right, k) < 0;
        var better := exists k :: 0 <= k < 4 && Compare(left, right, k) > 0;
        noRegression := noRegression && !worse;
        strictlyBetter := strictlyBetter || better;
      } else {
        sufficient := false;
      }
    }
    var controlTotal := MeasureAll(control);
    var candidateTotal := MeasureAll(candidate);
    if !InRange(controlTotal) || !InRange(candidateTotal) { return None; }
    if !correctness { return Some(NotEvaluated); }
    if !sufficient { return Some(Insufficient); }
    return Some(if noRegression && strictlyBetter then ObservedBetter else ObservedNotBetter);
  }

  function Observations(captures: seq<Capture>): (r: seq<Observation>)
    ensures |r| == |captures|
  {
    seq(|captures|, i requires 0 <= i < |captures| => captures[i].observation)
  }

  /** The verdict over a receipt: None if the captures leave the schedule, overlap, or sum beyond 64 bits. */
  function ReceiptVerdict(captures: seq<Capture>, repetitions: nat): Option<Verdict> {
    if !(5 <= repetitions <= 100) || !Follows(captures, repetitions) || !Disjoint(captures) then None
    else Derived(Observations(ByRole(captures, Control)), Observations(ByRole(captures, Candidate)))
  }

  method VerifyReceipt(captures: seq<Capture>, repetitions: nat) returns (r: Option<Verdict>)
    ensures r == ReceiptVerdict(captures, repetitions)
  {
    hide Disjoint, Derived;
    if repetitions < 5 || repetitions > 100 { return None; }
    var schedule := BuildSchedule(repetitions);
    if |captures| != |schedule| { return None; }
    for n := 0 to |captures|
      invariant forall k :: 0 <= k < n ==> captures[k].at == schedule[k]
    {
      if captures[n].at != schedule[n] { return None; }
    }
    var apart := CheckIntervals(captures);
    if !apart { return None; }
    var control, candidate := Split(captures);
    r := Derive(Observations(control), Observations(candidate));
  }

  method Split(captures: seq<Capture>) returns (control: seq<Capture>, candidate: seq<Capture>)
    ensures control == ByRole(captures, Control) && candidate == ByRole(captures, Candidate)
  {
    control, candidate := [], [];
    for n := 0 to |captures|
      invariant control == ByRole(captures[..n], Control) && candidate == ByRole(captures[..n], Candidate)
    {
      assert captures[..n + 1][..n] == captures[..n];
      if captures[n].at.role == Control {
        control := control + [captures[n]];
      } else if captures[n].at.role == Candidate {
        candidate := candidate + [captures[n]];
      }
    }
    assert captures[..|captures|] == captures;
  }

  // ---- The verdict as an order --------------------------------------------------------------------------------

  predicate Better(control: seq<Observation>, candidate: seq<Observation>) {
    Derived(control, candidate) == Some(ObservedBetter)
  }

  /** The candidate is at least as good in every metric of every pair. */
  ghost predicate AtLeast(a: Observation, b: Observation) {
    PairSufficient(a, b) && forall k :: 0 <= k < 4 ==> Score(Totals(a), k) <= Score(Totals(b), k)
  }

  ghost predicate Above(a: Observation, b: Observation) {
    PairSufficient(a, b) && exists k :: 0 <= k < 4 && Score(Totals(a), k) < Score(Totals(b), k)
  }

  ghost predicate Dominates(control: seq<Observation>, candidate: seq<Observation>) {
    && |control| == |candidate|
    && (forall i :: 0 <= i < |control| ==> Matches(control[i], candidate[i]) && PairInRange(control[i], candidate[i]))
    && (forall i :: 0 <= i < |control| ==> AtLeast(control[i], candidate[i]))
    && (exists i :: 0 <= i < |control| && Above(control[i], candidate[i]))
    && InRange(Aggregate(control)) && InRange(Aggregate(candidate))
  }

  lemma FlagsAreScores(a: Observation, b: Observation)
    requires PairSufficient(a, b)
    ensures Regresses(a, b) <==> !AtLeast(a, b)
    ensures Improves(a, b) <==> Above(a, b)
  {
    hide Compare, Score;
    forall k | 0 <= k < 4 ensures Compare(Totals(a), Totals(b), k) == Sign(Score(Totals(b), k) - Score(Totals(a), k)) {
      CompareIsExact(Totals(a), Totals(b), k);
    }
  }

  /** The verdict is dominance of the exact ratios: better in some metric of some pair, worse in none. */
  lemma VerdictIsDominance(control: seq<Observation>, candidate: seq<Observation>)
    ensures Better(control, candidate) <==> Dominates(control, candidate)
  {
    hide Matches, AtLeast, Above, Regresses, Improves, PairInRange, PairSufficient, Aggregate;
    forall a: Observation, b: Observation ensures AtLeast(a, b) || Above(a, b) ==> PairSufficient(a, b) {
      ScoresNeedData(a, b);
    }
    forall a: Observation, b: Observation | PairSufficient(a, b)
      ensures (Regresses(a, b) <==> !AtLeast(a, b)) && (Improves(a, b) <==> Above(a, b))
    {
      FlagsAreScores(a, b);
    }
  }

  lemma ScoresNeedData(a: Observation, b: Observation)
    ensures AtLeast(a, b) || Above(a, b) ==> PairSufficient(a, b)
  {
  }

  lemma Chain(a: Observation, b: Observation, c: Observation)
    requires AtLeast(a, b) && AtLeast(b, c)
    ensures AtLeast(a, c) && (Above(a, b) || Above(b, c) ==> Above(a, c)) && !Above(a, a)
  {
    hide Score, Totals;
    assert forall k :: 0 <= k < 4 ==> Score(Totals(a), k) <= Score(Totals(b), k) <= Score(Totals(c), k);
    if Above(a, b) {
      var k :| 0 <= k < 4 && Score(Totals(a), k) < Score(Totals(b), k);
      assert Score(Totals(a), k) < Score(Totals(c), k);
    }
    if Above(b, c) {
      var k :| 0 <= k < 4 && Score(Totals(b), k) < Score(Totals(c), k);
      assert Score(Totals(a), k) < Score(Totals(c), k);
    }
  }

  lemma BetterIsIrreflexive(a: seq<Observation>)
    ensures !Better(a, a)
  {
    hide Derived, Matches, AtLeast, PairInRange, Aggregate;
    VerdictIsDominance(a, a);
  }

  lemma BetterIsTransitive(a: seq<Observation>, b: seq<Observation>, c: seq<Observation>)
    requires Better(a, b) && Better(b, c)
    ensures Better(a, c)
  {
    hide Derived, AtLeast, Above, Totals, Aggregate;
    VerdictIsDominance(a, b);
    VerdictIsDominance(b, c);
    VerdictIsDominance(a, c);
    forall i | 0 <= i < |a|
      ensures Matches(a[i], c[i]) && PairInRange(a[i], c[i]) && AtLeast(a[i], c[i])
      ensures Above(a[i], b[i]) ==> Above(a[i], c[i])
    {
      assert Matches(a[i], b[i]) && Matches(b[i], c[i]);
      Chain(a[i], b[i], c[i]);
    }
  }

  lemma BetterIsAsymmetric(a: seq<Observation>, b: seq<Observation>)
    requires Better(a, b)
    ensures !Better(b, a)
  {
    if Better(b, a) {
      BetterIsTransitive(a, b, a);
      BetterIsIrreflexive(a);
    }
  }
}
