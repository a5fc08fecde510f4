/** The totals and scores of the paired evidence, read off the requests column by column. */
module EvidenceTotals {
  import opened PairedEvidence
  import opened Wrappers

  // ---- The schedule -------------------------------------------------------------------------------------------

  /** Each pair runs both roles, and the role that runs first changes from pair to pair, control first of all. */
  lemma ScheduleAlternates(repetitions: nat, pair: nat)
    requires 1 <= pair <= repetitions
    ensures var s := Schedule(repetitions); var first, second := s[2 * pair - 2], s[2 * pair - 1];
      && first.pair == pair == second.pair && first.slot == 0 && second.slot == 1
      && first.ordinal == 2 * pair - 1 && second.ordinal == 2 * pair
      && ((first.role == Control && second.role == Candidate) || (first.role == Candidate && second.role == Control))
      && (pair == 1 ==> first.role == Control)
      && (pair > 1 ==> first.role == s[2 * pair - 3].role)
      && s[2 * repetitions].role == Vllm && s[2 * repetitions + 1].role == Sglang
  {
    var n := 2 * pair - 2;
    assert n / 2 == pair - 1 && n % 2 == 0 && (n + 1) / 2 == pair - 1 && (n + 1) % 2 == 1;
    if pair > 1 {
      assert (n - 1) / 2 == pair - 2 && (n - 1) % 2 == 1;
    }
  }

  // ---- Sums over the completed requests ------------------------------------------------------------------------

  function Completed(o: Observation): Observation {
    if o == [] then [] else (if o[0].completed then [o[0]] else []) + Completed(o[1..])
  }

  function SumOf(o: Observation, column: Request -> nat): nat {
    if o == [] then 0 else column(o[0]) + SumOf(o[1..], column)
  }

  /** All intervals between tokens, request after request. */
  function Intervals(o: Observation): seq<nat> {
    if o == [] then [] else o[0].itl + Intervals(o[1..])
  }

  function SumAll(s: seq<nat>): nat {
    if s == [] then 0 else s[0] + SumAll(s[1..])
  }

  lemma {:induction false} CompletedPlus(o: Observation, r: Request)
    ensures Completed(o + [r]) == Completed(o) + (if r.completed then [r] else [])
  {
    if o == [] {
      assert o + [r] == [r] && [r][1..] == [];
    } else {
      CompletedPlus(o[1..], r);
      assert (o + [r])[1..] == o[1..] + [r];
    }
  }

  lemma {:induction false} SumOfPlus(o: Observation, r: Request, column: Request -> nat)
    ensures SumOf(o + [r], column) == SumOf(o, column) + column(r)
  {
    if o == [] {
      assert o + [r] == [r] && [r][1..] == [];
    } else {
      SumOfPlus(o[1..], r, column);
      assert (o + [r])[1..] == o[1..] + [r];
    }
  }

  lemma {:induction false} IntervalsPlus(o: Observation, r: Request)
    ensures Intervals(o + [r]) == Intervals(o) + r.itl
  {
    if o == [] {
      assert o + [r] == [r] && [r][1..] == [] && r.itl + [] == r.itl;
    } else {
      IntervalsPlus(o[1..], r);
      assert (o + [r])[1..] == o[1..] + [r];
    }
  }

  lemma {:induction false} SumAllPlus(s: seq<nat>, t: seq<nat>)
    ensures SumAll(s + t) == SumAll(s) + SumAll(t)
  {
    if s == [] {
      assert s + t == t;
    } else {
      SumAllPlus(s[1..], t);
      assert (s + t)[1..] == s[1..] + t;
    }
  }

  lemma {:induction false} SumIsSumAll(s: seq<nat>)
    ensures Sum(s) == SumAll(s)
  {
    if s != [] {
      var n := |s| - 1;
      SumIsSumAll(s[..n]);
      SumAllPlus(s[..n], [s[n]]);
      assert s == s[..n] + [s[n]];
    }
  }

  /** The metrics of a run are sums over its completed requests, each of its own column. */
  ghost predicate AreSums(m: Metrics, done: Observation) {
    && m.completed == |done|
    && m.prefillTokens == SumOf(done, (r: Request) => r.prompt) && m.prefillNs == SumOf(done, (r: Request) => r.prefill)
    && m.decodeTokens == SumOf(done, (r: Request) => r.output) && m.decodeNs == SumOf(done, (r: Request) => r.decode)
    && m.ttftNs == SumOf(done, (r: Request) => r.ttft)
    && m.itlNs == SumAll(Intervals(done)) && m.itlCount == |Intervals(done)|
  }

  lemma AddedIsSum(m: Metrics, done: Observation, r: Request)
    requires AreSums(m, done) && r.completed
    ensures AreSums(Added(m, r), done + [r])
  {
    SumOfPlus(done, r, (r: Request) => r.prompt);
    SumOfPlus(done, r, (r: Request) => r.prefill);
    SumOfPlus(done, r, (r: Request) => r.output);
    SumOfPlus(done, r, (r: Request) => r.decode);
    SumOfPlus(done, r, (r: Request) => r.ttft);
    IntervalsPlus(done, r);
    SumAllPlus(Intervals(done), r.itl);
    SumIsSumAll(r.itl);
  }

  lemma {:induction false} TotalsAreSums(o: Observation)
    ensures AreSums(Totals(o), Completed(o))
  {
    hide AreSums, Added;
    if o == [] {
      NothingIsSummed();
    } else {
      var n := |o| - 1;
      TotalsAreSums(o[..n]);
      CompletedPlus(o[..n], o[n]);
      assert o == o[..n] + [o[n]];
      if o[n].completed {
        AddedIsSum(Totals(o[..n]), Completed(o[..n]), o[n]);
      } else {
        UnfinishedAddsNothing(Totals(o[..n]), o[n]);
        assert Completed(o[..n]) + [] == Completed(o[..n]);
      }
    }
  }

  lemma NothingIsSummed()
    ensures AreSums(Metrics(0, 0, 0, 0, 0, 0, 0, 0), [])
  {
  }

  lemma UnfinishedAddsNothing(m: Metrics, r: Request)
    requires !r.completed
    ensures Added(m, r) == m
  {
  }

  // ---- Scores -------------------------------------------------------------------------------------------------

  /** Some request completed, some time was spent on either phase, and some interval was measured. */
  predicate Measurable(o: Observation) {
    var done := Completed(o);
    done != [] && SumOf(done, (r: Request) => r.prefill) > 0 && SumOf(done, (r: Request) => r.decode) > 0
    && Intervals(done) != []
  }

  function Quotient(a: nat, b: nat): real
    requires b > 0
  {
    a as real / b as real
  }

  /** Prompt tokens per prefill time, output tokens per decode time, and the mean latencies, smaller being better. */
  function Prefill(o: Observation): real
    requires Measurable(o)
  {
    var done := Completed(o); Quotient(SumOf(done, (r: Request) => r.prompt), SumOf(done, (r: Request) => r.prefill))
  }

  function Decode(o: Observation): real
    requires Measurable(o)
  {
    var done := Completed(o); Quotient(SumOf(done, (r: Request) => r.output), SumOf(done, (r: Request) => r.decode))
  }

  function FirstToken(o: Observation): real
    requires Measurable(o)
  {
    var done := Completed(o); Quotient(SumOf(done, (r: Request) => r.ttft), |done|)
  }

  function NextToken(o: Observation): real
    requires Measurable(o)
  {
    var done := Completed(o); Quotient(SumAll(Intervals(done)), |Intervals(done)|)
  }

  lemma ScoresAreExact(o: Observation)
    ensures Sufficient(Totals(o)) <==> Measurable(o)
    ensures Measurable(o) ==>
      && Score(Totals(o), 0) == Prefill(o) && Score(Totals(o), 1) == Decode(o)
      && Score(Totals(o), 2) == -FirstToken(o) && Score(Totals(o), 3) == -NextToken(o)
  {
    hide Totals, SumOf, Completed, Intervals, SumAll;
    TotalsAreSums(o);
  }

  ghost predicate NoWorse(a: Observation, b: Observation) {
    && Measurable(a) && Measurable(b)
    && Prefill(a) <= Prefill(b) && Decode(a) <= Decode(b)
    && FirstToken(b) <= FirstToken(a) && NextToken(b) <= NextToken(a)
  }

  ghost predicate SomewhereBetter(a: Observation, b: Observation) {
    && Measurable(a) && Measurable(b)
    && (Prefill(a) < Prefill(b) || Decode(a) < Decode(b) ||
        FirstToken(b) < FirstToken(a) || NextToken(b) < NextToken(a))
  }

  lemma ScoresCompare(a: Observation, b: Observation)
    ensures AtLeast(a, b) <==> NoWorse(a, b)
    ensures Above(a, b) <==> SomewhereBetter(a, b)
  {
    hide Totals, Measurable, Prefill, Decode, FirstToken, NextToken, Score, Sufficient;
    ScoresAreExact(a);
    ScoresAreExact(b);
    if Measurable(a) && Measurable(b) {
      assert (forall k :: 0 <= k < 4 ==> Score(Totals(a), k) <= Score(Totals(b), k)) <==>
        Score(Totals(a), 0) <= Score(Totals(b), 0) && Score(Totals(a), 1) <= Score(Totals(b), 1)
        && Score(Totals(a), 2) <= Score(Totals(b), 2) && Score(Totals(a), 3) <= Score(Totals(b), 3);
      if k :| 0 <= k < 4 && Score(Totals(a), k) < Score(Totals(b), k) {
        assert k == 0 || k == 1 || k == 2 || k == 3;
      }
    }
  }

  /** The two runs answered the same requests, all of them, with the same outputs. */
  predicate AnsweredAlike(a: Observation, b: Observation) {
    |a| == |b| && forall i :: 0 <= i < |a| ==>
      && a[i].completed && b[i].completed && a[i].ordinal == b[i].ordinal && a[i].input == b[i].input
      && a[i].prompt == b[i].prompt && a[i].output == b[i].output && a[i].outputRoot == b[i].outputRoot
  }

  /** No sum over the completed requests exceeds 64 bits. */
  ghost predicate SumsFit(o: Observation) {
    var done := Completed(o);
    var most := 0x1_0000_0000_0000_0000;
    && SumOf(done, (r: Request) => r.prompt) < most && SumOf(done, (r: Request) => r.prefill) < most
    && SumOf(done, (r: Request) => r.output) < most && SumOf(done, (r: Request) => r.decode) < most
    && SumOf(done, (r: Request) => r.ttft) < most && SumAll(Intervals(done)) < most
  }

  function Together(runs: seq<Observation>): Observation {
    if runs == [] then [] else Together(runs[..|runs| - 1]) + runs[|runs| - 1]
  }

  lemma CombinedIsAdded(m: Metrics, n: Metrics, r: Request)
    ensures Combined(m, Added(n, r)) == Added(Combined(m, n), r)
  {
  }

  lemma {:induction false} TotalsPlus(a: Observation, b: Observation)
    ensures Totals(a + b) == Combined(Totals(a), Totals(b))
    decreases |b|
  {
    hide Added, Combined;
    if b == [] {
      assert a + b == a;
      CombinedWithNothing(Totals(a));
    } else {
      var n := |b| - 1;
      TotalsPlus(a, b[..n]);
      assert (a + b)[..|a + b| - 1] == a + b[..n] && (a + b)[|a + b| - 1] == b[n];
      CombinedIsAdded(Totals(a), Totals(b[..n]), b[n]);
    }
  }

  lemma CombinedWithNothing(m: Metrics)
    ensures Combined(m, Metrics(0, 0, 0, 0, 0, 0, 0, 0)) == m
  {
  }

  /** The aggregate of all runs is the total of all their requests. */
  lemma {:induction false} AggregateIsTotal(runs: seq<Observation>)
    ensures Aggregate(runs) == Totals(Together(runs))
  {
    hide Combined;
    if runs != [] {
      var n := |runs| - 1;
      AggregateIsTotal(runs[..n]);
      TotalsPlus(Together(runs[..n]), runs[n]);
    }
  }

  lemma RangesAreSums(o: Observation)
    ensures PairedEvidence.InRange(Totals(o)) <==> SumsFit(o)
  {
    hide Totals, SumOf, Completed, Intervals, SumAll;
    TotalsAreSums(o);
  }

  /** Both roles ran equally often, and no sum of a run or of all runs of a role exceeds 64 bits. */
  ghost predicate Countable(control: seq<Observation>, candidate: seq<Observation>) {
    && |control| == |candidate|
    && (forall i :: 0 <= i < |control| ==> SumsFit(control[i]) && SumsFit(candidate[i]))
    && SumsFit(Together(control)) && SumsFit(Together(candidate))
  }

  lemma DerivedIffCountable(control: seq<Observation>, candidate: seq<Observation>)
    ensures Derived(control, candidate).Some? <==> Countable(control, candidate)
    ensures Countable(control, candidate) ==> Derived(control, candidate) == Some(Judged(control, candidate))
  {
    hide SumsFit, Totals, Aggregate, Together, Judged, PairedEvidence.InRange;
    AggregateIsTotal(control);
    AggregateIsTotal(candidate);
    RangesAreSums(Together(control));
    RangesAreSums(Together(candidate));
    forall o: Observation ensures PairedEvidence.InRange(Totals(o)) <==> SumsFit(o) {
      RangesAreSums(o);
    }
  }

  lemma MatchesIsAlike(a: Observation, b: Observation)
    ensures Matches(a, b) <==> AnsweredAlike(a, b)
  {
  }

  /**
   * The verdict from the requests: none when the sums do not fit; otherwise not evaluated when some pair
   * was not answered alike, insufficient when some pair cannot be measured, better when no pair is worse
   * in throughput or mean latency and some pair is better in one of them, and not better in all other cases.
   */
  lemma VerdictFromRequests(control: seq<Observation>, candidate: seq<Observation>)
    ensures Derived(control, candidate) ==
      if !Countable(control, candidate) then None
      else if exists i :: 0 <= i < |control| && !AnsweredAlike(control[i], candidate[i]) then Some(NotEvaluated)
      else if exists i :: 0 <= i < |control| && !(Measurable(control[i]) && Measurable(candidate[i]))
        then Some(Insufficient)
      else if (forall i :: 0 <= i < |control| ==> NoWorse(control[i], candidate[i]))
        && (exists i :: 0 <= i < |control| && SomewhereBetter(control[i], candidate[i])) then Some(ObservedBetter)
      else Some(ObservedNotBetter)
  {
    hide SumsFit, Together, Derived, Matches, AnsweredAlike, NoWorse, SomewhereBetter, Regresses, Improves,
      PairSufficient,
      Measurable;
    DerivedIffCountable(control, candidate);
    if Countable(control, candidate) {
      forall i | 0 <= i < |control|
        ensures Matches(control[i], candidate[i]) <==> AnsweredAlike(control[i], candidate[i])
        ensures PairSufficient(control[i], candidate[i]) <==> Measurable(control[i]) && Measurable(candidate[i])
        ensures PairSufficient(control[i], candidate[i]) ==>
          (Regresses(control[i], candidate[i]) <==> !NoWorse(control[i], candidate[i]))
          && (Improves(control[i], candidate[i]) <==> SomewhereBetter(control[i], candidate[i]))
      {
        PairFromRequests(control[i], candidate[i]);
      }
    }
  }

  lemma PairFromRequests(a: Observation, b: Observation)
    ensures Matches(a, b) <==> AnsweredAlike(a, b)
    ensures PairSufficient(a, b) <==> Measurable(a) && Measurable(b)
    ensures PairSufficient(a, b) ==>
      (Regresses(a, b) <==> !NoWorse(a, b)) && (Improves(a, b) <==> SomewhereBetter(a, b))
  {
    hide Totals, Sufficient, Measurable, NoWorse, SomewhereBetter, Regresses, Improves, AtLeast, Above, Matches,
      AnsweredAlike;
    MatchesIsAlike(a, b);
    ScoresAreExact(a);
    ScoresAreExact(b);
    if PairSufficient(a, b) {
      FlagsAreScores(a, b);
      ScoresCompare(a, b);
    }
  }
}
