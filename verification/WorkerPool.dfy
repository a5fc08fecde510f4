/**
 * The bounded worker pool: one serving thread admits, reaps and joins; every worker thread runs its
 * function, raises the failure flag if that threw, raises its own done flag and exits.  A step is one
 * atomic action of one thread, so that a sequence of steps is an interleaving.
 */
module WorkerPool {
  import opened Wrappers

  datatype Stage = Ready | Thrown | Finished | Flagged | Exited
  datatype Thread = Thread(stage: Stage, threw: bool, runs: nat, joined: bool)

  datatype Outcome = Nothing | Admitted | Refused | LaunchFailed | AllJoined

  /** Where the serving thread is: between calls, in the loop of Reap, in TryStart, or in the loop of Join. */
  datatype Server = Idle(last: Outcome) | Reaping(i: nat) | Reclaiming(i: nat) | Checking | Launching | Joining(i: nat)

  /** The list holds tickets: the number of threads started before.  A reserved entry has no thread yet. */
  datatype Pool = Pool(capacity: nat, workers: seq<nat>, threads: seq<Thread>, failed: bool, server: Server)

  datatype Action = CallTryStart | CallJoin | Serve(launched: bool) | Work(t: nat, throws: bool)

  const MAX_CAPACITY := 8192

  function Constructed(capacity: nat): (r: Option<Pool>)
    ensures r.Some? <==> 1 <= capacity <= MAX_CAPACITY
    ensures r.Some? ==> Inv(r.value)
  {
    if capacity == 0 || capacity > MAX_CAPACITY then None
    else Some(Pool(capacity, [], [], false, Idle(Nothing)))
  }

  predicate Done(t: Thread) { t.stage.Flagged? || t.stage.Exited? }

  /** The next atomic action of a worker: run, raise the failure flag, raise the done flag, exit. */
  function Moved(w: Thread, throws: bool): (r: Thread)
    requires !w.stage.Exited?
    ensures r.joined == w.joined && Ahead(r.stage) < Ahead(w.stage)
    ensures forall failed :: ThreadSound(w, failed) && !w.joined ==> ThreadSound(r, failed || w.stage.Thrown?)
  {
    match w.stage
    case Ready => w.(stage := if throws then Thrown else Finished, threw := throws, runs := w.runs + 1)
    case Thrown => w.(stage := Finished)
    case Finished => w.(stage := Flagged)
    case Flagged => w.(stage := Exited)
  }

  function Worked(p: Pool, t: nat, throws: bool): Pool
    requires t < |p.threads| && !p.threads[t].stage.Exited?
  {
    p.(threads := p.threads[t := Moved(p.threads[t], throws)], failed := p.failed || p.threads[t].stage.Thrown?)
  }

  predicate Listed(p: Pool, i: nat) { i < |p.workers| && p.workers[i] < |p.threads| }

  /** Joining blocks until the thread has exited. */
  predicate Joinable(p: Pool, i: nat) { Listed(p, i) && p.threads[p.workers[i]].stage.Exited? }

  function Marked(p: Pool, i: nat): Pool
    requires Listed(p, i)
  {
    var t := p.workers[i];
    p.(threads := p.threads[t := p.threads[t].(joined := true)])
  }

  /** The next atomic action of the serving thread, or nothing while it waits. */
  function Served(p: Pool, launched: bool): Option<Pool> {
    match p.server
    case Idle(_) => None
    case Reaping(i) =>
      if i >= |p.workers| then Some(p.(server := Checking))
      else if !Listed(p, i) then None
      else Some(p.(server := if Done(p.threads[p.workers[i]]) then Reclaiming(i) else Reaping(i + 1)))
    case Reclaiming(i) =>
      if !Joinable(p, i) then None
      else Some(Marked(p, i).(workers := p.workers[..i] + p.workers[i + 1..], server := Reaping(i)))
    case Checking =>
      if |p.workers| == p.capacity || p.failed then Some(p.(server := Idle(Refused)))
      else Some(p.(workers := p.workers + [|p.threads|], server := Launching))
    case Launching =>
      if launched then Some(p.(threads := p.threads + [Thread(Ready, false, 0, false)], server := Idle(Admitted)))
      else if p.workers == [] then None
      else Some(p.(workers := p.workers[..|p.workers| - 1], server := Idle(LaunchFailed)))
    case Joining(i) =>
      if i >= |p.workers| then Some(p.(workers := [], server := Idle(AllJoined)))
      else if !Joinable(p, i) then None
      else Some(Marked(p, i).(server := Joining(i + 1)))
  }

  function Step(p: Pool, a: Action): Option<Pool> {
    match a
    case CallTryStart => if p.server.Idle? then Some(p.(server := Reaping(0))) else None
    case CallJoin => if p.server.Idle? then Some(p.(server := Joining(0))) else None
    case Serve(launched) => Served(p, launched)
    case Work(t, throws) => if t < |p.threads| && !p.threads[t].stage.Exited? then Some(Worked(p, t, throws)) else None
  }

  /** An interleaving; None if some action was not possible where it stood. */
  function Run(p: Pool, actions: seq<Action>): Option<Pool> {
    if actions == [] then Some(p)
    else
      match Run(p, actions[..|actions| - 1])
      case None => None
      case Some(q) => Step(q, actions[|actions| - 1])
  }

  // ---- The invariant ---------------------------------------------------------------------------------

  predicate Increasing(s: seq<nat>) { forall i, j :: 0 <= i < j < |s| ==> s[i] < s[j] }

  /** The listed tickets that have a thread not joined yet. */
  function Held(p: Pool): seq<nat> {
    match p.server
    case Launching => if p.workers == [] then [] else p.workers[..|p.workers| - 1]
    case Joining(i) => if i <= |p.workers| then p.workers[i..] else []
    case _ => p.workers
  }

  predicate ThreadSound(t: Thread, failed: bool) {
    && t.runs == (if t.stage.Ready? then 0 else 1)
    && (t.joined ==> t.stage.Exited?)
    && (t.threw ==> !t.stage.Ready?) && (t.stage.Thrown? ==> t.threw)
    && (t.threw && !t.stage.Thrown? ==> failed)
  }

  predicate ListSound(p: Pool) {
    && |p.workers| <= p.capacity && Increasing(p.workers)
    && (forall i :: 0 <= i < |p.workers| - (if p.server.Launching? then 1 else 0) ==> p.workers[i] < |p.threads|)
  }

  predicate ServerSound(p: Pool) {
    match p.server
    case Idle(last) => last.AllJoined? ==> p.workers == []
    case Reaping(i) => i <= |p.workers|
    case Reclaiming(i) => i < |p.workers| && Listed(p, i) && Done(p.threads[p.workers[i]])
    case Checking => true
    case Launching => p.workers != [] && p.workers[|p.workers| - 1] == |p.threads|
    case Joining(i) => i <= |p.workers|
  }

  ghost predicate ReapedThrower(p: Pool) {
    exists t :: 0 <= t < |p.threads| && p.threads[t].joined && p.threads[t].threw
  }

  ghost predicate Inv(p: Pool) {
    && 1 <= p.capacity <= MAX_CAPACITY
    && ListSound(p) && ServerSound(p)
    && (forall t :: 0 <= t < |p.threads| ==> ThreadSound(p.threads[t], p.failed))
    && (forall t :: 0 <= t < |p.threads| ==> (p.threads[t].joined <==> t !in Held(p)))
    && (p.server.Launching? || p.server == Idle(Admitted) ==> !ReapedThrower(p))
  }

  lemma WorkKeeps(p: Pool, t: nat, throws: bool)
    requires Inv(p) && t < |p.threads| && !p.threads[t].stage.Exited?
    ensures Inv(Worked(p, t, throws))
  {
    hide Moved, Held;
    var q := Worked(p, t, throws);
    assert Held(q) == Held(p) by { HeldIgnoresThreads(p, q); }
    forall u | 0 <= u < |q.threads|
      ensures q.threads[u].joined == p.threads[u].joined && ThreadSound(q.threads[u], q.failed) {
      assert ThreadSound(p.threads[u], p.failed);
    }
    assert ServerSound(q) by { ServerIgnoresMoves(p, t, throws); }
    if ReapedThrower(q) {
      var u :| 0 <= u < |q.threads| && q.threads[u].joined && q.threads[u].threw;
      assert p.threads[u].joined && p.threads[u].threw;
    }
  }

  lemma HeldIgnoresThreads(p: Pool, q: Pool)
    requires p.server == q.server && p.workers == q.workers
    ensures Held(p) == Held(q)
  {
  }

  lemma ServerIgnoresMoves(p: Pool, t: nat, throws: bool)
    requires ServerSound(p) && t < |p.threads| && !p.threads[t].stage.Exited?
    ensures ServerSound(Worked(p, t, throws))
  {
  }

  lemma ReclaimKeeps(p: Pool)
    requires Inv(p) && p.server.Reclaiming? && Joinable(p, p.server.i)
    ensures Inv(Served(p, true).value)
  {
    var i := p.server.i;
    var q := Served(p, true).value;
    var t := p.workers[i];
    RemovalKeepsOrder(p.workers, i);
    forall u | 0 <= u < |q.threads|
      ensures ThreadSound(q.threads[u], q.failed) && (q.threads[u].joined <==> u !in q.workers) {
      assert ThreadSound(p.threads[u], p.failed);
    }
    assert forall j :: 0 <= j < |q.workers| ==> q.workers[j] in p.workers;
  }

  lemma RemovalKeepsOrder(s: seq<nat>, i: nat)
    requires i < |s| && Increasing(s)
    ensures var r := s[..i] + s[i + 1..];
      Increasing(r) && forall x :: x in r <==> x in s && x != s[i]
  {
    var r := s[..i] + s[i + 1..];
    assert s == s[..i] + [s[i]] + s[i + 1..];
    forall j, k | 0 <= j < k < |r| ensures r[j] < r[k] {
      assert r[j] == s[if j < i then j else j + 1] && r[k] == s[if k < i then k else k + 1];
    }
    forall x | x in r ensures x != s[i] {
      var j :| 0 <= j < |r| && r[j] == x;
      assert x == s[if j < i then j else j + 1];
    }
  }

  lemma JoinKeeps(p: Pool)
    requires Inv(p) && p.server.Joining? && Joinable(p, p.server.i)
    ensures Inv(Served(p, true).value)
  {
    var i := p.server.i;
    var q := Served(p, true).value;
    assert p.workers[i..] == [p.workers[i]] + q.workers[i + 1..];
    assert p.workers[i] !in q.workers[i + 1..];
  }

  lemma CheckKeeps(p: Pool)
    requires Inv(p) && p.server.Checking?
    ensures Inv(Served(p, true).value)
  {
    var q := Served(p, true).value;
    if q.server.Launching? {
      assert Held(q) == p.workers;
    }
  }

  lemma LaunchKeeps(p: Pool, launched: bool)
    requires Inv(p) && p.server.Launching?
    ensures Served(p, launched).Some? && Inv(Served(p, launched).value)
  {
    var q := Served(p, launched).value;
    var n := |p.workers| - 1;
    assert p.workers == Held(p) + [p.workers[n]];
    assert forall u :: 0 <= u < |p.threads| ==> q.threads[u] == p.threads[u];
  }

  lemma CallKeeps(p: Pool, server: Server)
    requires Inv(p) && p.server.Idle? && (server == Reaping(0) || server == Joining(0))
    ensures Inv(p.(server := server))
  {
    assert p.workers[0..] == p.workers;
    assert Held(p.(server := server)) == Held(p);
  }

  lemma ReapKeeps(p: Pool)
    requires Inv(p) && p.server.Reaping? && Served(p, true).Some?
    ensures Inv(Served(p, true).value)
  {
    assert Held(Served(p, true).value) == Held(p);
  }

  lemma AllJoinedKeeps(p: Pool)
    requires Inv(p) && p.server == Joining(|p.workers|)
    ensures Inv(Served(p, true).value)
  {
    assert Held(p) == [];
  }

  lemma StepKeeps(p: Pool, a: Action)
    requires Inv(p) && Step(p, a).Some?
    ensures Inv(Step(p, a).value)
  {
    hide Worked, Marked, Increasing, ThreadSound, Held;
    match a
    case Work(t, throws) => WorkKeeps(p, t, throws);
    case CallTryStart => CallKeeps(p, Reaping(0));
    case CallJoin => CallKeeps(p, Joining(0));
    case Serve(launched) =>
      match p.server {
        case Reaping(_) => ReapKeeps(p);
        case Reclaiming(_) => ReclaimKeeps(p);
        case Joining(i) => if i < |p.workers| { JoinKeeps(p); } else { AllJoinedKeeps(p); }
        case Checking => CheckKeeps(p);
        case Launching => LaunchKeeps(p, launched);
        case Idle(_) =>
      }
  }

  lemma {:induction false} RunKeeps(p: Pool, actions: seq<Action>)
    requires Inv(p) && Run(p, actions).Some?
    ensures Inv(Run(p, actions).value)
  {
    hide Inv, Step;
    if actions != [] {
      var n := |actions| - 1;
      RunKeeps(p, actions[..n]);
      StepKeeps(Run(p, actions[..n]).value, actions[n]);
    }
  }

  // ---- Safety over all interleavings ------------------------------------------------------------------

  function Unjoined(p: Pool): set<nat> {
    set t | 0 <= t < |p.threads| && !p.threads[t].joined
  }

  function Elements(s: seq<nat>): set<nat> { set x | x in s }

  lemma {:induction false} ElementsAreFew(s: seq<nat>)
    ensures |Elements(s)| <= |s|
  {
    if s == [] {
      assert Elements(s) == {};
    } else {
      var n := |s| - 1;
      ElementsAreFew(s[..n]);
      assert s == s[..n] + [s[n]];
      assert Elements(s) == Elements(s[..n]) + {s[n]};
    }
  }

  /** Started threads that are not joined never outnumber the capacity, and no function ever runs twice. */
  lemma CapacityAndRunsHold(capacity: nat, actions: seq<Action>)
    requires Constructed(capacity).Some? && Run(Constructed(capacity).value, actions).Some?
    ensures var p := Run(Constructed(capacity).value, actions).value;
      && |Unjoined(p)| <= capacity
      && (forall t :: 0 <= t < |p.threads| ==> p.threads[t].runs == if p.threads[t].stage.Ready? then 0 else 1)
  {
    var p0 := Constructed(capacity).value;
    var p := Run(p0, actions).value;
    RunKeeps(p0, actions);
    CapacityIsFixed(p0, actions);
    assert Unjoined(p) == Elements(Held(p));
    ElementsAreFew(Held(p));
  }

  lemma {:induction false} CapacityIsFixed(p: Pool, actions: seq<Action>)
    requires Run(p, actions).Some?
    ensures Run(p, actions).value.capacity == p.capacity
  {
    if actions != [] {
      CapacityIsFixed(p, actions[..|actions| - 1]);
    }
  }

  /** When Join returns, every function ever admitted has run exactly once and its thread is gone. */
  lemma JoinFinishesEverything(capacity: nat, actions: seq<Action>)
    requires Constructed(capacity).Some? && Run(Constructed(capacity).value, actions).Some?
    requires Run(Constructed(capacity).value, actions).value.server == Idle(AllJoined)
    ensures var p := Run(Constructed(capacity).value, actions).value;
      forall t :: 0 <= t < |p.threads| ==> p.threads[t].joined && p.threads[t].runs == 1 && p.threads[t].stage.Exited?
  {
    hide Run;
    RunKeeps(Constructed(capacity).value, actions);
  }

  /** A raised failure flag stays raised, and no check after it admits anything. */
  lemma {:induction false} FailureEndsAdmission(p: Pool, actions: seq<Action>)
    requires p.failed && !p.server.Launching? && p.server != Idle(Admitted)
    requires Run(p, actions).Some?
    ensures var q := Run(p, actions).value;
      q.failed && |q.threads| == |p.threads| && !q.server.Launching? && q.server != Idle(Admitted)
  {
    if actions != [] {
      FailureEndsAdmission(p, actions[..|actions| - 1]);
    }
  }

  /** Once a worker whose function threw has been reaped, the call that reaped it and all later ones refuse. */
  lemma ReapedThrowerEndsAdmission(p: Pool, actions: seq<Action>)
    requires Inv(p) && ReapedThrower(p) && Run(p, actions).Some?
    ensures var q := Run(p, actions).value;
      |q.threads| == |p.threads| && !q.server.Launching? && q.server != Idle(Admitted)
  {
    hide Run;
    assert p.failed;
    FailureEndsAdmission(p, actions);
  }

  // ---- Refusals ---------------------------------------------------------------------------------------

  ghost predicate SomeoneThrew(p: Pool) { exists t :: 0 <= t < |p.threads| && p.threads[t].threw }

  /** The failure flag was raised by a worker that threw, and a refusal by the flag or a full list. */
  ghost predicate Reasoned(p: Pool) {
    (p.failed ==> SomeoneThrew(p)) && (p.server == Idle(Refused) ==> p.failed || |p.workers| == p.capacity)
  }

  lemma WorkIsReasoned(p: Pool, t: nat, throws: bool)
    requires Inv(p) && Reasoned(p) && t < |p.threads| && !p.threads[t].stage.Exited?
    ensures Reasoned(Worked(p, t, throws))
  {
    var q := Worked(p, t, throws);
    assert ThreadSound(p.threads[t], p.failed);
    if p.failed {
      var u :| 0 <= u < |p.threads| && p.threads[u].threw;
      assert ThreadSound(p.threads[u], p.failed) && q.threads[u].threw;
    } else if p.threads[t].stage.Thrown? {
      assert q.threads[t].threw;
    }
  }

  lemma ServeIsReasoned(p: Pool, launched: bool)
    requires Inv(p) && Reasoned(p) && Served(p, launched).Some?
    ensures Reasoned(Served(p, launched).value)
  {
    var q := Served(p, launched).value;
    if p.failed {
      var u :| 0 <= u < |p.threads| && p.threads[u].threw;
      assert q.threads[u].threw;
    }
  }

  lemma {:induction false} RunIsReasoned(p: Pool, actions: seq<Action>)
    requires Inv(p) && Reasoned(p) && Run(p, actions).Some?
    ensures Reasoned(Run(p, actions).value)
  {
    hide Inv, Worked, Served, Reasoned;
    if actions != [] {
      var n := |actions| - 1;
      var q := Run(p, actions[..n]).value;
      RunKeeps(p, actions[..n]);
      RunIsReasoned(p, actions[..n]);
      match actions[n]
      case Work(t, throws) => WorkIsReasoned(q, t, throws);
      case Serve(launched) => ServeIsReasoned(q, launched);
      case CallTryStart => CallIsReasoned(q, Reaping(0));
      case CallJoin => CallIsReasoned(q, Joining(0));
    }
  }

  lemma CallIsReasoned(p: Pool, server: Server)
    requires Reasoned(p) && !server.Idle?
    ensures Reasoned(p.(server := server))
  {
    if p.failed {
      var u :| 0 <= u < |p.threads| && p.threads[u].threw;
      assert p.(server := server).threads[u].threw;
    }
  }

  lemma {:induction false} ElementsOfIncreasing(s: seq<nat>)
    requires Increasing(s)
    ensures |Elements(s)| == |s|
  {
    if s == [] {
      assert Elements(s) == {};
    } else {
      var n := |s| - 1;
      ElementsOfIncreasing(s[..n]);
      assert s == s[..n] + [s[n]];
      assert Elements(s) == Elements(s[..n]) + {s[n]};
      assert s[n] !in s[..n];
    }
  }

  /** A start is refused only when some function threw, or when as many threads as the capacity are not joined. */
  lemma RefusalHasReason(capacity: nat, actions: seq<Action>)
    requires Constructed(capacity).Some? && Run(Constructed(capacity).value, actions).Some?
    requires Run(Constructed(capacity).value, actions).value.server == Idle(Refused)
    ensures var p := Run(Constructed(capacity).value, actions).value; SomeoneThrew(p) || |Unjoined(p)| == capacity
  {
    hide Run;
    var p0 := Constructed(capacity).value;
    var p := Run(p0, actions).value;
    RunKeeps(p0, actions);
    CapacityIsFixed(p0, actions);
    RunIsReasoned(p0, actions);
    assert Unjoined(p) == Elements(p.workers);
    ElementsOfIncreasing(p.workers);
  }

  lemma {:induction false} RunPlus(p: Pool, a: seq<Action>, b: seq<Action>)
    requires Run(p, a).Some?
    ensures Run(p, a + b) == Run(Run(p, a).value, b)
    decreases |b|
  {
    if b == [] {
      assert a + b == a;
    } else {
      var n := |b| - 1;
      RunPlus(p, a, b[..n]);
      assert (a + b)[..|a + b| - 1] == a + b[..n] && (a + b)[|a + b| - 1] == b[n];
    }
  }

  function Serves(n: nat): seq<Action> { seq(n, _ => Serve(true)) }

  lemma OneServe(p: Pool)
    requires Served(p, true).Some?
    ensures Run(p, Serves(1)) == Served(p, true)
  {
    assert Serves(1)[..0] == [] && Serves(1)[0] == Serve(true);
    assert Run(p, []) == Some(p);
  }

  lemma ServeThen(p: Pool, n: nat)
    requires Served(p, true).Some?
    ensures Run(p, Serves(n + 1)) == Run(Served(p, true).value, Serves(n))
  {
    hide Served;
    OneServe(p);
    RunPlus(p, Serves(1), Serves(n));
    assert Serves(n + 1) == Serves(1) + Serves(n);
  }

  /** A call that finds every worker finished joins and forgets them all before it decides. */
  lemma {:induction false} FinishedWorkersAreReaped(p: Pool) returns (n: nat)
    requires Inv(p) && p.server == Reaping(0) && forall i :: 0 <= i < |p.workers| ==> Joinable(p, i)
    ensures Run(p, Serves(n)).Some?
    ensures var q := Run(p, Serves(n)).value; q.server == Checking && q.workers == [] && q.failed == p.failed
    decreases |p.workers|
  {
    if p.workers == [] {
      OneServe(p);
      n := 1;
    } else {
      var mid := Served(p, true).value;
      assert Joinable(p, 0) && mid == p.(server := Reclaiming(0));
      StepKeeps(p, Serve(true));
      var q := Served(mid, true).value;
      StepKeeps(mid, Serve(true));
      NextIsFinished(p, mid, q);
      var k := FinishedWorkersAreReaped(q);
      ServeThen(mid, k);
      ServeThen(p, k + 1);
      n := k + 2;
    }
  }

  lemma NextIsFinished(p: Pool, mid: Pool, q: Pool)
    requires Inv(p) && p.workers != [] && mid == p.(server := Reclaiming(0)) && Joinable(mid, 0)
    requires (forall i :: 0 <= i < |p.workers| ==> Joinable(p, i)) && q == Served(mid, true).value
    ensures q.server == Reaping(0) && |q.workers| == |p.workers| - 1 && q.failed == p.failed
    ensures forall i :: 0 <= i < |q.workers| ==> Joinable(q, i)
  {
    forall i | 0 <= i < |q.workers| ensures Joinable(q, i) {
      assert q.workers[i] == p.workers[i + 1] && Joinable(p, i + 1);
    }
  }

  // ---- Progress ---------------------------------------------------------------------------------------

  /** A call that is under way never waits for a thread that cannot move. */
  lemma NoDeadlock(p: Pool)
    requires Inv(p) && !p.server.Idle?
    ensures exists a: Action :: !a.CallTryStart? && !a.CallJoin? && Step(p, a).Some?
  {
    if p.server.Reclaiming? || p.server.Joining? {
      var i := p.server.i;
      if i < |p.workers| && !Joinable(p, i) {
        assert Step(p, Work(p.workers[i], false)).Some?;
      } else {
        assert Step(p, Serve(true)).Some?;
      }
    } else {
      assert Step(p, Serve(true)).Some?;
    }
  }

  function Ahead(s: Stage): nat {
    match s
    case Ready => 4
    case Thrown => 3
    case Finished => 2
    case Flagged => 1
    case Exited => 0
  }

  function AllAhead(threads: seq<Thread>): nat {
    if threads == [] then 0 else AllAhead(threads[..|threads| - 1]) + Ahead(threads[|threads| - 1].stage)
  }

  lemma {:induction false} AheadAfter(threads: seq<Thread>, t: nat, w: Thread)
    requires t < |threads|
    ensures AllAhead(threads[t := w]) == AllAhead(threads) - Ahead(threads[t].stage) + Ahead(w.stage)
  {
    var n := |threads| - 1;
    if t < n {
      AheadAfter(threads[..n], t, w);
      assert threads[t := w][..n] == threads[..n][t := w];
    } else {
      assert threads[t := w][..n] == threads[..n];
    }
  }

  /** What the serving thread still has to do before its call returns. */
  function ServerAhead(p: Pool): nat {
    match p.server
    case Idle(_) => 0
    case Reaping(i) => 8 + 2 * |p.workers| + (if i <= |p.workers| then |p.workers| - i else 0)
    case Reclaiming(i) => 7 + 2 * |p.workers| + (if i <= |p.workers| then |p.workers| - i else 0)
    case Checking => 7
    case Launching => 6
    case Joining(i) => 1 + if i <= |p.workers| then |p.workers| - i else 0
  }

  function Measure(p: Pool): nat { AllAhead(p.threads) + ServerAhead(p) }

  lemma MarkingIsNoWork(p: Pool, i: nat)
    requires Listed(p, i)
    ensures AllAhead(Marked(p, i).threads) == AllAhead(p.threads)
  {
    AheadAfter(p.threads, p.workers[i], p.threads[p.workers[i]].(joined := true));
  }

  lemma ServingAdvances(p: Pool, launched: bool)
    requires ServerSound(p) && Served(p, launched).Some?
    ensures Measure(Served(p, launched).value) < Measure(p)
  {
    hide AllAhead, Marked;
    var q := Served(p, launched).value;
    match p.server
    case Launching => if launched { LaunchingIsWork(p.threads); }
    case Reclaiming(i) =>
      MarkingIsNoWork(p, i);
      assert |Marked(p, i).workers| == |p.workers| by { MarkingKeepsList(p, i); }
    case Joining(i) => if i < |p.workers| { MarkingIsNoWork(p, i); MarkingKeepsList(p, i); }
    case _ =>
  }

  lemma MarkingKeepsList(p: Pool, i: nat)
    requires Listed(p, i)
    ensures Marked(p, i).workers == p.workers
  {
  }

  lemma LaunchingIsWork(threads: seq<Thread>)
    ensures AllAhead(threads + [Thread(Ready, false, 0, false)]) == AllAhead(threads) + 4
  {
    var longer := threads + [Thread(Ready, false, 0, false)];
    assert longer[..|longer| - 1] == threads;
  }

  /** Between calls and returns every interleaving is finite: with NoDeadlock, every call returns. */
  lemma EveryActionAdvances(p: Pool, a: Action)
    requires Inv(p) && !a.CallTryStart? && !a.CallJoin? && Step(p, a).Some?
    ensures Measure(Step(p, a).value) < Measure(p)
  {
    match a
    case Work(t, throws) => AheadAfter(p.threads, t, Moved(p.threads[t], throws));
    case Serve(launched) => ServingAdvances(p, launched);
  }
}
