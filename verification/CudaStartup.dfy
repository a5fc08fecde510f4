/**
 * What a run must have done for the provider to be where it is: start-up in order, a matched device,
 * bounded counts.
 */
module CudaStartup {
  import opened CudaLedger
  import opened CudaRuns
  import opened CudaAllocators
  import opened Wrappers

  // ---- Start-up ---------------------------------------------------------------------------------------------

  /** The call that leads into a phase up to draining. */
  function StepInto(phase: nat): Call
    requires 1 <= phase <= 5
  {
    if phase == 1 then RegisterCall(true, Ok)
    else if phase == 2 then ConfigureCall(true, Ok, true)
    else if phase == 3 then StartCall(true, Ok)
    else if phase == 4 then ReadyCall(true)
    else DrainCall(true)
  }

  /** The run entered, and then took the steps into the phases up to this one, in their order. */
  ghost predicate CameTo(calls: seq<Call>, phase: nat)
    requires phase <= 5
    decreases phase
  {
    if phase == 0 then EnterCall(true) in calls
    else exists n :: 0 <= n < |calls| && calls[n] == StepInto(phase) && CameTo(calls[..n], phase - 1)
  }

  lemma {:induction false} CameEarlier(calls: seq<Call>, more: seq<Call>, phase: nat)
    requires phase <= 5 && CameTo(calls, phase) && calls <= more
    ensures CameTo(more, phase)
  {
    if phase == 0 {
      assert more == calls + more[|calls|..];
    } else {
      var n :| 0 <= n < |calls| && calls[n] == StepInto(phase) && CameTo(calls[..n], phase - 1);
      assert more[n] == calls[n] && more[..n] == calls[..n];
    }
  }

  /** A state that follows another by a call. */
  predicate Follows(s: State, c: Call, t: State) {
    && (1 <= t.phase <= 5 && t.phase != s.phase ==> t.phase == s.phase + 1 && c == StepInto(t.phase))
    && (s.phase == 0 && t.phase == 1 ==> s.bound)
    && (s.phase > 5 ==> t.phase > 5)
    && (t.phase == 0 ==> s.phase == 0 && (t.bound ==> s.bound || c == EnterCall(true)))
  }

  lemma EnterFollows(s: State, valid: bool)
    ensures Follows(s, EnterCall(valid), Enter(s, valid).0)
  {
    hide Move;
  }

  lemma RegisterFollows(s: State, given: bool, registry: Answer)
    ensures Follows(s, RegisterCall(given, registry), Register(s, given, registry).0)
  {
    hide Move;
  }

  lemma ConfigureFollows(s: State, given: bool, resolver: Answer, usable: bool)
    ensures Follows(s, ConfigureCall(given, resolver, usable), Configure(s, given, resolver, usable).0)
  {
    hide Move;
  }

  lemma StartFollows(s: State, given: bool, runtime: Answer)
    ensures Follows(s, StartCall(given, runtime), Start(s, given, runtime).0)
  {
    hide Move;
  }

  lemma ReadyFollows(s: State, given: bool)
    ensures Follows(s, ReadyCall(given), BecomeReady(s, given).0)
  {
    hide Move;
  }

  lemma DrainFollows(s: State, given: bool)
    ensures Follows(s, DrainCall(given), Drain(s, given).0)
  {
    hide Move;
  }

  lemma StopEnds(s: State, given: bool)
    ensures var t := Stop(s, given).0; t.phase == s.phase || t.phase == 6
  {
    hide Move;
  }

  lemma StopFollows(s: State, given: bool)
    ensures Follows(s, StopCall(given), Stop(s, given).0)
  {
    hide Move, Stop;
    StopEnds(s, given);
  }

  lemma DisposeFollows(s: State, given: bool)
    ensures Follows(s, DisposeCall(given), Dispose(s, given).0)
  {
    hide Move;
  }

  lemma StaysInPhase(s: State, c: Call, t: State)
    requires t.phase == s.phase && t.bound == s.bound
    ensures Follows(s, c, t)
  {
  }

  lemma LifecycleFollows(s: State, c: Call)
    requires IsLifecycle(c)
    ensures Follows(s, c, ApplyLifecycle(s, c).0)
  {
    hide Follows, Enter, Register, Configure, Start, BecomeReady, Drain, Stop, Dispose;
    match c
    case EnterCall(valid) => EnterFollows(s, valid);
    case RegisterCall(given, registry) => RegisterFollows(s, given, registry);
    case ConfigureCall(given, resolver, usable) => ConfigureFollows(s, given, resolver, usable);
    case StartCall(given, runtime) => StartFollows(s, given, runtime);
    case ReadyCall(given) => ReadyFollows(s, given);
    case DrainCall(given) => DrainFollows(s, given);
    case StopCall(given) => StopFollows(s, given);
    case DisposeCall(given) => DisposeFollows(s, given);
  }

  lemma ResourceCallsStay(s: State, c: Call)
    requires !IsLifecycle(c)
    ensures Apply(s, c).0.phase == s.phase && Apply(s, c).0.bound == s.bound
  {
    hide Allocate, Deallocate, Retain, Release, Create, Destroy, CopyH2d, CopyAsync, MemsetAsync, Prepare;
  }

  lemma PhaseStep(s: State, c: Call)
    ensures Follows(s, c, Apply(s, c).0)
  {
    hide Follows, ApplyLifecycle, Allocate, Deallocate, Retain, Release, Create, Destroy, CopyH2d, CopyAsync,
      MemsetAsync, Prepare;
    if IsLifecycle(c) {
      LifecycleFollows(s, c);
    } else {
      ResourceCallsStay(s, c);
      StaysInPhase(s, c, Apply(s, c).0);
    }
  }

  /** A provider that is bound, or past phase 0, was entered and started step by step. */
  lemma {:induction false} StartedInOrder(calls: seq<Call>)
    ensures var s := Run(Fresh(), calls);
      && (s.phase == 0 && s.bound ==> CameTo(calls, 0))
      && (1 <= s.phase <= 5 ==> CameTo(calls, s.phase))
  {
    hide Apply, CameTo, StepInto;
    if calls != [] {
      var n := |calls| - 1;
      var front, c := calls[..n], calls[n];
      var mid, s := Run(Fresh(), front), Run(Fresh(), calls);
      StartedInOrder(front);
      PhaseStep(mid, c);
      if s.phase == 0 && s.bound {
        if mid.bound {
          CameEarlier(front, calls, 0);
        } else {
          EntryIsThere(calls);
        }
      } else if 1 <= s.phase <= 5 {
        if mid.phase == s.phase {
          CameEarlier(front, calls, s.phase);
        } else {
          LastStep(calls, s.phase);
        }
      }
    }
  }

  lemma EntryIsThere(calls: seq<Call>)
    requires calls != [] && calls[|calls| - 1] == EnterCall(true)
    ensures CameTo(calls, 0)
  {
  }

  lemma LastStep(calls: seq<Call>, phase: nat)
    requires calls != [] && 1 <= phase <= 5
    requires calls[|calls| - 1] == StepInto(phase) && CameTo(calls[..|calls| - 1], phase - 1)
    ensures CameTo(calls, phase)
  {
    hide StepInto;
  }

  // ---- The prepared device ----------------------------------------------------------------------------------------

  /** The call found the compute capability of the device to be the expected one. */
  predicate Matches(c: Call, s: State) {
    c.PrepareCall? && c.device == s.prepared && c.major == s.smMajor && c.minor == s.smMinor && c.matches
    && c.major != 0 && c.minor <= 9
  }

  lemma PrepareMatches(s: State, device: int, major: nat, minor: nat, matches: bool)
    ensures var t := Prepare(s, device, major, minor, matches).0;
      t == s || Matches(PrepareCall(device, major, minor, matches), t)
  {
  }

  lemma DisposeClears(s: State, given: bool)
    ensures Dispose(s, given).0 == s || Dispose(s, given).0.prepared == -1
  {
  }

  lemma PrepareStep(s: State, c: Call)
    ensures var t := Apply(s, c).0;
      t.prepared >= 0 ==>
        Matches(c, t) || (s.prepared == t.prepared && s.smMajor == t.smMajor && s.smMinor == t.smMinor)
  {
    hide Allocate, Deallocate, Retain, Release, Create, Destroy, CopyH2d, CopyAsync, MemsetAsync, Advance, Move,
      Register, Configure, Start, BecomeReady, Drain, Stop, Enter, Prepare, Dispose, Matches;
    if c.PrepareCall? {
      PrepareMatches(s, c.device, c.major, c.minor, c.matches);
    } else if c.DisposeCall? {
      DisposeClears(s, c.given);
    }
  }

  /** Only a device whose compute capability matched is ever prepared. */
  lemma {:induction false} PreparedDeviceMatched(calls: seq<Call>)
    requires Run(Fresh(), calls).prepared >= 0
    ensures exists n :: 0 <= n < |calls| && Matches(calls[n], Run(Fresh(), calls))
  {
    hide Apply;
    if calls != [] {
      var n := |calls| - 1;
      var mid := Run(Fresh(), calls[..n]);
      PrepareStep(mid, calls[n]);
      if !Matches(calls[n], Run(Fresh(), calls)) {
        PreparedDeviceMatched(calls[..n]);
        var k :| 0 <= k < n && Matches(calls[..n][k], mid);
        assert calls[..n][k] == calls[k];
      }
    }
  }

  // ---- Counts -----------------------------------------------------------------------------------------------------

  predicate CountsFit(s: State) { MapFits(s.contexts) }

  predicate MapFits(contexts: map<Word, Retained>) { forall h :: h in contexts ==> contexts[h].count <= U32_MAX }

  lemma AdoptedContexts(s: State, h: Word, device: int, tracks: bool, rollback: Rollback)
    ensures var c := AdoptContext(s, h, device, tracks, rollback).0.contexts;
      || c == s.contexts
      || (h !in s.contexts && c == s.contexts[h := Retained(device, 1)])
      || (h in s.contexts && s.contexts[h].count != U32_MAX
          && c == s.contexts[h := Retained(device, s.contexts[h].count + 1)])
  {
    hide RolledBack;
    RolledBackKeepsContexts(s, ContextGrant(h, device), rollback);
  }

  lemma OneMoreFits(contexts: map<Word, Retained>, h: Word, r: Retained)
    requires MapFits(contexts) && r.count <= U32_MAX
    ensures MapFits(contexts[h := r])
  {
  }

  lemma AdoptCountsFit(s: State, h: Word, device: int, tracks: bool, rollback: Rollback)
    requires MapFits(s.contexts)
    ensures MapFits(AdoptContext(s, h, device, tracks, rollback).0.contexts)
  {
    hide AdoptContext;
    AdoptedContexts(s, h, device, tracks, rollback);
    OneMoreFits(s.contexts, h, Retained(device, 1));
    if h in s.contexts && s.contexts[h].count != U32_MAX {
      OneMoreFits(s.contexts, h, Retained(device, s.contexts[h].count + 1));
    }
  }

  lemma RetainCountsFit(s: State, device: int, output: bool, reply: Option<Word>, tracks: bool, rollback: Rollback)
    requires CountsFit(s)
    ensures CountsFit(Retain(s, device, output, reply, tracks, rollback).0)
  {
    hide AdoptContext, MapFits;
    if reply.Some? {
      AdoptCountsFit(s, reply.value, device, tracks, rollback);
    }
  }

  lemma RolledBackKeepsContexts(s: State, grant: Grant, r: Rollback)
    ensures RolledBack(s, grant, r).contexts == s.contexts
  {
  }

  lemma ReleaseCountsFit(s: State, device: int, h: Word, unbound: bool, released: bool)
    requires CountsFit(s)
    ensures CountsFit(Release(s, device, h, unbound, released).0)
  {
  }

  lemma ApplyCountsFit(s: State, c: Call)
    requires CountsFit(s)
    ensures CountsFit(Apply(s, c).0)
  {
    hide CountsFit, Allocate, Deallocate, Retain, Release, Create, Destroy, CopyH2d, CopyAsync, MemsetAsync, Prepare,
      Enter, Register, Configure, Start, BecomeReady, Drain, Stop, Dispose, Advance;
    if c.RetainCall? {
      RetainCountsFit(s, c.device, c.output, c.reply, c.tracks, c.rollback);
    } else if c.ReleaseCall? {
      ReleaseCountsFit(s, c.device, c.handle, c.unbound, c.released);
    } else {
      OtherCallsKeepContexts(s, c);
      SameCountsFit(s, Apply(s, c).0);
    }
  }

  lemma OtherCallsKeepContexts(s: State, c: Call)
    requires !c.RetainCall? && !c.ReleaseCall?
    ensures Apply(s, c).0.contexts == s.contexts
  {
    hide Retain, Release, CopyH2d, CopyAsync, MemsetAsync, Enter, Register, Configure, Start, BecomeReady, Drain, Stop,
      Advance, Move, Allocate, Deallocate, Create, Destroy, Prepare, Dispose;
    match c
    case AllocateCall(kind, device, output, d) => AllocateKeepsContexts(s, kind, device, output, d);
    case DeallocateCall(kind, address, record, released) => DeallocateKeepsContexts(s, kind, address, record, released);
    case CreateCall(stream, owner, output, current, reply, tracks, destroyed) =>
      CreateKeepsContexts(s, stream, owner, output, current, reply, tracks, destroyed);
    case DestroyCall(stream, h, current, destroyed) => DestroyKeepsContexts(s, stream, h, current, destroyed);
    case PrepareCall(device, major, minor, matches) => PrepareKeepsContexts(s, device, major, minor, matches);
    case DisposeCall(given) => DisposeKeepsContexts(s, given);
    case _ =>
  }

  lemma AllocateKeepsContexts(s: State, kind: Kind, device: int, output: bool, d: AllocationReplies)
    ensures Allocate(s, kind, device, output, d).0.contexts == s.contexts
  {
    hide AdoptBlock, AfterAllocator, HasAllocator;
    AllocatorKeepsContexts(s, kind, device, d);
    if d.block.Some? {
      BlockKeepsContexts(AfterAllocator(s, kind, device, d), d.block.value, kind, device, d.tracks, d.freed);
    }
  }

  lemma AllocatorKeepsContexts(s: State, kind: Kind, device: int, d: AllocationReplies)
    ensures AfterAllocator(s, kind, device, d).contexts == s.contexts
  {
  }

  lemma BlockKeepsContexts(s: State, b: Block, kind: Kind, device: int, tracks: bool, freed: bool)
    ensures AdoptBlock(s, b, kind, device, tracks, freed).0.contexts == s.contexts
  {
  }

  lemma DeallocateKeepsContexts(s: State, kind: Kind, address: Word, record: Record, released: bool)
    ensures Deallocate(s, kind, address, record, released).0.contexts == s.contexts
  {
  }

  lemma CreateKeepsContexts(s: State, stream: bool, owner: Word, output: bool, current: bool, reply: Option<Word>,
                            tracks: bool, destroyed: bool)
    ensures Create(s, stream, owner, output, current, reply, tracks, destroyed).0.contexts == s.contexts
  {
  }

  lemma DestroyKeepsContexts(s: State, stream: bool, h: Word, current: bool, destroyed: bool)
    ensures Destroy(s, stream, h, current, destroyed).0.contexts == s.contexts
  {
  }

  lemma PrepareKeepsContexts(s: State, device: int, major: nat, minor: nat, matches: bool)
    ensures Prepare(s, device, major, minor, matches).0.contexts == s.contexts
  {
  }

  lemma DisposeKeepsContexts(s: State, given: bool)
    ensures Dispose(s, given).0.contexts == s.contexts
  {
  }

  lemma SameCountsFit(s: State, t: State)
    requires CountsFit(s) && t.contexts == s.contexts
    ensures CountsFit(t)
  {
  }

  /** Over every run the 32-bit count of a context never overflows. */
  lemma {:induction false} CountsNeverOverflow(calls: seq<Call>)
    ensures CountsFit(Run(Fresh(), calls))
  {
    hide Apply, CountsFit;
    if calls == [] {
      NoCounts();
    } else {
      var n := |calls| - 1;
      CountsNeverOverflow(calls[..n]);
      ApplyCountsFit(Run(Fresh(), calls[..n]), calls[n]);
    }
  }

  lemma NoCounts()
    ensures CountsFit(Fresh())
  {
  }
}
