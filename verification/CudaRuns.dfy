/** What holds of the CUDA provider after every run of calls, under any pattern of failures. */
module CudaRuns {
  import opened CudaLedger
  import opened Wrappers

  datatype Call =
    | AllocateCall(kind: Kind, device: int, output: bool, replies: AllocationReplies)
    | DeallocateCall(kind: Kind, address: Word, record: Record, released: bool)
    | RetainCall(device: int, output: bool, reply: Option<Word>, tracks: bool, rollback: Rollback)
    | ReleaseCall(device: int, handle: Word, unbound: bool, released: bool)
    | CreateCall(stream: bool, owner: Word, output: bool, current: bool, reply: Option<Word>, tracks: bool,
                 destroyed: bool)
    | DestroyCall(stream: bool, handle: Word, current: bool, destroyed: bool)
    | PrepareCall(device: int, major: nat, minor: nat, matches: bool)
    | CopyCall(device: int, to: Word, source: bool, bytes: Word, slot: bool, copier: bool, copied: bool)
    | CopyAsyncCall(context: Word, to: Word, from: Word, bytes: Word, direction: Direction, on: Word, current: bool,
                    host: Attributes, launched: bool)
    | MemsetCall(context: Word, to: Word, value: nat, bytes: Word, on: Word, current: bool, launched: bool)
    | EnterCall(valid: bool)
    | RegisterCall(given: bool, registry: Answer)
    | ConfigureCall(given: bool, resolver: Answer, usable: bool)
    | StartCall(given: bool, runtime: Answer)
    | ReadyCall(given: bool)
    | DrainCall(given: bool)
    | StopCall(given: bool)
    | DisposeCall(given: bool)

  function Apply(s: State, c: Call): (State, Status) {
    match c
    case AllocateCall(kind, device, output, d) => Allocate(s, kind, device, output, d)
    case DeallocateCall(kind, address, record, released) => Deallocate(s, kind, address, record, released)
    case RetainCall(device, output, reply, tracks, rollback) => Retain(s, device, output, reply, tracks, rollback)
    case ReleaseCall(device, h, unbound, released) => Release(s, device, h, unbound, released)
    case CreateCall(stream, owner, output, current, reply, tracks, destroyed) =>
      Create(s, stream, owner, output, current, reply, tracks, destroyed)
    case DestroyCall(stream, h, current, destroyed) => Destroy(s, stream, h, current, destroyed)
    case PrepareCall(device, major, minor, matches) => Prepare(s, device, major, minor, matches)
    case CopyCall(device, to, source, bytes, slot, copier, copied) =>
      (s, CopyH2d(s, device, to, source, bytes, slot, copier, copied).1)
    case CopyAsyncCall(context, to, from, bytes, d, on, current, host, launched) =>
      (s, CopyAsync(s, context, to, from, bytes, d, on, current, host, launched).1)
    case MemsetCall(context, to, value, bytes, on, current, launched) =>
      (s, MemsetAsync(s, context, to, value, bytes, on, current, launched).1)
    case _ => ApplyLifecycle(s, c)
  }

  function ApplyLifecycle(s: State, c: Call): (State, Status)
    requires IsLifecycle(c)
  {
    match c
    case EnterCall(valid) => Enter(s, valid)
    case RegisterCall(given, registry) => Register(s, given, registry)
    case ConfigureCall(given, resolver, usable) => Configure(s, given, resolver, usable)
    case StartCall(given, runtime) => Start(s, given, runtime)
    case ReadyCall(given) => BecomeReady(s, given)
    case DrainCall(given) => Drain(s, given)
    case StopCall(given) => Stop(s, given)
    case DisposeCall(given) => Dispose(s, given)
  }

  predicate IsLifecycle(c: Call) {
    c.EnterCall? || c.RegisterCall? || c.ConfigureCall? || c.StartCall? || c.ReadyCall? || c.DrainCall? ||
      c.StopCall? || c.DisposeCall?
  }

  /** The byte ranges a call has the driver touch. */
  function Touched(s: State, c: Call): seq<Access> {
    match c
    case CopyCall(device, to, source, bytes, slot, copier, copied) =>
      CopyH2d(s, device, to, source, bytes, slot, copier, copied).0
    case CopyAsyncCall(context, to, from, bytes, d, on, current, host, launched) =>
      CopyAsync(s, context, to, from, bytes, d, on, current, host, launched).0
    case MemsetCall(context, to, value, bytes, on, current, launched) =>
      MemsetAsync(s, context, to, value, bytes, on, current, launched).0
    case _ => []
  }

  function Run(s: State, calls: seq<Call>): State {
    if calls == [] then s else Apply(Run(s, calls[..|calls| - 1]), calls[|calls| - 1]).0
  }

  // ---- The invariant ---------------------------------------------------------------------------------

  /** How often the provider tracks a grant. */
  function Tracked(s: State, g: Grant): nat {
    match g
    case MemoryGrant(a, r) => if a in s.allocations && s.allocations[a] == r then 1 else 0
    case ContextGrant(h, d) => if h in s.contexts && s.contexts[h].device == d then s.contexts[h].count else 0
    case StreamGrant(h, o) => if h in s.streams && s.streams[h] == o then 1 else 0
    case EventGrant(h, o) => if h in s.events && s.events[h] == o then 1 else 0
  }

  /** Everything tracked is still granted; until ownership is corrupted nothing else is, zero handles aside. */
  ghost predicate Balanced(s: State) {
    && (forall g: Grant :: s.driver[g] >= Tracked(s, g))
    && (!s.corrupted ==> forall g: Grant :: g.Identity() != 0 ==> s.driver[g] == Tracked(s, g))
  }

  /** Every stream and event belongs to a context that is still retained; zero identities are never tracked. */
  ghost predicate Anchored(s: State) {
    && (forall h :: h in s.streams ==> h != 0 && s.streams[h] in s.contexts)
    && (forall h :: h in s.events ==> h != 0 && s.events[h] in s.contexts)
    && (forall h :: h in s.contexts ==> h != 0 && s.contexts[h].count >= 1)
    && (forall a :: a in s.allocations ==> a != 0)
  }

  ghost predicate Inv(s: State) {
    && Balanced(s) && Anchored(s)
    && s.phase <= 7
    && (s.phase != 4 ==> NothingTracked(s) && !s.corrupted)
  }

  lemma FreshIsSound()
    ensures Inv(Fresh())
  {
  }

  // ---- Elementary changes ----------------------------------------------------------------------------

  /** The same resources in the same phase. */
  ghost predicate SameLedger(s: State, t: State) {
    && t.phase == s.phase && t.corrupted == s.corrupted && t.driver == s.driver
    && t.allocations == s.allocations && t.contexts == s.contexts && t.streams == s.streams && t.events == s.events
  }

  lemma SameLedgerKeeps(s: State, t: State)
    requires Inv(s) && SameLedger(s, t)
    ensures Inv(t)
  {
    forall g: Grant ensures Tracked(t, g) == Tracked(s, g) {}
    assert forall g: Grant :: g.Identity() != 0 && !s.corrupted ==> s.driver[g] == Tracked(s, g);
  }

  /** A grant the provider cannot track any more: ownership is corrupted. */
  function Lost(s: State, g: Grant): State {
    s.(corrupted := true, driver := s.driver + multiset{g})
  }

  lemma LostKeeps(s: State, g: Grant)
    requires Inv(s) && s.phase == 4
    ensures Inv(Lost(s, g)) && Inv(s.(corrupted := true))
  {
    forall o: Grant ensures Tracked(Lost(s, g), o) == Tracked(s, o) == Tracked(s.(corrupted := true), o) {}
  }

  lemma ZeroHandleKeeps(s: State, g: Grant)
    requires Inv(s) && s.phase == 4 && g.Identity() == 0
    ensures Inv(s.(driver := s.driver + multiset{g}))
  {
    var t := s.(driver := s.driver + multiset{g});
    forall o: Grant ensures Tracked(t, o) == Tracked(s, o) && (o != g ==> t.driver[o] == s.driver[o]) &&
      t.driver[o] >= s.driver[o] {}
  }

  /** One more grant, tracked once more. */
  lemma GrantBalances(s: State, t: State, g: Grant)
    requires Balanced(s) && t.corrupted == s.corrupted && t.driver == s.driver + multiset{g}
    requires forall o: Grant :: Tracked(t, o) == Tracked(s, o) + (if o == g then 1 else 0)
    ensures Balanced(t)
  {
    hide Tracked;
    forall o: Grant ensures t.driver[o] == s.driver[o] + (if o == g then 1 else 0) {}
  }

  /** One grant less, tracked once less. */
  lemma ReturnBalances(s: State, t: State, g: Grant)
    requires Balanced(s) && t.corrupted == s.corrupted && t.driver == s.driver - multiset{g}
    requires forall o: Grant :: Tracked(s, o) == Tracked(t, o) + (if o == g then 1 else 0)
    ensures Balanced(t)
  {
    hide Tracked;
    assert s.driver[g] >= Tracked(s, g) >= 1;
    forall o: Grant ensures s.driver[o] == t.driver[o] + (if o == g then 1 else 0) {}
  }

  lemma TrackMemory(s: State, a: Word, r: Record)
    requires Inv(s) && s.phase == 4 && a != 0 && a !in s.allocations
    ensures Inv(s.(allocations := s.allocations[a := r], driver := s.driver + multiset{MemoryGrant(a, r)}))
  {
    var g := MemoryGrant(a, r);
    var t := s.(allocations := s.allocations[a := r], driver := s.driver + multiset{g});
    hide Balanced;
    forall o: Grant ensures Tracked(t, o) == Tracked(s, o) + (if o == g then 1 else 0) {}
    GrantBalances(s, t, g);
  }

  lemma TrackContext(s: State, h: Word, d: int)
    requires Inv(s) && s.phase == 4 && h != 0
    requires h in s.contexts ==> s.contexts[h].device == d
    ensures var n := if h in s.contexts then s.contexts[h].count + 1 else 1;
      Inv(s.(contexts := s.contexts[h := Retained(d, n)], driver := s.driver + multiset{ContextGrant(h, d)}))
  {
    var g := ContextGrant(h, d);
    var n := if h in s.contexts then s.contexts[h].count + 1 else 1;
    var t := s.(contexts := s.contexts[h := Retained(d, n)], driver := s.driver + multiset{g});
    hide Balanced;
    forall o: Grant ensures Tracked(t, o) == Tracked(s, o) + (if o == g then 1 else 0) {}
    GrantBalances(s, t, g);
  }

  lemma TrackOwned(s: State, stream: bool, h: Word, owner: Word)
    requires Inv(s) && s.phase == 4 && h != 0 && owner in s.contexts && h !in Owners(s, stream)
    ensures var granted := s.(driver := s.driver + multiset{StreamOrEvent(stream, h, owner)});
      Inv(WithOwners(granted, stream, Owners(s, stream)[h := owner]))
  {
    var g := StreamOrEvent(stream, h, owner);
    var t := WithOwners(s.(driver := s.driver + multiset{g}), stream, Owners(s, stream)[h := owner]);
    hide Balanced;
    if stream {
      forall o: Grant ensures Tracked(t, o) == Tracked(s, o) + (if o == g then 1 else 0) {}
    } else {
      forall o: Grant ensures Tracked(t, o) == Tracked(s, o) + (if o == g then 1 else 0) {}
    }
    GrantBalances(s, t, g);
  }

  lemma UntrackMemory(s: State, a: Word)
    requires Inv(s) && a in s.allocations
    ensures Inv(s.(allocations := s.allocations - {a}, driver := s.driver - multiset{MemoryGrant(a, s.allocations[a])}))
  {
    hide Balanced;
    var g := MemoryGrant(a, s.allocations[a]);
    var t := s.(allocations := s.allocations - {a}, driver := s.driver - multiset{g});
    forall o: Grant ensures Tracked(s, o) == Tracked(t, o) + (if o == g then 1 else 0) {}
    ReturnBalances(s, t, g);
  }

  lemma UntrackContext(s: State, h: Word)
    requires Inv(s) && h in s.contexts && h !in s.streams.Values && h !in s.events.Values
    ensures var d, n := s.contexts[h].device, s.contexts[h].count - 1;
      Inv(s.(contexts := if n <= 0 then s.contexts - {h} else s.contexts[h := Retained(d, n)],
             driver := s.driver - multiset{ContextGrant(h, d)}))
  {
    hide Balanced;
    var d, n := s.contexts[h].device, s.contexts[h].count - 1;
    var g := ContextGrant(h, d);
    var left := if n <= 0 then s.contexts - {h} else s.contexts[h := Retained(d, n)];
    var t := s.(contexts := left, driver := s.driver - multiset{g});
    forall o: Grant ensures Tracked(s, o) == Tracked(t, o) + (if o == g then 1 else 0) {}
    ReturnBalances(s, t, g);
  }

  lemma UntrackOwned(s: State, stream: bool, h: Word)
    requires Inv(s) && h in Owners(s, stream)
    ensures var g := StreamOrEvent(stream, h, Owners(s, stream)[h]);
      Inv(WithOwners(s, stream, Owners(s, stream) - {h}).(driver := s.driver - multiset{g}))
  {
    hide Balanced;
    var g := StreamOrEvent(stream, h, Owners(s, stream)[h]);
    var t := WithOwners(s, stream, Owners(s, stream) - {h}).(driver := s.driver - multiset{g});
    if stream {
      forall o: Grant ensures Tracked(s, o) == Tracked(t, o) + (if o == g then 1 else 0) {}
    } else {
      forall o: Grant ensures Tracked(s, o) == Tracked(t, o) + (if o == g then 1 else 0) {}
    }
    ReturnBalances(s, t, g);
  }

  /** With nothing tracked and ownership intact the phase may move. */
  lemma PhaseMoveKeeps(s: State, t: State)
    requires Inv(s) && NothingTracked(s) && !s.corrupted && t.phase <= 7
    requires SameLedger(s.(phase := t.phase), t)
    ensures Inv(t)
  {
    forall g: Grant ensures Tracked(t, g) == Tracked(s, g) {}
    assert forall g: Grant :: g.Identity() != 0 ==> s.driver[g] == Tracked(s, g);
  }

  // ---- Every call keeps the invariant -----------------------------------------------------------------

  lemma AllocateKeeps(s: State, kind: Kind, device: int, output: bool, d: AllocationReplies)
    requires Inv(s)
    ensures Inv(Allocate(s, kind, device, output, d).0)
  {
    hide Inv;
    var t := AfterAllocator(s, kind, device, d);
    SameLedgerKeeps(s, t);
    if Ready(s) && d.block.Some? {
      var b := d.block.value;
      var record := RecordOf(b, kind, device);
      LostKeeps(t, MemoryGrant(b.address, record));
      if b.address != 0 && b.address !in t.allocations {
        TrackMemory(t, b.address, record);
      }
    }
  }

  lemma DeallocateKeeps(s: State, kind: Kind, address: Word, record: Record, released: bool)
    requires Inv(s)
    ensures Inv(Deallocate(s, kind, address, record, released).0)
  {
    hide Inv;
    if address in s.allocations {
      UntrackMemory(s, address);
    }
  }

  lemma RolledBackKeeps(s: State, g: Grant, r: Rollback)
    requires Inv(s) && s.phase == 4
    ensures Inv(RolledBack(s, g, r))
  {
    LostKeeps(s, g);
  }

  lemma RetainKeeps(s: State, device: int, output: bool, reply: Option<Word>, tracks: bool, rollback: Rollback)
    requires Inv(s)
    ensures Inv(Retain(s, device, output, reply, tracks, rollback).0)
  {
    hide Inv, RolledBack;
    if Ready(s) && reply.Some? {
      var h := reply.value;
      RolledBackKeeps(s, ContextGrant(h, device), rollback);
      if h == 0 {
        ZeroHandleKeeps(s, ContextGrant(h, device));
      } else if h !in s.contexts || s.contexts[h].device == device {
        TrackContext(s, h, device);
      }
    }
  }

  lemma ReleaseKeeps(s: State, device: int, h: Word, unbound: bool, released: bool)
    requires Inv(s)
    ensures Inv(Release(s, device, h, unbound, released).0)
  {
    hide Inv;
    if h in s.contexts && h !in s.streams.Values && h !in s.events.Values {
      UntrackContext(s, h);
    }
  }

  lemma CreateKeeps(s: State, stream: bool, owner: Word, output: bool, current: bool, reply: Option<Word>,
                    tracks: bool, destroyed: bool)
    requires Inv(s)
    ensures Inv(Create(s, stream, owner, output, current, reply, tracks, destroyed).0)
  {
    hide Inv;
    if Ready(s) && owner in s.contexts && reply.Some? {
      var h := reply.value;
      var g := StreamOrEvent(stream, h, owner);
      LostKeeps(s, g);
      if h == 0 {
        ZeroHandleKeeps(s, g);
      } else if h !in Owners(s, stream) {
        TrackOwned(s, stream, h, owner);
      }
    }
  }

  lemma DestroyKeeps(s: State, stream: bool, h: Word, current: bool, destroyed: bool)
    requires Inv(s)
    ensures Inv(Destroy(s, stream, h, current, destroyed).0)
  {
    hide Inv;
    if h in Owners(s, stream) {
      UntrackOwned(s, stream, h);
    }
  }

  lemma AdvanceKeeps(s: State, expected: nat)
    requires Inv(s) && expected < 7 && (expected == 4 ==> NothingTracked(s) && !s.corrupted)
    ensures Inv(Advance(s, expected).0)
  {
    hide Balanced, Anchored;
    if s.phase == expected {
      PhaseMoveKeeps(s, s.(phase := expected + 1));
    }
  }

  lemma EnterKeeps(s: State, valid: bool)
    requires Inv(s)
    ensures Inv(Enter(s, valid).0)
  {
    hide Inv;
    SameLedgerKeeps(s, Enter(s, valid).0);
  }

  lemma RegisterKeeps(s: State, given: bool, registry: Answer)
    requires Inv(s)
    ensures Inv(Register(s, given, registry).0)
  {
    hide Inv;
    AdvanceKeeps(s, 0);
  }

  lemma ConfigureKeeps(s: State, given: bool, resolver: Answer, usable: bool)
    requires Inv(s)
    ensures Inv(Configure(s, given, resolver, usable).0)
  {
    hide Inv;
    AdvanceKeeps(s, 1);
    SameLedgerKeeps(Advance(s, 1).0, Advance(s, 1).0.(platform := true));
  }

  lemma StartKeeps(s: State, given: bool, runtime: Answer)
    requires Inv(s)
    ensures Inv(Start(s, given, runtime).0)
  {
    hide Inv;
    AdvanceKeeps(s, 2);
  }

  lemma DrainKeeps(s: State, given: bool)
    requires Inv(s)
    ensures Inv(Drain(s, given).0)
  {
    hide Inv;
    if !s.corrupted && NothingTracked(s) {
      AdvanceKeeps(s, 4);
    }
  }

  lemma StopKeeps(s: State, given: bool)
    requires Inv(s)
    ensures Inv(Stop(s, given).0)
  {
    hide Balanced, Anchored;
    AdvanceKeeps(s, 5);
    if s.phase == 3 {
      PhaseMoveKeeps(s, s.(phase := 6));
    }
  }

  lemma DisposeKeeps(s: State, given: bool)
    requires Inv(s)
    ensures Inv(Dispose(s, given).0)
  {
    hide Balanced, Anchored;
    var t := Dispose(s, given).0;
    if t.phase != s.phase {
      PhaseMoveKeeps(s, t);
    }
  }

  lemma LifecycleKeeps(s: State, c: Call)
    requires Inv(s) && IsLifecycle(c)
    ensures Inv(ApplyLifecycle(s, c).0)
  {
    hide Inv, Enter, Register, Configure, Start, Drain, Stop, Dispose;
    match c
    case EnterCall(valid) => EnterKeeps(s, valid);
    case RegisterCall(given, registry) => RegisterKeeps(s, given, registry);
    case ConfigureCall(given, resolver, usable) => ConfigureKeeps(s, given, resolver, usable);
    case StartCall(given, runtime) => StartKeeps(s, given, runtime);
    case ReadyCall(_) => AdvanceKeeps(s, 3);
    case DrainCall(given) => DrainKeeps(s, given);
    case StopCall(given) => StopKeeps(s, given);
    case DisposeCall(given) => DisposeKeeps(s, given);
  }

  lemma PrepareKeeps(s: State, device: int, major: nat, minor: nat, matches: bool)
    requires Inv(s)
    ensures Inv(Prepare(s, device, major, minor, matches).0)
  {
    hide Inv;
    SameLedgerKeeps(s, Prepare(s, device, major, minor, matches).0);
  }

  /** Every call keeps the invariant. */
  lemma ApplyKeeps(s: State, c: Call)
    requires Inv(s)
    ensures Inv(Apply(s, c).0)
  {
    hide Inv, Allocate, Deallocate, Retain, Release, Create, Destroy, CopyH2d, CopyAsync, MemsetAsync, Prepare,
      ApplyLifecycle;
    match c
    case AllocateCall(kind, device, output, d) => AllocateKeeps(s, kind, device, output, d);
    case DeallocateCall(kind, address, record, released) => DeallocateKeeps(s, kind, address, record, released);
    case RetainCall(device, output, reply, tracks, rollback) => RetainKeeps(s, device, output, reply, tracks, rollback);
    case ReleaseCall(device, h, unbound, released) => ReleaseKeeps(s, device, h, unbound, released);
    case CreateCall(stream, owner, output, current, reply, tracks, destroyed) =>
      CreateKeeps(s, stream, owner, output, current, reply, tracks, destroyed);
    case DestroyCall(stream, h, current, destroyed) => DestroyKeeps(s, stream, h, current, destroyed);
    case PrepareCall(device, major, minor, matches) => PrepareKeeps(s, device, major, minor, matches);
    case CopyCall(_, _, _, _, _, _, _) =>
    case CopyAsyncCall(_, _, _, _, _, _, _, _, _) =>
    case MemsetCall(_, _, _, _, _, _, _) =>
    case _ => LifecycleKeeps(s, c);
  }

  lemma {:induction false} RunKeeps(s: State, calls: seq<Call>)
    requires Inv(s)
    ensures Inv(Run(s, calls))
  {
    hide Inv, Apply;
    if calls != [] {
      var n := |calls| - 1;
      RunKeeps(s, calls[..n]);
      ApplyKeeps(Run(s, calls[..n]), calls[n]);
    }
  }

  // ---- Ownership ------------------------------------------------------------------------------------------

  /**
   * Ownership refinement: after any run everything tracked is still granted and every stream and
   * event still has its context; unless the run corrupted ownership, nothing else is granted.
   */
  lemma OwnershipRefinement(calls: seq<Call>)
    ensures var s := Run(Fresh(), calls);
      && Anchored(s)
      && (forall g: Grant :: s.driver[g] >= Tracked(s, g))
      && (!s.corrupted ==> forall g: Grant :: g.Identity() != 0 ==> s.driver[g] == Tracked(s, g))
  {
    hide Run;
    FreshIsSound();
    RunKeeps(Fresh(), calls);
  }

  /** A drained provider leaks nothing. */
  lemma DrainLeaksNothing(calls: seq<Call>, given: bool)
    requires Apply(Run(Fresh(), calls), DrainCall(given)).1 == Ok
    ensures forall g: Grant :: g.Identity() != 0 ==> Apply(Run(Fresh(), calls), DrainCall(given)).0.driver[g] == 0
  {
    hide Run;
    OwnershipRefinement(calls);
    var s := Run(Fresh(), calls);
    forall g: Grant | g.Identity() != 0 ensures s.driver[g] == 0 {
      assert Tracked(s, g) == 0;
    }
  }

  /** The driver accepts a request and answers with handle zero. */
  predicate ZeroReply(s: State, c: Call) {
    match c
    case RetainCall(device, output, reply, _, _) =>
      device >= 0 && output && Ready(s) && s.prepared == device && reply == Some(0)
    case CreateCall(_, owner, output, current, reply, _, _) =>
      owner != 0 && output && Ready(s) && owner in s.contexts && current && reply == Some(0)
    case _ => false
  }

  ghost predicate HoldsZero(driver: multiset<Grant>) {
    exists g: Grant :: g.Identity() == 0 && driver[g] > 0
  }

  lemma ZeroAdded(driver: multiset<Grant>, g: Grant)
    ensures HoldsZero(driver + multiset{g}) <==> HoldsZero(driver) || g.Identity() == 0
  {
    if HoldsZero(driver) {
      var o: Grant :| o.Identity() == 0 && driver[o] > 0;
      assert (driver + multiset{g})[o] > 0;
    }
    assert (driver + multiset{g})[g] > 0;
  }

  lemma ZeroRemoved(driver: multiset<Grant>, g: Grant)
    requires g.Identity() != 0
    ensures HoldsZero(driver - multiset{g}) <==> HoldsZero(driver)
  {
    forall o: Grant | o.Identity() == 0 ensures (driver - multiset{g})[o] == driver[o] {}
  }

  lemma MemoryHoldsNoZero(s: State, c: Call)
    requires c.AllocateCall? || c.DeallocateCall?
    ensures HoldsZero(Apply(s, c).0.driver) <==> HoldsZero(s.driver)
  {
    hide HoldsZero, Allocate, Deallocate, Retain, Release, Create, Destroy, CopyH2d, CopyAsync, MemsetAsync, Prepare,
      Dispose;
    match c
    case AllocateCall(kind, device, _, d) =>
      if d.block.Some? {
        ZeroAdded(s.driver, MemoryGrant(d.block.value.address, RecordOf(d.block.value, kind, device)));
      }
    case DeallocateCall(_, address, record, _) =>
      if address != 0 {
        ZeroRemoved(s.driver, MemoryGrant(address, record));
      }
  }

  lemma ContextZero(s: State, c: Call)
    requires c.RetainCall? || c.ReleaseCall?
    ensures HoldsZero(Apply(s, c).0.driver) <==> HoldsZero(s.driver) || ZeroReply(s, c)
  {
    hide HoldsZero, Allocate, Deallocate, Retain, Release, Create, Destroy, CopyH2d, CopyAsync, MemsetAsync, Prepare,
      Dispose;
    match c
    case RetainCall(device, _, reply, _, _) =>
      if reply.Some? {
        ZeroAdded(s.driver, ContextGrant(reply.value, device));
      }
    case ReleaseCall(device, h, _, _) =>
      if h != 0 {
        ZeroRemoved(s.driver, ContextGrant(h, device));
      }
  }

  lemma OwnedZero(s: State, c: Call)
    requires c.CreateCall? || c.DestroyCall?
    ensures HoldsZero(Apply(s, c).0.driver) <==> HoldsZero(s.driver) || ZeroReply(s, c)
  {
    hide HoldsZero, Allocate, Deallocate, Retain, Release, Create, Destroy, CopyH2d, CopyAsync, MemsetAsync, Prepare,
      Dispose;
    match c
    case CreateCall(stream, owner, _, _, reply, _, _) =>
      if reply.Some? {
        ZeroAdded(s.driver, StreamOrEvent(stream, reply.value, owner));
      }
    case DestroyCall(stream, h, _, _) =>
      if h != 0 && h in Owners(s, stream) {
        ZeroRemoved(s.driver, StreamOrEvent(stream, h, Owners(s, stream)[h]));
      }
  }

  lemma ZeroGrantsComeFromZeroReplies(s: State, c: Call)
    ensures HoldsZero(Apply(s, c).0.driver) <==> HoldsZero(s.driver) || ZeroReply(s, c)
  {
    hide HoldsZero, Allocate, Deallocate, Retain, Release, Create, Destroy, CopyH2d, CopyAsync, MemsetAsync, Prepare,
      Enter, Register, Configure, Start, BecomeReady, Drain, Stop, Dispose, Advance;
    if c.AllocateCall? || c.DeallocateCall? {
      MemoryHoldsNoZero(s, c);
    } else if c.RetainCall? || c.ReleaseCall? {
      ContextZero(s, c);
    } else if c.CreateCall? || c.DestroyCall? {
      OwnedZero(s, c);
    }
  }

  /** Some call of the run was answered with handle zero. */
  ghost predicate SawZero(calls: seq<Call>) {
    exists n :: 0 <= n < |calls| && ZeroReply(Run(Fresh(), calls[..n]), calls[n])
  }

  lemma SawZeroLater(calls: seq<Call>, n: nat)
    requires |calls| == n + 1
    ensures SawZero(calls) <==> SawZero(calls[..n]) || ZeroReply(Run(Fresh(), calls[..n]), calls[n])
  {
    hide Run, ZeroReply;
    var front := calls[..n];
    forall i | 0 <= i < n ensures front[..i] == calls[..i] && front[i] == calls[i] {}
    if SawZero(front) {
      var i :| 0 <= i < n && ZeroReply(Run(Fresh(), front[..i]), front[i]);
      assert ZeroReply(Run(Fresh(), calls[..i]), calls[i]);
    }
  }

  lemma {:induction false} ZeroGrantsOfRun(calls: seq<Call>)
    ensures HoldsZero(Run(Fresh(), calls).driver) <==> SawZero(calls)
  {
    hide HoldsZero, Apply, ZeroReply, SawZero;
    if calls == [] {
      FreshHoldsNothing();
    } else {
      var n := |calls| - 1;
      ZeroGrantsOfRun(calls[..n]);
      ZeroGrantsComeFromZeroReplies(Run(Fresh(), calls[..n]), calls[n]);
      SawZeroLater(calls, n);
    }
  }

  lemma FreshHoldsNothing()
    ensures !HoldsZero(Fresh().driver) && !SawZero([])
  {
  }

  /** The exact condition: an uncorrupted provider tracks every grant if and only if no reply was handle zero. */
  lemma TracksEverythingExactly(calls: seq<Call>)
    requires !Run(Fresh(), calls).corrupted
    ensures (forall g: Grant :: Run(Fresh(), calls).driver[g] == Tracked(Run(Fresh(), calls), g)) <==> !SawZero(calls)
  {
    hide Run, SawZero;
    var s := Run(Fresh(), calls);
    OwnershipRefinement(calls);
    ZeroGrantsOfRun(calls);
    forall g: Grant | g.Identity() == 0 ensures Tracked(s, g) == 0 {}
  }

  lemma RunPlus(s: State, calls: seq<Call>, c: Call)
    ensures Run(s, calls + [c]) == Apply(Run(s, calls), c).0
  {
    assert (calls + [c])[..|calls|] == calls;
  }

  const STARTED: seq<Call> :=
    [EnterCall(true)] + [RegisterCall(true, Ok)] + [ConfigureCall(true, Ok, true)] + [StartCall(true, Ok)] +
      [ReadyCall(true)] + [PrepareCall(0, 8, 9, true)]

  const ZERO_CONTEXT := RetainCall(0, true, Some(0), true, Rollback(true, true, true))

  /** A state without resources. */
  function Bare(phase: nat, bound: bool, platform: bool, prepared: int, major: nat, minor: nat): State {
    State(phase, bound, platform, prepared, major, minor, map[], false, map[], map[], map[], map[], false, multiset{})
  }

  lemma StartupBegins()
    ensures Apply(Bare(0, false, false, -1, 0, 0), EnterCall(true)).0 == Bare(0, true, false, -1, 0, 0)
    ensures Apply(Bare(0, true, false, -1, 0, 0), RegisterCall(true, Ok)).0 == Bare(1, true, false, -1, 0, 0)
    ensures Apply(Bare(1, true, false, -1, 0, 0), ConfigureCall(true, Ok, true)).0 == Bare(2, true, true, -1, 0, 0)
  {
    hide Allocate, Deallocate, Retain, Release, Create, Destroy, CopyH2d, CopyAsync, MemsetAsync, Dispose, Stop,
      Drain, Prepare, Start, Move;
  }

  lemma StartupEnds()
    ensures Apply(Bare(2, true, true, -1, 0, 0), StartCall(true, Ok)).0 == Bare(3, true, true, -1, 0, 0)
    ensures Apply(Bare(3, true, true, -1, 0, 0), ReadyCall(true)).0 == Bare(4, true, true, -1, 0, 0)
    ensures Apply(Bare(4, true, true, -1, 0, 0), PrepareCall(0, 8, 9, true)).0 == Bare(4, true, true, 0, 8, 9)
  {
    hide Allocate, Deallocate, Retain, Release, Create, Destroy, CopyH2d, CopyAsync, MemsetAsync, Dispose, Stop,
      Drain, Enter, Register, Configure, Move;
  }

  lemma StartedState()
    ensures Run(Fresh(), STARTED) == Bare(4, true, true, 0, 8, 9)
  {
    hide Apply, Run, Bare;
    StartupBegins();
    StartupEnds();
    FreshIsBare();
    var none: seq<Call> := [];
    NothingRun(Fresh());
    RunPlus(Fresh(), none, EnterCall(true));
    assert none + [EnterCall(true)] == [EnterCall(true)];
    var one := [EnterCall(true)];
    RunPlus(Fresh(), one, RegisterCall(true, Ok));
    var two := one + [RegisterCall(true, Ok)];
    RunPlus(Fresh(), two, ConfigureCall(true, Ok, true));
    var three := two + [ConfigureCall(true, Ok, true)];
    RunPlus(Fresh(), three, StartCall(true, Ok));
    var four := three + [StartCall(true, Ok)];
    RunPlus(Fresh(), four, ReadyCall(true));
    RunPlus(Fresh(), four + [ReadyCall(true)], PrepareCall(0, 8, 9, true));
  }

  lemma FreshIsBare()
    ensures Fresh() == Bare(0, false, false, -1, 0, 0)
  {
  }

  lemma NothingRun(s: State)
    ensures Run(s, []) == s
  {
  }

  /**
   * A context answered with handle zero is lost without a trace: the provider drains with the driver still
   * holding it.
   */
  lemma ZeroHandleLeaks()
    ensures var s := Run(Fresh(), STARTED + [ZERO_CONTEXT]);
      s.driver[ContextGrant(0, 0)] == 1 && !s.corrupted && Apply(s, DrainCall(true)).1 == Ok
  {
    hide Run, STARTED, Allocate, Deallocate, Release, Create, Destroy, CopyH2d, CopyAsync, MemsetAsync, Dispose, Stop,
      Configure, Start, Register;
    StartedState();
    RunPlus(Fresh(), STARTED, ZERO_CONTEXT);
  }

  // ---- Lifecycle and quarantine -------------------------------------------------------------------------------

  lemma PhasesFollowLifecycle(s: State, c: Call)
    requires s.phase <= 7
    ensures Move(s.phase, Apply(s, c).0.phase)
  {
    hide Allocate, Deallocate, Retain, Release, Create, Destroy, CopyH2d, CopyAsync, MemsetAsync, Prepare,
      Enter, Register, Configure, Start, BecomeReady, Drain, Stop, Dispose;
  }

  /** Phases over a whole run: every step is a move of the lifecycle, and resources exist in phase 4 only. */
  lemma RunFollowsLifecycle(calls: seq<Call>, n: nat)
    requires n < |calls|
    ensures Move(Run(Fresh(), calls[..n]).phase, Run(Fresh(), calls[..n + 1]).phase)
    ensures Run(Fresh(), calls[..n]).phase != 4 ==> NothingTracked(Run(Fresh(), calls[..n]))
  {
    hide Apply, Move;
    FreshIsSound();
    RunKeeps(Fresh(), calls[..n]);
    assert calls[..n + 1][..n] == calls[..n];
    PhasesFollowLifecycle(Run(Fresh(), calls[..n]), calls[n]);
  }

  lemma CorruptionStays(s: State, c: Call)
    requires Inv(s) && s.corrupted
    ensures Apply(s, c).0.corrupted && Apply(s, c).0.phase == 4
  {
    hide Balanced, Anchored, Allocate, Deallocate, Retain, Release, Create, Destroy, CopyH2d, CopyAsync, MemsetAsync,
      Prepare;
  }

  /** The calls that hand out a resource. */
  predicate HandsOut(c: Call) { c.AllocateCall? || c.RetainCall? || c.CreateCall? }

  lemma CorruptedHandsOutNothing(s: State, c: Call)
    requires s.corrupted && HandsOut(c)
    ensures Apply(s, c).1 != Ok
  {
    hide Allocate, Deallocate, Retain, Release, Create, Destroy, CopyH2d, CopyAsync, MemsetAsync, Prepare, Dispose;
  }

  /** Quarantine: once ownership is corrupted no continuation leaves phase 4 or hands out another resource. */
  lemma {:induction false} Quarantine(s: State, calls: seq<Call>, next: Call)
    requires Inv(s) && s.corrupted
    ensures Run(s, calls).corrupted && Run(s, calls).phase == 4
    ensures HandsOut(next) ==> Apply(Run(s, calls), next).1 != Ok
  {
    hide Apply, Balanced, Anchored;
    if calls != [] {
      var n := |calls| - 1;
      Quarantine(s, calls[..n], next);
      RunKeeps(s, calls[..n]);
      CorruptionStays(Run(s, calls[..n]), calls[n]);
    }
    if HandsOut(next) {
      CorruptedHandsOutNothing(Run(s, calls), next);
    }
  }

  lemma DisposedStays(s: State, c: Call)
    requires Inv(s) && s.phase == 7
    ensures Apply(s, c).0.phase == 7
    ensures c.EnterCall? || HandsOut(c) ==> Apply(s, c).1 != Ok
  {
    hide Balanced, Anchored, Allocate, Deallocate, Retain, Release, Create, Destroy, CopyH2d, CopyAsync, MemsetAsync,
      Prepare;
  }

  /** Disposal is final: the entry point never binds again. */
  lemma {:induction false} DisposalIsFinal(s: State, calls: seq<Call>, next: Call)
    requires Inv(s) && s.phase == 7
    ensures Run(s, calls).phase == 7
    ensures next.EnterCall? || HandsOut(next) ==> Apply(Run(s, calls), next).1 != Ok
  {
    hide Apply, Balanced, Anchored;
    RunKeeps(s, calls);
    if calls != [] {
      var n := |calls| - 1;
      DisposalIsFinal(s, calls[..n], next);
      RunKeeps(s, calls[..n]);
      DisposedStays(Run(s, calls[..n]), calls[n]);
    }
    DisposedStays(Run(s, calls), next);
  }

  // ---- Copies -------------------------------------------------------------------------------------------------

  /** The range lies wholly inside one tracked allocation, as intervals of numbers. */
  ghost predicate Inside(s: State, r: Access) {
    exists base :: base in s.allocations && InsideOf(base, s.allocations[base], r)
  }

  predicate InsideOf(base: Word, record: Record, r: Access) {
    record.kind == r.kind && record.device == r.device && base <= r.address &&
      r.address + r.bytes <= base + record.bytes
  }

  /** The 64-bit offset test is interval inclusion, without wrap-around. */
  lemma OwnsIsInclusion(s: State, r: Access)
    ensures Owns(s, r) <==> r.address != 0 && r.bytes != 0 && Inside(s, r)
  {
    forall base: Word, record: Record ensures Covers(base, record, r) ==> InsideOf(base, record, r)
      ensures InsideOf(base, record, r) && r.bytes != 0 ==> Covers(base, record, r)
    {
      OffsetTest(base, record, r);
    }
  }

  lemma OffsetTest(base: Word, record: Record, r: Access)
    ensures Covers(base, record, r) ==> InsideOf(base, record, r)
    ensures InsideOf(base, record, r) ==> Covers(base, record, r)
  {
    if r.address >= base {
      assert Sub64(r.address, base) == r.address - base;
      if r.address - base <= record.bytes {
        assert Sub64(record.bytes, r.address - base) == record.bytes - (r.address - base);
      }
    }
  }

  /** The device a call works on. */
  function DeviceOf(s: State, c: Call): int {
    match c
    case CopyCall(device, _, _, _, _, _, _) => device
    case CopyAsyncCall(context, _, _, _, _, _, _, _, _) =>
      if context in s.contexts then s.contexts[context].device else -1
    case MemsetCall(context, _, _, _, _, _, _) => if context in s.contexts then s.contexts[context].device else -1
    case _ => -1
  }

  ghost predicate Contained(s: State, c: Call, r: Access) {
    Inside(s, r) && r.device == if r.kind.DeviceMemory? then DeviceOf(s, c) else -1
  }

  lemma TouchedIsContained(s: State, c: Call, r: Access)
    requires r in Touched(s, c) && r.bytes != 0
    ensures Contained(s, c, r)
  {
    hide Owns, Inside;
    OwnsIsInclusion(s, r);
  }

  /**
   * Copy containment over runs: whatever bytes a run has the driver touch belong to one tracked allocation
   * of the right device.
   */
  lemma CopiesAreContained(calls: seq<Call>, n: nat, r: Access)
    requires n < |calls| && r in Touched(Run(Fresh(), calls[..n]), calls[n]) && r.bytes != 0
    ensures Contained(Run(Fresh(), calls[..n]), calls[n], r)
    ensures Ready(Run(Fresh(), calls[..n]))
    ensures exists base, record ::
      InsideOf(base, record, r) && Run(Fresh(), calls[..n]).driver[MemoryGrant(base, record)] == 1
  {
    hide Run, Touched, Contained;
    var s := Run(Fresh(), calls[..n]);
    TouchedIsContained(s, calls[n], r);
    TouchedNeedsReady(s, calls[n]);
    OwnershipRefinement(calls[..n]);
    ContainedIsGranted(s, calls[n], r);
  }

  lemma TouchedNeedsReady(s: State, c: Call)
    ensures Touched(s, c) != [] ==> Ready(s)
  {
    hide Owns;
  }

  lemma ContainedIsGranted(s: State, c: Call, r: Access)
    requires Contained(s, c, r) && Anchored(s)
    requires forall g: Grant :: g.Identity() != 0 ==> s.driver[g] == Tracked(s, g)
    ensures exists base, record :: InsideOf(base, record, r) && s.driver[MemoryGrant(base, record)] == 1
  {
    var base :| base in s.allocations && InsideOf(base, s.allocations[base], r);
    assert s.driver[MemoryGrant(base, s.allocations[base])] == 1;
  }
}
