/** What the driver holds moves by its replies alone, call by call. */
module CudaReplies {
  import opened CudaLedger
  import opened CudaRuns
  import opened Wrappers

  /** The call gets as far as asking the driver for a resource. */
  predicate Asks(s: State, c: Call) {
    match c
    case AllocateCall(kind, device, output, d) =>
      && output && s.phase == 4 && !s.corrupted && s.prepared >= 0
      && (if kind.DeviceMemory? then
            device == s.prepared && d.slot && (d.created || (device in s.slots && s.slots[device]))
          else device == -1 && (d.created || s.pinnedAllocator))
    case RetainCall(device, output, _, _, _) =>
      output && s.phase == 4 && !s.corrupted && device == s.prepared >= 0
    case CreateCall(_, owner, output, current, _, _, _) =>
      output && s.phase == 4 && !s.corrupted && owner != 0 && owner in s.contexts && current
    case _ => false
  }

  /** What the driver grants when it is asked. */
  function Granted(c: Call): Option<Grant> {
    match c
    case AllocateCall(kind, device, _, d) =>
      if d.block.None? || d.block.value.address == 0 then None
      else
        var b := d.block.value;
        Some(MemoryGrant(b.address, Record(b.bytes, b.alignment, b.generation, device, kind)))
    case RetainCall(device, _, reply, _, _) => if reply.None? then None else Some(ContextGrant(reply.value, device))
    case CreateCall(stream, owner, _, _, reply, _, _) =>
      if reply.None? then None
      else Some(if stream then StreamGrant(reply.value, owner) else EventGrant(reply.value, owner))
    case _ => None
  }

  /** The driver would take the resource back in the same call. */
  predicate TakesBackAtOnce(c: Call) {
    match c
    case AllocateCall(_, _, _, d) => d.freed
    case RetainCall(_, _, _, _, rollback) => rollback.found && rollback.released
    case CreateCall(_, _, _, _, _, _, destroyed) => destroyed
    case _ => false
  }

  /** What the driver takes back, when its reply says so. */
  function TakenBackBy(s: State, c: Call): Option<Grant> {
    match c
    case DeallocateCall(_, address, record, released) =>
      if released && address != 0 then Some(MemoryGrant(address, record)) else None
    case ReleaseCall(device, h, unbound, released) =>
      if unbound && released then Some(ContextGrant(h, device)) else None
    case DestroyCall(stream, h, current, destroyed) =>
      if !(current && destroyed) then None
      else if stream then (if h in s.streams then Some(StreamGrant(h, s.streams[h])) else None)
      else (if h in s.events then Some(EventGrant(h, s.events[h])) else None)
    case _ => None
  }

  lemma AllocateShape(s: State, kind: Kind, device: int, output: bool, d: AllocationReplies)
    ensures var t := AfterAllocator(s, kind, device, d); var r := Allocate(s, kind, device, output, d);
      && t.driver == s.driver
      && (if Asks(s, AllocateCall(kind, device, output, d)) && d.block.Some? then
            r == if d.block.value.address == 0 then (t, Ok)
                 else AdoptBlock(t, d.block.value, kind, device, d.tracks, d.freed)
          else r.1 != Ok && (r.0 == s || r.0 == t))
  {
    hide AdoptBlock;
  }

  lemma AllocateMoves(s: State, kind: Kind, device: int, output: bool, d: AllocationReplies)
    ensures var c := AllocateCall(kind, device, output, d); var t := Allocate(s, kind, device, output, d).0;
      && (t.driver != s.driver ==> Asks(s, c) && Granted(c).Some? && t.driver == s.driver + multiset{Granted(c).value})
      && (Asks(s, c) && Granted(c).Some? && !TakesBackAtOnce(c) ==> t.driver == s.driver + multiset{Granted(c).value})
  {
    hide AdoptBlock, Allocate, AfterAllocator, Asks;
    AllocateShape(s, kind, device, output, d);
    if d.block.Some? {
      AdoptMoves(AfterAllocator(s, kind, device, d), d.block.value, kind, device, d.tracks, d.freed);
    }
  }

  lemma AdoptMoves(s: State, b: Block, kind: Kind, device: int, tracks: bool, freed: bool)
    ensures var t := AdoptBlock(s, b, kind, device, tracks, freed).0;
      var g := MemoryGrant(b.address, Record(b.bytes, b.alignment, b.generation, device, kind));
      (t.driver == s.driver && freed) || t.driver == s.driver + multiset{g}
  {
  }

  lemma RetainMoves(s: State, device: int, output: bool, reply: Option<Word>, tracks: bool, rollback: Rollback)
    ensures var c := RetainCall(device, output, reply, tracks, rollback);
      var t := Retain(s, device, output, reply, tracks, rollback).0;
      && (t.driver != s.driver ==> Asks(s, c) && Granted(c).Some? && t.driver == s.driver + multiset{Granted(c).value})
      && (Asks(s, c) && Granted(c).Some? && !TakesBackAtOnce(c) ==> t.driver == s.driver + multiset{Granted(c).value})
  {
    hide AdoptContext;
    if reply.Some? {
      AdoptContextMoves(s, reply.value, device, tracks, rollback);
    }
  }

  lemma AdoptContextMoves(s: State, h: Word, device: int, tracks: bool, rollback: Rollback)
    ensures var t := AdoptContext(s, h, device, tracks, rollback).0; var g := ContextGrant(h, device);
      (t.driver == s.driver && rollback.found && rollback.released) || t.driver == s.driver + multiset{g}
  {
    hide RolledBack;
    RolledBackMoves(s, ContextGrant(h, device), rollback);
  }

  lemma RolledBackMoves(s: State, g: Grant, r: Rollback)
    ensures RolledBack(s, g, r).driver == if r.found && r.released then s.driver else s.driver + multiset{g}
  {
  }

  lemma CreateMoves(s: State, stream: bool, owner: Word, output: bool, current: bool, reply: Option<Word>,
                    tracks: bool, destroyed: bool)
    ensures var c := CreateCall(stream, owner, output, current, reply, tracks, destroyed);
      var t := Create(s, stream, owner, output, current, reply, tracks, destroyed).0;
      && (t.driver != s.driver ==> Asks(s, c) && Granted(c).Some? && t.driver == s.driver + multiset{Granted(c).value})
      && (Asks(s, c) && Granted(c).Some? && !TakesBackAtOnce(c) ==> t.driver == s.driver + multiset{Granted(c).value})
  {
    hide AdoptOwned;
    if reply.Some? {
      AdoptOwnedMoves(s, stream, reply.value, owner, tracks, destroyed);
    }
  }

  lemma AdoptOwnedMoves(s: State, stream: bool, h: Word, owner: Word, tracks: bool, destroyed: bool)
    ensures var t := AdoptOwned(s, stream, h, owner, tracks, destroyed).0;
      var g := if stream then StreamGrant(h, owner) else EventGrant(h, owner);
      (t.driver == s.driver && destroyed) || t.driver == s.driver + multiset{g}
  {
  }

  /** The driver moves by its replies: it gains what it grants to a call that asks, and loses what it says it took. */
  ghost predicate MovesByReplies(s: State, c: Call, t: State) {
    || t.driver == s.driver
    || (Asks(s, c) && Granted(c).Some? && t.driver == s.driver + multiset{Granted(c).value})
    || (TakenBackBy(s, c).Some? && t.driver == s.driver - multiset{TakenBackBy(s, c).value})
  }

  lemma DeallocateMoves(s: State, kind: Kind, address: Word, record: Record, released: bool)
    ensures MovesByReplies(s, DeallocateCall(kind, address, record, released),
      Deallocate(s, kind, address, record, released).0)
  {
    hide Freed;
  }

  lemma ReleaseMoves(s: State, device: int, h: Word, unbound: bool, released: bool)
    ensures MovesByReplies(s, ReleaseCall(device, h, unbound, released), Release(s, device, h, unbound, released).0)
  {
    hide Returned;
  }

  lemma DestroyMoves(s: State, stream: bool, h: Word, current: bool, destroyed: bool)
    ensures MovesByReplies(s, DestroyCall(stream, h, current, destroyed), Destroy(s, stream, h, current, destroyed).0)
  {
    hide Destroyed;
  }

  lemma GainMoves(s: State, c: Call, t: State)
    requires t.driver != s.driver ==>
      Asks(s, c) && Granted(c).Some? && t.driver == s.driver + multiset{Granted(c).value}
    ensures MovesByReplies(s, c, t)
  {
  }

  lemma OthersKeepDriver(s: State, c: Call)
    requires IsLifecycle(c) || c.PrepareCall? || c.CopyCall? || c.CopyAsyncCall? || c.MemsetCall?
    ensures Apply(s, c).0.driver == s.driver
  {
    hide Allocate, Deallocate, Retain, Release, Create, Destroy, CopyH2d, CopyAsync, MemsetAsync, Prepare, Enter,
      Register, Configure, Start, BecomeReady, Drain, Stop, Dispose;
  }

  /** Every call: the grants outstanding change only as the replies say, one grant at a time. */
  lemma DriverFollowsReplies(s: State, c: Call)
    ensures MovesByReplies(s, c, Apply(s, c).0)
  {
    hide MovesByReplies, Asks, Granted, TakesBackAtOnce, TakenBackBy, Allocate, Deallocate, Retain, Release, Create,
      Destroy, CopyH2d, CopyAsync, MemsetAsync, Prepare, ApplyLifecycle;
    match c
    case AllocateCall(kind, device, output, d) =>
      AllocateMoves(s, kind, device, output, d);
      GainMoves(s, c, Apply(s, c).0);
    case DeallocateCall(kind, address, record, released) => DeallocateMoves(s, kind, address, record, released);
    case RetainCall(device, output, reply, tracks, rollback) =>
      RetainMoves(s, device, output, reply, tracks, rollback);
      GainMoves(s, c, Apply(s, c).0);
    case ReleaseCall(device, h, unbound, released) => ReleaseMoves(s, device, h, unbound, released);
    case CreateCall(stream, owner, output, current, reply, tracks, destroyed) =>
      CreateMoves(s, stream, owner, output, current, reply, tracks, destroyed);
      GainMoves(s, c, Apply(s, c).0);
    case DestroyCall(stream, h, current, destroyed) => DestroyMoves(s, stream, h, current, destroyed);
    case _ =>
      OthersKeepDriver(s, c);
      GainMoves(s, c, Apply(s, c).0);
  }

  /** A resource the driver has granted and would not take back at once is held, whatever else goes wrong. */
  lemma GrantsAreHeld(s: State, c: Call)
    requires Asks(s, c) && Granted(c).Some? && !TakesBackAtOnce(c)
    ensures Apply(s, c).0.driver == s.driver + multiset{Granted(c).value}
  {
    hide Granted, TakesBackAtOnce, Allocate, Deallocate, Retain, Release, Create, Destroy, CopyH2d, CopyAsync,
      MemsetAsync, Prepare, ApplyLifecycle;
    match c
    case AllocateCall(kind, device, output, d) => AllocateMoves(s, kind, device, output, d);
    case RetainCall(device, output, reply, tracks, rollback) => RetainMoves(s, device, output, reply, tracks, rollback);
    case CreateCall(stream, owner, output, current, reply, tracks, destroyed) =>
      CreateMoves(s, stream, owner, output, current, reply, tracks, destroyed);
  }

  // ---- Answers -----------------------------------------------------------------------------------------------

  /** What is tracked is just this. */
  predicate Tracks(t: State, allocations: map<Word, Record>, contexts: map<Word, Retained>, streams: map<Word, Word>,
                   events: map<Word, Word>)
  {
    t.allocations == allocations && t.contexts == contexts && t.streams == streams && t.events == events
  }

  predicate SameTracked(s: State, t: State) { Tracks(t, s.allocations, s.contexts, s.streams, s.events) }

  /** What a successful answer to a resource call means for what is tracked. */
  predicate Done(s: State, c: Call, t: State) {
    match c
    case AllocateCall(kind, device, _, d) =>
      Asks(s, c) && d.block.Some? && BlockAdded(s, d.block.value, kind, device, t)
    case DeallocateCall(kind, address, record, _) =>
      if address == 0 then SameTracked(s, t)
      else
        && address in s.allocations && s.allocations[address] == record && record.kind == kind
        && Tracks(t, s.allocations - {address}, s.contexts, s.streams, s.events)
    case RetainCall(device, _, reply, _, _) => Asks(s, c) && reply.Some? && ContextAdded(s, reply.value, device, t)
    case ReleaseCall(device, h, _, _) =>
      && h in s.contexts && s.contexts[h].device == device && h !in s.streams.Values && h !in s.events.Values
      && (if s.contexts[h].count <= 1 then Tracks(t, s.allocations, s.contexts - {h}, s.streams, s.events)
          else
            Tracks(t, s.allocations, s.contexts[h := Retained(device, s.contexts[h].count - 1)], s.streams, s.events))
    case CreateCall(stream, owner, _, _, reply, _, _) =>
      Asks(s, c) && reply.Some? && OwnedAdded(s, stream, reply.value, owner, t)
    case DestroyCall(stream, h, _, _) =>
      if stream then h in s.streams && Tracks(t, s.allocations, s.contexts, s.streams - {h}, s.events)
      else h in s.events && Tracks(t, s.allocations, s.contexts, s.streams, s.events - {h})
    case _ => SameTracked(s, t)
  }

  predicate BlockAdded(s: State, b: Block, kind: Kind, device: int, t: State) {
    if b.address == 0 then SameTracked(s, t)
    else
      && b.address !in s.allocations
      && Tracks(t, s.allocations[b.address := Record(b.bytes, b.alignment, b.generation, device, kind)],
        s.contexts, s.streams, s.events)
  }

  predicate ContextAdded(s: State, h: Word, device: int, t: State) {
    && h != 0 && (h in s.contexts ==> s.contexts[h].device == device)
    && var count := if h in s.contexts then s.contexts[h].count else 0;
      Tracks(t, s.allocations, s.contexts[h := Retained(device, count + 1)], s.streams, s.events)
  }

  predicate OwnedAdded(s: State, stream: bool, h: Word, owner: Word, t: State) {
    && h != 0
    && (if stream then h !in s.streams && Tracks(t, s.allocations, s.contexts, s.streams[h := owner], s.events)
        else h !in s.events && Tracks(t, s.allocations, s.contexts, s.streams, s.events[h := owner]))
  }

  /** The answer tells what happened: Ok exactly means done, and anything else leaves what is tracked as it was. */
  predicate Honest(s: State, c: Call, r: (State, Status)) {
    if r.1 == Ok then Done(s, c, r.0) else SameTracked(s, r.0)
  }

  lemma AdoptedBlock(s: State, b: Block, kind: Kind, device: int, tracks: bool, freed: bool)
    requires b.address != 0
    ensures var r := AdoptBlock(s, b, kind, device, tracks, freed);
      if r.1 == Ok then BlockAdded(s, b, kind, device, r.0) else SameTracked(s, r.0)
  {
  }

  lemma AllocatorTracksNothing(s: State, kind: Kind, device: int, d: AllocationReplies)
    ensures SameTracked(s, AfterAllocator(s, kind, device, d))
  {
  }

  lemma SameThenAdded(s: State, m: State, b: Block, kind: Kind, device: int, t: State)
    requires SameTracked(s, m)
    ensures SameTracked(m, t) ==> SameTracked(s, t)
    ensures BlockAdded(m, b, kind, device, t) ==> BlockAdded(s, b, kind, device, t)
  {
  }

  lemma AllocateIsHonest(s: State, kind: Kind, device: int, output: bool, d: AllocationReplies)
    ensures Honest(s, AllocateCall(kind, device, output, d), Allocate(s, kind, device, output, d))
  {
    hide AdoptBlock, Allocate, AfterAllocator, Asks, SameTracked, BlockAdded;
    var m := AfterAllocator(s, kind, device, d);
    AllocateShape(s, kind, device, output, d);
    AllocatorTracksNothing(s, kind, device, d);
    NothingIsSame(s);
    if d.block.Some? {
      var b := d.block.value;
      EmptyBlockAddsNothing(s, b, kind, device, m);
      if b.address != 0 {
        AdoptedBlock(m, b, kind, device, d.tracks, d.freed);
        SameThenAdded(s, m, b, kind, device, AdoptBlock(m, b, kind, device, d.tracks, d.freed).0);
      }
    }
  }

  lemma EmptyBlockAddsNothing(s: State, b: Block, kind: Kind, device: int, t: State)
    ensures b.address == 0 ==> (BlockAdded(s, b, kind, device, t) <==> SameTracked(s, t))
  {
  }

  lemma DeallocateIsHonest(s: State, kind: Kind, address: Word, record: Record, released: bool)
    ensures Honest(s, DeallocateCall(kind, address, record, released), Deallocate(s, kind, address, record, released))
  {
  }

  lemma AdoptedContext(s: State, h: Word, device: int, tracks: bool, rollback: Rollback)
    ensures var r := AdoptContext(s, h, device, tracks, rollback);
      if r.1 == Ok then ContextAdded(s, h, device, r.0) else SameTracked(s, r.0)
  {
    hide RolledBack;
    RolledBackTracksNothing(s, ContextGrant(h, device), rollback);
    if h == 0 || !tracks {
    } else if h !in s.contexts {
    } else if s.contexts[h].device != device || s.contexts[h].count == U32_MAX {
    }
  }

  lemma RolledBackTracksNothing(s: State, g: Grant, r: Rollback)
    ensures SameTracked(s, RolledBack(s, g, r))
  {
  }

  lemma RetainIsHonest(s: State, device: int, output: bool, reply: Option<Word>, tracks: bool, rollback: Rollback)
    ensures Honest(s, RetainCall(device, output, reply, tracks, rollback),
      Retain(s, device, output, reply, tracks, rollback))
  {
    hide AdoptContext, ContextAdded;
    if reply.Some? {
      AdoptedContext(s, reply.value, device, tracks, rollback);
    }
  }

  lemma ReleaseIsHonest(s: State, device: int, h: Word, unbound: bool, released: bool)
    ensures Honest(s, ReleaseCall(device, h, unbound, released), Release(s, device, h, unbound, released))
  {
  }

  lemma AdoptedOwned(s: State, stream: bool, h: Word, owner: Word, tracks: bool, destroyed: bool)
    ensures var r := AdoptOwned(s, stream, h, owner, tracks, destroyed);
      if r.1 == Ok then OwnedAdded(s, stream, h, owner, r.0) else SameTracked(s, r.0)
  {
  }

  lemma CreateIsHonest(s: State, stream: bool, owner: Word, output: bool, current: bool, reply: Option<Word>,
                       tracks: bool, destroyed: bool)
    ensures Honest(s, CreateCall(stream, owner, output, current, reply, tracks, destroyed),
      Create(s, stream, owner, output, current, reply, tracks, destroyed))
  {
    hide AdoptOwned, OwnedAdded;
    if reply.Some? {
      AdoptedOwned(s, stream, reply.value, owner, tracks, destroyed);
    }
  }

  lemma DestroyIsHonest(s: State, stream: bool, h: Word, current: bool, destroyed: bool)
    ensures Honest(s, DestroyCall(stream, h, current, destroyed), Destroy(s, stream, h, current, destroyed))
  {
  }

  lemma EarlyCallsTrackNothing(s: State, given: bool, answer: Answer, usable: bool)
    ensures SameTracked(s, Enter(s, given).0)
    ensures SameTracked(s, Register(s, given, answer).0)
  {
    hide Move;
  }

  lemma StartingTracksNothing(s: State, given: bool, answer: Answer, usable: bool)
    ensures SameTracked(s, Configure(s, given, answer, usable).0)
    ensures SameTracked(s, Start(s, given, answer).0)
  {
    hide Move;
  }

  lemma RunningTracksNothing(s: State, given: bool)
    ensures SameTracked(s, BecomeReady(s, given).0)
    ensures SameTracked(s, Drain(s, given).0)
  {
    hide Move;
  }

  lemma EndingTracksNothing(s: State, given: bool)
    ensures SameTracked(s, Stop(s, given).0)
  {
    hide Move, Advance;
    AdvancingTracksNothing(s, 5);
    if !given {
    } else if s.phase == 3 {
      assert SameTracked(s, s.(phase := 6));
    }
  }

  lemma AdvancingTracksNothing(s: State, expected: nat)
    ensures SameTracked(s, Advance(s, expected).0)
  {
  }

  lemma DisposingTracksNothing(s: State, given: bool)
    ensures SameTracked(s, Dispose(s, given).0)
  {
    hide Move;
  }

  lemma LifecycleIsHonest(s: State, c: Call)
    requires IsLifecycle(c)
    ensures SameTracked(s, ApplyLifecycle(s, c).0)
  {
    hide SameTracked, Enter, Register, Configure, Start, BecomeReady, Drain, Stop, Dispose;
    match c
    case EnterCall(valid) => EarlyCallsTrackNothing(s, valid, Ok, true);
    case RegisterCall(given, registry) => EarlyCallsTrackNothing(s, given, registry, true);
    case ConfigureCall(given, resolver, usable) => StartingTracksNothing(s, given, resolver, usable);
    case StartCall(given, runtime) => StartingTracksNothing(s, given, runtime, true);
    case ReadyCall(given) => RunningTracksNothing(s, given);
    case DrainCall(given) => RunningTracksNothing(s, given);
    case StopCall(given) => EndingTracksNothing(s, given);
    case DisposeCall(given) => DisposingTracksNothing(s, given);
  }

  lemma LifecycleDoneIsSame(s: State, c: Call, t: State)
    requires IsLifecycle(c) || c.PrepareCall? || c.CopyCall? || c.CopyAsyncCall? || c.MemsetCall?
    ensures Done(s, c, t) == SameTracked(s, t)
  {
  }

  lemma PrepareIsHonest(s: State, device: int, major: nat, minor: nat, matches: bool)
    ensures SameTracked(s, Prepare(s, device, major, minor, matches).0)
  {
  }

  lemma NothingIsSame(s: State)
    ensures SameTracked(s, s)
  {
  }

  /** Every answer is honest. */
  lemma AnswersAreHonest(s: State, c: Call)
    ensures Honest(s, c, Apply(s, c))
  {
    hide Asks, Done, SameTracked, Allocate, Deallocate, Retain, Release, Create, Destroy, CopyH2d, CopyAsync,
      MemsetAsync,
      Prepare, ApplyLifecycle;
    if IsLifecycle(c) || c.PrepareCall? || c.CopyCall? || c.CopyAsyncCall? || c.MemsetCall? {
      LifecycleDoneIsSame(s, c, Apply(s, c).0);
    }
    NothingIsSame(s);
    match c
    case AllocateCall(kind, device, output, d) => AllocateIsHonest(s, kind, device, output, d);
    case DeallocateCall(kind, address, record, released) => DeallocateIsHonest(s, kind, address, record, released);
    case RetainCall(device, output, reply, tracks, rollback) =>
      RetainIsHonest(s, device, output, reply, tracks, rollback);
    case ReleaseCall(device, h, unbound, released) => ReleaseIsHonest(s, device, h, unbound, released);
    case CreateCall(stream, owner, output, current, reply, tracks, destroyed) =>
      CreateIsHonest(s, stream, owner, output, current, reply, tracks, destroyed);
    case DestroyCall(stream, h, current, destroyed) => DestroyIsHonest(s, stream, h, current, destroyed);
    case PrepareCall(device, major, minor, matches) => PrepareIsHonest(s, device, major, minor, matches);
    case CopyCall(_, _, _, _, _, _, _) =>
    case CopyAsyncCall(_, _, _, _, _, _, _, _, _) =>
    case MemsetCall(_, _, _, _, _, _, _) =>
    case _ => LifecycleIsHonest(s, c);
  }
}
