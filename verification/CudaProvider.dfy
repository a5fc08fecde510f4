/** The CUDA provider as it runs: one object whose maps every call updates, with a ghost driver beside it. */
module CudaProvider {
  import opened CudaLedger
  import opened CudaRuns
  import opened CudaAllocators
  import opened Wrappers

  // ---- Every call keeps the invariant of the provider -----------------------------------------------------

  lemma AllocateSound(s: State, kind: Kind, device: int, output: bool, d: AllocationReplies)
    requires Sound(s)
    ensures Sound(Allocate(s, kind, device, output, d).0)
  {
    hide Sound, Allocate;
    ApplyKeepsSound(s, AllocateCall(kind, device, output, d));
  }

  lemma DeallocateSound(s: State, kind: Kind, address: Word, record: Record, released: bool)
    requires Sound(s)
    ensures Sound(Deallocate(s, kind, address, record, released).0)
  {
    hide Sound, Deallocate;
    ApplyKeepsSound(s, DeallocateCall(kind, address, record, released));
  }

  lemma RetainSound(s: State, device: int, output: bool, reply: Option<Word>, tracks: bool, rollback: Rollback)
    requires Sound(s)
    ensures Sound(Retain(s, device, output, reply, tracks, rollback).0)
  {
    hide Sound, Retain;
    ApplyKeepsSound(s, RetainCall(device, output, reply, tracks, rollback));
  }

  lemma ReleaseSound(s: State, device: int, h: Word, unbound: bool, released: bool)
    requires Sound(s)
    ensures Sound(Release(s, device, h, unbound, released).0)
  {
    hide Sound, Release;
    ApplyKeepsSound(s, ReleaseCall(device, h, unbound, released));
  }

  lemma CreateSound(s: State, stream: bool, owner: Word, output: bool, current: bool, reply: Option<Word>,
                    tracks: bool, destroyed: bool)
    requires Sound(s)
    ensures Sound(Create(s, stream, owner, output, current, reply, tracks, destroyed).0)
  {
    hide Sound, Create;
    ApplyKeepsSound(s, CreateCall(stream, owner, output, current, reply, tracks, destroyed));
  }

  lemma DestroySound(s: State, stream: bool, h: Word, current: bool, destroyed: bool)
    requires Sound(s)
    ensures Sound(Destroy(s, stream, h, current, destroyed).0)
  {
    hide Sound, Destroy;
    ApplyKeepsSound(s, DestroyCall(stream, h, current, destroyed));
  }

  lemma PrepareSound(s: State, device: int, major: nat, minor: nat, matches: bool)
    requires Sound(s)
    ensures Sound(Prepare(s, device, major, minor, matches).0)
  {
    hide Sound, Prepare;
    ApplyKeepsSound(s, PrepareCall(device, major, minor, matches));
  }

  lemma LifecycleSound(s: State, c: Call)
    requires Sound(s) && IsLifecycle(c)
    ensures Sound(ApplyLifecycle(s, c).0)
  {
    hide Sound, ApplyLifecycle;
    ApplyKeepsSound(s, c);
  }

  /** The driver holds nothing but handle zero. */
  ghost predicate NothingGranted(driver: multiset<Grant>) {
    forall g: Grant :: g.Identity() != 0 ==> driver[g] == 0
  }

  lemma EmptyHandsAreClean(s: State)
    requires Sound(s) && !s.corrupted && NothingTracked(s)
    ensures NothingGranted(s.driver)
  {
    hide Backed, OneDevice, Hosted, Anchored;
    forall g: Grant | g.Identity() != 0 ensures s.driver[g] == 0 {
      assert s.driver[g] == Tracked(s, g) == 0;
    }
  }

  lemma SoundOutsidePhaseFour(s: State)
    requires Sound(s)
    ensures s.phase != 4 ==> NothingTracked(s) && !s.corrupted
  {
    hide Backed, OneDevice, Hosted, Anchored, Balanced;
  }

  lemma TrackedBlockHasAllocator(s: State, address: Word)
    requires Sound(s) && address in s.allocations
    ensures HasAllocator(s, s.allocations[address].kind, s.allocations[address].device)
  {
    hide Inv, OneDevice, Hosted;
  }

  lemma ContextsAreOnDevice(s: State, context: Word)
    requires Sound(s) && context in s.contexts
    ensures s.contexts[context].device == s.prepared
  {
    hide Inv, Backed, Hosted;
  }

  lemma ConfiguringHasHost(s: State)
    requires Sound(s) && s.phase == 1
    ensures s.bound
  {
    hide Inv, Backed, OneDevice;
  }

  /** The range lies inside one block of the right device that the driver has granted and not taken back. */
  ghost predicate InGrantedBlock(s: State, device: int, r: Access) {
    && r.device == (if r.kind.DeviceMemory? then device else -1)
    && exists base, record :: InsideOf(base, record, r) && s.driver[MemoryGrant(base, record)] == 1
  }

  lemma OwnedIsGranted(s: State, r: Access)
    requires Sound(s) && Ready(s) && Inside(s, r)
    ensures exists base, record :: InsideOf(base, record, r) && s.driver[MemoryGrant(base, record)] == 1
  {
    hide Backed, OneDevice, Hosted;
    var base :| base in s.allocations && InsideOf(base, s.allocations[base], r);
    assert MemoryGrant(base, s.allocations[base]).Identity() != 0;
    assert s.driver[MemoryGrant(base, s.allocations[base])] == 1;
  }

  class Provider {
    var phase: nat
    var bound: bool
    var platform: bool
    var prepared: int
    var smMajor: nat
    var smMinor: nat
    var slots: map<int, bool>
    var pinnedAllocator: bool
    var allocations: map<Word, Record>
    var contexts: map<Word, Retained>
    var streams: map<Word, Word>
    var events: map<Word, Word>
    var corrupted: bool
    ghost var driver: multiset<Grant>

    ghost function Now(): State
      reads this
    {
      State(phase, bound, platform, prepared, smMajor, smMinor, slots, pinnedAllocator,
            allocations, contexts, streams, events, corrupted, driver)
    }

    /** Tracked resources are those the driver has granted, and everything they rest on is there. */
    ghost predicate Valid()
      reads this
    {
      Sound(Now())
    }

    constructor ()
      ensures Now() == Fresh() && Valid()
    {
      FreshProviderIsSound();
      hide Sound;
      phase, bound, platform := 0, false, false;
      prepared, smMajor, smMinor := -1, 0, 0;
      slots, pinnedAllocator := map[], false;
      allocations, contexts, streams, events := map[], map[], map[], map[];
      corrupted, driver := false, multiset{};
    }

    predicate IsReady()
      reads this
    {
      phase == 4 && !corrupted
    }

    predicate IsCleanupAllowed()
      reads this
    {
      phase == 4 || phase == 5
    }

    method DoAdoptBlock(b: Block, kind: Kind, device: int, tracks: bool, freed: bool) returns (r: Status)
      modifies `allocations, `corrupted, `driver
      ensures (Now(), r) == AdoptBlock(old(Now()), b, kind, device, tracks, freed)
    {
      var record := RecordOf(b, kind, device);
      ghost var grant := MemoryGrant(b.address, record);
      driver := driver + multiset{grant};
      if !tracks {
        if freed {
          TakenBack(old(driver), grant);
          driver := driver - multiset{grant};
        } else {
          corrupted := true;
        }
        return ResourceExhausted;
      }
      if b.address in allocations {
        corrupted := true;
        return Internal;
      }
      allocations := allocations[b.address := record];
      return Ok;
    }

    /** The slot of the device, opened if there is none, and filled if the driver gives it an allocator. */
    method FindDeviceAllocator(device: int, d: AllocationReplies)
      requires d.slot
      modifies `slots
      ensures Now() == AfterAllocator(old(Now()), DeviceMemory, device, d)
      ensures device in slots && slots[device] == HasAllocator(Now(), DeviceMemory, device)
    {
      if device !in slots {
        slots := slots[device := false];
      }
      if !slots[device] {
        slots := slots[device := d.created];
        assert slots == old(slots)[device := d.created];
      } else {
        assert slots == old(slots)[device := true];
      }
    }

    method AllocateDevice(device: int, output: bool, d: AllocationReplies) returns (r: Status)
      requires Valid()
      modifies `slots, `allocations, `corrupted, `driver
      ensures (Now(), r) == Allocate(old(Now()), DeviceMemory, device, output, d)
      ensures Valid()
    {
      hide AdoptBlock, AfterAllocator, Sound;
      AllocateSound(Now(), DeviceMemory, device, output, d);
      if device < 0 || !output { return InvalidArgument; }
      if !IsReady() { return FailedPrecondition; }
      if prepared != device { return FailedPrecondition; }
      if !d.slot { return ResourceExhausted; }
      FindDeviceAllocator(device, d);
      if !slots[device] { return DriverError; }
      if d.block.None? { return DriverError; }
      if d.block.value.address == 0 { return Ok; }
      r := DoAdoptBlock(d.block.value, DeviceMemory, device, d.tracks, d.freed);
    }

    method AllocatePinnedHost(device: int, output: bool, d: AllocationReplies) returns (r: Status)
      requires Valid()
      modifies `pinnedAllocator, `allocations, `corrupted, `driver
      ensures (Now(), r) == Allocate(old(Now()), PinnedHost, device, output, d)
      ensures Valid()
    {
      hide AdoptBlock, Sound;
      AllocateSound(Now(), PinnedHost, device, output, d);
      if device != -1 || !output { return InvalidArgument; }
      if !IsReady() { return FailedPrecondition; }
      if prepared < 0 { return FailedPrecondition; }
      if !pinnedAllocator {
        if !d.created { return DriverError; }
        pinnedAllocator := true;
      }
      if d.block.None? { return DriverError; }
      if d.block.value.address == 0 { return Ok; }
      r := DoAdoptBlock(d.block.value, PinnedHost, -1, d.tracks, d.freed);
    }

    method Forget(address: Word, record: Record)
      modifies `allocations, `driver
      ensures Now() == Freed(old(Now()), address, record)
    {
      driver := driver - multiset{MemoryGrant(address, record)};
      allocations := allocations - {address};
    }

    /** Only the release of an empty block can meet a slot without an allocator. */
    method DeallocateDevice(address: Word, record: Record, released: bool) returns (r: Status)
      requires Valid()
      modifies `allocations, `driver
      ensures (Now(), r) == Deallocate(old(Now()), DeviceMemory, address, record, released)
      ensures Valid()
      ensures r == Undefined ==> address == 0
    {
      hide Freed, Sound;
      DeallocateSound(Now(), DeviceMemory, address, record, released);
      if record.device < 0 || record.kind != DeviceMemory { return InvalidArgument; }
      if !IsCleanupAllowed() { return FailedPrecondition; }
      if address != 0 && (address !in allocations || allocations[address] != record) { return FailedPrecondition; }
      if record.device !in slots { return FailedPrecondition; }
      if !slots[record.device] {
        if address != 0 {
          TrackedBlockHasAllocator(Now(), address);
        }
        return Undefined;
      }
      if !released { return DriverError; }
      if address != 0 {
        Forget(address, record);
      }
      return Ok;
    }

    method DeallocatePinnedHost(address: Word, record: Record, released: bool) returns (r: Status)
      requires Valid()
      modifies `allocations, `driver
      ensures (Now(), r) == Deallocate(old(Now()), PinnedHost, address, record, released)
      ensures Valid()
      ensures r != Undefined
    {
      hide Freed, Sound;
      DeallocateSound(Now(), PinnedHost, address, record, released);
      if record.device != -1 || record.kind != PinnedHost { return InvalidArgument; }
      if !IsCleanupAllowed() { return FailedPrecondition; }
      if address != 0 && (address !in allocations || allocations[address] != record) { return FailedPrecondition; }
      if !pinnedAllocator { return FailedPrecondition; }
      if address != 0 {
        if !released { return DriverError; }
        Forget(address, record);
      }
      return Ok;
    }

    /** Hands a context the driver has just retained back to it; ownership is corrupted unless every step worked. */
    method RollbackPrimaryContext(ghost grant: Grant, d: Rollback)
      modifies `corrupted, `driver
      ensures Now() == RolledBack(old(Now()), grant, d)
    {
      var clean := d.found && d.left;
      if !d.found || !d.released {
        driver := driver + multiset{grant};
        clean := false;
      }
      if !clean {
        corrupted := true;
      }
    }

    method DoAdoptContext(created: Word, device: int, tracks: bool, d: Rollback) returns (r: Status)
      modifies `contexts, `corrupted, `driver
      ensures (Now(), r) == AdoptContext(old(Now()), created, device, tracks, d)
    {
      hide RolledBack;
      ghost var grant := ContextGrant(created, device);
      if created == 0 {
        driver := driver + multiset{grant};
        return Internal;
      }
      if !tracks || (created in contexts &&
        (contexts[created].device != device || contexts[created].count == U32_MAX)) {
        RollbackPrimaryContext(grant, d);
        return if !tracks then ResourceExhausted else FailedPrecondition;
      }
      driver := driver + multiset{grant};
      var count := if created in contexts then contexts[created].count + 1 else 1;
      contexts := contexts[created := Retained(device, count)];
      return Ok;
    }

    method RetainPrimaryContext(device: int, output: bool, reply: Option<Word>, tracks: bool, d: Rollback)
      returns (r: Status, retained: Word)
      requires Valid()
      modifies `contexts, `corrupted, `driver
      ensures (Now(), r) == Retain(old(Now()), device, output, reply, tracks, d)
      ensures r == Ok ==> reply == Some(retained)
      ensures Valid()
    {
      hide AdoptContext, Sound;
      RetainSound(Now(), device, output, reply, tracks, d);
      retained := 0;
      if device < 0 || !output { return InvalidArgument, 0; }
      if !IsReady() { return FailedPrecondition, 0; }
      if prepared != device { return FailedPrecondition, 0; }
      if reply.None? { return DriverError, 0; }
      r := DoAdoptContext(reply.value, device, tracks, d);
      retained := if r == Ok then reply.value else 0;
    }

    method ForgetContext(device: int, h: Word)
      requires h in contexts
      modifies `contexts, `driver
      ensures Now() == Returned(old(Now()), device, h)
    {
      driver := driver - multiset{ContextGrant(h, device)};
      var count := contexts[h].count - 1;
      contexts := if count <= 0 then contexts - {h} else contexts[h := Retained(device, count)];
    }

    method ReleasePrimaryContext(device: int, h: Word, unbound: bool, released: bool) returns (r: Status)
      requires Valid()
      modifies `contexts, `driver
      ensures (Now(), r) == Release(old(Now()), device, h, unbound, released)
      ensures Valid()
    {
      hide Returned, Sound;
      ReleaseSound(Now(), device, h, unbound, released);
      if device < 0 || h == 0 { return InvalidArgument; }
      if !IsCleanupAllowed() { return FailedPrecondition; }
      if h !in contexts || contexts[h].device != device { return FailedPrecondition; }
      if h in streams.Values { return FailedPrecondition; }
      if h in events.Values { return FailedPrecondition; }
      if !unbound { return DriverError; }
      if !released { return DriverError; }
      ForgetContext(device, h);
      return Ok;
    }

    method DoAdoptStream(h: Word, owner: Word, tracks: bool, destroyed: bool) returns (r: Status)
      modifies `streams, `corrupted, `driver
      ensures (Now(), r) == AdoptOwned(old(Now()), true, h, owner, tracks, destroyed)
    {
      driver := driver + multiset{StreamGrant(h, owner)};
      if h == 0 { return Internal; }
      if !tracks {
        if destroyed {
          TakenBack(old(driver), StreamGrant(h, owner));
          driver := driver - multiset{StreamGrant(h, owner)};
        } else {
          corrupted := true;
        }
        return ResourceExhausted;
      }
      if h in streams {
        corrupted := true;
        return Internal;
      }
      streams := streams[h := owner];
      return Ok;
    }

    method CreateStream(owner: Word, output: bool, current: bool, reply: Option<Word>, tracks: bool, destroyed: bool)
      returns (r: Status, resource: Word)
      requires Valid()
      modifies `streams, `corrupted, `driver
      ensures (Now(), r) == Create(old(Now()), true, owner, output, current, reply, tracks, destroyed)
      ensures r == Ok ==> reply == Some(resource)
      ensures Valid()
    {
      hide AdoptOwned, Sound;
      CreateSound(Now(), true, owner, output, current, reply, tracks, destroyed);
      resource := 0;
      if owner == 0 || !output { return InvalidArgument, 0; }
      if !IsReady() { return FailedPrecondition, 0; }
      if owner !in contexts { return FailedPrecondition, 0; }
      if !current { return FailedPrecondition, 0; }
      if reply.None? { return DriverError, 0; }
      r := DoAdoptStream(reply.value, owner, tracks, destroyed);
      resource := if r == Ok then reply.value else 0;
    }

    method DoAdoptEvent(h: Word, owner: Word, tracks: bool, destroyed: bool) returns (r: Status)
      modifies `events, `corrupted, `driver
      ensures (Now(), r) == AdoptOwned(old(Now()), false, h, owner, tracks, destroyed)
    {
      driver := driver + multiset{EventGrant(h, owner)};
      if h == 0 { return Internal; }
      if !tracks {
        if destroyed {
          TakenBack(old(driver), EventGrant(h, owner));
          driver := driver - multiset{EventGrant(h, owner)};
        } else {
          corrupted := true;
        }
        return ResourceExhausted;
      }
      if h in events {
        corrupted := true;
        return Internal;
      }
      events := events[h := owner];
      return Ok;
    }

    method CreateEvent(owner: Word, output: bool, current: bool, reply: Option<Word>, tracks: bool, destroyed: bool)
      returns (r: Status, resource: Word)
      requires Valid()
      modifies `events, `corrupted, `driver
      ensures (Now(), r) == Create(old(Now()), false, owner, output, current, reply, tracks, destroyed)
      ensures r == Ok ==> reply == Some(resource)
      ensures Valid()
    {
      hide AdoptOwned, Sound;
      CreateSound(Now(), false, owner, output, current, reply, tracks, destroyed);
      resource := 0;
      if owner == 0 || !output { return InvalidArgument, 0; }
      if !IsReady() { return FailedPrecondition, 0; }
      if owner !in contexts { return FailedPrecondition, 0; }
      if !current { return FailedPrecondition, 0; }
      if reply.None? { return DriverError, 0; }
      r := DoAdoptEvent(reply.value, owner, tracks, destroyed);
      resource := if r == Ok then reply.value else 0;
    }

    method ForgetStream(h: Word)
      requires h in streams
      modifies `streams, `driver
      ensures Now() == Destroyed(old(Now()), true, h)
    {
      driver := driver - multiset{StreamGrant(h, streams[h])};
      streams := streams - {h};
    }

    method DestroyStream(h: Word, current: bool, destroyed: bool) returns (r: Status)
      requires Valid()
      modifies `streams, `driver
      ensures (Now(), r) == Destroy(old(Now()), true, h, current, destroyed)
      ensures Valid()
    {
      hide Destroyed, Sound;
      DestroySound(Now(), true, h, current, destroyed);
      if h == 0 { return InvalidArgument; }
      if !IsCleanupAllowed() { return FailedPrecondition; }
      if h !in streams { return FailedPrecondition; }
      if !current { return FailedPrecondition; }
      if !destroyed { return DriverError; }
      ForgetStream(h);
      return Ok;
    }

    method ForgetEvent(h: Word)
      requires h in events
      modifies `events, `driver
      ensures Now() == Destroyed(old(Now()), false, h)
    {
      driver := driver - multiset{EventGrant(h, events[h])};
      events := events - {h};
    }

    method DestroyEvent(h: Word, current: bool, destroyed: bool) returns (r: Status)
      requires Valid()
      modifies `events, `driver
      ensures (Now(), r) == Destroy(old(Now()), false, h, current, destroyed)
      ensures Valid()
    {
      hide Destroyed, Sound;
      DestroySound(Now(), false, h, current, destroyed);
      if h == 0 { return InvalidArgument; }
      if !IsCleanupAllowed() { return FailedPrecondition; }
      if h !in events { return FailedPrecondition; }
      if !current { return FailedPrecondition; }
      if !destroyed { return DriverError; }
      ForgetEvent(h);
      return Ok;
    }

    /** The prepared device and its compute capability are fixed by the first success. */
    method PrepareDevice(device: int, major: nat, minor: nat, matches: bool) returns (r: Status)
      requires Valid()
      modifies `prepared, `smMajor, `smMinor
      ensures (Now(), r) == Prepare(old(Now()), device, major, minor, matches)
      ensures Valid()
    {
      hide Sound;
      PrepareSound(Now(), device, major, minor, matches);
      if device < 0 || major == 0 || minor > 9 { return InvalidArgument; }
      if !IsReady() { return FailedPrecondition; }
      if prepared >= 0 {
        if prepared != device || smMajor != major || smMinor != minor { return FailedPrecondition; }
        return Ok;
      }
      if !matches { return FailedPrecondition; }
      prepared, smMajor, smMinor := device, major, minor;
      return Ok;
    }

    method DoAdvance(expected: nat) returns (r: Status)
      modifies `phase
      ensures (Now(), r) == Advance(old(Now()), expected)
    {
      if phase != expected { return FailedPrecondition; }
      phase := phase + 1;
      return Ok;
    }

    method DoEnter(valid: bool) returns (r: Status)
      requires Valid()
      modifies `bound
      ensures (Now(), r) == Enter(old(Now()), valid)
      ensures Valid()
    {
      hide Sound;
      LifecycleSound(Now(), EnterCall(valid));
      if !valid { return InvalidArgument; }
      if bound || phase != 0 { return FailedPrecondition; }
      bound := true;
      return Ok;
    }

    // The functions of the lifecycle are reached through the pointers a successful entry hands out only.  Their
    // context is the provider's or null, and four of them do not test it.

    method DoRegister(given: bool, registry: Answer) returns (r: Status)
      requires Valid() && !Unbound(Now())
      modifies `phase
      ensures (Now(), r) == Register(old(Now()), given, registry)
      ensures Valid()
      ensures r == Undefined <==> !given
    {
      hide Sound;
      LifecycleSound(Now(), RegisterCall(given, registry));
      if !given { return Undefined; }
      if phase != 0 { return FailedPrecondition; }
      if registry != Ok { return registry; }
      r := DoAdvance(0);
    }

    method DoConfigure(given: bool, resolver: Answer, usable: bool) returns (r: Status)
      requires Valid() && !Unbound(Now())
      modifies `phase, `platform
      ensures (Now(), r) == Configure(old(Now()), given, resolver, usable)
      ensures Valid()
      ensures r == Undefined <==> !given
    {
      hide Sound;
      LifecycleSound(Now(), ConfigureCall(given, resolver, usable));
      if !given { return Undefined; }
      if phase != 1 { return FailedPrecondition; }
      ConfiguringHasHost(Now());
      if resolver != Ok { return resolver; }
      if !usable { return FailedPrecondition; }
      r := DoAdvance(1);
      platform := true;
    }

    method DoStart(given: bool, runtime: Answer) returns (r: Status)
      requires Valid() && !Unbound(Now())
      modifies `phase
      ensures (Now(), r) == Start(old(Now()), given, runtime)
      ensures Valid()
    {
      hide Sound;
      LifecycleSound(Now(), StartCall(given, runtime));
      if !given || phase != 2 || !platform { return FailedPrecondition; }
      if runtime != Ok { return runtime; }
      r := DoAdvance(2);
    }

    method DoReady(given: bool) returns (r: Status)
      requires Valid() && !Unbound(Now())
      modifies `phase
      ensures (Now(), r) == BecomeReady(old(Now()), given)
      ensures Valid()
      ensures r == Undefined <==> !given
    {
      hide Sound;
      LifecycleSound(Now(), ReadyCall(given));
      if !given { return Undefined; }
      r := DoAdvance(3);
    }

    method DoDrain(given: bool) returns (r: Status)
      requires Valid() && !Unbound(Now())
      modifies `phase
      ensures (Now(), r) == Drain(old(Now()), given)
      ensures Valid()
      ensures r == Ok ==> NothingGranted(driver)
    {
      hide Sound;
      LifecycleSound(Now(), DrainCall(given));
      if !given { return InvalidArgument; }
      if corrupted { return FailedPrecondition; }
      if allocations != map[] || events != map[] || streams != map[] || contexts != map[] { return FailedPrecondition; }
      EmptyHandsAreClean(Now());
      r := DoAdvance(4);
    }

    method DoStop(given: bool) returns (r: Status)
      requires Valid() && !Unbound(Now())
      modifies `phase
      ensures (Now(), r) == Stop(old(Now()), given)
      ensures Valid()
      ensures r == Ok ==> NothingGranted(driver)
    {
      hide Sound;
      LifecycleSound(Now(), StopCall(given));
      if !given { return InvalidArgument; }
      SoundOutsidePhaseFour(Now());
      if phase != 4 {
        EmptyHandsAreClean(Now());
      }
      if phase == 3 {
        phase := 6;
        return Ok;
      }
      r := DoAdvance(5);
    }

    method DoDispose(given: bool) returns (r: Status)
      requires Valid() && !Unbound(Now())
      modifies this
      ensures (Now(), r) == Dispose(old(Now()), given)
      ensures Valid()
      ensures r == Undefined <==> !given
      ensures r == Ok ==> NothingGranted(driver)
    {
      hide Cleared, Sound;
      LifecycleSound(Now(), DisposeCall(given));
      if !given { return Undefined; }
      if phase != 1 && phase != 2 && phase != 6 { return FailedPrecondition; }
      if corrupted { return FailedPrecondition; }
      if allocations != map[] || events != map[] || streams != map[] || contexts != map[] { return FailedPrecondition; }
      EmptyHandsAreClean(Now());
      Clear();
      return Ok;
    }

    method ClearDevice()
      modifies `slots, `pinnedAllocator, `prepared, `smMajor, `smMinor
      ensures slots == map[] && !pinnedAllocator && prepared == -1 && smMajor == 0 && smMinor == 0
    {
      slots, pinnedAllocator := map[], false;
      prepared, smMajor, smMinor := -1, 0, 0;
    }

    method Clear()
      modifies `slots, `pinnedAllocator, `prepared, `smMajor, `smMinor, `corrupted, `platform, `bound, `phase
      ensures Now() == Cleared(old(Now()))
    {
      ClearDevice();
      corrupted, platform, bound := false, false, false;
      phase := 7;
    }

    /** Looks at the blocks one by one; the 64-bit offset test of each is interval inclusion. */
    method OwnsRange(a: Access) returns (owned: bool)
      ensures owned <==> a.address != 0 && a.bytes != 0 && Inside(Now(), a)
    {
      hide Covers;
      if a.address == 0 || a.bytes == 0 { return false; }
      var rest := allocations.Keys;
      while rest != {}
        invariant rest <= allocations.Keys
        invariant forall base :: base in allocations && base !in rest ==> !InsideOf(base, allocations[base], a)
        decreases |rest|
      {
        var base :| base in rest;
        OffsetTest(base, allocations[base], a);
        if Covers(base, allocations[base], a) { return true; }
        rest := rest - {base};
      }
      return false;
    }

    /** A copy also says which byte ranges it had the driver touch: none outside a block granted on the device. */
    method DoCopyH2d(device: int, to: Word, source: bool, bytes: Word, slot: bool, copier: bool, copied: bool)
      returns (touched: seq<Access>, r: Status)
      requires Valid()
      ensures (touched, r) == CopyH2d(Now(), device, to, source, bytes, slot, copier, copied)
      ensures forall a :: a in touched && a.bytes != 0 ==> InGrantedBlock(Now(), device, a)
    {
      hide Owns, Inside, InsideOf, Sound;
      if device < 0 || (bytes != 0 && (to == 0 || !source)) { return [], InvalidArgument; }
      if !IsReady() || prepared != device { return [], FailedPrecondition; }
      var range := Access(DeviceMemory, device, to, bytes);
      OwnsIsInclusion(Now(), range);
      if bytes != 0 {
        var owned := OwnsRange(range);
        if !owned { return [], FailedPrecondition; }
        OwnedIsGranted(Now(), range);
      }
      if !slot { return [], ResourceExhausted; }
      if !copier { return [], DriverError; }
      return [range], if copied then Ok else DriverError;
    }

    method DoCopyAsync(context: Word, to: Word, from: Word, bytes: Word, d: Direction, stream: Word,
                       current: bool, host: Attributes, launched: bool)
      returns (touched: seq<Access>, r: Status)
      requires Valid()
      ensures (touched, r) == CopyAsync(Now(), context, to, from, bytes, d, stream, current, host, launched)
      ensures forall a :: a in touched ==> InGrantedBlock(Now(), prepared, a)
    {
      hide Owns, Inside, InsideOf, Sound;
      if context == 0 || to == 0 || from == 0 || bytes == 0 || stream == 0 { return [], InvalidArgument; }
      if !IsReady() { return [], FailedPrecondition; }
      if context !in contexts || stream !in streams || streams[stream] != context { return [], FailedPrecondition; }
      ContextsAreOnDevice(Now(), context);
      var ranges := Accesses(contexts[context].device, to, from, bytes, d);
      var first := OwnsRange(ranges[0]);
      var second := OwnsRange(ranges[1]);
      OwnsIsInclusion(Now(), ranges[0]);
      OwnsIsInclusion(Now(), ranges[1]);
      if !first || !second { return [], FailedPrecondition; }
      if !current { return [], FailedPrecondition; }
      if d != DeviceToDevice {
        if host == Unavailable { return [], DriverError; }
        if host == OtherMemory { return [], FailedPrecondition; }
      }
      OwnedIsGranted(Now(), ranges[0]);
      OwnedIsGranted(Now(), ranges[1]);
      return ranges, if launched then Ok else DriverError;
    }

    method DoMemsetAsync(context: Word, to: Word, value: nat, bytes: Word, stream: Word, current: bool, launched: bool)
      returns (touched: seq<Access>, r: Status)
      requires Valid()
      ensures (touched, r) == MemsetAsync(Now(), context, to, value, bytes, stream, current, launched)
      ensures forall a :: a in touched ==> InGrantedBlock(Now(), prepared, a)
    {
      hide Owns, Inside, InsideOf, Sound;
      if context == 0 || to == 0 || value > 255 || bytes == 0 || stream == 0 { return [], InvalidArgument; }
      if !IsReady() { return [], FailedPrecondition; }
      if context !in contexts || stream !in streams || streams[stream] != context { return [], FailedPrecondition; }
      ContextsAreOnDevice(Now(), context);
      var range := Access(DeviceMemory, contexts[context].device, to, bytes);
      var owned := OwnsRange(range);
      OwnsIsInclusion(Now(), range);
      if !owned || !current { return [], FailedPrecondition; }
      OwnedIsGranted(Now(), range);
      return [range], if launched then Ok else DriverError;
    }
  }
}
