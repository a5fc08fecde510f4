/** Exactly which calls of which runs follow a null pointer, in terms of the calls made before. */
module CudaUndefined {
  import opened CudaLedger
  import opened CudaRuns
  import opened CudaAllocators
  import opened Wrappers

  // ---- Allocator slots over runs --------------------------------------------------------------------------

  /** An allocation on the device that passes the guards and whose slot is tracked. */
  predicate Opens(s: State, c: Call, device: int) {
    && c.AllocateCall? && c.kind.DeviceMemory? && c.device == device >= 0 && c.output
    && Ready(s) && s.prepared == device && c.replies.slot
  }

  /** Such an allocation for which the allocator can be created. */
  predicate Creates(s: State, c: Call, device: int) { Opens(s, c, device) && c.replies.created }

  predicate HasSlot(s: State, device: int) { device in s.slots }

  predicate SlotFilled(s: State, device: int) { device in s.slots && s.slots[device] }

  lemma AdoptKeepsSlots(s: State, b: Block, kind: Kind, device: int, tracks: bool, freed: bool)
    ensures AdoptBlock(s, b, kind, device, tracks, freed).0.slots == s.slots
  {
  }

  /** The guards of an allocation, up to the tracking of its slot. */
  predicate PassesGuards(s: State, kind: Kind, device: int, output: bool, d: AllocationReplies) {
    && output && Ready(s)
    && (if kind.DeviceMemory? then device == s.prepared >= 0 && d.slot else device == -1 && s.prepared >= 0)
  }

  lemma AllocatedSlots(s: State, kind: Kind, device: int, output: bool, d: AllocationReplies)
    ensures Allocate(s, kind, device, output, d).0.slots ==
      if PassesGuards(s, kind, device, output, d) then AfterAllocator(s, kind, device, d).slots else s.slots
  {
    hide AdoptBlock, AfterAllocator, HasAllocator;
    if d.block.Some? {
      AdoptKeepsSlots(AfterAllocator(s, kind, device, d), d.block.value, kind, device, d.tracks, d.freed);
    }
  }

  lemma AfterAllocatorSlots(s: State, kind: Kind, owner: int, d: AllocationReplies, device: int)
    ensures var t := AfterAllocator(s, kind, owner, d); var own := kind.DeviceMemory? && owner == device;
      && (HasSlot(t, device) <==> HasSlot(s, device) || own)
      && (SlotFilled(t, device) <==> SlotFilled(s, device) || (own && d.created))
  {
  }

  lemma SameSlots(s: State, t: State, device: int)
    requires s.slots == t.slots
    ensures HasSlot(s, device) == HasSlot(t, device) && SlotFilled(s, device) == SlotFilled(t, device)
  {
  }

  lemma AllocateSlots(s: State, c: Call, device: int)
    requires c.AllocateCall?
    ensures var t := Allocate(s, c.kind, c.device, c.output, c.replies).0;
      && (HasSlot(t, device) <==> HasSlot(s, device) || Opens(s, c, device))
      && (SlotFilled(t, device) <==> SlotFilled(s, device) || Creates(s, c, device))
  {
    hide Allocate, HasSlot, SlotFilled, AfterAllocator;
    var t, mid := Allocate(s, c.kind, c.device, c.output, c.replies).0, AfterAllocator(s, c.kind, c.device, c.replies);
    AllocatedSlots(s, c.kind, c.device, c.output, c.replies);
    AfterAllocatorSlots(s, c.kind, c.device, c.replies, device);
    if PassesGuards(s, c.kind, c.device, c.output, c.replies) {
      SameSlots(t, mid, device);
    } else {
      SameSlots(t, s, device);
    }
  }

  lemma SlotsStep(s: State, c: Call, device: int)
    requires Apply(s, c).0.phase != 7
    ensures var t := Apply(s, c).0;
      && (HasSlot(t, device) <==> HasSlot(s, device) || Opens(s, c, device))
      && (SlotFilled(t, device) <==> SlotFilled(s, device) || Creates(s, c, device))
  {
    hide Allocate, Deallocate, Retain, Release, Create, Destroy, CopyH2d, CopyAsync, MemsetAsync, Prepare,
      Enter, Register, Configure, Start, BecomeReady, Drain, Stop, Dispose, Advance, Freed;
    if c.AllocateCall? {
      AllocateSlots(s, c, device);
    } else if c.DeallocateCall? {
      FreedKeepsSlots(s, c.address, c.record);
    } else if c.DisposeCall? {
      DisposeEnds(s, c.given);
    }
  }

  lemma FreedKeepsSlots(s: State, address: Word, record: Record)
    ensures Freed(s, address, record).slots == s.slots
  {
  }

  /** Some call of the run opened the slot of the device. */
  ghost predicate Opened(calls: seq<Call>, device: int) {
    exists n :: 0 <= n < |calls| && Opens(Run(Fresh(), calls[..n]), calls[n], device)
  }

  /** Some call of the run created the allocator of the device. */
  ghost predicate Created(calls: seq<Call>, device: int) {
    exists n :: 0 <= n < |calls| && Creates(Run(Fresh(), calls[..n]), calls[n], device)
  }

  lemma OpenedLater(calls: seq<Call>, n: nat, device: int)
    requires |calls| == n + 1
    ensures Opened(calls, device) <==> Opened(calls[..n], device) || Opens(Run(Fresh(), calls[..n]), calls[n], device)
    ensures Created(calls, device) <==>
      Created(calls[..n], device) || Creates(Run(Fresh(), calls[..n]), calls[n], device)
  {
    hide Run, Opens;
    var front := calls[..n];
    forall i | 0 <= i < n ensures front[..i] == calls[..i] && front[i] == calls[i] {}
    if Opened(front, device) {
      var i :| 0 <= i < n && Opens(Run(Fresh(), front[..i]), front[i], device);
      assert Opens(Run(Fresh(), calls[..i]), calls[i], device);
    }
    if Created(front, device) {
      var i :| 0 <= i < n && Creates(Run(Fresh(), front[..i]), front[i], device);
      assert Creates(Run(Fresh(), calls[..i]), calls[i], device);
    }
  }

  /**
   * Until disposal a slot is there if and only if it was opened, and filled if and only if its allocator
   * was created.
   */
  lemma {:induction false} SlotsOfRun(calls: seq<Call>, device: int)
    requires Run(Fresh(), calls).phase != 7
    ensures HasSlot(Run(Fresh(), calls), device) <==> Opened(calls, device)
    ensures SlotFilled(Run(Fresh(), calls), device) <==> Created(calls, device)
  {
    hide Apply, Opens, Opened, Created, Inv, HasSlot, SlotFilled;
    if calls == [] {
      NothingOpened(device);
    } else {
      var n := |calls| - 1;
      var mid := Run(Fresh(), calls[..n]);
      FreshIsSound();
      RunKeeps(Fresh(), calls[..n]);
      if mid.phase == 7 {
        DisposedStays(mid, calls[n]);
      } else {
        SlotsOfRun(calls[..n], device);
        SlotsStep(mid, calls[n], device);
        OpenedLater(calls, n, device);
      }
    }
  }

  lemma NothingOpened(device: int)
    ensures !HasSlot(Fresh(), device) && !SlotFilled(Fresh(), device) && !Opened([], device) && !Created([], device)
  {
  }

  // ---- The host over runs ---------------------------------------------------------------------------------------

  /** The entry point was called with valid tables. */
  predicate Entered(calls: seq<Call>) { EnterCall(true) in calls }

  lemma UnboundStep(s: State, c: Call)
    ensures Unbound(Apply(s, c).0) <==> Unbound(s) && c != EnterCall(true)
  {
    hide Allocate, Deallocate, Retain, Release, Create, Destroy, CopyH2d, CopyAsync, MemsetAsync, Prepare;
  }

  lemma {:induction false} HostOfRun(calls: seq<Call>)
    ensures Unbound(Run(Fresh(), calls)) <==> !Entered(calls)
  {
    hide Apply;
    if calls != [] {
      var n := |calls| - 1;
      HostOfRun(calls[..n]);
      UnboundStep(Run(Fresh(), calls[..n]), calls[n]);
      assert calls == calls[..n] + [calls[n]];
    }
  }

  /** Entry hands out every other function of the plugin, so nothing else can be called before it has succeeded. */
  predicate Possible(calls: seq<Call>) {
    forall n :: 0 <= n < |calls| && !calls[n].EnterCall? ==> Entered(calls[..n])
  }

  // ---- The exact condition ------------------------------------------------------------------------------------

  /** Registration, configuration, readiness and disposal do not test their context. */
  predicate FollowsNullContext(c: Call) {
    (c.RegisterCall? || c.ConfigureCall? || c.ReadyCall? || c.DisposeCall?) && !c.given
  }

  /** The release of an empty device block. */
  predicate ReleasesEmptyBlock(c: Call) {
    c.DeallocateCall? && c.kind.DeviceMemory? && c.record.kind.DeviceMemory? && c.record.device >= 0 && c.address == 0
  }

  lemma DeallocateUndefined(s: State, kind: Kind, address: Word, record: Record, released: bool)
    requires Backed(s)
    ensures Deallocate(s, kind, address, record, released).1 == Undefined <==>
      ReleasesEmptyBlock(DeallocateCall(kind, address, record, released)) && CleanupAllowed(s)
      && HasSlot(s, record.device) && !SlotFilled(s, record.device)
  {
    hide Freed;
    if address in s.allocations {
      assert HasAllocator(s, s.allocations[address].kind, s.allocations[address].device);
    }
  }

  lemma StepUndefined(s: State, c: Call)
    requires Backed(s) && Hosted(s) && (c.EnterCall? || !Unbound(s))
    ensures Apply(s, c).1 == Undefined <==>
      FollowsNullContext(c)
      || (ReleasesEmptyBlock(c) && CleanupAllowed(s) && HasSlot(s, c.record.device) && !SlotFilled(s, c.record.device))
  {
    hide Backed, Allocate, Deallocate, Retain, Release, Create, Destroy, CopyH2d, CopyAsync, MemsetAsync, Prepare,
      Enter, Start, BecomeReady, Drain, Stop, Dispose, Advance, HasSlot, SlotFilled;
    if c.DeallocateCall? {
      DeallocateUndefined(s, c.kind, c.address, c.record, c.released);
    }
  }

  /**
   * The exact condition over runs: a call is undefined if and only if it hands a null context to a
   * function that does not test it, or it releases an empty device block while cleanup is allowed,
   * although the device was allocated on and its allocator could never be created.
   */
  lemma UndefinedExactly(calls: seq<Call>, c: Call)
    requires Possible(calls + [c])
    ensures Apply(Run(Fresh(), calls), c).1 == Undefined <==>
      FollowsNullContext(c)
      || (ReleasesEmptyBlock(c) && CleanupAllowed(Run(Fresh(), calls))
          && Opened(calls, c.record.device) && !Created(calls, c.record.device))
  {
    hide Run, Apply, Opened, Created, Unbound, HasSlot, SlotFilled, Inv, Backed, OneDevice, Hosted;
    var s := Run(Fresh(), calls);
    assert (calls + [c])[..|calls|] == calls && (calls + [c])[|calls|] == c;
    FreshProviderIsSound();
    RunKeepsSound(Fresh(), calls);
    HostOfRun(calls);
    StepUndefined(s, c);
    if ReleasesEmptyBlock(c) && CleanupAllowed(s) {
      SlotsOfRun(calls, c.record.device);
    }
  }

  const NO_ALLOCATOR := AllocateCall(DeviceMemory, 0, true, AllocationReplies(true, false, None, true, true))
  const RELEASE_NOTHING := DeallocateCall(DeviceMemory, 0, Record(0, 0, 0, 0, DeviceMemory), true)

  lemma PossibleFromEntry(calls: seq<Call>)
    requires calls != [] && calls[0] == EnterCall(true)
    ensures Possible(calls)
  {
    forall n | 0 <= n < |calls| && !calls[n].EnterCall? ensures Entered(calls[..n]) {
      assert calls[..n][0] == EnterCall(true);
    }
  }

  /** The null contexts: right behind the entry each of the four calls is possible and undefined. */
  lemma NullContextIsFollowed(c: Call)
    requires FollowsNullContext(c)
    ensures Possible([EnterCall(true)] + [c]) && Apply(Run(Fresh(), [EnterCall(true)]), c).1 == Undefined
  {
    PossibleFromEntry([EnterCall(true)] + [c]);
    UndefinedExactly([EnterCall(true)], c);
  }

  /** The empty block: a possible run releases it after an allocator could not be created. */
  lemma EmptySlotIsFollowed()
    ensures Possible(STARTED + [NO_ALLOCATOR] + [RELEASE_NOTHING])
    ensures Apply(Run(Fresh(), STARTED + [NO_ALLOCATOR]), RELEASE_NOTHING).1 == Undefined
  {
    hide Run, Retain, Release, Create, Destroy, CopyH2d, CopyAsync, MemsetAsync, Dispose, Stop, Configure, Start;
    PossibleFromEntry(STARTED + [NO_ALLOCATOR] + [RELEASE_NOTHING]);
    StartedState();
    RunPlus(Fresh(), STARTED, NO_ALLOCATOR);
  }
}
