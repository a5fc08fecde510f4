/**
 * What tracked resources rest on: every block keeps the allocator it came from, everything belongs to
 * the one prepared device, and the host stays bound while the provider lives.
 */
module CudaAllocators {
  import opened CudaLedger
  import opened CudaRuns
  import opened Wrappers

  // ---- Allocators -------------------------------------------------------------------------------------

  /** Every tracked block still has the allocator it came from. */
  ghost predicate Backed(s: State) {
    forall a :: a in s.allocations ==> HasAllocator(s, s.allocations[a].kind, s.allocations[a].device)
  }

  /** Blocks may go, allocators may come. */
  ghost predicate Grows(s: State, t: State) {
    && (forall a :: a in t.allocations ==> a in s.allocations && s.allocations[a] == t.allocations[a])
    && (forall d :: d in s.slots && s.slots[d] ==> d in t.slots && t.slots[d])
    && (s.pinnedAllocator ==> t.pinnedAllocator)
  }

  lemma BackedGrows(s: State, t: State)
    requires Backed(s) && Grows(s, t)
    ensures Backed(t)
  {
    forall a | a in t.allocations ensures HasAllocator(t, t.allocations[a].kind, t.allocations[a].device) {
      assert HasAllocator(s, s.allocations[a].kind, s.allocations[a].device);
    }
  }

  lemma AfterAllocatorGrows(s: State, kind: Kind, device: int, d: AllocationReplies)
    ensures Grows(s, AfterAllocator(s, kind, device, d))
  {
  }

  lemma AdoptStaysBacked(s: State, b: Block, kind: Kind, device: int, tracks: bool, freed: bool)
    requires Backed(s) && HasAllocator(s, kind, device)
    ensures Backed(AdoptBlock(s, b, kind, device, tracks, freed).0)
  {
    var t := AdoptBlock(s, b, kind, device, tracks, freed).0;
    assert t.slots == s.slots && t.pinnedAllocator == s.pinnedAllocator;
    forall a | a in t.allocations ensures HasAllocator(t, t.allocations[a].kind, t.allocations[a].device) {
      if a in s.allocations && t.allocations[a] == s.allocations[a] {
        assert HasAllocator(s, s.allocations[a].kind, s.allocations[a].device);
      }
    }
  }

  lemma AllocateStaysBacked(s: State, kind: Kind, device: int, output: bool, d: AllocationReplies)
    requires Backed(s)
    ensures Backed(Allocate(s, kind, device, output, d).0)
  {
    hide Backed, AfterAllocator, AdoptBlock, HasAllocator;
    var t := AfterAllocator(s, kind, device, d);
    AfterAllocatorGrows(s, kind, device, d);
    BackedGrows(s, t);
    if d.block.Some? && HasAllocator(t, kind, device) {
      AdoptStaysBacked(t, d.block.value, kind, device, d.tracks, d.freed);
    }
  }

  lemma DeallocateStaysBacked(s: State, kind: Kind, address: Word, record: Record, released: bool)
    requires Backed(s)
    ensures Backed(Deallocate(s, kind, address, record, released).0)
  {
    hide Backed;
    BackedGrows(s, Freed(s, address, record));
  }

  lemma DisposeStaysBacked(s: State, given: bool)
    requires Backed(s)
    ensures Backed(Dispose(s, given).0)
  {
  }

  lemma ApplyStaysBacked(s: State, c: Call)
    requires Backed(s)
    ensures Backed(Apply(s, c).0)
  {
    hide Backed, Allocate, Deallocate, Retain, Release, Create, Destroy, CopyH2d, CopyAsync, MemsetAsync, Prepare,
      Enter, Register, Configure, Start, BecomeReady, Drain, Stop, Dispose, Advance;
    if c.AllocateCall? {
      AllocateStaysBacked(s, c.kind, c.device, c.output, c.replies);
    } else if c.DeallocateCall? {
      DeallocateStaysBacked(s, c.kind, c.address, c.record, c.released);
    } else if c.DisposeCall? {
      DisposeStaysBacked(s, c.given);
    } else {
      BackedGrows(s, Apply(s, c).0);
    }
  }

  // ---- The prepared device ------------------------------------------------------------------------------

  /** Device blocks and contexts belong to the prepared device. */
  ghost predicate OneDevice(s: State) {
    && (forall a :: a in s.allocations && s.allocations[a].kind.DeviceMemory? ==>
          s.allocations[a].device == s.prepared >= 0)
    && (forall h :: h in s.contexts ==> s.contexts[h].device == s.prepared >= 0)
  }

  /** Nothing new is tracked and the prepared device stays. */
  ghost predicate Shrinks(s: State, t: State) {
    && (forall a :: a in t.allocations ==> a in s.allocations && s.allocations[a] == t.allocations[a])
    && (forall h :: h in t.contexts ==> h in s.contexts && s.contexts[h].device == t.contexts[h].device)
    && t.prepared == s.prepared
  }

  lemma OneDeviceShrinks(s: State, t: State)
    requires OneDevice(s) && Shrinks(s, t)
    ensures OneDevice(t)
  {
  }

  lemma AfterAllocatorKeepsDevice(s: State, kind: Kind, device: int, d: AllocationReplies)
    requires OneDevice(s)
    ensures var t := AfterAllocator(s, kind, device, d); OneDevice(t) && t.prepared == s.prepared
  {
  }

  lemma AdoptKeepsDevice(s: State, b: Block, kind: Kind, device: int, tracks: bool, freed: bool)
    requires OneDevice(s) && (kind.DeviceMemory? ==> device == s.prepared >= 0)
    ensures OneDevice(AdoptBlock(s, b, kind, device, tracks, freed).0)
  {
    var t := AdoptBlock(s, b, kind, device, tracks, freed).0;
    assert t.contexts == s.contexts && t.prepared == s.prepared;
    assert t.allocations == s.allocations || t.allocations == s.allocations[b.address := RecordOf(b, kind, device)];
  }

  lemma AllocateKeepsDevice(s: State, kind: Kind, device: int, output: bool, d: AllocationReplies)
    requires OneDevice(s)
    ensures OneDevice(Allocate(s, kind, device, output, d).0)
  {
    hide OneDevice, AfterAllocator, AdoptBlock, HasAllocator;
    var t := AfterAllocator(s, kind, device, d);
    AfterAllocatorKeepsDevice(s, kind, device, d);
    if d.block.Some? && (kind.DeviceMemory? ==> device == s.prepared >= 0) {
      AdoptKeepsDevice(t, d.block.value, kind, device, d.tracks, d.freed);
    }
  }

  lemma CountedKeepsDevice(s: State, h: Word, device: int, n: nat, driver: multiset<Grant>)
    requires OneDevice(s) && device == s.prepared >= 0
    ensures OneDevice(s.(contexts := s.contexts[h := Retained(device, n)], driver := driver))
    ensures OneDevice(s.(driver := driver))
  {
  }

  lemma AdoptContextKeepsDevice(s: State, h: Word, device: int, tracks: bool, rollback: Rollback)
    requires OneDevice(s) && device == s.prepared >= 0
    ensures OneDevice(AdoptContext(s, h, device, tracks, rollback).0)
  {
    hide RolledBack, OneDevice;
    var grant := ContextGrant(h, device);
    var n := if h in s.contexts then s.contexts[h].count + 1 else 1;
    RolledBackKeepsContexts(s, grant, rollback);
    SameKeepsDevice(s, RolledBack(s, grant, rollback));
    CountedKeepsDevice(s, h, device, n, s.driver + multiset{grant});
  }

  lemma RetainKeepsDevice(s: State, device: int, output: bool, reply: Option<Word>, tracks: bool, rollback: Rollback)
    requires OneDevice(s)
    ensures OneDevice(Retain(s, device, output, reply, tracks, rollback).0)
  {
    hide OneDevice, AdoptContext;
    if reply.Some? && device == s.prepared >= 0 {
      AdoptContextKeepsDevice(s, reply.value, device, tracks, rollback);
    }
  }

  lemma RolledBackKeepsContexts(s: State, grant: Grant, r: Rollback)
    ensures RolledBack(s, grant, r).contexts == s.contexts
  {
  }

  lemma FreedShrinks(s: State, address: Word, record: Record)
    ensures Shrinks(s, Freed(s, address, record)) && Shrinks(s, s)
  {
  }

  lemma ReturnedShrinks(s: State, device: int, h: Word)
    requires h in s.contexts && s.contexts[h].device == device
    ensures Shrinks(s, Returned(s, device, h))
  {
  }

  lemma PrepareKeepsDevice(s: State, device: int, major: nat, minor: nat, matches: bool)
    requires OneDevice(s)
    ensures OneDevice(Prepare(s, device, major, minor, matches).0)
  {
  }

  lemma DisposeKeepsDevice(s: State, given: bool)
    requires OneDevice(s)
    ensures OneDevice(Dispose(s, given).0)
  {
  }

  lemma ReleaseKeepsDevice(s: State, device: int, h: Word, unbound: bool, released: bool)
    requires OneDevice(s)
    ensures OneDevice(Release(s, device, h, unbound, released).0)
  {
    hide OneDevice, Shrinks, Release, Returned;
    var t := Release(s, device, h, unbound, released).0;
    if t != s {
      ReturnedShrinks(s, device, h);
      OneDeviceShrinks(s, t);
    }
  }

  lemma DeallocateKeepsDevice(s: State, kind: Kind, address: Word, record: Record, released: bool)
    requires OneDevice(s)
    ensures OneDevice(Deallocate(s, kind, address, record, released).0)
  {
    hide OneDevice, Shrinks, Deallocate, Freed;
    FreedShrinks(s, address, record);
    OneDeviceShrinks(s, Freed(s, address, record));
  }

  lemma ApplyKeepsDevice(s: State, c: Call)
    requires OneDevice(s)
    ensures OneDevice(Apply(s, c).0)
  {
    hide OneDevice, Allocate, Deallocate, Retain, Release, Create, Destroy, CopyH2d, CopyAsync, MemsetAsync, Prepare,
      Enter, Register, Configure, Start, BecomeReady, Drain, Stop, Dispose, Advance;
    if c.AllocateCall? {
      AllocateKeepsDevice(s, c.kind, c.device, c.output, c.replies);
    } else if c.DeallocateCall? {
      DeallocateKeepsDevice(s, c.kind, c.address, c.record, c.released);
    } else if c.RetainCall? {
      RetainKeepsDevice(s, c.device, c.output, c.reply, c.tracks, c.rollback);
    } else if c.ReleaseCall? {
      ReleaseKeepsDevice(s, c.device, c.handle, c.unbound, c.released);
    } else if c.PrepareCall? {
      PrepareKeepsDevice(s, c.device, c.major, c.minor, c.matches);
    } else if c.DisposeCall? {
      DisposeKeepsDevice(s, c.given);
    } else {
      SameKeepsDevice(s, Apply(s, c).0);
    }
  }

  lemma SameKeepsDevice(s: State, t: State)
    requires OneDevice(s) && t.allocations == s.allocations && t.contexts == s.contexts && t.prepared == s.prepared
    ensures OneDevice(t)
  {
  }

  // ---- The host ----------------------------------------------------------------------------------------------

  /** The host is bound from registration to disposal. */
  predicate Hosted(s: State) { 1 <= s.phase <= 6 ==> s.bound }

  lemma ApplyKeepsHost(s: State, c: Call)
    requires Hosted(s)
    ensures Hosted(Apply(s, c).0)
  {
    hide Allocate, Deallocate, Retain, Release, Create, Destroy, CopyH2d, CopyAsync, MemsetAsync, Prepare, Move;
  }

  // ---- Everything together -----------------------------------------------------------------------------------

  /** The invariant of the provider. */
  ghost predicate Sound(s: State) { Inv(s) && Backed(s) && OneDevice(s) && Hosted(s) }

  lemma ApplyKeepsSound(s: State, c: Call)
    requires Sound(s)
    ensures Sound(Apply(s, c).0)
  {
    hide Inv, Backed, OneDevice, Hosted, Apply;
    ApplyKeeps(s, c);
    ApplyStaysBacked(s, c);
    ApplyKeepsDevice(s, c);
    ApplyKeepsHost(s, c);
  }

  lemma FreshProviderIsSound()
    ensures Sound(Fresh())
  {
    FreshIsSound();
  }

  lemma {:induction false} RunKeepsSound(s: State, calls: seq<Call>)
    requires Sound(s)
    ensures Sound(Run(s, calls))
  {
    hide Apply, Sound;
    if calls != [] {
      var n := |calls| - 1;
      RunKeepsSound(s, calls[..n]);
      ApplyKeepsSound(Run(s, calls[..n]), calls[n]);
    }
  }

  lemma PreparedStays(s: State, c: Call)
    requires s.prepared >= 0 && Apply(s, c).0.phase != 7
    ensures var t := Apply(s, c).0; t.prepared == s.prepared && t.smMajor == s.smMajor && t.smMinor == s.smMinor
  {
    hide Allocate, Deallocate, Retain, Release, Create, Destroy, CopyH2d, CopyAsync, MemsetAsync, Advance, Register,
      Configure, Start, BecomeReady, Drain, Stop, Move, Enter, Prepare, Dispose;
    if c.PrepareCall? {
      PrepareStays(s, c.device, c.major, c.minor, c.matches);
    } else if c.DisposeCall? {
      DisposeEnds(s, c.given);
    }
  }

  lemma PrepareStays(s: State, device: int, major: nat, minor: nat, matches: bool)
    requires s.prepared >= 0
    ensures Prepare(s, device, major, minor, matches).0 == s
  {
  }

  lemma DisposeEnds(s: State, given: bool)
    ensures Dispose(s, given).0 == s || Dispose(s, given).0.phase == 7
  {
  }

  /**
   * The first successful preparation decides: until disposal no continuation changes the device or its
   * compute capability, and every device block and context that is ever tracked belongs to it.
   */
  lemma {:induction false} PreparationIsFixed(s: State, calls: seq<Call>)
    requires Sound(s) && s.prepared >= 0 && Run(s, calls).phase != 7
    ensures var t := Run(s, calls);
      && t.prepared == s.prepared && t.smMajor == s.smMajor && t.smMinor == s.smMinor
      && (forall a :: a in t.allocations && t.allocations[a].kind.DeviceMemory? ==>
        t.allocations[a].device == s.prepared)
      && (forall h :: h in t.contexts ==> t.contexts[h].device == s.prepared)
  {
    hide Apply, Inv, Backed, Hosted;
    RunKeepsSound(s, calls);
    if calls != [] {
      var n := |calls| - 1;
      var mid := Run(s, calls[..n]);
      RunKeepsSound(s, calls[..n]);
      if mid.phase == 7 {
        DisposedStays(mid, calls[n]);
      } else {
        PreparationIsFixed(s, calls[..n]);
        PreparedStays(mid, calls[n]);
      }
    }
  }
}
