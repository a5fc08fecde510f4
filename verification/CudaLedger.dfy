/**
 * The ownership state of the CUDA provider and what every call makes of it.  The driver is not
 * modelled beyond its replies; a ghost multiset records what it has granted and not taken back.
 */
module CudaLedger {
  import opened Wrappers

  const U64 := 0x1_0000_0000_0000_0000
  const U32_MAX := 0xFFFF_FFFF
  type Word = x: int | 0 <= x < U64

  datatype Kind = DeviceMemory | PinnedHost
  datatype Record = Record(bytes: Word, alignment: Word, generation: Word, device: int, kind: Kind)
  datatype Retained = Retained(device: int, count: nat)

  datatype Grant =
    | MemoryGrant(address: Word, record: Record)
    | ContextGrant(handle: Word, device: int)
    | StreamGrant(handle: Word, owner: Word)
    | EventGrant(handle: Word, owner: Word)
  {
    function Identity(): Word {
      if MemoryGrant? then address else handle
    }
  }

  /** Undefined stands for following a pointer that is null. */
  datatype Status = Ok | InvalidArgument | FailedPrecondition | ResourceExhausted | Internal | DriverError | Undefined

  /** A status that code outside the provider answers with. */
  type Answer = s: Status | s != Undefined witness Ok

  /** An allocator slot may exist without an allocator when its creation failed. */
  datatype State = State(
    phase: nat, bound: bool, platform: bool,
    prepared: int, smMajor: nat, smMinor: nat,
    slots: map<int, bool>, pinnedAllocator: bool,
    allocations: map<Word, Record>, contexts: map<Word, Retained>, streams: map<Word, Word>, events: map<Word, Word>,
    corrupted: bool,
    driver: multiset<Grant>)

  function Fresh(): State {
    State(0, false, false, -1, 0, 0, map[], false, map[], map[], map[], map[], false, multiset{})
  }

  lemma TakenBack(driver: multiset<Grant>, grant: Grant)
    ensures driver + multiset{grant} - multiset{grant} == driver
  {
  }

  predicate Ready(s: State) { s.phase == 4 && !s.corrupted }
  predicate CleanupAllowed(s: State) { s.phase == 4 || s.phase == 5 }
  predicate NothingTracked(s: State) {
    s.allocations == map[] && s.events == map[] && s.streams == map[] && s.contexts == map[]
  }

  // ---- Memory -----------------------------------------------------------------------------------------

  /** What an allocator answers: nothing, or a block; address 0 stands for an empty block nothing is granted for. */
  datatype Block = Block(address: Word, bytes: Word, alignment: Word, generation: Word)

  /** The circumstances of an allocation: slot tracking, allocator creation, driver, record tracking, rollback. */
  datatype AllocationReplies =
    AllocationReplies(slot: bool, created: bool, block: Option<Block>, tracks: bool, freed: bool)

  function RecordOf(b: Block, kind: Kind, device: int): Record {
    Record(b.bytes, b.alignment, b.generation, device, kind)
  }

  function AfterAllocator(s: State, kind: Kind, device: int, d: AllocationReplies): State {
    if kind.PinnedHost? then s.(pinnedAllocator := s.pinnedAllocator || d.created)
    else s.(slots := s.slots[device := (device in s.slots && s.slots[device]) || d.created])
  }

  predicate HasAllocator(s: State, kind: Kind, device: int) {
    if kind.PinnedHost? then s.pinnedAllocator else device in s.slots && s.slots[device]
  }

  /** A block the driver has granted: tracked, given back, or lost. */
  function AdoptBlock(s: State, b: Block, kind: Kind, device: int, tracks: bool, freed: bool): (State, Status) {
    var record := RecordOf(b, kind, device);
    var granted := s.(driver := s.driver + multiset{MemoryGrant(b.address, record)});
    if !tracks then (if freed then s else granted.(corrupted := true), ResourceExhausted)
    else if b.address in s.allocations then (granted.(corrupted := true), Internal)
    else (granted.(allocations := s.allocations[b.address := record]), Ok)
  }

  /** AllocateDevice and AllocatePinnedHost. */
  function Allocate(s: State, kind: Kind, device: int, output: bool, d: AllocationReplies): (r: (State, Status))
    ensures r.1 != Undefined
    ensures r.0.bound == s.bound && r.0.prepared == s.prepared && r.0.smMajor == s.smMajor && r.0.smMinor == s.smMinor
    ensures r.0.phase == s.phase && (s.corrupted ==> r.0.corrupted)
    ensures r.0 != s || r.1 == Ok ==> Ready(s)
    ensures r.0.driver == s.driver || (d.block.Some? && d.block.value.address != 0 &&
      r.0.driver == s.driver + multiset{MemoryGrant(d.block.value.address, RecordOf(d.block.value, kind, device))})
  {
    if !output || (if kind.DeviceMemory? then device < 0 else device != -1) then (s, InvalidArgument)
    else if !Ready(s) then (s, FailedPrecondition)
    else if (if kind.DeviceMemory? then s.prepared != device else s.prepared < 0) then (s, FailedPrecondition)
    else if kind.DeviceMemory? && !d.slot then (s, ResourceExhausted)
    else
      var t := AfterAllocator(s, kind, device, d);
      if !HasAllocator(t, kind, device) then (t, DriverError)
      else
        match d.block
        case None => (t, DriverError)
        case Some(b) => if b.address == 0 then (t, Ok) else AdoptBlock(t, b, kind, device, d.tracks, d.freed)
  }

  /** The state once the driver has taken a block back. */
  function Freed(s: State, address: Word, record: Record): (t: State)
    ensures t.phase == s.phase && t.corrupted == s.corrupted
    ensures t.driver == s.driver - multiset{MemoryGrant(address, record)}
  {
    s.(allocations := s.allocations - {address}, driver := s.driver - multiset{MemoryGrant(address, record)})
  }

  /** DeallocateDevice and DeallocatePinnedHost, for the handle the caller presents. */
  function Deallocate(s: State, kind: Kind, address: Word, record: Record, released: bool): (r: (State, Status))
    ensures r.0 == s || r.0 == Freed(s, address, record)
    ensures r.0.bound == s.bound && r.0.prepared == s.prepared && r.0.smMajor == s.smMajor && r.0.smMinor == s.smMinor
    ensures r.0.phase == s.phase && r.0.corrupted == s.corrupted
    ensures r.0.driver == s.driver || (address != 0 && r.0.driver == s.driver - multiset{MemoryGrant(address, record)})
  {
    if record.kind != kind || (if kind.DeviceMemory? then record.device < 0 else record.device != -1) then
      (s, InvalidArgument)
    else if !CleanupAllowed(s) then (s, FailedPrecondition)
    else if address != 0 && (address !in s.allocations || s.allocations[address] != record) then (s, FailedPrecondition)
    else if (if kind.DeviceMemory? then record.device !in s.slots else !s.pinnedAllocator) then (s, FailedPrecondition)
    else if !HasAllocator(s, kind, record.device) then (s, Undefined)
    else if address == 0 then (s, if kind.PinnedHost? || released then Ok else DriverError)
    else if !released then (s, DriverError)
    else (Freed(s, address, record), Ok)
  }

  // ---- Contexts ------------------------------------------------------------------------------------------

  /** How a rollback went: the device was found, the current context was left, the driver took the context back. */
  datatype Rollback = Rollback(found: bool, left: bool, released: bool)

  function RolledBack(s: State, grant: Grant, r: Rollback): (t: State)
    ensures t.allocations == s.allocations && t.slots == s.slots && t.pinnedAllocator == s.pinnedAllocator
    ensures t.bound == s.bound && t.prepared == s.prepared && t.smMajor == s.smMajor && t.smMinor == s.smMinor
    ensures t.phase == s.phase && (s.corrupted ==> t.corrupted)
    ensures t.driver == s.driver || t.driver == s.driver + multiset{grant}
  {
    var t := if r.found && r.released then s else s.(driver := s.driver + multiset{grant});
    if r.found && r.left && r.released then t else t.(corrupted := true)
  }

  /** A context the driver has retained: counted, or rolled back. */
  function AdoptContext(s: State, h: Word, device: int, tracks: bool, rollback: Rollback): (r: (State, Status))
    ensures r.0.allocations == s.allocations && r.0.slots == s.slots && r.0.pinnedAllocator == s.pinnedAllocator
    ensures r.0.bound == s.bound && r.0.prepared == s.prepared && r.0.smMajor == s.smMajor && r.0.smMinor == s.smMinor
    ensures r.0.phase == s.phase && (s.corrupted ==> r.0.corrupted) && r.1 != Undefined
  {
    var grant := ContextGrant(h, device);
    if h == 0 then (s.(driver := s.driver + multiset{grant}), Internal)
    else if !tracks then (RolledBack(s, grant, rollback), ResourceExhausted)
    else if h !in s.contexts then
      (s.(contexts := s.contexts[h := Retained(device, 1)], driver := s.driver + multiset{grant}), Ok)
    else if s.contexts[h].device != device || s.contexts[h].count == U32_MAX then
      (RolledBack(s, grant, rollback), FailedPrecondition)
    else
      (s.(contexts := s.contexts[h := Retained(device, s.contexts[h].count + 1)],
          driver := s.driver + multiset{grant}), Ok)
  }

  function Retain(s: State, device: int, output: bool, reply: Option<Word>, tracks: bool, rollback: Rollback)
    : (r: (State, Status))
    ensures r.1 != Undefined
    ensures r.0.bound == s.bound && r.0.prepared == s.prepared && r.0.smMajor == s.smMajor && r.0.smMinor == s.smMinor
    ensures r.0.allocations == s.allocations && r.0.slots == s.slots && r.0.pinnedAllocator == s.pinnedAllocator
    ensures r.0.phase == s.phase && (s.corrupted ==> r.0.corrupted)
    ensures r.0 != s || r.1 == Ok ==> Ready(s)
    ensures r.0.driver == s.driver ||
      (reply.Some? && r.0.driver == s.driver + multiset{ContextGrant(reply.value, device)})
    ensures reply == Some(0) ==>
      (r.0.driver == s.driver <==> device < 0 || !output || !Ready(s) || s.prepared != device)
  {
    if device < 0 || !output then (s, InvalidArgument)
    else if !Ready(s) || s.prepared != device then (s, FailedPrecondition)
    else
      match reply
      case None => (s, DriverError)
      case Some(h) => AdoptContext(s, h, device, tracks, rollback)
  }

  /** The state once the driver has taken one retention of a context back. */
  function Returned(s: State, device: int, h: Word): (t: State)
    requires h in s.contexts
    ensures t.phase == s.phase && t.corrupted == s.corrupted
    ensures t.driver == s.driver - multiset{ContextGrant(h, device)}
  {
    var count := s.contexts[h].count - 1;
    s.(contexts := if count <= 0 then s.contexts - {h} else s.contexts[h := Retained(device, count)],
       driver := s.driver - multiset{ContextGrant(h, device)})
  }

  /** ReleasePrimaryContext; unbound says that the device was found and the context is not current any more. */
  function Release(s: State, device: int, h: Word, unbound: bool, released: bool): (r: (State, Status))
    ensures r.0 == s || (h in s.contexts && s.contexts[h].device == device && r.0 == Returned(s, device, h))
    ensures r.1 != Undefined
    ensures r.0.bound == s.bound && r.0.prepared == s.prepared && r.0.smMajor == s.smMajor && r.0.smMinor == s.smMinor
    ensures r.0.allocations == s.allocations && r.0.slots == s.slots && r.0.pinnedAllocator == s.pinnedAllocator
    ensures r.0.phase == s.phase && r.0.corrupted == s.corrupted
    ensures r.0.driver == s.driver || (h != 0 && r.0.driver == s.driver - multiset{ContextGrant(h, device)})
  {
    if device < 0 || h == 0 then (s, InvalidArgument)
    else if !CleanupAllowed(s) || h !in s.contexts || s.contexts[h].device != device then (s, FailedPrecondition)
    else if h in s.streams.Values || h in s.events.Values then (s, FailedPrecondition)
    else if !unbound || !released then (s, DriverError)
    else (Returned(s, device, h), Ok)
  }

  // ---- Streams and events -------------------------------------------------------------------------------------

  function StreamOrEvent(stream: bool, handle: Word, owner: Word): Grant {
    if stream then StreamGrant(handle, owner) else EventGrant(handle, owner)
  }

  function Owners(s: State, stream: bool): map<Word, Word> { if stream then s.streams else s.events }

  function WithOwners(s: State, stream: bool, m: map<Word, Word>): (t: State)
    ensures t.allocations == s.allocations && t.slots == s.slots && t.pinnedAllocator == s.pinnedAllocator
    ensures t.phase == s.phase && t.corrupted == s.corrupted && t.driver == s.driver && t.contexts == s.contexts
  {
    if stream then s.(streams := m) else s.(events := m)
  }

  /** A stream or event the driver has created: tracked, destroyed again, or lost. */
  function AdoptOwned(s: State, stream: bool, h: Word, owner: Word, tracks: bool, destroyed: bool): (r: (State, Status))
    ensures r.0.contexts == s.contexts
    ensures r.0.allocations == s.allocations && r.0.slots == s.slots && r.0.pinnedAllocator == s.pinnedAllocator
  {
    var grant := StreamOrEvent(stream, h, owner);
    var granted := s.(driver := s.driver + multiset{grant});
    if h == 0 then (granted, Internal)
    else if !tracks then (if destroyed then s else granted.(corrupted := true), ResourceExhausted)
    else if h in Owners(s, stream) then (granted.(corrupted := true), Internal)
    else (WithOwners(granted, stream, Owners(s, stream)[h := owner]), Ok)
  }

  /** CreateStream and CreateEvent. */
  function Create(s: State, stream: bool, owner: Word, output: bool, current: bool, reply: Option<Word>,
                  tracks: bool, destroyed: bool): (r: (State, Status))
    ensures r.0.contexts == s.contexts
    ensures r.1 != Undefined
    ensures r.0.bound == s.bound && r.0.prepared == s.prepared && r.0.smMajor == s.smMajor && r.0.smMinor == s.smMinor
    ensures r.0.allocations == s.allocations && r.0.slots == s.slots && r.0.pinnedAllocator == s.pinnedAllocator
    ensures r.0.phase == s.phase && (s.corrupted ==> r.0.corrupted)
    ensures r.0 != s || r.1 == Ok ==> Ready(s)
    ensures r.0.driver == s.driver ||
      (reply.Some? && r.0.driver == s.driver + multiset{StreamOrEvent(stream, reply.value, owner)})
    ensures reply == Some(0) ==>
      (r.0.driver == s.driver <==> owner == 0 || !output || !Ready(s) || owner !in s.contexts || !current)
  {
    if owner == 0 || !output then (s, InvalidArgument)
    else if !Ready(s) || owner !in s.contexts || !current then (s, FailedPrecondition)
    else
      match reply
      case None => (s, DriverError)
      case Some(h) => AdoptOwned(s, stream, h, owner, tracks, destroyed)
  }

  /** The state once the driver has destroyed a stream or event. */
  function Destroyed(s: State, stream: bool, h: Word): (t: State)
    requires h in Owners(s, stream)
    ensures t.phase == s.phase && t.corrupted == s.corrupted
    ensures t.driver == s.driver - multiset{StreamOrEvent(stream, h, Owners(s, stream)[h])}
  {
    var grant := StreamOrEvent(stream, h, Owners(s, stream)[h]);
    WithOwners(s, stream, Owners(s, stream) - {h}).(driver := s.driver - multiset{grant})
  }

  /** DestroyStream and DestroyEvent. */
  function Destroy(s: State, stream: bool, h: Word, current: bool, destroyed: bool): (r: (State, Status))
    ensures r.0.contexts == s.contexts
    ensures r.1 != Undefined
    ensures r.0.bound == s.bound && r.0.prepared == s.prepared && r.0.smMajor == s.smMajor && r.0.smMinor == s.smMinor
    ensures r.0.allocations == s.allocations && r.0.slots == s.slots && r.0.pinnedAllocator == s.pinnedAllocator
    ensures r.0.phase == s.phase && r.0.corrupted == s.corrupted
    ensures r.0.driver == s.driver || (h != 0 && h in Owners(s, stream) &&
      r.0.driver == s.driver - multiset{StreamOrEvent(stream, h, Owners(s, stream)[h])})
  {
    if h == 0 then (s, InvalidArgument)
    else if !CleanupAllowed(s) || h !in Owners(s, stream) || !current then (s, FailedPrecondition)
    else if !destroyed then (s, DriverError)
    else (Destroyed(s, stream, h), Ok)
  }

  // ---- Device preparation and lifecycle -----------------------------------------------------------------------

  /** PrepareDevice; matches says that the device exists and has the expected compute capability. */
  function Prepare(s: State, device: int, major: nat, minor: nat, matches: bool): (r: (State, Status))
    ensures r.0.contexts == s.contexts
    ensures r.0.bound == s.bound
    ensures r.1 != Undefined
    ensures r.0.allocations == s.allocations && r.0.slots == s.slots && r.0.pinnedAllocator == s.pinnedAllocator
    ensures r.0.phase == s.phase && r.0.corrupted == s.corrupted && r.0.driver == s.driver
  {
    if device < 0 || major == 0 || minor > 9 then (s, InvalidArgument)
    else if !Ready(s) then (s, FailedPrecondition)
    else if s.prepared >= 0 then
      (s, if s.prepared == device && s.smMajor == major && s.smMinor == minor then Ok else FailedPrecondition)
    else if !matches then (s, FailedPrecondition)
    else (s.(prepared := device, smMajor := major, smMinor := minor), Ok)
  }

  /** The moves of the lifecycle. */
  predicate Move(from: nat, to: nat) {
    from == to || (to == from + 1 && to <= 7) || (from == 3 && to == 6) || ((from == 1 || from == 2) && to == 7)
  }

  function Advance(s: State, expected: nat): (r: (State, Status))
    ensures r.0.contexts == s.contexts
    ensures r.1 != Undefined
    ensures r.0.bound == s.bound && r.0.prepared == s.prepared && r.0.smMajor == s.smMajor && r.0.smMinor == s.smMinor
    ensures r.0.allocations == s.allocations && r.0.slots == s.slots && r.0.pinnedAllocator == s.pinnedAllocator
    ensures r.0.driver == s.driver
  {
    if s.phase != expected then (s, FailedPrecondition) else (s.(phase := s.phase + 1), Ok)
  }

  /** The plugin entry point. */
  function Enter(s: State, valid: bool): (r: (State, Status))
    ensures r.0.prepared == s.prepared && r.0.smMajor == s.smMajor && r.0.smMinor == s.smMinor
    ensures r.0.contexts == s.contexts
    ensures r.1 != Undefined
    ensures r.0.allocations == s.allocations && r.0.slots == s.slots && r.0.pinnedAllocator == s.pinnedAllocator
    ensures r.0.driver == s.driver && Move(s.phase, r.0.phase)
  {
    if !valid then (s, InvalidArgument)
    else if s.bound || s.phase != 0 then (s, FailedPrecondition)
    else (s.(bound := true), Ok)
  }

  /** No entry has succeeded yet, so nobody holds a pointer to the functions of the lifecycle. */
  predicate Unbound(s: State) { s.phase == 0 && !s.bound }

  // The functions of the lifecycle take a context, which is the provider's or null.

  /** The host's answers come back as they are; without a host there is nobody to ask. */
  function Register(s: State, given: bool, registry: Answer): (r: (State, Status))
    ensures r.0.contexts == s.contexts
    ensures r.0.bound == s.bound && r.0.prepared == s.prepared && r.0.smMajor == s.smMajor && r.0.smMinor == s.smMinor
    ensures r.0.allocations == s.allocations && r.0.slots == s.slots && r.0.pinnedAllocator == s.pinnedAllocator
    ensures r.0.driver == s.driver && Move(s.phase, r.0.phase)
  {
    if !given then (s, Undefined)
    else if s.phase != 0 then (s, FailedPrecondition)
    else if !s.bound then (s, Undefined)
    else if registry != Ok then (s, registry)
    else Advance(s, 0)
  }

  function Configure(s: State, given: bool, resolver: Answer, usable: bool): (r: (State, Status))
    ensures r.0.contexts == s.contexts
    ensures r.0.bound == s.bound && r.0.prepared == s.prepared && r.0.smMajor == s.smMajor && r.0.smMinor == s.smMinor
    ensures r.0.allocations == s.allocations && r.0.slots == s.slots && r.0.pinnedAllocator == s.pinnedAllocator
    ensures r.0.driver == s.driver && Move(s.phase, r.0.phase)
  {
    if !given then (s, Undefined)
    else if s.phase != 1 then (s, FailedPrecondition)
    else if !s.bound then (s, Undefined)
    else if resolver != Ok then (s, resolver)
    else if !usable then (s, FailedPrecondition)
    else (Advance(s, 1).0.(platform := true), Ok)
  }

  function Start(s: State, given: bool, runtime: Answer): (r: (State, Status))
    ensures r.0.contexts == s.contexts
    ensures r.1 != Undefined
    ensures r.0.bound == s.bound && r.0.prepared == s.prepared && r.0.smMajor == s.smMajor && r.0.smMinor == s.smMinor
    ensures r.0.allocations == s.allocations && r.0.slots == s.slots && r.0.pinnedAllocator == s.pinnedAllocator
    ensures r.0.driver == s.driver && Move(s.phase, r.0.phase)
  {
    if !given || s.phase != 2 || !s.platform then (s, FailedPrecondition)
    else if runtime != Ok then (s, runtime)
    else Advance(s, 2)
  }

  function BecomeReady(s: State, given: bool): (r: (State, Status))
    ensures r.0.contexts == s.contexts
    ensures r.1 == Undefined <==> !given
    ensures r.0.bound == s.bound && r.0.prepared == s.prepared && r.0.smMajor == s.smMajor && r.0.smMinor == s.smMinor
    ensures r.0.allocations == s.allocations && r.0.slots == s.slots && r.0.pinnedAllocator == s.pinnedAllocator
    ensures r.0.driver == s.driver && Move(s.phase, r.0.phase)
  {
    if !given then (s, Undefined) else Advance(s, 3)
  }

  function Drain(s: State, given: bool): (r: (State, Status))
    ensures r.0.contexts == s.contexts
    ensures r.1 != Undefined
    ensures r.0.bound == s.bound && r.0.prepared == s.prepared && r.0.smMajor == s.smMajor && r.0.smMinor == s.smMinor
    ensures r.0.allocations == s.allocations && r.0.slots == s.slots && r.0.pinnedAllocator == s.pinnedAllocator
    ensures r.0.driver == s.driver && Move(s.phase, r.0.phase)
  {
    if !given then (s, InvalidArgument)
    else if s.corrupted || !NothingTracked(s) then (s, FailedPrecondition)
    else Advance(s, 4)
  }

  function Stop(s: State, given: bool): (r: (State, Status))
    ensures r.0.contexts == s.contexts
    ensures r.1 != Undefined
    ensures r.0.bound == s.bound && r.0.prepared == s.prepared && r.0.smMajor == s.smMajor && r.0.smMinor == s.smMinor
    ensures r.0.allocations == s.allocations && r.0.slots == s.slots && r.0.pinnedAllocator == s.pinnedAllocator
    ensures r.0.driver == s.driver && Move(s.phase, r.0.phase)
  {
    if !given then (s, InvalidArgument)
    else if s.phase != 3 then Advance(s, 5)
    else (s.(phase := 6), Ok)
  }

  /** The state of a disposed provider. */
  function Cleared(s: State): State {
    State(7, false, false, -1, 0, 0, map[], false, s.allocations, s.contexts, s.streams, s.events, false, s.driver)
  }

  function Dispose(s: State, given: bool): (r: (State, Status))
    ensures r.1 == Undefined <==> !given
    ensures r.0.driver == s.driver && Move(s.phase, r.0.phase)
  {
    if !given then (s, Undefined)
    else if s.phase != 1 && s.phase != 2 && s.phase != 6 then (s, FailedPrecondition)
    else if s.corrupted || !NothingTracked(s) then (s, FailedPrecondition)
    else (Cleared(s), Ok)
  }

  // ---- Copies ------------------------------------------------------------------------------------------------

  /** A range of bytes a driver call touches. */
  datatype Access = Access(kind: Kind, device: int, address: Word, bytes: Word)

  datatype Direction = HostToDevice | DeviceToHost | DeviceToDevice

  /** 64-bit subtraction as the machine does it. */
  function Sub64(a: Word, b: Word): Word { (a - b) % U64 }

  /** The offset test of OwnsDeviceRange and OwnsPinnedRange for one allocation. */
  predicate Covers(base: Word, record: Record, r: Access) {
    && record.kind == r.kind && record.device == r.device && r.address >= base
    && var offset := Sub64(r.address, base); offset <= record.bytes && r.bytes <= Sub64(record.bytes, offset)
  }

  predicate Owns(s: State, r: Access) {
    r.address != 0 && r.bytes != 0 && exists base :: base in s.allocations && Covers(base, s.allocations[base], r)
  }

  /** CopyH2d; the accesses are those of the driver call, if it is reached. */
  function CopyH2d(s: State, device: int, to: Word, source: bool, bytes: Word, slot: bool, copier: bool, copied: bool)
    : (r: (seq<Access>, Status))
    ensures r.1 != Undefined
  {
    if device < 0 || (bytes != 0 && (to == 0 || !source)) then ([], InvalidArgument)
    else if !Ready(s) || s.prepared != device then ([], FailedPrecondition)
    else if bytes != 0 && !Owns(s, Access(DeviceMemory, device, to, bytes)) then ([], FailedPrecondition)
    else if !slot then ([], ResourceExhausted)
    else if !copier then ([], DriverError)
    else ([Access(DeviceMemory, device, to, bytes)], if copied then Ok else DriverError)
  }

  function OwnerMatches(s: State, context: Word, stream: Word): bool {
    context in s.contexts && stream in s.streams && s.streams[stream] == context
  }

  function Accesses(device: int, to: Word, from: Word, bytes: Word, d: Direction): seq<Access> {
    match d
    case HostToDevice => [Access(DeviceMemory, device, to, bytes), Access(PinnedHost, -1, from, bytes)]
    case DeviceToHost => [Access(DeviceMemory, device, from, bytes), Access(PinnedHost, -1, to, bytes)]
    case DeviceToDevice => [Access(DeviceMemory, device, to, bytes), Access(DeviceMemory, device, from, bytes)]
  }

  /** What the runtime says about a host address. */
  datatype Attributes = Unavailable | OtherMemory | HostMemory

  function CopyAsync(s: State, context: Word, to: Word, from: Word, bytes: Word, d: Direction, stream: Word,
                     current: bool, host: Attributes, launched: bool): (r: (seq<Access>, Status))
    ensures r.1 != Undefined
  {
    if context == 0 || to == 0 || from == 0 || bytes == 0 || stream == 0 then ([], InvalidArgument)
    else if !Ready(s) || !OwnerMatches(s, context, stream) then ([], FailedPrecondition)
    else
      var a := Accesses(s.contexts[context].device, to, from, bytes, d);
      if !Owns(s, a[0]) || !Owns(s, a[1]) || !current then ([], FailedPrecondition)
      else if !d.DeviceToDevice? && host.Unavailable? then ([], DriverError)
      else if !d.DeviceToDevice? && host.OtherMemory? then ([], FailedPrecondition)
      else (a, if launched then Ok else DriverError)
  }

  function MemsetAsync(s: State, context: Word, to: Word, value: nat, bytes: Word, stream: Word,
                       current: bool, launched: bool): (r: (seq<Access>, Status))
    ensures r.1 != Undefined
  {
    if context == 0 || to == 0 || value > 255 || bytes == 0 || stream == 0 then ([], InvalidArgument)
    else if !Ready(s) || !OwnerMatches(s, context, stream) then ([], FailedPrecondition)
    else
      var a := Access(DeviceMemory, s.contexts[context].device, to, bytes);
      if !Owns(s, a) || !current then ([], FailedPrecondition) else ([a], if launched then Ok else DriverError)
  }
}
