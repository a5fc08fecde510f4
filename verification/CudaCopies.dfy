/** Exactly which copies reach the driver, from the parameters of the call and the blocks of the provider. */
module CudaCopies {
  import opened CudaLedger
  import opened CudaRuns
  import opened Wrappers

  /** The bytes lie in one tracked block of the kind on the device, and the driver has granted it once. */
  ghost predicate Lies(s: State, kind: Kind, device: int, address: Word, bytes: Word) {
    exists base :: base in s.allocations && LiesIn(s, base, kind, device, address, bytes)
  }

  ghost predicate LiesIn(s: State, base: Word, kind: Kind, device: int, address: Word, bytes: Word)
    requires base in s.allocations
  {
    var record := s.allocations[base];
    && record.kind == kind && record.device == device
    && base <= address && address + bytes <= base + record.bytes
    && s.driver[MemoryGrant(base, record)] == 1
  }

  lemma OwnsIsLies(s: State, kind: Kind, device: int, address: Word, bytes: Word)
    requires Inv(s) && !s.corrupted && address != 0 && bytes != 0
    ensures Owns(s, Access(kind, device, address, bytes)) <==> Lies(s, kind, device, address, bytes)
  {
    hide Owns;
    var r := Access(kind, device, address, bytes);
    OwnsIsInclusion(s, r);
    forall base | base in s.allocations
      ensures InsideOf(base, s.allocations[base], r) <==> LiesIn(s, base, kind, device, address, bytes)
    {
      var g := MemoryGrant(base, s.allocations[base]);
      assert g.Identity() != 0;
      assert s.driver[g] == Tracked(s, g) == 1;
    }
  }

  /** Each side of a copy lies where its direction puts it: the host side in pinned memory, the others on the device. */
  ghost predicate SidesLie(s: State, device: int, to: Word, from: Word, bytes: Word, d: Direction) {
    match d
    case HostToDevice => Lies(s, DeviceMemory, device, to, bytes) && Lies(s, PinnedHost, -1, from, bytes)
    case DeviceToHost => Lies(s, PinnedHost, -1, to, bytes) && Lies(s, DeviceMemory, device, from, bytes)
    case DeviceToDevice => Lies(s, DeviceMemory, device, to, bytes) && Lies(s, DeviceMemory, device, from, bytes)
  }

  lemma SidesAreOwned(s: State, device: int, to: Word, from: Word, bytes: Word, d: Direction)
    requires Inv(s) && !s.corrupted && to != 0 && from != 0 && bytes != 0
    ensures var a := Accesses(device, to, from, bytes, d);
      Owns(s, a[0]) && Owns(s, a[1]) <==> SidesLie(s, device, to, from, bytes, d)
  {
    hide Owns, Lies, Inv;
    OwnsIsLies(s, DeviceMemory, device, to, bytes);
    OwnsIsLies(s, DeviceMemory, device, from, bytes);
    OwnsIsLies(s, PinnedHost, -1, to, bytes);
    OwnsIsLies(s, PinnedHost, -1, from, bytes);
  }

  /** The provider is ready, the context is retained and current, and the stream is one of its streams. */
  predicate Usable(s: State, context: Word, stream: Word, current: bool) {
    && s.phase == 4 && !s.corrupted && current && context != 0 && stream != 0
    && context in s.contexts && stream in s.streams && s.streams[stream] == context
  }

  /** What an asynchronous copy needs to reach the driver, from its parameters and the blocks of the provider. */
  ghost predicate CopyFits(s: State, c: Call)
    requires c.CopyAsyncCall?
  {
    && Usable(s, c.context, c.on, c.current) && c.to != 0 && c.from != 0 && c.bytes != 0
    && (c.direction.DeviceToDevice? || c.host.HostMemory?)
    && SidesLie(s, s.contexts[c.context].device, c.to, c.from, c.bytes, c.direction)
  }

  lemma AsyncStep(s: State, c: Call)
    requires Inv(s) && c.CopyAsyncCall?
    ensures Touched(s, c) != [] <==> CopyFits(s, c)
    ensures Apply(s, c).1 == Ok <==> c.launched && CopyFits(s, c)
    ensures CopyFits(s, c) ==>
      forall a :: a in Touched(s, c) ==> a.bytes == c.bytes && (a.address == c.to || a.address == c.from)
    ensures CopyFits(s, c) ==> exists a :: a in Touched(s, c) && a.address == c.to
    ensures CopyFits(s, c) ==> exists a :: a in Touched(s, c) && a.address == c.from
  {
    hide Owns, Inv, SidesLie;
    if Usable(s, c.context, c.on, c.current) && c.to != 0 && c.from != 0 && c.bytes != 0 {
      SidesAreOwned(s, s.contexts[c.context].device, c.to, c.from, c.bytes, c.direction);
      var a := Accesses(s.contexts[c.context].device, c.to, c.from, c.bytes, c.direction);
      assert a[0] in a && a[1] in a;
    }
  }

  /**
   * Asynchronous copies over runs: the driver is reached exactly when the stream belongs to the current
   * retained context, the runtime does not object to the host side, and both sides lie in granted
   * blocks of the kind the direction gives them; then the launch decides, and both sides are touched.
   */
  lemma AsyncCopyExactly(calls: seq<Call>, c: Call)
    requires c.CopyAsyncCall?
    ensures var s := Run(Fresh(), calls);
      && (Touched(s, c) != [] <==> CopyFits(s, c))
      && (Apply(s, c).1 == Ok <==> c.launched && CopyFits(s, c))
      && (CopyFits(s, c) ==>
          && (exists a :: a in Touched(s, c) && a.address == c.to)
          && (exists a :: a in Touched(s, c) && a.address == c.from)
          && forall a :: a in Touched(s, c) ==> a.bytes == c.bytes && (a.address == c.to || a.address == c.from))
  {
    hide Run, Apply, Touched, Inv, CopyFits;
    FreshIsSound();
    RunKeeps(Fresh(), calls);
    AsyncStep(Run(Fresh(), calls), c);
  }

  /** What a fill needs: a usable stream, a byte value, and a destination on the context's device. */
  ghost predicate FillFits(s: State, c: Call)
    requires c.MemsetCall?
  {
    && Usable(s, c.context, c.on, c.current) && c.to != 0 && c.bytes != 0 && c.value <= 255
    && Lies(s, DeviceMemory, s.contexts[c.context].device, c.to, c.bytes)
  }

  lemma MemsetStep(s: State, c: Call)
    requires Inv(s) && c.MemsetCall?
    ensures Touched(s, c) != [] <==> FillFits(s, c)
    ensures Apply(s, c).1 == Ok <==> c.launched && FillFits(s, c)
    ensures FillFits(s, c) ==>
      Touched(s, c) == [Access(DeviceMemory, s.contexts[c.context].device, c.to, c.bytes)]
  {
    hide Owns, Inv, Lies;
    if Usable(s, c.context, c.on, c.current) && c.to != 0 && c.bytes != 0 {
      OwnsIsLies(s, DeviceMemory, s.contexts[c.context].device, c.to, c.bytes);
    }
  }

  /** The same for a fill: its destination lies in a granted block of the context's device. */
  lemma MemsetExactly(calls: seq<Call>, c: Call)
    requires c.MemsetCall?
    ensures var s := Run(Fresh(), calls);
      && (Touched(s, c) != [] <==> FillFits(s, c))
      && (Apply(s, c).1 == Ok <==> c.launched && FillFits(s, c))
      && (FillFits(s, c) ==> Touched(s, c) == [Access(DeviceMemory, s.contexts[c.context].device, c.to, c.bytes)])
  {
    hide Run, Apply, Touched, Inv, Lies;
    FreshIsSound();
    RunKeeps(Fresh(), calls);
    MemsetStep(Run(Fresh(), calls), c);
  }

  /** What an upload needs: the prepared device, its copier, and unless it is empty a destination there. */
  ghost predicate UploadFits(s: State, c: Call)
    requires c.CopyCall?
  {
    && s.phase == 4 && !s.corrupted && c.device == s.prepared >= 0 && c.slot && c.copier
    && (c.bytes != 0 ==> c.to != 0 && c.source && Lies(s, DeviceMemory, c.device, c.to, c.bytes))
  }

  lemma UploadStep(s: State, c: Call)
    requires Inv(s) && c.CopyCall?
    ensures Touched(s, c) != [] <==> UploadFits(s, c)
    ensures Apply(s, c).1 == Ok <==> c.copied && UploadFits(s, c)
    ensures UploadFits(s, c) ==> Touched(s, c) == [Access(DeviceMemory, c.device, c.to, c.bytes)]
  {
    hide Owns, Inv, Lies;
    if s.phase == 4 && !s.corrupted && c.bytes != 0 && c.to != 0 {
      OwnsIsLies(s, DeviceMemory, c.device, c.to, c.bytes);
    }
  }

  /** The same for an upload: unless it is empty its destination lies in a granted block of the prepared device. */
  lemma UploadExactly(calls: seq<Call>, c: Call)
    requires c.CopyCall?
    ensures var s := Run(Fresh(), calls);
      && (Touched(s, c) != [] <==> UploadFits(s, c))
      && (Apply(s, c).1 == Ok <==> c.copied && UploadFits(s, c))
      && (UploadFits(s, c) ==> Touched(s, c) == [Access(DeviceMemory, c.device, c.to, c.bytes)])
  {
    hide Run, Apply, Touched, Inv, UploadFits;
    FreshIsSound();
    RunKeeps(Fresh(), calls);
    UploadStep(Run(Fresh(), calls), c);
  }
}
