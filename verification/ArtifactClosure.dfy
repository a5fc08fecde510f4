/** The object roots of a checkpoint's files and the closure root over them. */
module ArtifactClosure {
  import opened ByteStrings
  import opened TypedRoot
  import opened Wrappers

  const ZERO_DIGEST: Bytes := seq(32, _ => 0)
  type Digest = b: Bytes | |b| == 32 witness ZERO_DIGEST

  const OBJECT_DOMAIN := "pih:deepseek-artifact-object:v1"
  const CLOSURE_DOMAIN := "pih:deepseek-artifact-closure:v1"
  const ABI := "deepseek_artifact_closure_v1"
  const MODEL_FAMILY := "deepseek_v4_flash_0731"
  const TENSOR_COUNT := 72_317
  const DECLARED_TENSOR_BYTES := 166_878_536_440
  const MAX_CONFIG_BYTES := 0x10_0000
  const MAX_INDEX_BYTES := 0x400_0000
  const MAX_SHARD_BYTES := 0x4_0000_0000
  const MAX_TOTAL_BYTES := 0x40_0000_0000

  /** A file of the checkpoint under the role and name its root records. */
  datatype Member = Member(role: string, name: string, content: Bytes)
  datatype Checkpoint = Checkpoint(config: Member, index: Member, shards: seq<Member>)

  predicate IsAscii(s: string) { forall i :: 0 <= i < |s| ==> s[i] as int < 128 }

  /** Two given byte strings differ and have the same digest. */
  predicate Clash(hash: Bytes -> Digest, x: Bytes, y: Bytes) { x != y && hash(x) == hash(y) }

  // ---- One file -------------------------------------------------------------------------------------------

  predicate MemberValid(hash: Bytes -> Digest, m: Member) {
    && IsAscii(m.role) && IsAscii(m.name) && |m.role| <= MAX_U64 && |m.name| <= MAX_U64
    && |m.content| <= MAX_U64 && hash(m.content) != ZERO_DIGEST
  }

  function ObjectFields(hash: Bytes -> Digest, m: Member): seq<Field>
    requires MemberValid(hash, m)
  {
    [ Field(1, BYTES, Ascii(m.role)), Field(2, BYTES, Ascii(m.name)),
      Field(3, U64, LittleEndian(|m.content|, 8)), Field(4, HASH256, hash(m.content)) ]
  }

  lemma ValidPlus(fields: seq<Field>, f: Field)
    requires FieldsValid(fields) && FieldValid(LastId(fields), f)
    ensures FieldsValid(fields + [f])
  {
    assert (fields + [f])[..|fields|] == fields;
  }

  lemma DomainsAreValid()
    ensures DomainValid(OBJECT_DOMAIN) && DomainValid(CLOSURE_DOMAIN)
  {
  }

  lemma FourAreValid(a: Field, b: Field, c: Field, d: Field)
    requires FieldValid(0, a) && FieldValid(a.id, b) && FieldValid(b.id, c) && FieldValid(c.id, d)
    ensures FieldsValid([a, b, c, d])
  {
    hide FieldValid;
    assert [a] == [] + [a] && [a, b] == [a] + [b] && [a, b, c] == [a, b] + [c] && [a, b, c, d] == [a, b, c] + [d];
    var none: seq<Field> := [];
    ValidPlus(none, a);
    ValidPlus([a], b);
    ValidPlus([a, b], c);
    ValidPlus([a, b, c], d);
  }

  lemma ObjectIsAccepted(hash: Bytes -> Digest, m: Member)
    requires MemberValid(hash, m)
    ensures Accepted(OBJECT_DOMAIN, ObjectFields(hash, m))
  {
    hide FieldsValid, DomainValid, OBJECT_DOMAIN, CLOSURE_DOMAIN, LittleEndian;
    DomainsAreValid();
    var f := ObjectFields(hash, m);
    FourAreValid(f[0], f[1], f[2], f[3]);
  }

  /** The string hashed for the object root of a file. */
  function ObjectPreimage(hash: Bytes -> Digest, m: Member): Bytes
    requires MemberValid(hash, m)
  {
    ObjectIsAccepted(hash, m);
    Preimage(OBJECT_DOMAIN, ObjectFields(hash, m))
  }

  function ObjectRoot(hash: Bytes -> Digest, m: Member): Digest
    requires MemberValid(hash, m)
  {
    hash(ObjectPreimage(hash, m))
  }

  /** Equal object roots: the same file under the same name, or a clash of the preimages or of the contents. */
  lemma ObjectRootBinds(hash: Bytes -> Digest, a: Member, b: Member)
    requires MemberValid(hash, a) && MemberValid(hash, b) && ObjectRoot(hash, a) == ObjectRoot(hash, b)
    ensures a == b || Clash(hash, ObjectPreimage(hash, a), ObjectPreimage(hash, b)) || Clash(hash, a.content, b.content)
  {
    hide FieldsValid, DomainValid, OBJECT_DOMAIN, CLOSURE_DOMAIN, LittleEndian, Accepted, Preimage, Ascii;
    ObjectIsAccepted(hash, a);
    ObjectIsAccepted(hash, b);
    var f, g := ObjectFields(hash, a), ObjectFields(hash, b);
    if ObjectPreimage(hash, a) == ObjectPreimage(hash, b) {
      PreimagesAreUnambiguous(OBJECT_DOMAIN, f, OBJECT_DOMAIN, g);
      assert f[0] == g[0] && f[1] == g[1] && f[3] == g[3];
      AsciiIsInjective(a.role, b.role);
      AsciiIsInjective(a.name, b.name);
    }
  }

  lemma AsciiIsInjective(a: string, b: string)
    requires IsAscii(a) && IsAscii(b) && Ascii(a) == Ascii(b)
    ensures a == b
  {
    forall i | 0 <= i < |a| ensures a[i] == b[i] {
      assert Ascii(a)[i] == Ascii(b)[i];
    }
  }

  // ---- The closure ----------------------------------------------------------------------------------------

  function TotalBytes(members: seq<Member>): nat {
    if members == [] then 0 else TotalBytes(members[..|members| - 1]) + |members[|members| - 1].content|
  }

  function TotalFileBytes(c: Checkpoint): nat { |c.config.content| + |c.index.content| + TotalBytes(c.shards) }

  /** A file is read only if it is not empty and within its bound. */
  predicate FileValid(hash: Bytes -> Digest, m: Member, maximum: nat) {
    MemberValid(hash, m) && 0 < |m.content| <= maximum
  }

  predicate ShardValid(hash: Bytes -> Digest, m: Member) { FileValid(hash, m, MAX_SHARD_BYTES) }

  predicate CheckpointValid(hash: Bytes -> Digest, c: Checkpoint) {
    && FileValid(hash, c.config, MAX_CONFIG_BYTES)
    && FileValid(hash, c.index, MAX_INDEX_BYTES)
    && (forall i :: 0 <= i < |c.shards| ==> ShardValid(hash, c.shards[i]))
    && TotalFileBytes(c) <= MAX_TOTAL_BYTES && 100 + |c.shards| <= MAX_U16 + 1
  }

  lemma NamesAreAscii()
    ensures IsAscii(ABI) && IsAscii(MODEL_FAMILY) && |ABI| == 28 && |MODEL_FAMILY| == 22
  {
  }

  function HeadFields(config: Digest, index: Digest, count: nat, total: nat): (r: seq<Field>)
    ensures |r| == 8
  {
    NamesAreAscii();
    [ Field(1, BYTES, Ascii(ABI)), Field(2, BYTES, Ascii(MODEL_FAMILY)),
      Field(3, HASH256, config), Field(4, HASH256, index),
      Field(5, U32, LittleEndian(count, 4)), Field(6, U64, LittleEndian(TENSOR_COUNT, 8)),
      Field(7, U64, LittleEndian(DECLARED_TENSOR_BYTES, 8)), Field(8, U64, LittleEndian(total, 8)) ]
  }

  function ShardFields(roots: seq<Digest>): (r: seq<Field>)
    ensures |r| == |roots|
  {
    seq(|roots|, i requires 0 <= i < |roots| => Field(100 + i, HASH256, roots[i]))
  }

  lemma HeadIsValid(config: Digest, index: Digest, count: nat, total: nat)
    ensures FieldsValid(HeadFields(config, index, count, total)) && LastId(HeadFields(config, index, count, total)) == 8
  {
    hide FieldsValid, LittleEndian, Ascii;
    NamesAreAscii();
    var f := HeadFields(config, index, count, total);
    var four := f[..4];
    FourAreValid(f[0], f[1], f[2], f[3]);
    assert four == [f[0], f[1], f[2], f[3]];
    ValidPlus(four, f[4]);
    ValidPlus(four + [f[4]], f[5]);
    ValidPlus(four + [f[4]] + [f[5]], f[6]);
    ValidPlus(four + [f[4]] + [f[5]] + [f[6]], f[7]);
    assert f == four + [f[4]] + [f[5]] + [f[6]] + [f[7]];
  }

  lemma {:induction false} ShardsAreValid(head: seq<Field>, roots: seq<Digest>)
    requires FieldsValid(head) && LastId(head) == 8 && 100 + |roots| <= MAX_U16 + 1
    ensures FieldsValid(head + ShardFields(roots))
    ensures roots != [] ==> LastId(head + ShardFields(roots)) == 99 + |roots|
  {
    hide FieldsValid;
    if roots == [] {
      assert head + ShardFields(roots) == head;
    } else {
      var n := |roots| - 1;
      ShardsAreValid(head, roots[..n]);
      var front, last := head + ShardFields(roots[..n]), Field(100 + n, HASH256, roots[n]);
      assert n == 0 ==> front == head;
      ValidPlus(front, last);
      assert ShardFields(roots) == ShardFields(roots[..n]) + [last];
      Assoc(head, ShardFields(roots[..n]), [last]);
    }
  }

  function ShardRoots(hash: Bytes -> Digest, shards: seq<Member>): (r: seq<Digest>)
    requires forall i :: 0 <= i < |shards| ==> ShardValid(hash, shards[i])
    ensures |r| == |shards|
  {
    seq(|shards|, i requires 0 <= i < |shards| => assert ShardValid(hash, shards[i]); ObjectRoot(hash, shards[i]))
  }

  function ClosureFields(hash: Bytes -> Digest, c: Checkpoint): seq<Field>
    requires CheckpointValid(hash, c)
  {
    HeadFields(ObjectRoot(hash, c.config), ObjectRoot(hash, c.index), |c.shards|, TotalFileBytes(c))
    + ShardFields(ShardRoots(hash, c.shards))
  }

  lemma ClosureIsAccepted(hash: Bytes -> Digest, c: Checkpoint)
    requires CheckpointValid(hash, c)
    ensures Accepted(CLOSURE_DOMAIN, ClosureFields(hash, c))
  {
    hide FieldsValid, DomainValid, OBJECT_DOMAIN, CLOSURE_DOMAIN, LittleEndian, HeadFields, ShardFields, ShardRoots,
      ObjectRoot;
    DomainsAreValid();
    var config, index := ObjectRoot(hash, c.config), ObjectRoot(hash, c.index);
    HeadIsValid(config, index, |c.shards|, TotalFileBytes(c));
    ShardsAreValid(HeadFields(config, index, |c.shards|, TotalFileBytes(c)), ShardRoots(hash, c.shards));
  }

  /** The string hashed for the closure root. */
  function ClosurePreimage(hash: Bytes -> Digest, c: Checkpoint): Bytes
    requires CheckpointValid(hash, c)
  {
    ClosureIsAccepted(hash, c);
    Preimage(CLOSURE_DOMAIN, ClosureFields(hash, c))
  }

  function ClosureRoot(hash: Bytes -> Digest, c: Checkpoint): Digest
    requires CheckpointValid(hash, c)
  {
    hash(ClosurePreimage(hash, c))
  }

  function Members(c: Checkpoint): seq<Member> { [c.config, c.index] + c.shards }

  lemma MembersAreValid(hash: Bytes -> Digest, c: Checkpoint)
    requires CheckpointValid(hash, c)
    ensures forall i :: 0 <= i < |Members(c)| ==> MemberValid(hash, Members(c)[i])
  {
    hide MemberValid;
    forall i | 0 <= i < |Members(c)| ensures MemberValid(hash, Members(c)[i]) {
      if i >= 2 {
        assert ShardValid(hash, c.shards[i - 2]);
      }
    }
  }

  /** Every string hashed for a checkpoint: the closure preimage, then preimage and content of each file. */
  function Hashed(hash: Bytes -> Digest, c: Checkpoint): (r: seq<Bytes>)
    requires CheckpointValid(hash, c)
    ensures |r| == 1 + 2 * |Members(c)|
  {
    MembersAreValid(hash, c);
    seq(1 + 2 * |Members(c)|, i requires 0 <= i < 1 + 2 * |Members(c)| => HashedAt(hash, c, i))
  }

  function HashedAt(hash: Bytes -> Digest, c: Checkpoint, i: nat): Bytes
    requires CheckpointValid(hash, c) && i < 1 + 2 * |Members(c)|
  {
    MembersAreValid(hash, c);
    if i == 0 then ClosurePreimage(hash, c)
    else if i % 2 == 1 then ObjectPreimage(hash, Members(c)[i / 2])
    else Members(c)[i / 2 - 1].content
  }

  /** Two strings hashed at the same place clash. */
  ghost predicate HashedClash(hash: Bytes -> Digest, a: Checkpoint, b: Checkpoint)
    requires CheckpointValid(hash, a) && CheckpointValid(hash, b)
  {
    exists i :: 0 <= i < |Hashed(hash, a)| && i < |Hashed(hash, b)| &&
      Clash(hash, Hashed(hash, a)[i], Hashed(hash, b)[i])
  }

  lemma MemberClashes(hash: Bytes -> Digest, a: Checkpoint, b: Checkpoint, k: nat)
    requires CheckpointValid(hash, a) && CheckpointValid(hash, b) && k < |Members(a)| && k < |Members(b)|
    requires MemberValid(hash, Members(a)[k]) && MemberValid(hash, Members(b)[k])
    requires ObjectRoot(hash, Members(a)[k]) == ObjectRoot(hash, Members(b)[k])
    ensures Members(a)[k] == Members(b)[k] || HashedClash(hash, a, b)
  {
    hide ClosurePreimage, ObjectPreimage, MemberValid, CheckpointValid, Members;
    var x, y := Members(a)[k], Members(b)[k];
    ObjectRootBinds(hash, x, y);
    var p, q := 2 * k + 1, 2 * k + 2;
    assert p / 2 == k && p % 2 == 1 && q / 2 == k + 1 && q % 2 == 0;
    assert Hashed(hash, a)[p] == ObjectPreimage(hash, x) && Hashed(hash, b)[p] == ObjectPreimage(hash, y);
    assert Hashed(hash, a)[q] == x.content && Hashed(hash, b)[q] == y.content;
  }

  lemma RootsAgree(hash: Bytes -> Digest, a: Checkpoint, b: Checkpoint, k: nat)
    requires CheckpointValid(hash, a) && CheckpointValid(hash, b) && k < |Members(a)|
    requires ClosureFields(hash, a) == ClosureFields(hash, b)
    ensures |Members(a)| == |Members(b)|
    ensures MemberValid(hash, Members(a)[k]) && MemberValid(hash, Members(b)[k])
    ensures ObjectRoot(hash, Members(a)[k]) == ObjectRoot(hash, Members(b)[k])
  {
    hide MemberValid, ObjectRoot, LittleEndian, Ascii;
    MembersAreValid(hash, a);
    MembersAreValid(hash, b);
    var f, g := ClosureFields(hash, a), ClosureFields(hash, b);
    assert f[2].value == ObjectRoot(hash, a.config) && f[3].value == ObjectRoot(hash, a.index);
    assert g[2].value == ObjectRoot(hash, b.config) && g[3].value == ObjectRoot(hash, b.index);
    if k >= 2 {
      assert f[6 + k] == ShardFields(ShardRoots(hash, a.shards))[k - 2];
      assert g[6 + k] == ShardFields(ShardRoots(hash, b.shards))[k - 2];
    }
  }

  /**
   * The closure root binds the checkpoint: two checkpoints with the same root have the same files, byte
   * for byte and in the same order, or two of the strings hashed for them, at the same place, clash.
   */
  lemma ClosureRootBinds(hash: Bytes -> Digest, a: Checkpoint, b: Checkpoint)
    requires CheckpointValid(hash, a) && CheckpointValid(hash, b) && ClosureRoot(hash, a) == ClosureRoot(hash, b)
    ensures a == b || HashedClash(hash, a, b)
  {
    hide CheckpointValid, Preimage, Accepted, ClosureFields, ObjectPreimage, MemberValid, HashedClash, CLOSURE_DOMAIN;
    if !HashedClash(hash, a, b) {
      ClosurePreimagesAgree(hash, a, b);
      ClosureIsAccepted(hash, a);
      ClosureIsAccepted(hash, b);
      PreimagesAreUnambiguous(CLOSURE_DOMAIN, ClosureFields(hash, a), CLOSURE_DOMAIN, ClosureFields(hash, b));
      RootsAgree(hash, a, b, 0);
      forall k | 0 <= k < |Members(a)| ensures Members(a)[k] == Members(b)[k] {
        RootsAgree(hash, a, b, k);
        MemberClashes(hash, a, b, k);
      }
      assert a.shards == Members(a)[2..] && b.shards == Members(b)[2..];
      assert a.config == Members(a)[0] && a.index == Members(a)[1];
    }
  }

  lemma ClosurePreimagesAgree(hash: Bytes -> Digest, a: Checkpoint, b: Checkpoint)
    requires CheckpointValid(hash, a) && CheckpointValid(hash, b) && ClosureRoot(hash, a) == ClosureRoot(hash, b)
    ensures ClosurePreimage(hash, a) == ClosurePreimage(hash, b) || HashedClash(hash, a, b)
  {
    hide CheckpointValid, ClosurePreimage, ObjectPreimage, MemberValid;
    assert Hashed(hash, a)[0] == ClosurePreimage(hash, a) && Hashed(hash, b)[0] == ClosurePreimage(hash, b);
  }

  lemma {:induction false} TotalGrows(members: seq<Member>, n: nat)
    requires n <= |members|
    ensures TotalBytes(members[..n]) <= TotalBytes(members)
  {
    if n < |members| {
      var last := |members| - 1;
      TotalGrows(members[..last], n);
      assert members[..last][..n] == members[..n];
    } else {
      assert members[..n] == members;
    }
  }

  /** Identifiers run out: the typed root refuses the first shard beyond them. */
  lemma TooManyShards(head: seq<Field>, roots: seq<Digest>)
    requires |head| == 8 && 100 + |roots| > MAX_U16 + 1
    ensures !Accepted(CLOSURE_DOMAIN, head + ShardFields(roots))
  {
    hide FieldsValid, DomainValid;
    var n := MAX_U16 + 1 - 100;
    assert ShardFields(roots)[n].id == MAX_U16 + 1;
    assert (head + ShardFields(roots))[8 + n] == ShardFields(roots)[n];
    InvalidStays(head + ShardFields(roots), 8 + n);
  }

  /** Reads the files in order, adds their sizes and hashes their roots; None is a refusal. */
  method VerifyClosure(hash: Bytes -> Digest, c: Checkpoint) returns (root: Option<Digest>)
    ensures root.Some? <==> CheckpointValid(hash, c)
    ensures root.Some? ==> root.value == ClosureRoot(hash, c)
  {
    hide ObjectRoot, HeadFields, ShardFields, Accepted, Preimage, MemberValid, CLOSURE_DOMAIN;
    if !FileValid(hash, c.config, MAX_CONFIG_BYTES) { return None; }
    if !FileValid(hash, c.index, MAX_INDEX_BYTES) { return None; }
    var configRoot, indexRoot := ObjectRoot(hash, c.config), ObjectRoot(hash, c.index);
    var total := |c.config.content| + |c.index.content|;
    var roots: seq<Digest> := [];
    for n := 0 to |c.shards|
      invariant forall i :: 0 <= i < n ==> ShardValid(hash, c.shards[i])
      invariant total == |c.config.content| + |c.index.content| + TotalBytes(c.shards[..n]) <= MAX_TOTAL_BYTES
      invariant roots == ShardRoots(hash, c.shards[..n])
    {
      var shard := c.shards[n];
      if !ShardValid(hash, shard) { return None; }
      assert c.shards[..n + 1][..n] == c.shards[..n];
      if total > MAX_TOTAL_BYTES - |shard.content| {
        TotalGrows(c.shards, n + 1);
        return None;
      }
      total := total + |shard.content|;
      roots := roots + [ObjectRoot(hash, shard)];
    }
    assert c.shards[..|c.shards|] == c.shards;
    var fields := HeadFields(configRoot, indexRoot, |roots|, total) + ShardFields(roots);
    if CheckpointValid(hash, c) {
      ClosureIsAccepted(hash, c);
    } else {
      TooManyShards(HeadFields(configRoot, indexRoot, |roots|, total), roots);
    }
    root := TypedRootOf(hash, CLOSURE_DOMAIN, fields);
  }
}
