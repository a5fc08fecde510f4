/** The target layout of a shard, and the two readers that check shards against it. */
module ShardLayout {
  import opened ByteStrings
  import opened StableSort
  import opened PayloadRanges
  import TypedRoot
  import opened Wrappers

  const MAX_U64 := TypedRoot.MAX_U64
  const MAX_HEADER_BYTES := 16 * 1024 * 1024
  const MAX_TENSORS := 4096
  const MAX_RANK := 8

  // ---- Checked arithmetic and tensor sizes --------------------------------------------------------------------

  function CheckedAdd(left: int, right: int): (r: Option<nat>)
    ensures r == if left >= 0 && right >= 0 && left + right <= MAX_U64 then Some(left + right) else None
  {
    if left < 0 || right < 0 || left > MAX_U64 - right then None else Some(left + right)
  }

  lemma QuotientTest(left: nat, right: nat, max: nat)
    requires left > 0
    ensures right > max / left <==> left * right > max
  {
    var q := max / left;
    if right > q {
      assert left * right >= left * (q + 1);
    } else {
      assert left * right <= left * q;
    }
  }

  /** The quotient test refuses exactly the products beyond 64 bits. */
  function CheckedMul(left: int, right: int): (r: Option<nat>)
    ensures r == if left >= 0 && right >= 0 && left * right <= MAX_U64 then Some(left * right) else None
  {
    if left < 0 || right < 0 then None
    else if left == 0 then Some(0)
    else
      QuotientTest(left, right, MAX_U64);
      if right > MAX_U64 / left then None else Some(left * right)
  }

  function ElementBytes(dtype: string): (r: Option<nat>)
    ensures r.Some? ==> 1 <= r.value <= 8
  {
    if dtype == "F32" || dtype == "I32" then Some(4)
    else if dtype == "F16" || dtype == "BF16" then Some(2)
    else if dtype == "I8" || dtype == "U8" || dtype == "F8_E4M3" || dtype == "F8_E8M0" || dtype == "BOOL" then Some(1)
    else if dtype == "I64" then Some(8)
    else None
  }

  /** The digits at the front as a number, behind the digits already read. */
  function Number(s: string, read: nat): nat {
    if s != [] && '0' <= s[0] <= '9' then Number(s[1..], 10 * read + (s[0] - '0') as nat) else read
  }

  /** The first number in a name. */
  function FirstNumber(s: string): Option<nat> {
    if s == [] then None else if '0' <= s[0] <= '9' then Some(Number(s, 0)) else FirstNumber(s[1..])
  }

  lemma SkipLetter(s: string)
    requires s != [] && !('0' <= s[0] <= '9')
    ensures FirstNumber(s) == FirstNumber(s[1..])
  {
  }

  lemma OneDigit(s: string)
    requires s != [] && '0' <= s[0] <= '9' && (|s| == 1 || !('0' <= s[1] <= '9'))
    ensures FirstNumber(s) == Some((s[0] - '0') as nat)
  {
    assert Number(s[1..], (s[0] - '0') as nat) == (s[0] - '0') as nat;
  }

  lemma TwoDigits(s: string)
    requires |s| == 2 && '0' <= s[0] <= '9' && '0' <= s[1] <= '9'
    ensures FirstNumber(s) == Some(10 * (s[0] - '0') as nat + (s[1] - '0') as nat)
  {
    var a, b := (s[0] - '0') as nat, (s[1] - '0') as nat;
    assert s[1..] == [s[1]] && s[1..][1..] == [];
    assert Number(s[1..], a) == Number([], 10 * a + b);
  }

  /** The width of a type is the number of bits in its name, a byte for truth values; these names are supported. */
  lemma WidthsAreNamed(dtype: string)
    ensures ElementBytes(dtype).Some? <==>
      dtype in ["F32", "F16", "BF16", "I8", "U8", "F8_E4M3", "F8_E8M0", "I32", "I64", "BOOL"]
    ensures ElementBytes(dtype).Some? && dtype != "BOOL" ==> FirstNumber(dtype) == Some(8 * ElementBytes(dtype).value)
    ensures dtype == "BOOL" ==> ElementBytes(dtype) == Some(1)
  {
    hide Number, FirstNumber;
    if ElementBytes(dtype).Some? && dtype != "BOOL" {
      SkipLetter(dtype);
      var rest := dtype[1..];
      if dtype == "BF16" {
        SkipLetter(rest);
        TwoDigits(rest[1..]);
      } else if rest[0] == '8' {
        OneDigit(rest);
      } else {
        TwoDigits(rest);
      }
    }
  }

  predicate ShapeValid(shape: seq<int>) {
    1 <= |shape| <= MAX_RANK && forall d :: d in shape ==> 0 < d <= MAX_U64
  }

  function Product(shape: seq<int>): int {
    if shape == [] then 1 else Product(shape[..|shape| - 1]) * shape[|shape| - 1]
  }

  lemma {:induction false} ProductGrows(shape: seq<int>, n: nat)
    requires n <= |shape| && forall d :: d in shape ==> 0 < d
    ensures 1 <= Product(shape[..n]) <= Product(shape)
  {
    if shape == [] {
      assert shape[..n] == shape;
    } else {
      var front, last := shape[..|shape| - 1], shape[|shape| - 1];
      assert shape == front + [last];
      assert last in shape && forall d :: d in front ==> d in shape;
      var m := if n < |shape| then n else n - 1;
      assert front[..m] == shape[..m];
      ProductGrows(front, m);
      assert front[..|front|] == front;
      assert Product(front) * last >= Product(front);
      assert n == |shape| ==> shape[..n] == shape;
    }
  }

  /** The bytes of a tensor; none when a check refuses it. */
  function ByteCount(dtype: string, shape: seq<int>): (r: Option<nat>)
    ensures r.Some? ==> 1 <= r.value <= MAX_U64
  {
    if ElementBytes(dtype).None? || !ShapeValid(shape) || Product(shape) * ElementBytes(dtype).value > MAX_U64 then None
    else
      ProductGrows(shape, 0);
      Some(Product(shape) * ElementBytes(dtype).value)
  }

  /** No intermediate product overflows unless the byte count itself does. */
  method TensorPayloadBytes(dtype: string, shape: seq<int>) returns (r: Option<nat>)
    ensures r == ByteCount(dtype, shape)
  {
    hide ElementBytes;
    var width := ElementBytes(dtype);
    if width.None? { return None; }
    if |shape| < 1 || |shape| > MAX_RANK { return None; }
    var elements := 1;
    for i := 0 to |shape|
      invariant forall d :: d in shape[..i] ==> 0 < d <= MAX_U64
      invariant 1 <= elements == Product(shape[..i])
    {
      if !(0 < shape[i] <= MAX_U64) {
        assert shape[i] in shape;
        return None;
      }
      assert shape[..i + 1] == shape[..i] + [shape[i]];
      assert Product(shape[..i + 1]) == elements * shape[i] >= 1;
      var next := CheckedMul(elements, shape[i]);
      if next.None? {
        TooManyElements(dtype, shape, i + 1);
        return None;
      }
      elements := next.value;
    }
    assert shape[..|shape|] == shape;
    r := CheckedMul(elements, width.value);
  }

  lemma TooManyElements(dtype: string, shape: seq<int>, n: nat)
    requires n <= |shape| && Product(shape[..n]) > MAX_U64
    ensures ByteCount(dtype, shape).None?
  {
    hide ElementBytes, Product;
    if ShapeValid(shape) && ElementBytes(dtype).Some? {
      ProductGrows(shape, n);
      assert Product(shape) * ElementBytes(dtype).value >= Product(shape);
    }
  }

  // ---- The producer -------------------------------------------------------------------------------------------

  datatype Tensor = Tensor(name: string, dtype: string, shape: seq<int>, bytes: nat)

  /** A record is admitted only with the byte count of its type and shape. */
  predicate Admitted(t: Tensor) { ByteCount(t.dtype, t.shape) == Some(t.bytes) }

  datatype Entry = Entry(tensor: Tensor, begin: nat, end: nat)
  datatype Placed = Placed(entry: Entry, fileBegin: nat, fileEnd: nat)
  datatype Shard = Shard(prefix: Bytes, placed: seq<Placed>, payloadBytes: nat, fileBytes: nat)

  /** Where the n-th record begins. */
  function Offset(records: seq<Tensor>, n: nat): nat
    requires n <= |records|
  {
    if n == 0 then 0 else Offset(records, n - 1) + records[n - 1].bytes
  }

  lemma {:induction false} OffsetGrows(records: seq<Tensor>, m: nat, n: nat)
    requires m <= n <= |records|
    ensures Offset(records, m) <= Offset(records, n)
  {
    if m < n {
      OffsetGrows(records, m, n - 1);
    }
  }

  function Entries(records: seq<Tensor>): (r: seq<Entry>)
    ensures |r| == |records|
  {
    seq(|records|, i requires 0 <= i < |records| => Entry(records[i], Offset(records, i), Offset(records, i + 1)))
  }

  /** Spaces fill the header up to a multiple of eight; the modulus is Python's. */
  function Padded(json: Bytes): (r: Bytes)
    ensures |r| % 8 == 0 && |json| <= |r| < |json| + 8 && json <= r
    ensures |json| <= MAX_HEADER_BYTES ==> |r| <= MAX_HEADER_BYTES
  {
    json + seq((-|json|) % 8, _ => 0x20)
  }

  function PrefixOf(json: Bytes): (r: Bytes)
    ensures |r| == 8 + |Padded(json)|
  {
    TypedRoot.LittleEndian(|Padded(json)|, 8) + Padded(json)
  }

  function InFile(entries: seq<Entry>, begin: nat): (r: seq<Placed>)
    ensures |r| == |entries|
  {
    seq(|entries|, i requires 0 <= i < |entries| =>
      Placed(entries[i], begin + entries[i].begin, begin + entries[i].end))
  }

  predicate Compilable(records: seq<Tensor>, encode: seq<Entry> -> Bytes) {
    var json := encode(Entries(records));
    && 1 <= |records| <= MAX_TENSORS
    && 1 <= |json| <= MAX_HEADER_BYTES
    && |PrefixOf(json)| + Offset(records, |records|) <= MAX_U64
  }

  function Compiled(records: seq<Tensor>, encode: seq<Entry> -> Bytes): Shard {
    var prefix := PrefixOf(encode(Entries(records)));
    var total := Offset(records, |records|);
    Shard(prefix, InFile(Entries(records), |prefix|), total, |prefix| + total)
  }

  /** Advances a cursor over the records; the records come sorted by name and the header encoder is given. */
  method CompileShard(records: seq<Tensor>, encode: seq<Entry> -> Bytes) returns (r: Option<Shard>)
    ensures r == if Compilable(records, encode) then Some(Compiled(records, encode)) else None
  {
    hide PrefixOf, Padded;
    if records == [] || |records| > MAX_TENSORS { return None; }
    var entries: seq<Entry> := [];
    var cursor := 0;
    for i := 0 to |records|
      invariant cursor == Offset(records, i) <= MAX_U64
      invariant entries == Entries(records)[..i]
    {
      var end := CheckedAdd(cursor, records[i].bytes);
      if end.None? {
        OffsetGrows(records, i + 1, |records|);
        return None;
      }
      entries := entries + [Entry(records[i], cursor, end.value)];
      cursor := end.value;
    }
    assert entries == Entries(records);
    var json := encode(entries);
    if json == [] || |json| > MAX_HEADER_BYTES { return None; }
    if |Padded(json)| > MAX_HEADER_BYTES { return None; }
    var prefix := PrefixOf(json);
    var placed := PlaceInFile(records, prefix);
    if placed.None? { return None; }
    var fileBytes := CheckedAdd(|prefix|, cursor);
    if fileBytes.None? { return None; }
    return Some(Shard(prefix, placed.value, cursor, fileBytes.value));
  }

  /** The file ranges of the records behind the header. */
  method PlaceInFile(records: seq<Tensor>, prefix: Bytes) returns (r: Option<seq<Placed>>)
    requires records != []
    ensures r == if |prefix| + Offset(records, |records|) <= MAX_U64 then Some(InFile(Entries(records), |prefix|))
      else None
  {
    var entries := Entries(records);
    var placed: seq<Placed> := [];
    for i := 0 to |entries|
      invariant placed == InFile(entries, |prefix|)[..i]
      invariant i > 0 ==> |prefix| + Offset(records, i) <= MAX_U64
    {
      OffsetGrows(records, i, |records|);
      OffsetGrows(records, i + 1, |records|);
      var begin := CheckedAdd(|prefix|, entries[i].begin);
      if begin.None? { return None; }
      var end := CheckedAdd(|prefix|, entries[i].end);
      if end.None? { return None; }
      placed := placed + [Placed(entries[i], begin.value, end.value)];
    }
    assert placed == InFile(entries, |prefix|);
    return Some(placed);
  }

  // ---- The consumers ------------------------------------------------------------------------------------------

  /** The geometry of the length prefix: how many payload bytes the file must hold. */
  function ParsePrefix(prefix: Bytes, fileBytes: int): Option<nat> {
    if |prefix| < 8 || fileBytes < 8 then None
    else
      var header := TypedRoot.ValueOf(prefix[..8]);
      if !(0 < header <= MAX_HEADER_BYTES) then None
      else if |prefix| < 8 + header || fileBytes < 8 + header then None
      else if |prefix| != 8 + header || fileBytes - (8 + header) <= 0 then None
      else Some(fileBytes - (8 + header))
  }

  /** The checks a parsed tensor passes on its own: its range is nonempty and as long as its type and shape say. */
  predicate TensorSemantic(dtype: string, shape: seq<int>, begin: int, end: int) {
    ByteCount(dtype, shape).Some? && 0 <= begin < end <= MAX_U64 && end - begin == ByteCount(dtype, shape).value
  }

  /** The runtime verifier's cursor over the records of one shard, sorted by where they begin in the file. */
  method WalkRecords(records: seq<Placed>, prefixBytes: nat, fileBytes: nat) returns (ok: bool)
    requires forall p :: p in records ==> p.fileBegin < p.fileEnd
    requires prefixBytes <= fileBytes
    ensures ok <==> ExactCover(FileRanges(records), prefixBytes, fileBytes) && WidthsMatch(records)
  {
    hide ExactCover, Tiles, FileRanges, WidthsMatch;
    var ordered := Sort(records, ByFileBegin());
    ghost var ranges := FileRanges(ordered);
    SortedByFileBegin(records);
    FileRangesPermute(ordered, records);
    SortedTilesIffCovered(FileRanges(records), ranges, prefixBytes, fileBytes);
    WidthsPermute(ordered, records);
    var cursor := prefixBytes;
    assert ranges[0..] == ranges && ordered[0..] == ordered;
    for i := 0 to |ordered|
      invariant Tiles(ranges, prefixBytes, fileBytes) <==> Tiles(ranges[i..], cursor, fileBytes)
      invariant WidthsMatch(ordered) <==> WidthsMatch(ordered[i..])
    {
      var p := ordered[i];
      TilesStep(ranges, i, cursor, fileBytes);
      WidthsStep(ordered, i);
      if p.fileBegin != cursor || p.fileEnd - p.fileBegin != p.entry.tensor.bytes { return false; }
      cursor := p.fileEnd;
    }
    WidthsEnd(ordered[|ordered|..]);
    TilesEnd(cursor, fileBytes);
    assert ranges[|ordered|..] == [];
    return cursor == fileBytes;
  }

  function ByFileBegin(): (Placed, Placed) -> bool {
    (a: Placed, b: Placed) => a.fileBegin < b.fileBegin
  }

  lemma SortedByFileBegin(records: seq<Placed>)
    ensures var t := Sort(records, ByFileBegin());
      ByBegin(FileRanges(t)) && forall i :: 0 <= i < |t| ==>
        FileRanges(t)[i].begin == t[i].fileBegin && FileRanges(t)[i].end == t[i].fileEnd
  {
    assert WeakOrder(ByFileBegin());
    SortIsStable(records, ByFileBegin());
    var t := Sort(records, ByFileBegin());
    forall i, j | 0 <= i < j < |t| ensures t[i].fileBegin <= t[j].fileBegin {
      assert !ByFileBegin()(t[j], t[i]);
    }
  }

  lemma WidthsStep(s: seq<Placed>, i: nat)
    requires i < |s|
    ensures WidthsMatch(s[i..]) <==> s[i].fileEnd - s[i].fileBegin == s[i].entry.tensor.bytes && WidthsMatch(s[i + 1..])
  {
    assert s[i..] == [s[i]] + s[i + 1..];
  }

  lemma WidthsEnd(s: seq<Placed>)
    requires s == []
    ensures WidthsMatch(s)
  {
  }

  lemma WidthsPermute(s: seq<Placed>, t: seq<Placed>)
    requires multiset(s) == multiset(t)
    ensures WidthsMatch(s) <==> WidthsMatch(t)
  {
    forall p ensures p in s <==> p in t {
      assert p in multiset(s) <==> p in multiset(t);
    }
  }

  predicate WidthsMatch(records: seq<Placed>) {
    forall p :: p in records ==> p.fileEnd - p.fileBegin == p.entry.tensor.bytes
  }

  function FileRanges(records: seq<Placed>): (r: seq<Range>)
    ensures |r| == |records|
    ensures (forall p :: p in records ==> p.fileBegin < p.fileEnd) ==> Nonempty(r)
  {
    seq(|records|, i requires 0 <= i < |records| =>
      Range(records[i].entry.tensor.name, records[i].fileBegin, records[i].fileEnd))
  }

  function DataRanges(records: seq<Placed>): (r: seq<Range>)
    ensures |r| == |records|
  {
    seq(|records|, i requires 0 <= i < |records| =>
      Range(records[i].entry.tensor.name, records[i].entry.begin, records[i].entry.end))
  }

  // ---- Agreement ----------------------------------------------------------------------------------------------

  /** The ranges of the records from the n-th on, shifted by a base. */
  function RangesFrom(records: seq<Tensor>, n: nat, base: nat): (r: seq<Range>)
    requires n <= |records|
    ensures |r| == |records| - n
  {
    seq(|records| - n, i requires 0 <= i < |records| - n =>
      Range(records[n + i].name, base + Offset(records, n + i), base + Offset(records, n + i + 1)))
  }

  lemma {:induction false} RangesTile(records: seq<Tensor>, n: nat, base: nat)
    requires n <= |records|
    ensures Tiles(RangesFrom(records, n, base), base + Offset(records, n), base + Offset(records, |records|))
    decreases |records| - n
  {
    if n < |records| {
      RangesTile(records, n + 1, base);
      assert RangesFrom(records, n, base)[1..] == RangesFrom(records, n + 1, base);
    }
  }

  lemma RangesAreNonempty(records: seq<Tensor>, base: nat)
    requires forall t :: t in records ==> Admitted(t)
    ensures Nonempty(RangesFrom(records, 0, base))
  {
    forall i | 0 <= i < |records| ensures records[i].bytes > 0 {
      assert records[i] in records;
    }
  }

  lemma CompiledDataRanges(records: seq<Tensor>, begin: nat)
    ensures DataRanges(InFile(Entries(records), begin)) == RangesFrom(records, 0, 0)
  {
  }

  lemma CompiledFileRanges(records: seq<Tensor>, begin: nat)
    ensures FileRanges(InFile(Entries(records), begin)) == RangesFrom(records, 0, begin)
  {
  }

  /** The ranges of every compiled shard cover its payload, in the payload and in the file. */
  lemma LayoutCovers(records: seq<Tensor>, encode: seq<Entry> -> Bytes)
    requires forall t :: t in records ==> Admitted(t)
    ensures var s := Compiled(records, encode);
      && Nonempty(DataRanges(s.placed)) && Nonempty(FileRanges(s.placed))
      && ExactCover(DataRanges(s.placed), 0, s.payloadBytes)
      && ExactCover(FileRanges(s.placed), |s.prefix|, s.fileBytes)
  {
    hide ExactCover, RangesFrom, PrefixOf, DataRanges, FileRanges, InFile, Entries;
    var s := Compiled(records, encode);
    CompiledDataRanges(records, |s.prefix|);
    CompiledFileRanges(records, |s.prefix|);
    RangesAreNonempty(records, 0);
    RangesAreNonempty(records, |s.prefix|);
    RangesTile(records, 0, 0);
    RangesTile(records, 0, |s.prefix|);
    TilesCover(RangesFrom(records, 0, 0), 0, s.payloadBytes);
    TilesCover(RangesFrom(records, 0, |s.prefix|), |s.prefix|, s.fileBytes);
  }

  /** The header parser finds the payload size the layout computed, behind an aligned header. */
  lemma PrefixAgrees(records: seq<Tensor>, encode: seq<Entry> -> Bytes)
    requires Compilable(records, encode) && forall t :: t in records ==> Admitted(t)
    ensures var s := Compiled(records, encode);
      |s.prefix| % 8 == 0 && ParsePrefix(s.prefix, s.fileBytes) == Some(s.payloadBytes)
  {
    hide ByteCount, Padded;
    var padded := Padded(encode(Entries(records)));
    var s := Compiled(records, encode);
    TypedRoot.PowersOfWidths();
    TypedRoot.LittleEndianReadsBack(|padded|, 8);
    assert s.prefix[..8] == TypedRoot.LittleEndian(|padded|, 8);
    assert s.payloadBytes > 0 by {
      assert records[0] in records && records[0].bytes > 0 by { SizeIsPositive(records[0]); }
      OffsetGrows(records, 1, |records|);
      assert Offset(records, 1) == records[0].bytes;
    }
  }

  /** Behind the length stands the encoded header, filled up with spaces. */
  lemma HeaderIsEncoded(records: seq<Tensor>, encode: seq<Entry> -> Bytes)
    ensures var text := Compiled(records, encode).prefix[8..]; var json := encode(Entries(records));
      json <= text && forall i :: |json| <= i < |text| ==> text[i] == 0x20
  {
    hide InFile, Offset;
    var json := encode(Entries(records));
    assert PrefixOf(json)[8..] == Padded(json);
  }

  lemma SizeIsPositive(t: Tensor)
    requires Admitted(t)
    ensures t.bytes > 0
  {
  }

  /** Every placed tensor passes the checks of a parsed tensor. */
  lemma TensorsAgree(records: seq<Tensor>, encode: seq<Entry> -> Bytes, i: nat)
    requires Compilable(records, encode) && (forall t :: t in records ==> Admitted(t)) && i < |records|
    ensures var p := Compiled(records, encode).placed[i];
      && TensorSemantic(p.entry.tensor.dtype, p.entry.tensor.shape, p.entry.begin, p.entry.end)
      && p.fileEnd - p.fileBegin == p.entry.tensor.bytes && p.fileEnd <= MAX_U64
  {
    hide ByteCount, PrefixOf;
    assert records[i] in records;
    SizeIsPositive(records[i]);
    OffsetGrows(records, i + 1, |records|);
  }

  /**
   * Producer and consumers agree: whatever order the tensors of a compiled shard are read back in, the
   * contiguity check accepts them and the runtime walk covers the file.
   */
  lemma ConsumersAccept(records: seq<Tensor>, encode: seq<Entry> -> Bytes, read: seq<Range>, walked: seq<Placed>)
    requires forall t :: t in records ==> Admitted(t)
    requires multiset(read) == multiset(DataRanges(Compiled(records, encode).placed))
    requires multiset(walked) == multiset(Compiled(records, encode).placed)
    ensures var s := Compiled(records, encode);
      && Nonempty(read) && ExactCover(read, 0, s.payloadBytes)
      && (forall p :: p in walked ==> p.fileBegin < p.fileEnd) && WidthsMatch(walked)
      && ExactCover(FileRanges(walked), |s.prefix|, s.fileBytes)
  {
    hide ExactCover, PrefixOf, Nonempty, DataRanges, FileRanges;
    var s := Compiled(records, encode);
    LayoutCovers(records, encode);
    CoverPermutes(read, DataRanges(s.placed), 0, s.payloadBytes);
    forall p | p in walked ensures p.fileBegin < p.fileEnd && p.fileEnd - p.fileBegin == p.entry.tensor.bytes {
      assert p in multiset(walked) && p in s.placed;
      var i :| 0 <= i < |s.placed| && s.placed[i] == p;
      assert records[i] in records;
      SizeIsPositive(records[i]);
    }
    FileRangesPermute(walked, s.placed);
    CoverPermutes(FileRanges(walked), FileRanges(s.placed), |s.prefix|, s.fileBytes);
  }

  lemma {:induction false} FileRangesPermute(a: seq<Placed>, b: seq<Placed>)
    requires multiset(a) == multiset(b)
    ensures multiset(FileRanges(a)) == multiset(FileRanges(b))
  {
    forall r: Range ensures multiset(FileRanges(a))[r] == multiset(FileRanges(b))[r] {
      CountRanges(a, r);
      CountRanges(b, r);
      CountPermutes(a, b, Is(r));
    }
  }

  function Is(r: Range): Placed -> bool {
    (p: Placed) => Range(p.entry.tensor.name, p.fileBegin, p.fileEnd) == r
  }

  lemma {:induction false} CountRanges(a: seq<Placed>, r: Range)
    ensures multiset(FileRanges(a))[r] == Count(a, Is(r))
  {
    if a == [] {
      assert FileRanges(a) == [];
    } else {
      CountRanges(a[1..], r);
      assert FileRanges(a) == [FileRanges(a)[0]] + FileRanges(a[1..]);
    }
  }
}
