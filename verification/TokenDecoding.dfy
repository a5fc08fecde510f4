/** From token ids back to text: whole, and incrementally with incomplete UTF-8 held back. */
module TokenDecoding {
  import opened ByteStrings
  import opened ByteAlphabet
  import Utf8
  import opened Wrappers

  const LIMIT := 8 * 1024 * 1024

  datatype Family = Qwen3 | DeepSeekV4Flash0731 | DeepSeekV41Flash

  /** The tables a tokenizer decodes with: added tokens first, then the vocabulary in the byte alphabet. */
  datatype Tables = Tables(family: Family, added: map<int, Bytes>, spelling: map<int, Bytes>)

  predicate IsStop(t: Tables, id: int) {
    t.family.Qwen3? && (id == 151643 || id == 151645)
  }

  function RawTokenBytes(t: Tables, id: int): Option<Bytes> {
    if id in t.added then Some(t.added[id])
    else if id !in t.spelling then None
    else
      var bytes :- Unspell(t.spelling[id]);
      if |bytes| <= LIMIT then Some(bytes) else None
  }

  /** The bytes of the tokens before the first stop; None for an unmapped token or too much text. */
  function DecodedBytes(t: Tables, ids: seq<int>): Option<Bytes> {
    if ids == [] || IsStop(t, ids[0]) then Some([])
    else
      var bytes :- RawTokenBytes(t, ids[0]);
      var rest :- DecodedBytes(t, ids[1..]);
      if |bytes + rest| <= LIMIT then Some(bytes + rest) else None
  }

  /** What a decoded front makes of the rest. */
  function Behind(front: Bytes, rest: Option<Bytes>): Option<Bytes> {
    var r :- rest;
    if |front + r| <= LIMIT then Some(front + r) else None
  }

  lemma BehindTwice(a: Bytes, b: Bytes, r: Option<Bytes>)
    ensures Behind(a, Behind(b, r)) == Behind(a + b, r)
  {
    if r.Some? {
      Assoc(a, b, r.value);
    }
  }

  method DecodeBytes(t: Tables, ids: seq<int>) returns (r: Option<Bytes>)
    ensures r == DecodedBytes(t, ids)
  {
    var result: Bytes := [];
    assert ids[0..] == ids;
    BehindNothing(DecodedBytes(t, ids), t, ids);
    for i := 0 to |ids|
      invariant |result| <= LIMIT
      invariant DecodedBytes(t, ids) == Behind(result, DecodedBytes(t, ids[i..]))
    {
      assert ids[i..][1..] == ids[i + 1..];
      assert result + [] == result;
      if IsStop(t, ids[i]) {
        return Some(result);
      }
      var bytes := RawTokenBytes(t, ids[i]);
      if bytes.None? {
        return None;
      }
      if |bytes.value| > LIMIT - |result| {
        return None;
      }
      BehindTwice(result, bytes.value, DecodedBytes(t, ids[i + 1..]));
      result := result + bytes.value;
    }
    assert result + [] == result;
    return Some(result);
  }

  lemma BehindNothing(r: Option<Bytes>, t: Tables, ids: seq<int>)
    requires r == DecodedBytes(t, ids)
    ensures Behind([], r) == r
  {
    if r.Some? {
      assert [] + r.value == r.value;
    }
  }

  function Decoded(t: Tables, ids: seq<int>): Option<Bytes> {
    var bytes :- DecodedBytes(t, ids);
    Some(Utf8.Repair(bytes))
  }

  // ---- Incremental decoding -------------------------------------------------------------------------

  /** The start of the last character: the last byte that continues nothing, or the front. */
  function LastStart(s: Bytes): (k: nat)
    requires s != []
    ensures k < |s|
    ensures forall i :: k < i < |s| ==> Utf8.IsContinuation(s[i])
    ensures k == 0 || !Utf8.IsContinuation(s[k])
  {
    if |s| == 1 || !Utf8.IsContinuation(s[|s| - 1]) then |s| - 1 else LastStart(s[..|s| - 1])
  }

  /** How much of the held bytes can be released: everything but an unfinished last character. */
  function Releasable(s: Bytes): (cut: nat)
    ensures cut <= |s| <= cut + 3
  {
    if s == [] then 0
    else
      var k := LastStart(s);
      if |s| - k < Utf8.Announced(s[k]) then k else |s|
  }

  lemma RepairNothing()
    ensures Utf8.Repair([]) == []
  {
  }

  /** Releasing commutes with whatever bytes come later. */
  lemma ReleaseIsSafe(s: Bytes, more: Bytes)
    ensures Utf8.Repair(s + more) == Utf8.Repair(s[..Releasable(s)]) + Utf8.Repair(s[Releasable(s)..] + more)
  {
    hide Utf8.Repair;
    if s == [] {
      assert Utf8.Repair([]) == [] by { RepairNothing(); }
      assert s + more == more && s[0..] == s && s[..0] == s;
    } else {
      var k := LastStart(s);
      var a, b := s[..k], s[k..];
      assert s + more == a + (b + more) && s == a + b;
      if |b| < Utf8.Announced(s[k]) {
        Utf8.RepairSplitsBeforeLead(a, b + more);
      } else {
        assert s[..|s|] == s && s[|s|..] + more == more;
        if Utf8.IsContinuation(s[k]) {
          assert a == [] && s == b;
          Utf8.RepairSplitsAfterClosed(b, more);
        } else {
          Utf8.RepairSplitsBeforeLead(a, b + more);
          Utf8.RepairSplitsAfterFilled(b, more);
          Utf8.RepairSplitsBeforeLead(a, b);
          Assoc(Utf8.Repair(a), Utf8.Repair(b), Utf8.Repair(more));
        }
      }
    }
  }

  /** Steps back over continuation bytes. */
  method FindLastStart(all: Bytes) returns (start: nat)
    requires all != []
    ensures start == LastStart(all)
  {
    start := |all| - 1;
    assert all[..|all|] == all;
    while start > 0 && Utf8.IsContinuation(all[start])
      invariant 0 <= start < |all|
      invariant LastStart(all[..start + 1]) == LastStart(all)
    {
      assert all[..start + 1][..start] == all[..start];
      start := start - 1;
    }
  }

  method DecodeIncremental(t: Tables, ids: seq<int>, pending: Bytes, final: bool)
    returns (text: Option<Bytes>, rest: Bytes)
    ensures text.None? <==> DecodedBytes(t, ids).None?
    ensures text.Some? ==>
      var all := pending + DecodedBytes(t, ids).value;
      var cut := if final then |all| else Releasable(all);
      text.value == Utf8.Repair(all[..cut]) && rest == all[cut..]
  {
    hide Utf8.Repair, DecodedBytes, LastStart;
    var bytes := DecodeBytes(t, ids);
    if bytes.None? {
      return None, pending;
    }
    var all := pending + bytes.value;
    var end := |all|;
    if !final && end != 0 {
      var start := FindLastStart(all);
      var lead := all[start];
      var expected := if 0xC2 <= lead <= 0xDF then 2 else if 0xE0 <= lead <= 0xEF then 3
                      else if 0xF0 <= lead <= 0xF4 then 4 else 1;
      if end - start < expected {
        end := start;
      }
    }
    return Some(Utf8.Repair(all[..end])), all[end..];
  }

  /** A stream of byte groups: released text and held bytes after every group. */
  function Streamed(pending: Bytes, groups: seq<Bytes>): (Bytes, Bytes)
    decreases |groups|
  {
    if groups == [] then ([], pending)
    else
      var all := pending + groups[0];
      var cut := Releasable(all);
      var (text, rest) := Streamed(all[cut..], groups[1..]);
      (Utf8.Repair(all[..cut]) + text, rest)
  }

  /** Whatever was released, the final bytes and the held ones complete the repaired text; at most three are held. */
  lemma {:induction false} StreamedText(pending: Bytes, groups: seq<Bytes>, last: Bytes)
    ensures var (text, rest) := Streamed(pending, groups);
      && text + Utf8.Repair(rest + last) == Utf8.Repair(pending + (Flatten(groups) + last))
      && (groups != [] ==> |rest| <= 3)
    decreases |groups|
  {
    hide Utf8.Repair;
    if groups == [] {
      assert [] + last == last && [] + Utf8.Repair(pending + last) == Utf8.Repair(pending + last);
    } else {
      var all, more := pending + groups[0], Flatten(groups[1..]);
      var cut := Releasable(all);
      Assoc(groups[0], more, last);
      Assoc(pending, groups[0], more + last);
      ReleaseIsSafe(all, more + last);
      StreamedText(all[cut..], groups[1..], last);
      var (text, rest) := Streamed(all[cut..], groups[1..]);
      Assoc(Utf8.Repair(all[..cut]), text, Utf8.Repair(rest + last));
    }
  }

  /** The bytes of every group of tokens; None if some group does not decode. */
  function GroupBytes(t: Tables, groups: seq<seq<int>>): Option<seq<Bytes>> {
    if groups == [] then Some([])
    else
      var first :- DecodedBytes(t, groups[0]);
      var rest :- GroupBytes(t, groups[1..]);
      Some([first] + rest)
  }

  predicate NoStop(t: Tables, ids: seq<int>) {
    forall id :: id in ids ==> !IsStop(t, id)
  }

  lemma {:induction false} DecodedAppend(t: Tables, a: seq<int>, b: seq<int>)
    requires NoStop(t, a)
    ensures DecodedBytes(t, a + b) ==
      if DecodedBytes(t, a).None? then None else Behind(DecodedBytes(t, a).value, DecodedBytes(t, b))
  {
    if a == [] {
      assert a + b == b;
      BehindNothing(DecodedBytes(t, b), t, b);
    } else {
      assert (a + b)[1..] == a[1..] + b && (a + b)[0] == a[0];
      DecodedAppend(t, a[1..], b);
      var bytes, rest := RawTokenBytes(t, a[0]), DecodedBytes(t, a[1..]);
      if bytes.Some? && rest.Some? {
        BehindTwice(bytes.value, rest.value, DecodedBytes(t, b));
      }
    }
  }

  lemma {:induction false} DecodedUpToStop(t: Tables, a: seq<int>, b: seq<int>)
    requires !NoStop(t, a)
    ensures DecodedBytes(t, a + b) == DecodedBytes(t, a)
  {
    assert (a + b)[1..] == a[1..] + b && (a + b)[0] == a[0];
    if !IsStop(t, a[0]) {
      DecodedUpToStop(t, a[1..], b);
    }
  }

  /** No token before the first stop stands for any bytes. */
  predicate Silent(t: Tables, ids: seq<int>) {
    forall k :: 0 <= k < |ids| && NoStop(t, ids[..k + 1]) ==> RawTokenBytes(t, ids[k]) == Some([])
  }

  /** Every group behind a stop is silent. */
  predicate NothingBehindStop(t: Tables, groups: seq<seq<int>>) {
    forall i, j :: 0 <= i < j < |groups| && !NoStop(t, groups[i]) ==> Silent(t, groups[j])
  }

  lemma SilentStep(t: Tables, ids: seq<int>)
    requires ids != [] && !IsStop(t, ids[0])
    ensures Silent(t, ids) <==> RawTokenBytes(t, ids[0]) == Some([]) && Silent(t, ids[1..])
  {
    assert ids[..1] == [ids[0]];
    forall k | 0 < k < |ids| ensures NoStop(t, ids[..k + 1]) <==> NoStop(t, ids[1..][..k]) {
      assert ids[..k + 1] == [ids[0]] + ids[1..][..k];
    }
    if Silent(t, ids) {
      forall k | 0 <= k < |ids| - 1 && NoStop(t, ids[1..][..k + 1]) ensures RawTokenBytes(t, ids[1..][k]) == Some([]) {
        assert NoStop(t, ids[..k + 2]) && ids[1..][k] == ids[k + 1];
      }
    }
  }

  lemma {:induction false} SilentIsEmpty(t: Tables, ids: seq<int>)
    ensures DecodedBytes(t, ids) == Some([]) <==> Silent(t, ids)
  {
    if ids == [] {
    } else if IsStop(t, ids[0]) {
      forall k | 0 <= k < |ids| ensures NoStop(t, ids[..k + 1]) ==> RawTokenBytes(t, ids[k]) == Some([]) {
        assert ids[..k + 1][0] == ids[0];
      }
    } else {
      SilentStep(t, ids);
      SilentIsEmpty(t, ids[1..]);
    }
  }

  /** How many bytes the tokens before the first stop stand for; None when one of them is unmapped. */
  function Size(t: Tables, ids: seq<int>): Option<nat> {
    if ids == [] || IsStop(t, ids[0]) then Some(0)
    else
      var bytes :- RawTokenBytes(t, ids[0]);
      var rest :- Size(t, ids[1..]);
      Some(|bytes| + rest)
  }

  /** The tokens before the first stop are mapped and stand for at most 8 MiB. */
  predicate Fits(t: Tables, ids: seq<int>) {
    Size(t, ids).Some? && Size(t, ids).value <= LIMIT
  }

  /** Tokens are refused exactly when they do not fit. */
  lemma {:induction false} DecodesIffFits(t: Tables, ids: seq<int>)
    ensures DecodedBytes(t, ids).Some? <==> Fits(t, ids)
    ensures Fits(t, ids) ==> |DecodedBytes(t, ids).value| == Size(t, ids).value
  {
    if ids != [] && !IsStop(t, ids[0]) {
      DecodesIffFits(t, ids[1..]);
    }
  }

  /** What decoding group by group gives altogether. */
  function Grouped(t: Tables, groups: seq<seq<int>>): Option<Bytes> {
    var bytes :- GroupBytes(t, groups);
    Some(Flatten(bytes))
  }

  lemma GroupedStep(t: Tables, groups: seq<seq<int>>)
    requires groups != []
    ensures Grouped(t, groups) == match (DecodedBytes(t, groups[0]), Grouped(t, groups[1..]))
      case (Some(first), Some(rest)) => Some(first + rest)
      case _ => None
  {
    hide DecodedBytes;
    var first, rest := DecodedBytes(t, groups[0]), GroupBytes(t, groups[1..]);
    if first.Some? && rest.Some? {
      assert ([first.value] + rest.value)[1..] == rest.value;
    }
  }

  lemma {:induction false} GroupedFits(t: Tables, groups: seq<seq<int>>)
    ensures Grouped(t, groups).None? <==> exists i :: 0 <= i < |groups| && !Fits(t, groups[i])
  {
    hide DecodedBytes, Fits;
    if groups != [] {
      GroupedFits(t, groups[1..]);
      DecodesIffFits(t, groups[0]);
      assert forall i :: 0 <= i < |groups| - 1 ==> groups[1..][i] == groups[i + 1];
      if i :| 0 <= i < |groups| && !Fits(t, groups[i]) {
        assert i == 0 || groups[1..][i - 1] == groups[i];
      }
    }
  }

  /** Groups decode to nothing at all when they are silent. */
  lemma {:induction false} SilentGroups(t: Tables, groups: seq<seq<int>>)
    ensures Grouped(t, groups) == Some([]) <==> forall j :: 0 <= j < |groups| ==> Silent(t, groups[j])
  {
    hide DecodedBytes, Silent;
    if groups != [] {
      hide Grouped;
      GroupedStep(t, groups);
      SilentGroups(t, groups[1..]);
      SilentIsEmpty(t, groups[0]);
      assert forall j :: 0 <= j < |groups| - 1 ==> groups[1..][j] == groups[j + 1];
      assert forall j :: 0 < j < |groups| ==> groups[j] == groups[1..][j - 1];
    }
  }

  lemma NothingBehindStopStep(t: Tables, groups: seq<seq<int>>)
    requires groups != []
    ensures NothingBehindStop(t, groups) <==>
      && NothingBehindStop(t, groups[1..])
      && (NoStop(t, groups[0]) || forall j :: 0 <= j < |groups[1..]| ==> Silent(t, groups[1..][j]))
  {
    hide NoStop, Silent;
    var rest := groups[1..];
    if NothingBehindStop(t, groups) {
      forall i, j | 0 <= i < j < |rest| && !NoStop(t, rest[i]) ensures Silent(t, rest[j]) {
        assert rest[i] == groups[i + 1] && rest[j] == groups[j + 1];
      }
      if !NoStop(t, groups[0]) {
        assert forall j :: 0 <= j < |rest| ==> rest[j] == groups[j + 1];
      }
    } else {
      var i, j :| 0 <= i < j < |groups| && !NoStop(t, groups[i]) && !Silent(t, groups[j]);
      assert groups[j] == rest[j - 1];
      if i != 0 {
        assert groups[i] == rest[i - 1];
      }
    }
  }

  /** When the whole decodes, the groups decode to the same exactly when nothing comes behind a stop. */
  lemma {:induction false} GroupsOfDecoded(t: Tables, groups: seq<seq<int>>)
    requires DecodedBytes(t, Flatten(groups)).Some?
    ensures DecodedBytes(t, Flatten(groups)) == Grouped(t, groups) <==> NothingBehindStop(t, groups)
    decreases |groups|
  {
    hide DecodedBytes, Silent, NoStop, NothingBehindStop;
    if groups == [] {
      NothingToDecode(t);
    } else {
      var later := Flatten(groups[1..]);
      hide Grouped;
      GroupedStep(t, groups);
      NothingBehindStopStep(t, groups);
      if NoStop(t, groups[0]) {
        DecodedAppend(t, groups[0], later);
        GroupsOfDecoded(t, groups[1..]);
        SameFront(DecodedBytes(t, groups[0]).value, DecodedBytes(t, later), Grouped(t, groups[1..]));
      } else {
        DecodedUpToStop(t, groups[0], later);
        SilentGroups(t, groups[1..]);
        var first, rest := DecodedBytes(t, groups[0]).value, Grouped(t, groups[1..]);
        assert rest.Some? ==> (first == first + rest.value <==> rest.value == []);
        if rest == Some([]) {
          QuietGroupsKeep(t, groups[1..]);
        }
      }
    }
  }

  /**
   * Decoding group by group and decoding the whole agree, refusals included, exactly when nothing
   * comes behind a stop, or, if the whole does not fit, when some group does not fit either.
   */
  lemma GroupsDecodeTogether(t: Tables, groups: seq<seq<int>>)
    ensures DecodedBytes(t, Flatten(groups)) == Grouped(t, groups) <==>
      if Fits(t, Flatten(groups)) then NothingBehindStop(t, groups)
      else exists i :: 0 <= i < |groups| && !Fits(t, groups[i])
  {
    hide DecodedBytes, NothingBehindStop, Fits, Grouped;
    DecodesIffFits(t, Flatten(groups));
    if Fits(t, Flatten(groups)) {
      GroupsOfDecoded(t, groups);
    } else {
      GroupedFits(t, groups);
    }
  }

  lemma NothingToDecode(t: Tables)
    ensures DecodedBytes(t, []) == Some([]) == Grouped(t, []) && NothingBehindStop(t, [])
  {
  }

  lemma QuietGroupsKeep(t: Tables, groups: seq<seq<int>>)
    requires forall j :: 0 <= j < |groups| ==> Silent(t, groups[j])
    ensures NothingBehindStop(t, groups)
  {
  }

  lemma SameFront(front: Bytes, a: Option<Bytes>, b: Option<Bytes>)
    requires Behind(front, a).Some?
    ensures a == b <==> b.Some? && Behind(front, a) == Some(front + b.value)
  {
    if b.Some? {
      assert a.value == (front + a.value)[|front|..] && b.value == (front + b.value)[|front|..];
    }
  }

  lemma {:induction false} WholeDecodesGroups(t: Tables, groups: seq<seq<int>>, last: seq<int>)
    requires forall g :: g in groups ==> NoStop(t, g)
    requires DecodedBytes(t, Flatten(groups) + last).Some?
    ensures GroupBytes(t, groups).Some? && DecodedBytes(t, last).Some?
    ensures DecodedBytes(t, Flatten(groups) + last).value ==
      Flatten(GroupBytes(t, groups).value) + DecodedBytes(t, last).value
    decreases |groups|
  {
    if groups == [] {
      assert [] + last == last && [] + DecodedBytes(t, last).value == DecodedBytes(t, last).value;
    } else {
      var later := Flatten(groups[1..]) + last;
      Assoc(groups[0], Flatten(groups[1..]), last);
      DecodedAppend(t, groups[0], later);
      WholeDecodesGroups(t, groups[1..], last);
      var first, rest := DecodedBytes(t, groups[0]).value, GroupBytes(t, groups[1..]).value;
      assert ([first] + rest)[1..] == rest;
      Assoc(first, Flatten(rest), DecodedBytes(t, last).value);
    }
  }

  /**
   * Streaming equals batch: for every token sequence and every grouping whose stops are in the final
   * group, the released texts and the final flush make up exactly the decoded whole, ill-formed bytes
   * included, and at most three bytes are ever held.
   */
  lemma StreamingEqualsBatch(t: Tables, groups: seq<seq<int>>, last: seq<int>)
    requires forall g :: g in groups ==> NoStop(t, g)
    requires DecodedBytes(t, Flatten(groups) + last).Some?
    ensures GroupBytes(t, groups).Some? && DecodedBytes(t, last).Some?
    ensures var (text, rest) := Streamed([], GroupBytes(t, groups).value);
      && Some(text + Utf8.Repair(rest + DecodedBytes(t, last).value)) == Decoded(t, Flatten(groups) + last)
      && |rest| <= 3
  {
    hide Utf8.Repair, DecodedBytes;
    WholeDecodesGroups(t, groups, last);
    var bytes, final := GroupBytes(t, groups).value, DecodedBytes(t, last).value;
    StreamedText([], bytes, final);
    assert [] + (Flatten(bytes) + final) == Flatten(bytes) + final;
  }
}
