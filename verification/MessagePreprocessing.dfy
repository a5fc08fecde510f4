/** Merging user and tool messages into user turns, and putting tool results into the order of their calls. */
module MessagePreprocessing {
  import opened StableSort
  import opened Wrappers

  const MAX_MESSAGES := 128

  /** A JSON value as far as preprocessing looks into it. */
  datatype Json = Null | Text(text: string) | Composite(id: int)

  /** A call of an assistant message: its id and the id of its function, if there is one. */
  datatype CallRef = CallRef(id: Option<Json>, function_: Option<Option<Json>>)

  /** The tool_calls member: missing or a false value, a true value that is no array, or an array. */
  datatype ToolCalls = Falsy | NotArray | Calls(calls: seq<CallRef>)

  predicate Truth(c: ToolCalls) { c.NotArray? || (c.Calls? && c.calls != []) }

  /** A message; no role stands for a missing one or one that is not a string. */
  datatype Message = Message(role: Option<string>, content: Option<Json>, toolCallId: Option<Json>,
                             task: Option<Json>, woEos: Option<Json>, mask: Option<Json>, toolCalls: ToolCalls)

  datatype Block = TextBlock(text: string) | ResultBlock(useId: string, result: Json)

  datatype Turn =
    | User(content: Option<string>, blocks: seq<Block>, task: Option<Json>, woEos: Option<Json>, mask: Option<Json>)
    | Other(message: Message)

  /** A member as a string: missing and null are empty, anything else but a string throws. */
  function AsString(value: Option<Json>): Option<string> {
    match value
    case None => Some("")
    case Some(Null) => Some("")
    case Some(Text(s)) => Some(s)
    case Some(Composite(_)) => None
  }

  predicate Merges(m: Message) { m.role == Some("user") || m.role == Some("tool") }

  predicate NoTask(task: Option<Json>) { task == None || task == Some(Null) }

  /** The block of a user or tool message. */
  function BlockOf(m: Message): Option<Block>
    requires Merges(m)
  {
    if m.role == Some("tool") then
      match AsString(m.toolCallId)
      case None => None
      case Some(id) => Some(ResultBlock(id, if m.content.Some? then m.content.value else Text("")))
    else
      match AsString(m.content)
      case None => None
      case Some(s) => Some(TextBlock(s))
  }

  // ---- Merging ----------------------------------------------------------------------------------------------

  predicate Joins(turns: seq<Turn>, m: Message) {
    turns != [] && turns[|turns| - 1].User? && (m.role == Some("tool") || NoTask(turns[|turns| - 1].task))
  }

  function NewTurn(m: Message, block: Block): Turn {
    if block.TextBlock? then User(Some(block.text), [block], m.task, m.woEos, m.mask)
    else User(None, [block], None, None, None)
  }

  function Absorb(turns: seq<Turn>, m: Message): Option<seq<Turn>> {
    if m.role == None then None
    else if !Merges(m) then Some(turns + [Other(m)])
    else
      match BlockOf(m)
      case None => None
      case Some(block) =>
        if Joins(turns, m) then
          var n := |turns| - 1;
          Some(turns[..n] + [turns[n].(blocks := turns[n].blocks + [block])])
        else Some(turns + [NewTurn(m, block)])
  }

  function Merged(messages: seq<Message>): Option<seq<Turn>> {
    if messages == [] then Some([])
    else
      match Merged(messages[..|messages| - 1])
      case None => None
      case Some(turns) => Absorb(turns, messages[|messages| - 1])
  }

  /** Once merging has thrown it stays thrown. */
  lemma {:induction false} MergedStops(messages: seq<Message>, n: nat)
    requires n <= |messages| && Merged(messages[..n]).None?
    ensures Merged(messages).None?
  {
    if n < |messages| {
      var last := |messages| - 1;
      assert messages[..last][..n] == messages[..n];
      MergedStops(messages[..last], n);
    } else {
      assert messages[..n] == messages;
    }
  }

  method Merge(messages: seq<Message>) returns (r: Option<seq<Turn>>)
    ensures r == Merged(messages)
  {
    hide Absorb;
    var merged: seq<Turn> := [];
    for n := 0 to |messages|
      invariant Merged(messages[..n]) == Some(merged)
    {
      assert messages[..n + 1][..n] == messages[..n];
      var next := AbsorbInto(merged, messages[n]);
      if next.None? {
        MergedStops(messages, n + 1);
        return None;
      }
      merged := next.value;
    }
    assert messages[..|messages|] == messages;
    return Some(merged);
  }

  /** One pass of the merging loop. */
  method AbsorbInto(turns: seq<Turn>, m: Message) returns (r: Option<seq<Turn>>)
    ensures r == Absorb(turns, m)
  {
    if m.role.None? { return None; }
    if m.role.value != "tool" && m.role.value != "user" { return Some(turns + [Other(m)]); }
    var block := BlockOf(m);
    if block.None? { return None; }
    if turns != [] && turns[|turns| - 1].User? && (m.role.value == "tool" || NoTask(turns[|turns| - 1].task)) {
      var back := turns[|turns| - 1];
      return Some(turns[..|turns| - 1] + [back.(blocks := back.blocks + [block.value])]);
    }
    var next := User(None, [block.value], None, None, None);
    if m.role.value == "user" {
      next := User(AsString(m.content), [block.value], m.task, m.woEos, m.mask);
    }
    return Some(turns + [next]);
  }

  /** What a conversation says, block by block and message by message. */
  datatype Item = Said(block: Block) | Kept(message: Message)

  function ItemsOfBlocks(blocks: seq<Block>): seq<Item> {
    seq(|blocks|, i requires 0 <= i < |blocks| => Said(blocks[i]))
  }

  function ItemsOf(turn: Turn): seq<Item> {
    if turn.User? then ItemsOfBlocks(turn.blocks) else [Kept(turn.message)]
  }

  function Items(turns: seq<Turn>): seq<Item> {
    if turns == [] then [] else Items(turns[..|turns| - 1]) + ItemsOf(turns[|turns| - 1])
  }

  function ItemOf(m: Message): Item {
    if !Merges(m) then Kept(m)
    else
      match BlockOf(m)
      case None => Kept(m)
      case Some(block) => Said(block)
  }

  lemma ItemsPlus(front: seq<Turn>, last: Turn)
    ensures Items(front + [last]) == Items(front) + ItemsOf(last)
  {
    assert (front + [last])[..|front|] == front;
  }

  lemma BlockAdded(turn: Turn, block: Block)
    requires turn.User?
    ensures ItemsOf(turn.(blocks := turn.blocks + [block])) == ItemsOf(turn) + [Said(block)]
  {
  }

  lemma AbsorbConserves(turns: seq<Turn>, m: Message)
    requires Absorb(turns, m).Some?
    ensures Items(Absorb(turns, m).value) == Items(turns) + [ItemOf(m)]
  {
    hide Items;
    if Merges(m) && Joins(turns, m) {
      var block := BlockOf(m).value;
      var front, back := turns[..|turns| - 1], turns[|turns| - 1];
      assert turns == front + [back];
      ItemsPlus(front, back);
      ItemsPlus(front, back.(blocks := back.blocks + [block]));
      BlockAdded(back, block);
      assert Items(front) + (ItemsOf(back) + [Said(block)]) == (Items(front) + ItemsOf(back)) + [Said(block)];
    } else {
      var last := if Merges(m) then NewTurn(m, BlockOf(m).value) else Other(m);
      ItemsPlus(turns, last);
      assert ItemsOf(last) == [ItemOf(m)];
    }
  }

  /** Conservation: merging keeps one item per source message, in source order, and drops or invents nothing. */
  lemma {:induction false} MergingConserves(messages: seq<Message>)
    requires Merged(messages).Some?
    ensures Items(Merged(messages).value) == seq(|messages|, i requires 0 <= i < |messages| => ItemOf(messages[i]))
  {
    hide Absorb, Items, ItemOf;
    if messages == [] {
      NothingSaid();
    } else {
      var n := |messages| - 1;
      var front := messages[..n];
      MergingConserves(front);
      AbsorbConserves(Merged(front).value, messages[n]);
      assert seq(|messages|, i requires 0 <= i < |messages| => ItemOf(messages[i]))
          == seq(|front|, i requires 0 <= i < |front| => ItemOf(front[i])) + [ItemOf(messages[n])];
    }
  }

  lemma NothingSaid()
    ensures Items([]) == []
  {
  }

  /** A user turn has blocks, and its content is the text it began with, if it began with one. */
  predicate TurnSound(t: Turn) {
    t.User? ==>
      && t.blocks != []
      && (t.blocks[0].TextBlock? ==> t.content == Some(t.blocks[0].text))
      && (t.blocks[0].ResultBlock? ==> t.content == None && t.task == None)
  }

  /** Two user turns stand side by side only where a text message followed a turn with a task. */
  predicate PairSound(s: Turn, t: Turn) {
    s.User? && t.User? ==> !NoTask(s.task) && t.blocks != [] && t.blocks[0].TextBlock?
  }

  predicate TurnsSound(turns: seq<Turn>) {
    && (forall i :: 0 <= i < |turns| ==> TurnSound(turns[i]))
    && (forall i :: 0 <= i < |turns| - 1 ==> PairSound(turns[i], turns[i + 1]))
  }

  lemma AbsorbKeepsSound(turns: seq<Turn>, m: Message)
    requires TurnsSound(turns) && Absorb(turns, m).Some?
    ensures TurnsSound(Absorb(turns, m).value)
  {
    var after := Absorb(turns, m).value;
    var n := |turns| - 1;
    forall i | 0 <= i < |after| - 1 ensures PairSound(after[i], after[i + 1]) {
      if i < n {
        assert PairSound(turns[i], turns[i + 1]);
      }
    }
  }

  /** Merging is as thorough as task members allow. */
  lemma {:induction false} MergingIsThorough(messages: seq<Message>)
    requires Merged(messages).Some?
    ensures TurnsSound(Merged(messages).value)
  {
    hide Absorb;
    if messages != [] {
      var n := |messages| - 1;
      MergingIsThorough(messages[..n]);
      AbsorbKeepsSound(Merged(messages[..n]).value, messages[n]);
    }
  }

  // ---- The order of tool results -----------------------------------------------------------------------------

  /** The id under which a call is filed; empty for none. */
  function CallId(call: CallRef): Option<string> {
    match AsString(call.id)
    case None => None
    case Some(id) => if id == "" && call.function_.Some? then AsString(call.function_.value) else Some(id)
  }

  function OrderOf(calls: seq<CallRef>): Option<map<string, nat>> {
    if calls == [] then Some(map[])
    else
      var n := |calls| - 1;
      match (OrderOf(calls[..n]), CallId(calls[n]))
      case (Some(order), Some(id)) => Some(if id == "" then order else order[id := n])
      case _ => None
  }

  lemma {:induction false} OrderStops(calls: seq<CallRef>, n: nat)
    requires n <= |calls| && OrderOf(calls[..n]).None?
    ensures OrderOf(calls).None?
  {
    if n < |calls| {
      var last := |calls| - 1;
      assert calls[..last][..n] == calls[..n];
      OrderStops(calls[..last], n);
    } else {
      assert calls[..n] == calls;
    }
  }

  /** The order files every id under the last call that carries it. */
  lemma {:induction false} OrderIsLastIndex(calls: seq<CallRef>, id: string)
    requires OrderOf(calls).Some?
    ensures id in OrderOf(calls).value <==> id != "" && exists i :: 0 <= i < |calls| && CallId(calls[i]) == Some(id)
    ensures id in OrderOf(calls).value ==> var n := OrderOf(calls).value[id];
      n < |calls| && CallId(calls[n]) == Some(id) && forall i :: n < i < |calls| ==> CallId(calls[i]) != Some(id)
  {
    if calls != [] {
      var n := |calls| - 1;
      OrderIsLastIndex(calls[..n], id);
      assert forall i :: 0 <= i < n ==> calls[..n][i] == calls[i];
    }
  }

  method BuildOrder(calls: seq<CallRef>) returns (r: Option<map<string, nat>>)
    ensures r == OrderOf(calls)
  {
    var order: map<string, nat> := map[];
    for index := 0 to |calls|
      invariant OrderOf(calls[..index]) == Some(order)
    {
      assert calls[..index + 1][..index] == calls[..index];
      var id := AsString(calls[index].id);
      if id == Some("") && calls[index].function_.Some? {
        id := AsString(calls[index].function_.value);
      }
      if id.None? {
        OrderStops(calls, index + 1);
        return None;
      }
      if id.value != "" {
        order := order[id.value := index];
      }
    }
    assert calls[..|calls|] == calls;
    return Some(order);
  }

  function Rank(order: map<string, nat>, b: Block): nat {
    if b.ResultBlock? && b.useId in order then order[b.useId] else 0
  }

  function ByRank(order: map<string, nat>): (Block, Block) -> bool {
    (a, b) => Rank(order, a) < Rank(order, b)
  }

  lemma ByRankIsOrder(order: map<string, nat>)
    ensures WeakOrder(ByRank(order))
  {
  }

  function Results(blocks: seq<Block>): seq<Block> {
    if blocks == [] then [] else (if blocks[0].ResultBlock? then [blocks[0]] else []) + Results(blocks[1..])
  }

  function Texts(blocks: seq<Block>): seq<Block> {
    if blocks == [] then [] else (if blocks[0].TextBlock? then [blocks[0]] else []) + Texts(blocks[1..])
  }

  lemma {:induction false} ResultsAreResults(blocks: seq<Block>)
    ensures forall b :: b in Results(blocks) <==> b in blocks && b.ResultBlock?
  {
    if blocks != [] {
      ResultsAreResults(blocks[1..]);
      assert blocks == [blocks[0]] + blocks[1..];
    }
  }

  /** Puts results back where results stood. */
  function PutBack(blocks: seq<Block>, results: seq<Block>): (r: seq<Block>)
    requires |results| == |Results(blocks)|
    ensures |r| == |blocks|
  {
    if blocks == [] then []
    else if blocks[0].ResultBlock? then [results[0]] + PutBack(blocks[1..], results[1..])
    else [blocks[0]] + PutBack(blocks[1..], results)
  }

  function Reordered(blocks: seq<Block>, order: map<string, nat>): seq<Block> {
    PutBack(blocks, Sort(Results(blocks), ByRank(order)))
  }

  lemma {:induction false} PutBackKeepsPlaces(blocks: seq<Block>, results: seq<Block>)
    requires |results| == |Results(blocks)| && forall b :: b in results ==> b.ResultBlock?
    ensures var r := PutBack(blocks, results);
      && (forall i :: 0 <= i < |blocks| ==> (r[i].TextBlock? <==> blocks[i].TextBlock?))
      && (forall i :: 0 <= i < |blocks| && blocks[i].TextBlock? ==> r[i] == blocks[i])
  {
    if blocks != [] {
      var tail := blocks[1..];
      var rest := if blocks[0].ResultBlock? then results[1..] else results;
      PutBackKeepsPlaces(tail, rest);
      assert blocks[0].ResultBlock? ==> results[0] in results;
      var r := PutBack(blocks, results);
      assert forall i :: 1 <= i < |blocks| ==> r[i] == PutBack(tail, rest)[i - 1] && blocks[i] == tail[i - 1];
    }
  }

  lemma {:induction false} PutBackKeepsParts(blocks: seq<Block>, results: seq<Block>)
    requires |results| == |Results(blocks)| && forall b :: b in results ==> b.ResultBlock?
    ensures Results(PutBack(blocks, results)) == results && Texts(PutBack(blocks, results)) == Texts(blocks)
  {
    if blocks != [] {
      var tail := blocks[1..];
      var rest := if blocks[0].ResultBlock? then results[1..] else results;
      PutBackKeepsParts(tail, rest);
      assert PutBack(blocks, results)[1..] == PutBack(tail, rest);
      if blocks[0].ResultBlock? {
        assert results == [results[0]] + rest;
        assert results[0] in results;
      }
    }
  }

  lemma {:induction false} BlocksAreTextsAndResults(blocks: seq<Block>)
    ensures multiset(blocks) == multiset(Texts(blocks)) + multiset(Results(blocks))
  {
    if blocks != [] {
      BlocksAreTextsAndResults(blocks[1..]);
      assert blocks == [blocks[0]] + blocks[1..];
    }
  }

  /**
   * The tool-result pass: every text block keeps its place, results stay where results stood, they are
   * permuted into the order of the calls, and results of the same rank keep their order.
   */
  lemma ReorderingIsStable(blocks: seq<Block>, order: map<string, nat>)
    ensures var r := Reordered(blocks, order);
      && |r| == |blocks| && multiset(r) == multiset(blocks)
      && (forall i :: 0 <= i < |blocks| ==> (r[i].TextBlock? <==> blocks[i].TextBlock?))
      && (forall i :: 0 <= i < |blocks| && blocks[i].TextBlock? ==> r[i] == blocks[i])
      && Ordered(Results(r), ByRank(order))
      && forall b :: Class(Results(r), ByRank(order), b) == Class(Results(blocks), ByRank(order), b)
  {
    hide ByRank, Rank, Sort, PutBack, Results, Texts, Ordered;
    var results := Sort(Results(blocks), ByRank(order));
    ResultsAreResults(blocks);
    forall b | b in results ensures b in Results(blocks) {
      assert b in multiset(results);
    }
    PutBackKeepsPlaces(blocks, results);
    PutBackKeepsParts(blocks, results);
    ByRankIsOrder(order);
    SortIsStable(Results(blocks), ByRank(order));
    BlocksAreTextsAndResults(blocks);
    BlocksAreTextsAndResults(Reordered(blocks, order));
  }

  /** Whatever stable algorithm sorts the results, the blocks come out the same. */
  lemma AnyStableSortAgrees(blocks: seq<Block>, order: map<string, nat>, sorted: seq<Block>)
    requires Ordered(sorted, ByRank(order))
    requires forall b :: Class(sorted, ByRank(order), b) == Class(Results(blocks), ByRank(order), b)
    ensures |sorted| == |Results(blocks)| && PutBack(blocks, sorted) == Reordered(blocks, order)
  {
    hide ByRank, Ordered, Class;
    ByRankIsOrder(order);
    SortIsStable(Results(blocks), ByRank(order));
    StableOrderIsUnique(sorted, Sort(Results(blocks), ByRank(order)), ByRank(order));
  }

  lemma ResultsStep(blocks: seq<Block>, i: nat)
    requires i < |blocks|
    ensures Results(blocks[i..]) ==
      if blocks[i].ResultBlock? then [blocks[i]] + Results(blocks[i + 1..]) else Results(blocks[i + 1..])
  {
    assert blocks[i..][1..] == blocks[i + 1..];
  }

  method CollectResults(blocks: seq<Block>) returns (results: seq<Block>)
    ensures results == Results(blocks)
  {
    hide Results;
    results := [];
    assert blocks[0..] == blocks;
    for i := 0 to |blocks|
      invariant results + Results(blocks[i..]) == Results(blocks)
    {
      ResultsStep(blocks, i);
      if blocks[i].ResultBlock? {
        Regroup(results, blocks[i], Results(blocks[i + 1..]));
        results := results + [blocks[i]];
      }
    }
    NoResults();
    assert blocks[|blocks|..] == [] && results + [] == results;
  }

  lemma NoResults()
    ensures Results([]) == [] && PutBack([], []) == []
  {
  }

  /** Collects the results, sorts them and writes them back in place. */
  method Reorder(blocks: seq<Block>, order: map<string, nat>) returns (r: seq<Block>)
    ensures r == Reordered(blocks, order)
  {
    hide PutBack, Sort, ByRank, Results;
    var results := CollectResults(blocks);
    results := Sort(results, ByRank(order));
    r := PutInPlace(blocks, results);
  }

  lemma PutBackStep(blocks: seq<Block>, i: nat, results: seq<Block>, index: nat)
    requires i < |blocks| && index <= |results| && |results[index..]| == |Results(blocks[i..])|
    ensures blocks[i].ResultBlock? ==> index < |results| && |results[index + 1..]| == |Results(blocks[i + 1..])|
    ensures blocks[i].ResultBlock? ==>
      PutBack(blocks[i..], results[index..]) == [results[index]] + PutBack(blocks[i + 1..], results[index + 1..])
    ensures blocks[i].TextBlock? ==> |results[index..]| == |Results(blocks[i + 1..])|
    ensures blocks[i].TextBlock? ==>
      PutBack(blocks[i..], results[index..]) == [blocks[i]] + PutBack(blocks[i + 1..], results[index..])
  {
    assert blocks[i..][1..] == blocks[i + 1..];
    assert blocks[i].ResultBlock? ==> results[index..][1..] == results[index + 1..];
  }

  method PutInPlace(blocks: seq<Block>, results: seq<Block>) returns (r: seq<Block>)
    requires |results| == |Results(blocks)|
    ensures r == PutBack(blocks, results)
  {
    hide Results, PutBack;
    r := blocks;
    var index := 0;
    assert blocks[0..] == blocks && results[0..] == results;
    for i := 0 to |blocks|
      invariant |r| == |blocks| && r[i..] == blocks[i..]
      invariant index <= |results| && |results[index..]| == |Results(blocks[i..])|
      invariant r[..i] + PutBack(blocks[i..], results[index..]) == PutBack(blocks, results)
    {
      PutBackStep(blocks, i, results, index);
      assert r[i] == r[i..][0] == blocks[i];
      ghost var done := r[..i];
      if r[i].ResultBlock? {
        Regroup(done, results[index], PutBack(blocks[i + 1..], results[index + 1..]));
        r := r[i := results[index]];
        index := index + 1;
      } else {
        Regroup(done, blocks[i], PutBack(blocks[i + 1..], results[index..]));
      }
      assert r[..i + 1] == done + [r[i]];
    }
    NoResults();
    assert blocks[|blocks|..] == [] && results[index..] == [] && r[..|blocks|] == r && r + [] == r;
  }

  lemma Regroup<T>(a: seq<T>, x: T, b: seq<T>)
    ensures a + ([x] + b) == (a + [x]) + b
  {
  }

  // ---- The second pass ---------------------------------------------------------------------------------------

  predicate HasCalls(t: Turn) { t.Other? && t.message.role == Some("assistant") && Truth(t.message.toolCalls) }

  /** The order an assistant message with calls leaves behind. */
  function CallOrder(t: Turn): Option<map<string, nat>>
    requires HasCalls(t)
  {
    match t.message.toolCalls
    case Calls(calls) => OrderOf(calls)
    case NotArray => None
  }

  function Settled(t: Turn, order: map<string, nat>): Turn {
    if t.User? && order != map[] then t.(blocks := Reordered(t.blocks, order)) else t
  }

  datatype Pass = Pass(turns: seq<Turn>, order: map<string, nat>)

  function ArrangeOne(p: Pass, t: Turn): Option<Pass> {
    if !HasCalls(t) then Some(Pass(p.turns + [Settled(t, p.order)], p.order))
    else
      match CallOrder(t)
      case None => None
      case Some(order) => Some(Pass(p.turns + [t], order))
  }

  function Arranged(turns: seq<Turn>): Option<Pass> {
    if turns == [] then Some(Pass([], map[]))
    else
      match Arranged(turns[..|turns| - 1])
      case None => None
      case Some(p) => ArrangeOne(p, turns[|turns| - 1])
  }

  lemma {:induction false} ArrangedStops(turns: seq<Turn>, n: nat)
    requires n <= |turns| && Arranged(turns[..n]).None?
    ensures Arranged(turns).None?
  {
    if n < |turns| {
      var last := |turns| - 1;
      assert turns[..last][..n] == turns[..n];
      ArrangedStops(turns[..last], n);
    } else {
      assert turns[..n] == turns;
    }
  }

  method Arrange(turns: seq<Turn>) returns (r: Option<seq<Turn>>)
    ensures r == if Arranged(turns).Some? then Some(Arranged(turns).value.turns) else None
  {
    hide Reordered, OrderOf;
    var merged := turns;
    var order: map<string, nat> := map[];
    for n := 0 to |turns|
      invariant |merged| == |turns| && merged[n..] == turns[n..]
      invariant Arranged(turns[..n]) == Some(Pass(merged[..n], order))
    {
      var message := merged[n];
      ghost var front, back := merged[..n], merged[n + 1..];
      assert message == merged[n..][0] == turns[n] && back == merged[n..][1..] == turns[n + 1..];
      assert turns[..n + 1][..n] == turns[..n];
      if message.Other? && message.message.role == Some("assistant") && Truth(message.message.toolCalls) {
        if message.message.toolCalls.NotArray? {
          ArrangedStops(turns, n + 1);
          return None;
        }
        var next := BuildOrder(message.message.toolCalls.calls);
        if next.None? {
          ArrangedStops(turns, n + 1);
          return None;
        }
        order := next.value;
      } else if message.User? && order != map[] {
        var blocks := Reorder(message.blocks, order);
        merged := merged[n := message.(blocks := blocks)];
      }
      assert merged[n + 1..] == back && merged[..n + 1] == front + [merged[n]];
    }
    assert turns[..|turns|] == turns && merged[..|turns|] == merged;
    return Some(merged);
  }

  /** The order in force after a turn. */
  function NextOrder(t: Turn, order: map<string, nat>): map<string, nat> {
    if !HasCalls(t) then order else if CallOrder(t).Some? then CallOrder(t).value else map[]
  }

  /** The order in force before turn n: that of the latest assistant message with calls. */
  function LatestOrder(turns: seq<Turn>, n: nat): map<string, nat>
    requires n <= |turns|
  {
    if n == 0 then map[] else NextOrder(turns[n - 1], LatestOrder(turns, n - 1))
  }

  lemma {:induction false} LatestOrderOfPrefix(turns: seq<Turn>, m: nat, n: nat)
    requires n <= m <= |turns|
    ensures LatestOrder(turns[..m], n) == LatestOrder(turns, n)
  {
    if n > 0 {
      LatestOrderOfPrefix(turns, m, n - 1);
    }
  }

  lemma ArrangeOneIs(p: Pass, t: Turn)
    requires ArrangeOne(p, t).Some?
    ensures ArrangeOne(p, t).value == Pass(p.turns + [Settled(t, p.order)], NextOrder(t, p.order))
  {
    hide Reordered, OrderOf;
  }

  /** The second pass touches nothing but the blocks of user turns, each by the order of the latest calls before it. */
  lemma {:induction false} ArrangingIsLocal(turns: seq<Turn>)
    requires Arranged(turns).Some?
    ensures var p := Arranged(turns).value;
      && |p.turns| == |turns| && p.order == LatestOrder(turns, |turns|)
      && forall i :: 0 <= i < |turns| ==> p.turns[i] == Settled(turns[i], LatestOrder(turns, i))
  {
    hide Settled, ArrangeOne, NextOrder;
    if turns != [] {
      var n := |turns| - 1;
      var p := Arranged(turns[..n]).value;
      ArrangingIsLocal(turns[..n]);
      ArrangeOneIs(p, turns[n]);
      LatestOrderOfPrefix(turns, n, n);
      forall i | 0 <= i < n ensures LatestOrder(turns[..n], i) == LatestOrder(turns, i) {
        LatestOrderOfPrefix(turns, n, i);
      }
    }
  }

  // ---- Both passes ------------------------------------------------------------------------------------------

  function Preprocessed(messages: seq<Message>): Option<seq<Turn>> {
    if messages == [] || |messages| > MAX_MESSAGES then None
    else
      match Merged(messages)
      case None => None
      case Some(turns) =>
        match Arranged(turns)
        case None => None
        case Some(p) => Some(p.turns)
  }

  method Preprocess(messages: seq<Message>) returns (r: Option<seq<Turn>>)
    ensures r == Preprocessed(messages)
  {
    hide Merged, Arranged;
    if messages == [] || |messages| > MAX_MESSAGES { return None; }
    var merged := Merge(messages);
    if merged.None? { return None; }
    r := Arrange(merged.value);
  }

  lemma SettlingConserves(t: Turn, order: map<string, nat>)
    ensures multiset(ItemsOf(Settled(t, order))) == multiset(ItemsOf(t))
  {
    hide Reordered;
    if t.User? {
      ReorderingIsStable(t.blocks, order);
      SaidConserves(t.blocks, Reordered(t.blocks, order));
    }
  }

  lemma {:induction false} CountSaid(blocks: seq<Block>, item: Item)
    ensures multiset(ItemsOfBlocks(blocks))[item] == if item.Said? then multiset(blocks)[item.block] else 0
  {
    if blocks == [] {
      assert ItemsOfBlocks(blocks) == [];
    } else {
      CountSaid(blocks[1..], item);
      assert blocks == [blocks[0]] + blocks[1..];
      assert ItemsOfBlocks(blocks) == [Said(blocks[0])] + ItemsOfBlocks(blocks[1..]);
    }
  }

  lemma SaidConserves(a: seq<Block>, b: seq<Block>)
    requires multiset(a) == multiset(b)
    ensures multiset(ItemsOfBlocks(a)) == multiset(ItemsOfBlocks(b))
  {
    forall item ensures multiset(ItemsOfBlocks(a))[item] == multiset(ItemsOfBlocks(b))[item] {
      CountSaid(a, item);
      CountSaid(b, item);
    }
  }

  lemma {:induction false} TurnsConserve(before: seq<Turn>, after: seq<Turn>)
    requires |before| == |after|
    requires forall i :: 0 <= i < |before| ==> multiset(ItemsOf(after[i])) == multiset(ItemsOf(before[i]))
    ensures multiset(Items(after)) == multiset(Items(before))
  {
    hide ItemsOf;
    if before != [] {
      var n := |before| - 1;
      TurnsConserve(before[..n], after[..n]);
    }
  }

  /** Preprocessing loses nothing and adds nothing: its items are those of the source messages. */
  lemma PreprocessingConserves(messages: seq<Message>)
    requires Preprocessed(messages).Some?
    ensures multiset(Items(Preprocessed(messages).value))
         == multiset(seq(|messages|, i requires 0 <= i < |messages| => ItemOf(messages[i])))
  {
    hide Merged, Arranged, Items, ItemsOf, ItemOf, Settled;
    var merged := Merged(messages).value;
    var turns := Preprocessed(messages).value;
    MergingConserves(messages);
    ArrangingIsLocal(merged);
    forall i | 0 <= i < |merged| ensures multiset(ItemsOf(turns[i])) == multiset(ItemsOf(merged[i])) {
      SettlingConserves(merged[i], LatestOrder(merged, i));
    }
    TurnsConserve(merged, turns);
  }
}
