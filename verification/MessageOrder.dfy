/** What preprocessing tells, message by message, and the order of tool results, in terms of the messages alone. */
module MessageOrder {
  import opened StableSort
  import opened MessagePreprocessing
  import opened Wrappers

  // ---- What a message tells --------------------------------------------------------------------------------

  /** The member is the string; a missing or null member is the empty one. */
  predicate Reads(value: Option<Json>, s: string) {
    value == Some(Text(s)) || (s == "" && (value == None || value == Some(Null)))
  }

  /** The item a message becomes: its text, its result under the id of its call, or the message itself. */
  predicate Tells(m: Message, item: Item) {
    match item
    case Kept(message) => message == m && m.role != Some("user") && m.role != Some("tool")
    case Said(TextBlock(text)) => m.role == Some("user") && Reads(m.content, text)
    case Said(ResultBlock(id, result)) =>
      && m.role == Some("tool") && Reads(m.toolCallId, id)
      && (m.content == Some(result) || (m.content == None && result == Text("")))
  }

  /** A message that throws: no role, or a text or an id that is neither a string nor null nor missing. */
  predicate Throws(m: Message) {
    || m.role == None
    || (m.role == Some("user") && m.content.Some? && m.content.value.Composite?)
    || (m.role == Some("tool") && m.toolCallId.Some? && m.toolCallId.value.Composite?)
  }

  lemma ItemIsTold(m: Message)
    requires !Throws(m)
    ensures Tells(m, ItemOf(m))
  {
  }

  lemma AbsorbThrows(turns: seq<Turn>, m: Message)
    ensures Absorb(turns, m).None? <==> Throws(m)
  {
  }

  /** Merging throws exactly when some message does; otherwise it tells every message, one item each, in order. */
  lemma {:induction false} MergingTells(messages: seq<Message>)
    ensures Merged(messages).None? <==> exists i :: 0 <= i < |messages| && Throws(messages[i])
    ensures Merged(messages).Some? ==>
      var items := Items(Merged(messages).value);
      |items| == |messages| && forall i :: 0 <= i < |messages| ==> Tells(messages[i], items[i])
  {
    hide Absorb, Items, ItemOf, Throws, Tells;
    if messages != [] {
      var n := |messages| - 1;
      var front := messages[..n];
      MergingTells(front);
      if Merged(front).Some? {
        AbsorbThrows(Merged(front).value, messages[n]);
      }
      assert forall i :: 0 <= i < n ==> front[i] == messages[i];
    }
    if Merged(messages).Some? {
      MergingConserves(messages);
      forall i | 0 <= i < |messages| ensures Tells(messages[i], ItemOf(messages[i])) {
        ItemIsTold(messages[i]);
      }
    }
  }

  /** A call whose id is neither a string nor null nor missing, or whose function has such an id where it counts. */
  predicate BadId(call: CallRef) {
    || (call.id.Some? && call.id.value.Composite?)
    || (Reads(call.id, "") && call.function_.Some? &&
        call.function_.value.Some? && call.function_.value.value.Composite?)
  }

  /** An assistant message whose calls are no array, or have such an id. */
  predicate BadCalls(m: Message) {
    && m.role == Some("assistant")
    && (m.toolCalls.NotArray? ||
        (m.toolCalls.Calls? && exists i :: 0 <= i < |m.toolCalls.calls| && BadId(m.toolCalls.calls[i])))
  }

  lemma {:induction false} OrderThrows(calls: seq<CallRef>)
    ensures OrderOf(calls).None? <==> exists i :: 0 <= i < |calls| && BadId(calls[i])
  {
    if calls != [] {
      var n := |calls| - 1;
      OrderThrows(calls[..n]);
      assert forall i :: 0 <= i < n ==> calls[..n][i] == calls[i];
    }
  }

  lemma ArrangeOneThrows(p: Pass, t: Turn)
    ensures ArrangeOne(p, t).None? <==> t.Other? && BadCalls(t.message)
  {
    hide OrderOf, Reordered, BadId;
    if t.Other? && t.message.toolCalls.Calls? {
      OrderThrows(t.message.toolCalls.calls);
    }
  }

  lemma {:induction false} ArrangingThrows(turns: seq<Turn>)
    ensures Arranged(turns).None? <==> exists n :: 0 <= n < |turns| && turns[n].Other? && BadCalls(turns[n].message)
  {
    hide ArrangeOne, BadCalls;
    if turns != [] {
      var n := |turns| - 1;
      ArrangingThrows(turns[..n]);
      assert forall i :: 0 <= i < n ==> turns[..n][i] == turns[i];
      if Arranged(turns[..n]).Some? {
        ArrangeOneThrows(Arranged(turns[..n]).value, turns[n]);
      }
    }
  }

  lemma {:induction false} KeptTurns(turns: seq<Turn>, m: Message)
    ensures Kept(m) in Items(turns) <==> Other(m) in turns
  {
    if turns != [] {
      KeptTurns(turns[..|turns| - 1], m);
      assert turns == turns[..|turns| - 1] + [turns[|turns| - 1]];
    }
  }

  lemma BadIsKept(m: Message, item: Item)
    requires BadCalls(m) && Tells(m, item)
    ensures item == Kept(m)
  {
  }

  lemma KeptIsTold(m: Message, o: Message)
    requires Tells(m, Kept(o))
    ensures o == m
  {
  }

  /** Preprocessing throws exactly for no or too many messages, and for messages that throw or have bad calls. */
  lemma PreprocessingThrows(messages: seq<Message>)
    ensures Preprocessed(messages).None? <==>
      || messages == [] || |messages| > 128
      || exists i :: 0 <= i < |messages| && (Throws(messages[i]) || BadCalls(messages[i]))
  {
    hide Merged, Arranged, Throws, BadCalls, Tells, Items;
    MergingTells(messages);
    if Merged(messages).Some? {
      var turns := Merged(messages).value;
      var items := Items(turns);
      ArrangingThrows(turns);
      if n :| 0 <= n < |turns| && turns[n].Other? && BadCalls(turns[n].message) {
        var m := turns[n].message;
        assert Other(m) in turns;
        KeptTurns(turns, m);
        var i :| 0 <= i < |items| && items[i] == Kept(m);
        KeptIsTold(messages[i], m);
      }
      if i :| 0 <= i < |messages| && BadCalls(messages[i]) {
        BadIsKept(messages[i], items[i]);
        KeptTurns(turns, messages[i]);
        var n :| 0 <= n < |turns| && turns[n] == Other(messages[i]);
      }
    }
  }

  // ---- What a user turn takes from the message that begins it ------------------------------------------------

  /** A turn that began with a text has the members of that message; one that began with a result has none. */
  predicate BegunBy(t: Turn, m: Message) {
    t.User? ==>
      if m.role == Some("user") then
        t.content.Some? && Reads(m.content, t.content.value) &&
        t.task == m.task && t.woEos == m.woEos && t.mask == m.mask
      else
        m.role == Some("tool") && t.content == None && t.task == None && t.woEos == None && t.mask == None
  }

  /** A turn with a task takes results behind its text and no further text. */
  predicate TaskCloses(t: Turn) {
    t.User? && !NoTask(t.task) ==> forall i :: 0 < i < |t.blocks| ==> t.blocks[i].ResultBlock?
  }

  /** The message that began the n-th turn. */
  function First(turns: seq<Turn>, n: nat): nat
    requires n <= |turns|
  {
    |Items(turns[..n])|
  }

  ghost predicate Begun(turns: seq<Turn>, messages: seq<Message>) {
    && |Items(turns)| == |messages|
    && forall n :: 0 <= n < |turns| ==>
      First(turns, n) < |messages| && BegunBy(turns[n], messages[First(turns, n)]) && TaskCloses(turns[n])
  }

  lemma NewTurnIsBegun(m: Message, block: Block)
    requires Merges(m) && BlockOf(m) == Some(block)
    ensures BegunBy(NewTurn(m, block), m) && TaskCloses(NewTurn(m, block))
  {
  }

  lemma JoinedIsBegun(t: Turn, first: Message, m: Message, block: Block)
    requires t.User? && BegunBy(t, first) && TaskCloses(t) && t.blocks != []
    requires Merges(m) && BlockOf(m) == Some(block) && (m.role == Some("tool") || NoTask(t.task))
    ensures var longer := t.(blocks := t.blocks + [block]); BegunBy(longer, first) && TaskCloses(longer)
  {
  }

  lemma FirstOfPrefix(a: seq<Turn>, b: seq<Turn>, n: nat)
    requires n <= |a| && n <= |b| && a[..n] == b[..n]
    ensures First(a, n) == First(b, n)
  {
  }

  lemma AbsorbBegins(turns: seq<Turn>, messages: seq<Message>, m: Message)
    requires Begun(turns, messages) && TurnsSound(turns) && Absorb(turns, m).Some?
    ensures Begun(Absorb(turns, m).value, messages + [m])
  {
    hide Items, BegunBy, TaskCloses, ItemOf, BlockOf, NewTurn, PairSound;
    var after, all := Absorb(turns, m).value, messages + [m];
    AbsorbConserves(turns, m);
    var k := if Merges(m) && Joins(turns, m) then |turns| - 1 else |turns|;
    assert after[..k] == turns[..k] && |after| == k + 1;
    forall n | 0 <= n < |after|
      ensures First(after, n) < |all| && BegunBy(after[n], all[First(after, n)]) && TaskCloses(after[n])
    {
      assert after[..n] == after[..k][..n] == turns[..n];
      FirstOfPrefix(after, turns, n);
      if n < k {
        assert after[n] == turns[n];
      } else if k < |turns| {
        var block := BlockOf(m).value;
        assert TurnSound(turns[n]);
        JoinedIsBegun(turns[n], messages[First(turns, n)], m, block);
      } else {
        assert turns[..k] == turns && all[|messages|] == m;
        if Merges(m) {
          NewTurnIsBegun(m, BlockOf(m).value);
        } else {
          KeptIsBegun(m);
        }
      }
    }
  }

  lemma KeptIsBegun(m: Message)
    ensures BegunBy(Other(m), m) && TaskCloses(Other(m))
  {
  }

  /** Every merged user turn has the members of the message that began it, and a task closes it to further text. */
  lemma {:induction false} MergingKeepsMembers(messages: seq<Message>)
    requires Merged(messages).Some?
    ensures Begun(Merged(messages).value, messages)
  {
    hide Absorb, Begun, TurnsSound;
    if messages == [] {
      NothingBegun();
    } else {
      var n := |messages| - 1;
      var front := messages[..n];
      MergingKeepsMembers(front);
      MergingIsThorough(front);
      AbsorbBegins(Merged(front).value, front, messages[n]);
      assert messages == front + [messages[n]];
    }
  }

  lemma NothingBegun()
    ensures Begun([], [])
  {
  }

  // ---- The order of results ------------------------------------------------------------------------------------

  /** The call carries the id: as its own, or as that of its function when it has none of its own. */
  predicate Carries(call: CallRef, id: string) {
    id != "" && (call.id == Some(Text(id)) || (Reads(call.id, "") && call.function_ == Some(Some(Text(id)))))
  }

  /** The place of the last call that carries the id; 0 if none does. */
  function LastCall(calls: seq<CallRef>, id: string): nat {
    if calls == [] then 0
    else if Carries(calls[|calls| - 1], id) then |calls| - 1
    else LastCall(calls[..|calls| - 1], id)
  }

  /** The calls of the latest assistant message with calls before turn n. */
  function LatestCalls(turns: seq<Turn>, n: nat): seq<CallRef>
    requires n <= |turns|
  {
    if n == 0 then []
    else
      match turns[n - 1]
      case Other(m) =>
        if m.role == Some("assistant") && m.toolCalls.Calls? && m.toolCalls.calls != [] then m.toolCalls.calls
        else LatestCalls(turns, n - 1)
      case User(_, _, _, _, _) => LatestCalls(turns, n - 1)
  }

  /** The results whose call has place k, in their order. */
  function ResultsOf(blocks: seq<Block>, calls: seq<CallRef>, k: nat): seq<Block> {
    if blocks == [] then []
    else
      (if blocks[0].ResultBlock? && LastCall(calls, blocks[0].useId) == k then [blocks[0]] else []) +
        ResultsOf(blocks[1..], calls, k)
  }

  lemma CarriesIsCallId(call: CallRef, id: string)
    requires CallId(call).Some?
    ensures Carries(call, id) <==> id != "" && CallId(call) == Some(id)
  {
  }

  lemma {:induction false} RankIsLastCall(calls: seq<CallRef>, b: Block)
    requires OrderOf(calls).Some? && b.ResultBlock?
    ensures Rank(OrderOf(calls).value, b) == LastCall(calls, b.useId)
  {
    if calls != [] {
      var n := |calls| - 1;
      RankIsLastCall(calls[..n], b);
      CarriesIsCallId(calls[n], b.useId);
    }
  }

  /** The order in force is that of the latest calls. */
  lemma {:induction false} LatestOrderIs(turns: seq<Turn>, n: nat)
    requires n <= |turns| && Arranged(turns[..n]).Some?
    ensures OrderOf(LatestCalls(turns, n)) == Some(LatestOrder(turns, n))
  {
    hide Settled, OrderOf;
    if n == 0 {
      NoOrder();
    } else {
      var front := turns[..n];
      assert front[..n - 1] == turns[..n - 1];
      LatestOrderIs(turns, n - 1);
    }
  }

  lemma NoOrder()
    ensures OrderOf([]) == Some(map[])
  {
  }

  lemma ArrangedPrefix(turns: seq<Turn>, n: nat)
    requires n <= |turns| && Arranged(turns).Some?
    ensures Arranged(turns[..n]).Some?
  {
    if Arranged(turns[..n]).None? {
      ArrangedStops(turns, n);
    }
  }

  /** Neighbours in the list of results are in the order in which they stand. */
  lemma {:induction false} ResultPlaces(blocks: seq<Block>, i: nat, j: nat) returns (p: nat, q: nat)
    requires i < j < |blocks| && blocks[i].ResultBlock? && blocks[j].ResultBlock?
    ensures p < q < |Results(blocks)| && Results(blocks)[p] == blocks[i] && Results(blocks)[q] == blocks[j]
    decreases |blocks|
  {
    if i == 0 {
      q := ResultPlace(blocks[1..], j - 1);
      p, q := 0, q + 1;
    } else {
      p, q := ResultPlaces(blocks[1..], i - 1, j - 1);
      if blocks[0].ResultBlock? {
        p, q := p + 1, q + 1;
      }
    }
  }

  lemma {:induction false} ResultPlace(blocks: seq<Block>, j: nat) returns (q: nat)
    requires j < |blocks| && blocks[j].ResultBlock?
    ensures q < |Results(blocks)| && Results(blocks)[q] == blocks[j]
    decreases |blocks|
  {
    if j == 0 {
      q := 0;
    } else {
      q := ResultPlace(blocks[1..], j - 1);
      if blocks[0].ResultBlock? {
        q := q + 1;
      }
    }
  }

  lemma {:induction false} ClassIsResultsOf(blocks: seq<Block>, calls: seq<CallRef>, b: Block)
    requires OrderOf(calls).Some? && b.ResultBlock?
    ensures Class(Results(blocks), ByRank(OrderOf(calls).value), b) ==
      ResultsOf(blocks, calls, LastCall(calls, b.useId))
    decreases |blocks|
  {
    hide LastCall, OrderOf, Rank;
    if blocks != [] {
      ClassIsResultsOf(blocks[1..], calls, b);
      RankIsLastCall(calls, b);
      if blocks[0].ResultBlock? {
        RankIsLastCall(calls, blocks[0]);
        assert Results(blocks)[1..] == Results(blocks[1..]);
      } else {
        assert Results(blocks) == Results(blocks[1..]);
        assert ResultsOf(blocks, calls, LastCall(calls, b.useId)) ==
          ResultsOf(blocks[1..], calls, LastCall(calls, b.useId));
      }
    }
  }

  lemma {:induction false} ResultsOfMember(blocks: seq<Block>, calls: seq<CallRef>, k: nat)
    requires ResultsOf(blocks, calls, k) != []
    ensures exists b :: b in blocks && b.ResultBlock? && LastCall(calls, b.useId) == k
    decreases |blocks|
  {
    hide LastCall;
    if blocks[0].ResultBlock? && LastCall(calls, blocks[0].useId) == k {
      assert blocks[0] in blocks;
    } else {
      ResultsOfMember(blocks[1..], calls, k);
      var b :| b in blocks[1..] && b.ResultBlock? && LastCall(calls, b.useId) == k;
      assert b in blocks;
    }
  }

  /** The blocks of one user turn: texts stay, results follow the order of the calls, ties keep their order. */
  ghost predicate InCallOrder(before: seq<Block>, after: seq<Block>, calls: seq<CallRef>) {
    && |after| == |before|
    && (forall i :: 0 <= i < |after| && before[i].TextBlock? ==> after[i] == before[i])
    && (forall i :: 0 <= i < |after| && before[i].ResultBlock? ==> after[i].ResultBlock?)
    && (forall i, j :: 0 <= i < j < |after| && after[i].ResultBlock? && after[j].ResultBlock? ==>
        LastCall(calls, after[i].useId) <= LastCall(calls, after[j].useId))
    && (forall k :: ResultsOf(after, calls, k) == ResultsOf(before, calls, k))
  }

  lemma ReorderedIsInOrder(blocks: seq<Block>, calls: seq<CallRef>)
    requires OrderOf(calls).Some?
    ensures InCallOrder(blocks, Reordered(blocks, OrderOf(calls).value), calls)
  {
    hide Reordered, OrderOf, LastCall, ResultsOf, Rank, Class, Results, PutBack;
    var order := OrderOf(calls).value;
    var r := Reordered(blocks, order);
    ReorderingIsStable(blocks, order);
    forall i, j | 0 <= i < j < |r| && r[i].ResultBlock? && r[j].ResultBlock?
      ensures LastCall(calls, r[i].useId) <= LastCall(calls, r[j].useId)
    {
      var p, q := ResultPlaces(r, i, j);
      RankIsLastCall(calls, r[i]);
      RankIsLastCall(calls, r[j]);
      assert !ByRank(order)(Results(r)[q], Results(r)[p]);
    }
    forall k ensures ResultsOf(r, calls, k) == ResultsOf(blocks, calls, k) {
      if ResultsOf(r, calls, k) != [] {
        ResultsOfMember(r, calls, k);
        var b :| b in r && b.ResultBlock? && LastCall(calls, b.useId) == k;
        ClassIsResultsOf(r, calls, b);
        ClassIsResultsOf(blocks, calls, b);
      } else if ResultsOf(blocks, calls, k) != [] {
        ResultsOfMember(blocks, calls, k);
        var b :| b in blocks && b.ResultBlock? && LastCall(calls, b.useId) == k;
        ClassIsResultsOf(r, calls, b);
        ClassIsResultsOf(blocks, calls, b);
      }
    }
  }

  lemma {:induction false} NoCallIsCarried(calls: seq<CallRef>, id: string)
    requires OrderOf(calls) == Some(map[])
    ensures LastCall(calls, id) == 0
  {
    RankIsLastCall(calls, ResultBlock(id, Null));
  }

  lemma UntouchedIsInOrder(blocks: seq<Block>, calls: seq<CallRef>)
    requires OrderOf(calls) == Some(map[])
    ensures InCallOrder(blocks, blocks, calls)
  {
    hide OrderOf, LastCall, ResultsOf;
    forall i | 0 <= i < |blocks| && blocks[i].ResultBlock? ensures LastCall(calls, blocks[i].useId) == 0 {
      NoCallIsCarried(calls, blocks[i].useId);
    }
  }

  /**
   * The order of tool results, from the messages alone: in every user turn of the result the texts keep
   * their places, results follow the order in which the latest calls before them were made, an id no
   * call carries counting as the first, and results with the same place keep their order.
   */
  lemma ResultsFollowCalls(messages: seq<Message>)
    requires Preprocessed(messages).Some?
    ensures Merged(messages).Some?
    ensures var before, after := Merged(messages).value, Preprocessed(messages).value;
      && |after| == |before|
      && forall n :: 0 <= n < |after| ==>
        if before[n].User? then
          && after[n].User? && after[n] == before[n].(blocks := after[n].blocks)
          && InCallOrder(before[n].blocks, after[n].blocks, LatestCalls(before, n))
        else after[n] == before[n]
  {
    hide Merged, InCallOrder, Reordered, OrderOf, LatestOrder;
    var before, after := Merged(messages).value, Preprocessed(messages).value;
    ArrangingIsLocal(before);
    forall n | 0 <= n < |after| && before[n].User?
      ensures after[n].User? && after[n] == before[n].(blocks := after[n].blocks)
      ensures InCallOrder(before[n].blocks, after[n].blocks, LatestCalls(before, n))
    {
      var calls := LatestCalls(before, n);
      ArrangedPrefix(before, n);
      LatestOrderIs(before, n);
      ReorderedIsInOrder(before[n].blocks, calls);
      if LatestOrder(before, n) == map[] {
        UntouchedIsInOrder(before[n].blocks, calls);
      }
    }
  }
}
