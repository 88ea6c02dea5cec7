/**
 The tool protocol of a chat transcript: the checking loop of the gateway, the
 declarative grammar of the transcripts it accepts, and the fact that both
 trimmers of the gateway, which keep or drop whole units, stay inside it.
 */
module ToolProtocol {
  import opened Chat

  datatype Tracker = Tracker(pending: set<string>, completed: set<string>)

  const FRESH := Tracker({}, {})

  datatype ToolError =
    | ResultsMustFollow(index: nat)
    | CallMissingId(index: nat)
    | DuplicateCall(id: string)
    | ResultMissingId(index: nat)
    | UnexpectedResult(id: string)
    | MissingResult(id: string)

  // ---------------------------------------------------------------- acceptance

  function AddCalls(t: Tracker, calls: seq<ToolCall>): Option<Tracker>
    decreases |calls|
  {
    if calls == [] then Some(t)
    else if calls[0].id == "" || calls[0].id in t.pending || calls[0].id in t.completed then None
    else AddCalls(t.(pending := t.pending + {calls[0].id}), calls[1..])
  }

  function Step(t: Tracker, m: Message): Option<Tracker> {
    if t.pending != {} && m.role != "tool" then None
    else if m.role == "assistant" then AddCalls(t, m.toolCalls)
    else if m.role == "tool" then
      if m.toolCallID == "" || m.toolCallID !in t.pending then None
      else Some(Tracker(t.pending - {m.toolCallID}, t.completed + {m.toolCallID}))
    else Some(t)
  }

  function Run(t: Tracker, messages: seq<Message>): Option<Tracker>
    decreases |messages|
  {
    if messages == [] then Some(t)
    else
      var next := Step(t, messages[0]);
      if next.None? then None else Run(next.value, messages[1..])
  }

  predicate Accepted(messages: seq<Message>) {
    var end := Run(FRESH, messages);
    end.Some? && end.value.pending == {}
  }

  lemma RunAppend(t: Tracker, a: seq<Message>, b: seq<Message>)
    ensures Run(t, a + b) == var mid := Run(t, a); if mid.None? then None else Run(mid.value, b)
    decreases |a|
  {
    if a == [] {
      assert a + b == b;
    } else {
      assert (a + b)[1..] == a[1..] + b;
      var next := Step(t, a[0]);
      if next.Some? {
        RunAppend(next.value, a[1..], b);
      }
    }
  }

  // ------------------------------------------------------------------- grammar

  /** A message that neither makes nor answers a call, or an assistant message
      with calls together with its results. */
  datatype Block = Plain(message: Message) | Exchange(call: Message, results: seq<Message>)

  function CallIds(calls: seq<ToolCall>): (ids: seq<string>)
    ensures |ids| == |calls|
  {
    seq(|calls|, i requires 0 <= i < |calls| => calls[i].id)
  }

  function ResultIds(results: seq<Message>): (ids: seq<string>)
    ensures |ids| == |results|
  {
    seq(|results|, i requires 0 <= i < |results| => results[i].toolCallID)
  }

  predicate Distinct(ids: seq<string>) {
    forall i, j | 0 <= i < j < |ids| :: ids[i] != ids[j]
  }

  function SetOf(ids: seq<string>): set<string> {
    set x | x in ids
  }

  predicate WellFormedBlock(b: Block) {
    match b
    case Plain(m) => m.role != "tool" && (m.role == "assistant" ==> m.toolCalls == [])
    case Exchange(call, results) =>
      && call.role == "assistant" && call.toolCalls != []
      && "" !in CallIds(call.toolCalls)
      && (forall r | r in results :: r.role == "tool")
      && Distinct(ResultIds(results))
      && SetOf(ResultIds(results)) == SetOf(CallIds(call.toolCalls))
  }

  ghost predicate WellFormedBlocks(blocks: seq<Block>) {
    forall i | 0 <= i < |blocks| :: WellFormedBlock(blocks[i])
  }

  function Ids(b: Block): seq<string> {
    match b
    case Plain(_) => []
    case Exchange(call, _) => CallIds(call.toolCalls)
  }

  function AllIds(blocks: seq<Block>): seq<string> {
    if blocks == [] then [] else Ids(blocks[0]) + AllIds(blocks[1..])
  }

  function Render(b: Block): seq<Message> {
    match b
    case Plain(m) => [m]
    case Exchange(call, results) => [call] + results
  }

  function RenderAll(blocks: seq<Block>): seq<Message> {
    if blocks == [] then [] else Render(blocks[0]) + RenderAll(blocks[1..])
  }

  /** The grammar: well-formed blocks whose call identifiers never repeat. */
  ghost predicate Derives(blocks: seq<Block>, messages: seq<Message>) {
    && WellFormedBlocks(blocks)
    && Distinct(AllIds(blocks))
    && RenderAll(blocks) == messages
  }

  ghost predicate InGrammar(messages: seq<Message>) {
    exists blocks :: Derives(blocks, messages)
  }

  // ------------------------------------------------- the loop is the grammar

  lemma DistinctAppend(a: seq<string>, b: seq<string>)
    ensures Distinct(a + b) <==> Distinct(a) && Distinct(b) && SetOf(a) !! SetOf(b)
  {
    var c := a + b;
    if Distinct(c) {
      assert forall i | 0 <= i < |a| :: c[i] == a[i];
      forall i, j | 0 <= i < j < |b| ensures b[i] != b[j] {
        assert c[|a| + i] == b[i] && c[|a| + j] == b[j];
      }
      forall i, j | 0 <= i < |a| && 0 <= j < |b| ensures a[i] != b[j] {
        assert c[i] == a[i] && c[|a| + j] == b[j];
      }
    } else {
      var i, j :| 0 <= i < j < |c| && c[i] == c[j];
      if i < |a| <= j {
        assert a[i] in SetOf(a) && b[j - |a|] in SetOf(b);
      }
    }
  }

  lemma SetOfAppend(a: seq<string>, b: seq<string>)
    ensures SetOf(a + b) == SetOf(a) + SetOf(b)
  {
  }

  /** Registering the calls of one message succeeds exactly when their ids are
      non-empty, distinct and new; they are then what is pending on top. */
  lemma AddCallsSpec(t: Tracker, calls: seq<ToolCall>)
    ensures AddCalls(t, calls).Some? <==>
            && "" !in CallIds(calls) && Distinct(CallIds(calls))
            && SetOf(CallIds(calls)) !! t.pending && SetOf(CallIds(calls)) !! t.completed
    ensures AddCalls(t, calls).Some? ==>
              AddCalls(t, calls).value == t.(pending := t.pending + SetOf(CallIds(calls)))
    decreases |calls|
  {
    if calls != [] {
      var id := calls[0].id;
      var rest := CallIds(calls[1..]);
      assert CallIds(calls) == [id] + rest;
      DistinctAppend([id], rest);
      SetOfAppend([id], rest);
      assert SetOf([id]) == {id};
      AddCallsSpec(t.(pending := t.pending + {id}), calls[1..]);
    } else {
      assert SetOf(CallIds(calls)) == {};
    }
  }

  /** Distinct results answering exactly what is pending complete it. */
  lemma ResultsComplete(t: Tracker, results: seq<Message>)
    requires forall r | r in results :: r.role == "tool"
    requires "" !in ResultIds(results) && Distinct(ResultIds(results))
    requires SetOf(ResultIds(results)) == t.pending
    ensures Run(t, results) == Some(Tracker({}, t.completed + t.pending))
    decreases |results|
  {
    if results == [] {
      assert t.pending == {};
      assert t.completed + t.pending == t.completed;
    } else {
      var id := results[0].toolCallID;
      var rest := ResultIds(results[1..]);
      assert ResultIds(results) == [id] + rest;
      DistinctAppend([id], rest);
      SetOfAppend([id], rest);
      assert SetOf([id]) == {id};
      var next := Tracker(t.pending - {id}, t.completed + {id});
      assert Step(t, results[0]) == Some(next);
      ResultsComplete(next, results[1..]);
      assert next.completed + next.pending == t.completed + t.pending;
    }
  }

  lemma BlockRuns(done: set<string>, b: Block)
    requires WellFormedBlock(b) && Distinct(Ids(b)) && SetOf(Ids(b)) !! done
    ensures Run(Tracker({}, done), Render(b)) == Some(Tracker({}, done + SetOf(Ids(b))))
  {
    var t := Tracker({}, done);
    match b
    case Plain(m) =>
      assert SetOf(Ids(b)) == {};
      assert done + SetOf(Ids(b)) == done;
      assert Step(t, m) == Some(t);
      assert [m][1..] == [];
      assert Run(t, []) == Some(t);
    case Exchange(call, results) =>
      AddCallsSpec(t, call.toolCalls);
      var mid := Tracker(SetOf(Ids(b)), done);
      assert "" !in SetOf(ResultIds(results));
      ResultsComplete(mid, results);
      assert ([call] + results)[1..] == results;
      assert t.(pending := t.pending + SetOf(Ids(b))) == mid;
  }

  /** What one more block in front does to the identifiers of a block list. */
  lemma ConsIds(b: Block, rest: seq<Block>)
    ensures AllIds([b] + rest) == Ids(b) + AllIds(rest)
    ensures RenderAll([b] + rest) == Render(b) + RenderAll(rest)
    ensures SetOf(AllIds([b] + rest)) == SetOf(Ids(b)) + SetOf(AllIds(rest))
    ensures Distinct(AllIds([b] + rest)) <==>
            Distinct(Ids(b)) && Distinct(AllIds(rest)) && SetOf(Ids(b)) !! SetOf(AllIds(rest))
  {
    assert ([b] + rest)[1..] == rest;
    DistinctAppend(Ids(b), AllIds(rest));
    SetOfAppend(Ids(b), AllIds(rest));
  }

  lemma BlocksRun(done: set<string>, blocks: seq<Block>)
    requires WellFormedBlocks(blocks)
    requires Distinct(AllIds(blocks)) && SetOf(AllIds(blocks)) !! done
    ensures Run(Tracker({}, done), RenderAll(blocks)) == Some(Tracker({}, done + SetOf(AllIds(blocks))))
    decreases |blocks|, 0
  {
    if blocks == [] {
      assert done + SetOf(AllIds(blocks)) == done;
    } else {
      BlocksRunCons(done, blocks[0], blocks[1..]);
      assert [blocks[0]] + blocks[1..] == blocks;
    }
  }

  lemma BlocksRunCons(done: set<string>, b: Block, rest: seq<Block>)
    requires WellFormedBlock(b) && WellFormedBlocks(rest)
    requires Distinct(AllIds([b] + rest)) && SetOf(AllIds([b] + rest)) !! done
    ensures Run(Tracker({}, done), RenderAll([b] + rest)) == Some(Tracker({}, done + SetOf(AllIds([b] + rest))))
    decreases |rest|, 1
  {
    var ids := SetOf(Ids(b));
    ConsIds(b, rest);
    BlockRuns(done, b);
    BlocksRun(done + ids, rest);
    RunAppend(Tracker({}, done), Render(b), RenderAll(rest));
    assert (done + ids) + SetOf(AllIds(rest)) == done + SetOf(AllIds([b] + rest));
  }

  /** A run that gets rid of everything pending begins with its results. */
  lemma CollectResults(t: Tracker, messages: seq<Message>) returns (n: nat)
    requires t.pending !! t.completed
    requires Run(t, messages).Some? && Run(t, messages).value.pending == {}
    ensures n <= |messages|
    ensures forall r | r in messages[..n] :: r.role == "tool"
    ensures Distinct(ResultIds(messages[..n])) && SetOf(ResultIds(messages[..n])) == t.pending
    ensures Run(t, messages) == Run(Tracker({}, t.completed + t.pending), messages[n..])
    decreases |messages|
  {
    if t.pending == {} {
      n := 0;
      assert messages[0..] == messages && t == Tracker({}, t.completed + t.pending);
      assert SetOf(ResultIds(messages[..0])) == {};
    } else {
      var id := messages[0].toolCallID;
      var next := Tracker(t.pending - {id}, t.completed + {id});
      var k := CollectResults(next, messages[1..]);
      n := k + 1;
      var rest := ResultIds(messages[1..][..k]);
      assert messages[..n] == [messages[0]] + messages[1..][..k];
      assert ResultIds(messages[..n]) == [id] + rest;
      DistinctAppend([id], rest);
      SetOfAppend([id], rest);
      assert SetOf([id]) == {id};
      assert messages[1..][k..] == messages[n..];
      assert next.completed + next.pending == t.completed + t.pending;
    }
  }

  /** The first block of a transcript that completes, and the rest of it. */
  lemma ParseOne(done: set<string>, messages: seq<Message>) returns (b: Block, rest: seq<Message>)
    requires messages != []
    requires Run(Tracker({}, done), messages).Some? && Run(Tracker({}, done), messages).value.pending == {}
    ensures WellFormedBlock(b) && Distinct(Ids(b)) && SetOf(Ids(b)) !! done
    ensures messages == Render(b) + rest && |rest| < |messages|
    ensures Run(Tracker({}, done + SetOf(Ids(b))), rest) == Run(Tracker({}, done), messages)
  {
    var t, m := Tracker({}, done), messages[0];
    if m.role == "assistant" && m.toolCalls != [] {
      AddCallsSpec(t, m.toolCalls);
      var mid := AddCalls(t, m.toolCalls).value;
      assert mid.pending == SetOf(CallIds(m.toolCalls));
      var n := CollectResults(mid, messages[1..]);
      b := Exchange(m, messages[1..][..n]);
      rest := messages[1..][n..];
      assert messages == [m] + messages[1..][..n] + messages[1..][n..];
    } else {
      b, rest := Plain(m), messages[1..];
      assert SetOf(Ids(b)) == {} && done + SetOf(Ids(b)) == done;
      assert messages == [m] + messages[1..];
      if m.role == "assistant" {
        assert AddCalls(t, m.toolCalls) == Some(t);
      }
    }
  }

  lemma Parse(done: set<string>, messages: seq<Message>) returns (blocks: seq<Block>)
    requires Run(Tracker({}, done), messages).Some? && Run(Tracker({}, done), messages).value.pending == {}
    ensures WellFormedBlocks(blocks) && Distinct(AllIds(blocks)) && RenderAll(blocks) == messages
    ensures SetOf(AllIds(blocks)) !! done
    decreases |messages|
  {
    if messages == [] {
      blocks := [];
    } else {
      var b, rest := ParseOne(done, messages);
      var tail := Parse(done + SetOf(Ids(b)), rest);
      blocks := [b] + tail;
      ConsIds(b, tail);
    }
  }

  /** The recogniser accepts exactly the transcripts of the grammar. */
  lemma AcceptedIsGrammar(messages: seq<Message>)
    ensures Accepted(messages) <==> InGrammar(messages)
  {
    if Accepted(messages) {
      var blocks := Parse({}, messages);
      assert Derives(blocks, messages);
    }
    if InGrammar(messages) {
      var blocks :| Derives(blocks, messages);
      BlocksRun({}, blocks);
    }
  }

  /** The transcript is fine up to message i and breaks there. */
  predicate BreaksAt(messages: seq<Message>, i: nat) {
    && i < |messages|
    && Run(FRESH, messages[..i]).Some?
    && Step(Run(FRESH, messages[..i]).value, messages[i]).None?
  }

  /** The id of call j of message i is that of an earlier call of the same message, or of
      one that has been answered before. */
  predicate Repeats(messages: seq<Message>, i: nat, j: nat, id: string) {
    && i < |messages| && j < |messages[i].toolCalls| && messages[i].toolCalls[j].id == id
    && ((exists k :: 0 <= k < j && messages[i].toolCalls[k].id == id)
        || (Run(FRESH, messages[..i]).Some? && id in Run(FRESH, messages[..i]).value.completed))
  }

  /** The error names the first offending message, or a call left unanswered. */
  ghost predicate Explains(err: ToolError, messages: seq<Message>) {
    match err
    case ResultsMustFollow(i) =>
      BreaksAt(messages, i) && Run(FRESH, messages[..i]).value.pending != {} && messages[i].role != "tool"
    case CallMissingId(i) =>
      BreaksAt(messages, i) && messages[i].role == "assistant" && "" in CallIds(messages[i].toolCalls)
    case DuplicateCall(id) =>
      exists i: nat, j: nat :: BreaksAt(messages, i) && messages[i].role == "assistant" && Repeats(messages, i, j, id)
    case ResultMissingId(i) =>
      BreaksAt(messages, i) && messages[i].role == "tool" && messages[i].toolCallID == ""
    case UnexpectedResult(id) =>
      exists i: nat :: BreaksAt(messages, i) && messages[i].role == "tool" && messages[i].toolCallID == id
                  && id !in Run(FRESH, messages[..i]).value.pending
    case MissingResult(id) =>
      Run(FRESH, messages).Some? && id in Run(FRESH, messages).value.pending
  }

  method ValidateToolConversation(messages: seq<Message>) returns (err: Option<ToolError>)
    ensures err.None? <==> InGrammar(messages)
    ensures err.Some? ==> Explains(err.value, messages)
  {
    var pending: set<string>, completed: set<string> := {}, {};
    var i := 0;
    AcceptedIsGrammar(messages);
    while i < |messages|
      invariant 0 <= i <= |messages|
      invariant Run(FRESH, messages[..i]) == Some(Tracker(pending, completed))
    {
      var m := messages[i];
      ghost var before := Tracker(pending, completed);
      RunOneMore(messages, i);
      if pending != {} && m.role != "tool" {
        return Some(ResultsMustFollow(i));
      }
      if m.role == "assistant" {
        var j := 0;
        assert m.toolCalls[0..] == m.toolCalls;
        while j < |m.toolCalls|
          invariant 0 <= j <= |m.toolCalls|
          invariant AddCalls(before, m.toolCalls) == AddCalls(Tracker(pending, completed), m.toolCalls[j..])
          invariant forall x | x in pending :: exists k :: 0 <= k < j && m.toolCalls[k].id == x
        {
          var id := m.toolCalls[j].id;
          assert CallIds(m.toolCalls)[j] == id;
          assert m.toolCalls[j..][1..] == m.toolCalls[j + 1..];
          if id == "" {
            return Some(CallMissingId(i));
          }
          if id in pending || id in completed {
            assert BreaksAt(messages, i) && Repeats(messages, i, j, id);
            return Some(DuplicateCall(id));
          }
          pending := pending + {id};
          j := j + 1;
        }
      } else if m.role == "tool" {
        if m.toolCallID == "" {
          return Some(ResultMissingId(i));
        }
        if m.toolCallID !in pending {
          assert BreaksAt(messages, i);
          return Some(UnexpectedResult(m.toolCallID));
        }
        pending := pending - {m.toolCallID};
        completed := completed + {m.toolCallID};
      }
      i := i + 1;
    }
    assert messages[..i] == messages;
    if pending != {} {
      var id :| id in pending;
      return Some(MissingResult(id));
    }
    return None;
  }

  lemma RunOneMore(messages: seq<Message>, i: nat)
    requires i < |messages| && Run(FRESH, messages[..i]).Some?
    ensures Run(FRESH, messages[..i + 1]) == Step(Run(FRESH, messages[..i]).value, messages[i])
    ensures BreaksAt(messages, i) ==> !Accepted(messages)
  {
    assert messages[..i + 1] == messages[..i] + [messages[i]];
    assert messages[i..][0] == messages[i];
    RunAppend(FRESH, messages[..i], [messages[i]]);
    assert messages == messages[..i] + messages[i..];
    RunAppend(FRESH, messages[..i], messages[i..]);
  }

  // ------------------------------------------- trimming stays in the grammar

  /** A grouping respects the protocol when an assistant message with calls opens
      a unit and every tool result can follow. */
  ghost predicate KeepsExchanges(g: Grouping) {
    && (forall m: Message :: m.role == "assistant" && m.toolCalls != [] ==> g.opens(m))
    && (forall m: Message :: m.role == "tool" ==> g.follows(m))
  }

  /** Forgetting completed calls never makes a continuation fail. */
  lemma ForgetCompleted(t: Tracker, fewer: set<string>, messages: seq<Message>)
    requires fewer <= t.completed && Run(t, messages).Some?
    ensures var a, b := Run(t, messages), Run(t.(completed := fewer), messages);
            b.Some? && b.value.pending == a.value.pending && b.value.completed <= a.value.completed
    decreases |messages|
  {
    if messages != [] {
      var m := messages[0];
      var less := t.(completed := fewer);
      if m.role == "assistant" {
        AddCallsSpec(t, m.toolCalls);
        AddCallsSpec(less, m.toolCalls);
      }
      var next := Step(t, m).value;
      assert Step(less, m).Some?;
      assert Step(less, m).value == next.(completed := Step(less, m).value.completed);
      ForgetCompleted(next, Step(less, m).value.completed, messages[1..]);
    }
  }

  /** Where the followers that come next are not all that is left, they close what is
      pending. */
  lemma FollowersComplete(g: Grouping, t: Tracker, messages: seq<Message>)
    requires KeepsExchanges(g) && Run(t, messages).Some?
    ensures var n := Followers(g, messages);
            && Run(t, messages[..n]).Some?
            && (n < |messages| ==> Run(t, messages[..n]).value.pending == {})
  {
    var n := Followers(g, messages);
    assert messages == messages[..n] + messages[n..];
    RunAppend(t, messages[..n], messages[n..]);
    if n < |messages| {
      assert messages[n].role != "tool";
      assert messages[n..][0] == messages[n];
    }
  }

  lemma UnitCloses(g: Grouping, done: set<string>, messages: seq<Message>)
    requires KeepsExchanges(g) && messages != [] && Run(Tracker({}, done), messages).Some?
    ensures var n := UnitLength(g, messages);
            var mid := Run(Tracker({}, done), messages[..n]);
            && mid.Some? && (n < |messages| ==> mid.value.pending == {})
            && Run(mid.value, messages[n..]) == Run(Tracker({}, done), messages)
  {
    var t, n := Tracker({}, done), UnitLength(g, messages);
    var m := messages[0];
    assert messages == messages[..n] + messages[n..];
    RunAppend(t, messages[..n], messages[n..]);
    assert messages[..n][0] == m;
    if g.opens(m) {
      FollowersComplete(g, Step(t, m).value, messages[1..]);
      assert messages[..n][1..] == messages[1..][..n - 1];
    } else {
      assert messages[..n][1..] == [];
      if m.role == "assistant" {
        assert AddCalls(t, m.toolCalls) == Some(t);
      }
    }
  }

  /** Any in-order choice of whole units runs through, and leaves open what the last unit
      leaves open, if it is chosen. */
  lemma ChosenUnitsRun(g: Grouping, done: set<string>, fewer: set<string>, messages: seq<Message>, chosen: seq<bool>)
    requires KeepsExchanges(g) && fewer <= done && Run(Tracker({}, done), messages).Some?
    requires |chosen| == |Units(g, messages)|
    ensures var end := Run(Tracker({}, fewer), Chosen(Units(g, messages), chosen));
            && end.Some?
            && end.value.pending == if chosen != [] && chosen[|chosen| - 1]
                                    then Run(Tracker({}, done), messages).value.pending else {}
    decreases |messages|
  {
    if messages != [] {
      var n := UnitLength(g, messages);
      var unit, rest := messages[..n], messages[n..];
      UnitCloses(g, done, messages);
      assert Units(g, messages) == [unit] + Units(g, rest);
      assert Units(g, messages)[1..] == Units(g, rest);
      var after := Run(Tracker({}, done), unit).value;
      ForgetCompleted(Tracker({}, done), fewer, unit);
      if rest == [] {
        LastUnitChosen(Units(g, messages), unit, chosen);
      } else {
        CompletedGrows(Tracker({}, done), unit);
        var less := if chosen[0] then Run(Tracker({}, fewer), unit).value else Tracker({}, fewer);
        ChosenUnitsRun(g, after.completed, less.completed, rest, chosen[1..]);
        assert Chosen(Units(g, messages), chosen)
            == (if chosen[0] then unit else []) + Chosen(Units(g, rest), chosen[1..]);
        RunAppend(Tracker({}, fewer), if chosen[0] then unit else [], Chosen(Units(g, rest), chosen[1..]));
        assert chosen[1..][|chosen| - 2] == chosen[|chosen| - 1];
      }
    }
  }

  lemma LastUnitChosen<T>(units: seq<seq<T>>, unit: seq<T>, chosen: seq<bool>)
    requires units == [unit] && |chosen| == 1
    ensures Chosen(units, chosen) == if chosen[0] then unit else []
  {
    assert units[1..] == [] && chosen[1..] == [];
  }

  lemma CompletedGrows(t: Tracker, messages: seq<Message>)
    requires Run(t, messages).Some?
    ensures t.completed <= Run(t, messages).value.completed
    decreases |messages|
  {
    if messages != [] {
      if messages[0].role == "assistant" {
        AddCallsSpec(t, messages[0].toolCalls);
      }
      CompletedGrows(Step(t, messages[0]).value, messages[1..]);
    }
  }

  /** Any in-order choice of whole units of an accepted transcript is accepted. */
  lemma ChosenUnitsAccepted(g: Grouping, messages: seq<Message>, chosen: seq<bool>)
    requires KeepsExchanges(g) && InGrammar(messages)
    requires |chosen| == |Units(g, messages)|
    ensures InGrammar(Chosen(Units(g, messages), chosen))
  {
    AcceptedIsGrammar(messages);
    ChosenUnitsRun(g, {}, {}, messages, chosen);
    AcceptedIsGrammar(Chosen(Units(g, messages), chosen));
  }

  /** A suffix that begins with no tool result runs from scratch to the same open calls. */
  lemma CutRuns(messages: seq<Message>, k: nat)
    requires Run(FRESH, messages).Some? && k < |messages| && messages[k].role != "tool"
    ensures Run(FRESH, messages[k..]).Some?
    ensures Run(FRESH, messages[k..]).value.pending == Run(FRESH, messages).value.pending
    ensures Run(FRESH, messages[..k]).Some? && Run(FRESH, messages[..k]).value.pending == {}
  {
    assert messages == messages[..k] + messages[k..];
    RunAppend(FRESH, messages[..k], messages[k..]);
    var mid := Run(FRESH, messages[..k]).value;
    assert messages[k..][0] == messages[k];
    ForgetCompleted(mid, {}, messages[k..]);
  }

  /** Cutting an accepted transcript at a message that is not a tool result leaves
      both halves accepted; a half that begins with a tool result never is. */
  lemma CutAccepted(messages: seq<Message>, k: nat)
    requires InGrammar(messages) && k < |messages|
    ensures InGrammar(messages[k..]) <==> messages[k].role != "tool"
    ensures messages[k].role != "tool" ==> InGrammar(messages[..k])
  {
    AcceptedIsGrammar(messages);
    AcceptedIsGrammar(messages[k..]);
    AcceptedIsGrammar(messages[..k]);
    assert messages[k..][0] == messages[k];
    if messages[k].role != "tool" {
      CutRuns(messages, k);
    }
  }
}
