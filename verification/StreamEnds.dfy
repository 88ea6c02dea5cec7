/**
 What the strict client's rules come to at the end of a stream, in terms of the events in
 the log: which items are closed, how often, and what was committed.
 */
module StreamEnds {
  import opened Chat
  import opened ResponseStream

  /** A done event for the item at an output index. */
  predicate Closes(e: Entry, i: int) {
    e.Sent? && IsDone(e.body) && e.body.index == i
  }

  predicate GivesItem(e: Entry, i: int) {
    e.Sent? && e.body.ItemDone? && e.body.index == i
  }

  function Closings(log: seq<Entry>, i: int): nat {
    if log == [] then 0 else Closings(log[..|log| - 1], i) + if Closes(log[|log| - 1], i) then 1 else 0
  }

  function Full(s: Shown): nat {
    if s.ShownMessage? then 3 else 2
  }

  /** An entry moves the item on by one stage if it closes it, up to the last, which is
      reached when the item is given; a new item has had no done event. */
  predicate Moves(c: Client, e: Entry, d: Client, i: nat) {
    && |c.shown| <= |d.shown|
    && (i < |c.shown| ==>
          && d.shown[i].ShownMessage? == c.shown[i].ShownMessage?
          && d.shown[i].stage == c.shown[i].stage + (if Closes(e, i) then 1 else 0)
          && (Closes(e, i) ==> d.shown[i].stage <= Full(d.shown[i])
                               && (GivesItem(e, i) <==> d.shown[i].stage == Full(d.shown[i]))))
    && (|c.shown| <= i ==> !Closes(e, i))
    && (|c.shown| <= i < |d.shown| ==> d.shown[i].stage == 0)
  }

  lemma OneStage(needsCommit: bool, c: Client, e: Entry, i: nat)
    requires Observe(needsCommit, c, e).Some?
    ensures Moves(c, e, Observe(needsCommit, c, e).value, i)
  {
    hide Observe, Moves;
    if e.Sent? && IsDone(e.body) {
      DoneStage(needsCommit, c, e, i);
    } else {
      ShownStage(needsCommit, c, e, i);
    }
  }

  lemma DoneStage(needsCommit: bool, c: Client, e: Entry, i: nat)
    requires Observe(needsCommit, c, e).Some? && e.Sent? && IsDone(e.body)
    ensures Moves(c, e, Observe(needsCommit, c, e).value, i)
  {
    hide TerminalOk, Matches, Named, Gate;
  }

  lemma ShownStage(needsCommit: bool, c: Client, e: Entry, i: nat)
    requires Observe(needsCommit, c, e).Some? && !(e.Sent? && IsDone(e.body))
    ensures Moves(c, e, Observe(needsCommit, c, e).value, i)
  {
    hide TerminalOk, Matches, Named, Gate;
  }

  /** What a client takes from an entry besides. */
  lemma OneItem(needsCommit: bool, c: Client, e: Entry)
    requires Observe(needsCommit, c, e).Some?
    ensures var d := Observe(needsCommit, c, e).value;
            && (e.Sent? && e.body.ItemDone? ==>
                  && e.body.item.Some? && d.done == c.done[e.body.index := e.body.item.value]
                  && d.executable == c.executable + CallsIn(e))
            && (!(e.Sent? && e.body.ItemDone?) ==> d.done == c.done && d.executable == c.executable)
            && d.persisted == if e.Commit? && e.ok then Some(e.assistant) else if e.Commit? then None else c.persisted
  {
    hide TerminalOk, Matches, Named, Gate;
  }

  function CallsIn(e: Entry): seq<ToolCall> {
    if e.Sent? && e.body.ItemDone? && e.body.item.Some? && e.body.item.value.CallItem?
    then [ToolCall(e.body.item.value.callID, e.body.item.value.name, e.body.item.value.arguments)] else []
  }

  /** The calls that were given as done, in order. */
  function CallsGiven(log: seq<Entry>): seq<ToolCall> {
    if log == [] then [] else CallsGiven(log[..|log| - 1]) + CallsIn(log[|log| - 1])
  }

  /** The stage of an item is the number of done events it has had. */
  lemma {:induction false} StagesAreClosings(needsCommit: bool, log: seq<Entry>, i: nat)
    requires Replay(needsCommit, log).Some?
    ensures var c := Replay(needsCommit, log).value;
            && (i < |c.shown| ==> c.shown[i].stage == Closings(log, i))
            && (i >= |c.shown| ==> Closings(log, i) == 0)
  {
    hide Observe, Closes;
    if log != [] {
      var front, last := log[..|log| - 1], log[|log| - 1];
      StagesAreClosings(needsCommit, front, i);
      OneStage(needsCommit, Replay(needsCommit, front).value, last, i);
    }
  }

  /** An item was given exactly once if its stage is the last, and not at all otherwise. */
  lemma {:induction false} ItemsAreGiven(needsCommit: bool, log: seq<Entry>, i: nat)
    requires Replay(needsCommit, log).Some?
    ensures var c := Replay(needsCommit, log).value;
            && (i < |c.shown| ==> c.shown[i].stage <= Full(c.shown[i]))
            && (i < |c.shown| && c.shown[i].stage == Full(c.shown[i]) ==>
                  i in c.done && exists j :: GivenOnce(log, i, j, c.done[i]))
            && (i >= |c.shown| || c.shown[i].stage < Full(c.shown[i]) ==>
                  forall j | 0 <= j < |log| :: !GivesItem(log[j], i))
  {
    hide Observe, Closes;
    if log != [] {
      var front, last := log[..|log| - 1], log[|log| - 1];
      ItemsAreGiven(needsCommit, front, i);
      var c, d := Replay(needsCommit, front).value, Replay(needsCommit, log).value;
      OneStage(needsCommit, c, last, i);
      OneItem(needsCommit, c, last);
      GivenIsClosed(last, i);
      assert forall j | 0 <= j < |front| :: front[j] == log[j];
      if GivesItem(last, i) {
        assert GivenOnce(log, i, |front|, d.done[i]);
      } else if i < |c.shown| && c.shown[i].stage == Full(c.shown[i]) {
        var j :| GivenOnce(front, i, j, c.done[i]);
        assert GivenOnce(log, i, j, d.done[i]);
      }
    }
  }

  lemma GivenIsClosed(e: Entry, i: int)
    ensures GivesItem(e, i) ==> Closes(e, i)
  {
  }

  /** The item at an output index is in the log once, at this position. */
  ghost predicate GivenOnce(log: seq<Entry>, i: int, j: int, item: Item) {
    && 0 <= j < |log| && log[j].Sent? && log[j].body == ItemDone(i, Some(item))
    && forall k | 0 <= k < |log| && GivesItem(log[k], i) :: k == j
  }

  /** Nothing is closed. */
  predicate NothingClosed(log: seq<Entry>) {
    forall j | 0 <= j < |log| :: !(log[j].Sent? && IsDone(log[j].body))
  }

  lemma {:induction false} NoClosing(log: seq<Entry>, i: int)
    requires Closings(log, i) == 0
    ensures forall j | 0 <= j < |log| :: !Closes(log[j], i)
  {
    hide Closes;
    if log != [] {
      NoClosing(log[..|log| - 1], i);
    }
  }

  /** Done events are for items that were shown. */
  lemma {:induction false} ClosedWasShown(needsCommit: bool, log: seq<Entry>, j: nat)
    requires Replay(needsCommit, log).Some? && j < |log| && log[j].Sent? && IsDone(log[j].body)
    ensures 0 <= log[j].body.index < |Replay(needsCommit, log).value.shown|
  {
    hide Observe;
    var front, last := log[..|log| - 1], log[|log| - 1];
    var c := Replay(needsCommit, front).value;
    OneStage(needsCommit, c, last, 0);
    if j < |front| {
      ClosedWasShown(needsCommit, front, j);
    } else {
      DoneIsShown(needsCommit, c, last);
    }
  }

  lemma DoneIsShown(needsCommit: bool, c: Client, e: Entry)
    requires Observe(needsCommit, c, e).Some? && e.Sent? && IsDone(e.body)
    ensures 0 <= e.body.index < |c.shown|
  {
    hide TerminalOk, Matches, Named, Gate;
  }

  /** The terminal event itself, and what it asks of the client at that point. */
  lemma EndIsChecked(needsCommit: bool, log: seq<Entry>)
    requires Replay(needsCommit, log).Some? && log != []
    requires var last := log[|log| - 1]; last.Sent? && last.body.Terminal?
    ensures var front, end := log[..|log| - 1], log[|log| - 1].body;
            && Replay(needsCommit, front).Some?
            && var c := Replay(needsCommit, front).value;
               TerminalOk(needsCommit, c, end.status, end.output)
               && Replay(needsCommit, log).value == c.(next := c.next + 1, output := end.output, finished := true)
  {
    hide TerminalOk, Matches, Named, Gate;
  }

  /** A failed end closes nothing and shows no output: nothing in it may be executed. */
  lemma FailedEndIsEmpty(needsCommit: bool, log: seq<Entry>)
    requires Replay(needsCommit, log).Some? && log != []
    requires var last := log[|log| - 1]; last.Sent? && last.body.Terminal? && last.body.status == Failed
    ensures log[|log| - 1].body.output == [] && NothingClosed(log)
  {
    hide Replay, Observe;
    EndIsChecked(needsCommit, log);
    var c := Replay(needsCommit, log).value;
    forall j | 0 <= j < |log| ensures !(log[j].Sent? && IsDone(log[j].body)) {
      if log[j].Sent? && IsDone(log[j].body) {
        ClosedWasShown(needsCommit, log, j);
        var i := log[j].body.index;
        assert Closes(log[j], i);
        StagesAreClosings(needsCommit, log, i);
        NoClosing(log, i);
      }
    }
  }

  /** An end that did not fail lists every item that was shown. At a completed end each was
      given as done, once and as listed; at an incomplete end the message was, and nothing
      of a call was closed. */
  lemma EndGivesItems(needsCommit: bool, log: seq<Entry>, i: nat)
    requires Replay(needsCommit, log).Some? && log != []
    requires var last := log[|log| - 1]; last.Sent? && last.body.Terminal? && last.body.status != Failed
    requires i < |log[|log| - 1].body.output|
    ensures var end := log[|log| - 1].body; var slot := end.output[i];
            && slot.Some? && slot.value.status == end.status
            && (if slot.value.MessageItem? || end.status == Completed
                then exists j :: GivenOnce(log, i, j, slot.value)
                else forall j | 0 <= j < |log| :: !Closes(log[j], i))
  {
    hide Replay, Observe, Named;
    EndIsChecked(needsCommit, log);
    var c, end := Replay(needsCommit, log).value, log[|log| - 1].body;
    assert Matches(c.shown[i], end.output[i], end.status);
    ItemsAreGiven(needsCommit, log, i);
    if !(end.output[i].value.MessageItem? || end.status == Completed) {
      StagesAreClosings(needsCommit, log, i);
      NoClosing(log, i);
    }
  }

  /** What was committed, if anything was, and the calls given so far. */
  lemma {:induction false} CommitIsKept(needsCommit: bool, log: seq<Entry>)
    requires Replay(needsCommit, log).Some?
    ensures var c := Replay(needsCommit, log).value;
            c.executable == CallsGiven(log) && (c.persisted.Some? ==> Commit(c.persisted.value, true) in log)
  {
    hide Observe;
    if log != [] {
      var front, last := log[..|log| - 1], log[|log| - 1];
      CommitIsKept(needsCommit, front);
      OneItem(needsCommit, Replay(needsCommit, front).value, last);
    }
  }

  /** What was committed for the next turn is what the client was shown: the text of the
      message, if there is one, and just the calls that were given as done. */
  lemma CommittedIsShown(log: seq<Entry>)
    requires Replay(true, log).Some? && log != []
    requires var last := log[|log| - 1]; last.Sent? && last.body.Terminal? && last.body.status != Failed
    ensures var output := log[|log| - 1].body.output;
            exists m :: Commit(m, true) in log && m.role == "assistant" && m.toolCalls == CallsGiven(log)
              && (forall i | 0 <= i < |output| && output[i].Some? && output[i].value.MessageItem? ::
                    m.content == Some(output[i].value.text))
              && ((forall i | 0 <= i < |output| && output[i].Some? :: output[i].value.CallItem?) ==> m.content == None)
  {
    hide Replay, Observe, Named;
    EndIsChecked(true, log);
    CommitIsKept(true, log);
    var c, end := Replay(true, log).value, log[|log| - 1].body;
    var m := c.persisted.value;
    forall i | 0 <= i < |end.output| ensures Matches(c.shown[i], end.output[i], end.status) {
    }
    if m.content.Some? {
      var i :| 0 <= i < |c.shown| && c.shown[i].ShownMessage?;
      assert Matches(c.shown[i], end.output[i], end.status);
    }
  }
}
