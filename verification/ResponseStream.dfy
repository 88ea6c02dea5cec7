/**
 The Responses event stream: a transducer from upstream chunks to typed events, and
 a strict client that checks every event it is shown. The transducer's log also
 holds the commit of the continuation state, so that order can be stated. All
 writes to the client succeed here.
 */
module ResponseStream {
  import opened Chat
  import Text

  // -------------------------------------------------------------------- events

  datatype Status = Completed | Incomplete | Failed

  datatype Item =
    | MessageItem(id: string, text: string, status: Status)
    | CallItem(id: string, callID: string, name: string, arguments: string, status: Status)

  datatype Body =
    | Created
    | InProgress
    | MessageAdded(index: int, itemID: string)
    | PartAdded(index: int, itemID: string)
    | TextDelta(index: int, itemID: string, delta: string)
    | CallAdded(index: int, itemID: string, callID: string, name: string)
    | ArgumentsDelta(index: int, itemID: string, delta: string)
    | TextDone(index: int, itemID: string, text: string)
    | PartDone(index: int, itemID: string, text: string)
    | ArgumentsDone(index: int, itemID: string, name: string, arguments: string)
    | ItemDone(index: int, item: Option<Item>)
    | Terminal(status: Status, output: seq<Option<Item>>, code: string, message: string)

  /** What happens at the client's end of the wire, in order: an event with its
      sequence number, or the commit of the continuation state. */
  datatype Entry = Sent(number: int, body: Body) | Commit(assistant: Message, ok: bool)

  // -------------------------------------------------------------- strict client

  /** What a call is announced under. */
  datatype Announcement = Announcement(callID: string, name: string)

  /** An item as shown so far; stage counts the done events it has had. */
  datatype Shown =
    | ShownMessage(id: string, parts: nat, received: string, stage: nat)
    | ShownCall(id: string, received: string, stage: nat, added: Announcement)

  datatype Client = Client(
    next: int,
    shown: seq<Shown>,
    commit: Option<bool>,
    persisted: Option<Message>,
    executable: seq<ToolCall>,
    announced: map<int, string>,
    named: map<int, string>,
    done: map<int, Item>,
    output: seq<Option<Item>>,
    beats: nat,
    finished: bool)

  const CONNECTED := Client(0, [], None, None, [], map[], map[], map[], [], 0, false)

  /** Whether done events are allowed: the state to continue from is committed. */
  predicate Gate(needsCommit: bool, c: Client) {
    needsCommit ==> c.commit == Some(true)
  }

  predicate IsMessage(c: Client, i: int, id: string, parts: nat, stage: nat) {
    0 <= i < |c.shown| && c.shown[i].ShownMessage? && c.shown[i].id == id
    && c.shown[i].parts == parts && c.shown[i].stage == stage
  }

  predicate IsCall(c: Client, i: int, id: string, stage: nat) {
    0 <= i < |c.shown| && c.shown[i].ShownCall? && c.shown[i].id == id && c.shown[i].stage == stage
  }

  /** An output slot agrees with the item shown at that index. */
  predicate Matches(shown: Shown, slot: Option<Item>, status: Status) {
    && slot.Some? && slot.value.status == status && slot.value.id == shown.id
    && (if shown.ShownMessage? then slot.value.MessageItem? && slot.value.text == shown.received
        else slot.value.CallItem? && slot.value.arguments == shown.received)
  }

  /** What a client takes note of: the name a call was announced under, to which only
      more may have been added; the name its arguments were closed under; and the items
      that were given as done, which the terminal output must repeat. */
  predicate Named(c: Client, i: int, slot: Option<Item>) {
    slot.Some? && slot.value.CallItem? ==>
      && (i in c.announced ==> c.announced[i] <= slot.value.name)
      && (i in c.named ==> c.named[i] == slot.value.name)
  }

  predicate Repeats(c: Client, output: seq<Option<Item>>) {
    && (forall i | 0 <= i < |output| :: Named(c, i, output[i]))
    && (forall i | i in c.done :: 0 <= i < |output| && output[i] == Some(c.done[i]))
  }

  /** The persisted answer has the text of the message that was shown, if one was. */
  predicate Remembers(shown: seq<Shown>, m: Message) {
    && m.role == "assistant"
    && (forall i | 0 <= i < |shown| && shown[i].ShownMessage? :: m.content == Some(shown[i].received))
    && (m.content.Some? ==> exists i :: 0 <= i < |shown| && shown[i].ShownMessage?)
  }

  /** What a terminal event may say, given everything shown before it. */
  predicate TerminalOk(needsCommit: bool, c: Client, status: Status, output: seq<Option<Item>>) {
    match status
    case Failed =>
      output == [] && c.executable == [] && forall i | 0 <= i < |c.shown| :: c.shown[i].stage == 0
    case _ =>
      && Gate(needsCommit, c)
      && |output| == |c.shown| && Repeats(c, output)
      && (forall i | 0 <= i < |output| :: Matches(c.shown[i], output[i], status))
      && (forall i | 0 <= i < |c.shown| ::
            c.shown[i].stage == if c.shown[i].ShownMessage? then 3 else if status == Completed then 2 else 0)
      && (needsCommit ==> c.persisted.Some? && c.persisted.value.toolCalls == c.executable
                          && Remembers(c.shown, c.persisted.value))
  }

  /** Strict: None on anything that the protocol does not allow at this point. */
  function Observe(needsCommit: bool, c: Client, e: Entry): Option<Client> {
    if c.finished then None
    else
      match e
      case Commit(m, ok) =>
        if c.commit.Some? || c.next < 2 || !needsCommit then None
        else Some(c.(commit := Some(ok), persisted := if ok then Some(m) else None))
      case Sent(n, body) =>
        if n != c.next then None
        else
          var d := c.(next := c.next + 1);
          match body
          case Created => if n == 0 then Some(d) else None
          case InProgress => if n > 0 then Some(d.(beats := c.beats + 1)) else None
          case MessageAdded(i, id) =>
            if n >= 2 && c.commit.None? && i == |c.shown| && (forall s | s in c.shown :: s.ShownCall?)
            then Some(d.(shown := c.shown + [ShownMessage(id, 0, "", 0)])) else None
          case PartAdded(i, id) =>
            if c.commit.None? && IsMessage(c, i, id, 0, 0)
            then Some(d.(shown := c.shown[i := c.shown[i].(parts := 1)])) else None
          case TextDelta(i, id, delta) =>
            if c.commit.None? && IsMessage(c, i, id, 1, 0)
            then Some(d.(shown := c.shown[i := ShownMessage(id, 1, c.shown[i].received + delta, 0)])) else None
          case CallAdded(i, id, callID, name) =>
            if n >= 2 && c.commit.None? && i == |c.shown|
            then
              var call := ShownCall(id, "", 0, Announcement(callID, name));
              Some(d.(shown := c.shown + [call], announced := c.announced[i := name]))
            else None
          case ArgumentsDelta(i, id, delta) =>
            if c.commit.None? && IsCall(c, i, id, 0)
            then Some(d.(shown := c.shown[i := c.shown[i].(received := c.shown[i].received + delta)])) else None
          case TextDone(i, id, text) =>
            if Gate(needsCommit, c) && IsMessage(c, i, id, 1, 0) && text == c.shown[i].received
            then Some(d.(shown := c.shown[i := ShownMessage(id, 1, text, 1)])) else None
          case PartDone(i, id, text) =>
            if Gate(needsCommit, c) && IsMessage(c, i, id, 1, 1) && text == c.shown[i].received
            then Some(d.(shown := c.shown[i := ShownMessage(id, 1, text, 2)])) else None
          case ArgumentsDone(i, id, name, arguments) =>
            if Gate(needsCommit, c) && IsCall(c, i, id, 0) && arguments == c.shown[i].received
            then Some(d.(shown := c.shown[i := c.shown[i].(stage := 1)], named := c.named[i := name])) else None
          case ItemDone(i, slot) =>
            if Gate(needsCommit, c) && 0 <= i < |c.shown| && slot.Some?
               && c.shown[i].stage == (if c.shown[i].ShownMessage? then 2 else 1)
               && Matches(c.shown[i], slot, slot.value.status) && Named(c, i, slot)
            then
              var call := if slot.value.CallItem?
                          then [ToolCall(slot.value.callID, slot.value.name, slot.value.arguments)] else [];
              Some(d.(shown := c.shown[i := c.shown[i].(stage := c.shown[i].stage + 1)],
                      executable := c.executable + call, done := c.done[i := slot.value]))
            else None
          case Terminal(status, output, _, _) =>
            if n >= 2 && TerminalOk(needsCommit, c, status, output)
            then Some(d.(output := output, finished := true)) else None
  }

  function Replay(needsCommit: bool, log: seq<Entry>): Option<Client> {
    if log == [] then Some(CONNECTED)
    else
      var before := Replay(needsCommit, log[..|log| - 1]);
      if before.None? then None else Observe(needsCommit, before.value, log[|log| - 1])
  }

  lemma ReplayMore(needsCommit: bool, log: seq<Entry>, e: Entry)
    ensures Replay(needsCommit, log + [e]) ==
            var before := Replay(needsCommit, log);
            if before.None? then None else Observe(needsCommit, before.value, e)
  {
    assert (log + [e])[..|log|] == log;
  }

  // ------------------------------------------- what an accepted log looks like

  function Bodies(log: seq<Entry>): (r: seq<Entry>) {
    if log == [] then []
    else Bodies(log[..|log| - 1]) + if log[|log| - 1].Sent? then [log[|log| - 1]] else []
  }

  predicate IsDone(b: Body) {
    b.TextDone? || b.PartDone? || b.ArgumentsDone? || b.ItemDone?
  }

  /** What the client insists on at every entry. */
  lemma ObserveInsists(needsCommit: bool, c: Client, e: Entry)
    requires Observe(needsCommit, c, e).Some?
    ensures var d := Observe(needsCommit, c, e).value;
            && !c.finished
            && (e.Sent? ==> e.number == c.next && d.next == c.next + 1 && d.commit == c.commit)
            && (e.Commit? ==> c.commit == None && d.next == c.next && d.commit == Some(e.ok))
            && (e.Sent? && IsDone(e.body) ==> Gate(needsCommit, c))
            && (e.Sent? && e.body.Terminal? ==> d.finished)
  {
  }

  /** In a log the client accepts, sequence numbers count up from 0. */
  lemma {:induction false} NumbersAreDense(needsCommit: bool, log: seq<Entry>)
    requires Replay(needsCommit, log).Some?
    ensures Replay(needsCommit, log).value.next == |Bodies(log)|
    ensures forall i | 0 <= i < |Bodies(log)| :: Bodies(log)[i].Sent? && Bodies(log)[i].number == i
  {
    hide Observe;
    if log != [] {
      var front := log[..|log| - 1];
      NumbersAreDense(needsCommit, front);
      ObserveInsists(needsCommit, Replay(needsCommit, front).value, log[|log| - 1]);
    }
  }

  /** In a log the client accepts, a terminal event is the last entry of all, so
      there is at most one. */
  lemma {:induction false} TerminalIsLast(needsCommit: bool, log: seq<Entry>, i: nat)
    requires Replay(needsCommit, log).Some?
    requires i < |log| && log[i].Sent? && log[i].body.Terminal?
    ensures i == |log| - 1 && Replay(needsCommit, log).value.finished
  {
    hide Observe;
    var front := log[..|log| - 1];
    ObserveInsists(needsCommit, Replay(needsCommit, front).value, log[|log| - 1]);
    if i < |log| - 1 {
      TerminalIsLast(needsCommit, front, i);
    }
  }

  /** In a log the client accepts, every done event comes after a successful commit. */
  lemma {:induction false} DoneAfterCommit(log: seq<Entry>, i: nat)
    requires Replay(true, log).Some?
    requires i < |log| && log[i].Sent? && IsDone(log[i].body)
    ensures exists j :: 0 <= j < i && log[j].Commit? && log[j].ok
  {
    hide Observe;
    var front := log[..|log| - 1];
    var j: nat;
    if i < |log| - 1 {
      DoneAfterCommit(front, i);
      j :| j < i && front[j].Commit? && front[j].ok;
    } else {
      ObserveInsists(true, Replay(true, front).value, log[i]);
      j := CommitSeen(front);
    }
    assert log[j] == front[j];
  }

  lemma {:induction false} CommitSeen(log: seq<Entry>) returns (j: nat)
    requires Replay(true, log).Some? && Replay(true, log).value.commit == Some(true)
    ensures j < |log| && log[j].Commit? && log[j].ok
  {
    hide Observe;
    var last := |log| - 1;
    ObserveInsists(true, Replay(true, log[..last]).value, log[last]);
    if log[last].Commit? {
      j := last;
    } else {
      j := CommitSeen(log[..last]);
    }
  }

  // ------------------------------------------------------------------- upstream

  datatype CallDelta = CallDelta(index: int, id: Option<string>, name: Option<string>, arguments: Option<string>)

  /** One turn of the reading loop: a tick of the heartbeat, or a line. */
  datatype Upstream =
    | Tick(due: bool)
    | Ignored
    | PlainText(text: string)
    | ErrorPayload(message: string, code: string)
    | DoneMark
    | Malformed
    | ErrorChunk(message: string, code: string)
    | Choice(finish: string, content: string, calls: seq<CallDelta>)

  /** The text a sequence of inputs spells. */
  function TextOf(inputs: seq<Upstream>): string {
    if inputs == [] then ""
    else
      var last := inputs[|inputs| - 1];
      TextOf(inputs[..|inputs| - 1]) + if last.Choice? then last.content else ""
  }

  /** What deltas spell of one call: the last id given, the names and arguments put
      together, and what the first of them says of id and name. */
  datatype Spelling = Spelling(id: Option<string>, name: string, arguments: string, first: Option<Announcement>)

  const SILENT := Spelling(None, "", "", None)

  function Joined(a: Spelling, b: Spelling): Spelling {
    Spelling(if b.id.Some? then b.id else a.id, a.name + b.name, a.arguments + b.arguments,
             if a.first.Some? then a.first else b.first)
  }

  function SpellingFor(d: CallDelta, index: int): Spelling {
    if d.index == index
    then Spelling(d.id, OrEmpty(d.name), OrEmpty(d.arguments), Some(Announcement(OrEmpty(d.id), OrEmpty(d.name))))
    else SILENT
  }

  function OrEmpty(s: Option<string>): string {
    if s.Some? then s.value else ""
  }

  function SpellingIn(calls: seq<CallDelta>, index: int): Spelling {
    if calls == [] then SILENT
    else Joined(SpellingIn(calls[..|calls| - 1], index), SpellingFor(calls[|calls| - 1], index))
  }

  /** What the inputs spell for the call of an index. */
  function SpellingOf(inputs: seq<Upstream>, index: int): Spelling {
    if inputs == [] then SILENT
    else
      var last := inputs[|inputs| - 1];
      Joined(SpellingOf(inputs[..|inputs| - 1], index), if last.Choice? then SpellingIn(last.calls, index) else SILENT)
  }

  /** A call as it is spelt so far. */
  datatype Spelt = Spelt(id: string, name: string, arguments: string, first: Option<Announcement>)

  const BLANK := Spelt("", "", "", None)

  function Apply(v: Spelt, s: Spelling): Spelt {
    Spelt(if s.id.Some? then s.id.value else v.id, v.name + s.name, v.arguments + s.arguments,
          if v.first.Some? then v.first else s.first)
  }

  lemma ApplyJoined(v: Spelt, a: Spelling, b: Spelling)
    ensures Apply(v, Joined(a, b)) == Apply(Apply(v, a), b)
  {
    assert v.name + (a.name + b.name) == (v.name + a.name) + b.name;
    assert v.arguments + (a.arguments + b.arguments) == (v.arguments + a.arguments) + b.arguments;
  }

  lemma ApplySilent(v: Spelt)
    ensures Apply(v, SILENT) == v
  {
    assert v.name + "" == v.name && v.arguments + "" == v.arguments;
  }

  /** The call of an index as the inputs spell it. */
  function CallOf(inputs: seq<Upstream>, index: int): Spelt {
    Apply(BLANK, SpellingOf(inputs, index))
  }

  predicate CallsIndex(calls: seq<CallDelta>, index: int) {
    exists j :: 0 <= j < |calls| && calls[j].index == index
  }

  predicate MentionsCall(inputs: seq<Upstream>, index: int) {
    exists i :: 0 <= i < |inputs| && inputs[i].Choice? && CallsIndex(inputs[i].calls, index)
  }

  predicate UpstreamFailed(inputs: seq<Upstream>) {
    exists i :: 0 <= i < |inputs| && (inputs[i].ErrorPayload? || inputs[i].Malformed? || inputs[i].ErrorChunk?)
  }

  /** The last finish reason that was given, if any. */
  function FinishOf(inputs: seq<Upstream>): string {
    if inputs == [] then ""
    else
      var last := inputs[|inputs| - 1];
      if last.Choice? && last.finish != "" then last.finish else FinishOf(inputs[..|inputs| - 1])
  }

  /** The last error code that was given, if any. */
  function CodeOf(inputs: seq<Upstream>): string {
    if inputs == [] then ""
    else
      var last := inputs[|inputs| - 1];
      if (last.ErrorPayload? || last.ErrorChunk?) && last.code != "" then last.code
      else CodeOf(inputs[..|inputs| - 1])
  }

  function Malformation(): string {
    "malformed upstream SSE data; "
  }

  function ReadFailed(err: string): string {
    "upstream stream read failed: " + err + "; "
  }

  function Disconnected(): string {
    "upstream stream disconnected before [DONE]; "
  }

  /** What an input complains of. */
  function Complaint(input: Upstream): string {
    match input
    case PlainText(text) => text + "; "
    case ErrorPayload(message, _) => if message != "" then message + "; " else ""
    case ErrorChunk(message, _) => if message != "" then message + "; " else ""
    case Malformed => Malformation()
    case _ => ""
  }

  function ComplaintsOf(inputs: seq<Upstream>): string {
    if inputs == [] then "" else ComplaintsOf(inputs[..|inputs| - 1]) + Complaint(inputs[|inputs| - 1])
  }

  /** What the end of the stream adds: a read error, and a missing end mark. */
  function LastWords(readError: Option<string>, sawDone: bool): string {
    (if readError.Some? then ReadFailed(readError.value) else "") + (if !sawDone then Disconnected() else "")
  }

  function NoContent(): string {
    "upstream returned no content"
  }

  const NOT_PERSISTED := "response state could not be persisted for continuation"

  /** The ticks at which a heartbeat is due. */
  function BeatsOf(inputs: seq<Upstream>): nat {
    if inputs == [] then 0
    else BeatsOf(inputs[..|inputs| - 1]) + if inputs[|inputs| - 1] == Tick(true) then 1 else 0
  }

  function Due(ticks: seq<bool>): nat {
    if ticks == [] then 0 else Due(ticks[..|ticks| - 1]) + if ticks[|ticks| - 1] then 1 else 0
  }

  /** The message of a failed end: all complaints in order, if the upstream is to blame. */
  ghost function EndMessage(inputs: seq<Upstream>, readError: Option<string>, needsCommit: bool, commitOk: bool): string
  {
    if Outcome(inputs, readError, false, true) == Failed then
      var complaints := Text.Trim(ComplaintsOf(inputs) + LastWords(readError, DoneMark in inputs));
      if complaints == "" then NoContent() else complaints
    else if needsCommit && !commitOk then NOT_PERSISTED else ""
  }

  /** The error code of the end: the upstream's, or a general one, when the upstream is to
      blame; another when the answer could not be committed; and none otherwise. */
  ghost function EndCode(inputs: seq<Upstream>, readError: Option<string>, needsCommit: bool, commitOk: bool): string {
    if Outcome(inputs, readError, false, true) == Failed then
      if CodeOf(inputs) != "" then CodeOf(inputs) else "upstream_error"
    else if needsCommit && !commitOk then "session_persistence_error" else ""
  }

  /** How the response must end. */
  ghost function Outcome(inputs: seq<Upstream>, readError: Option<string>, needsCommit: bool, commitOk: bool): Status {
    if readError.Some? || DoneMark !in inputs || UpstreamFailed(inputs) then Failed
    else if FinishOf(inputs) != "length" && Text.Trim(TextOf(inputs)) == ""
            && (forall k :: !MentionsCall(inputs, k)) then Failed
    else if needsCommit && !commitOk then Failed
    else if FinishOf(inputs) == "length" then Incomplete
    else Completed
  }

  // ----------------------------------------------------------------- transducer

  /** A call that is being gathered, with what it was announced under. */
  datatype CallState = CallState(
    id: string,
    name: string,
    arguments: string,
    itemID: string,
    outputIndex: int,
    added: Announcement)

  ghost predicate HasCall(order: seq<CallState>, i: int) {
    exists k :: 0 <= k < |order| && order[k].outputIndex == i
  }

  /** Each call is shown, unfinished, at its index, and the indices go up. */
  ghost predicate CallsShown(shown: seq<Shown>, order: seq<CallState>) {
    && (forall k | 0 <= k < |order| ::
          0 <= order[k].outputIndex < |shown|
          && shown[order[k].outputIndex] == ShownCall(order[k].itemID, order[k].arguments, 0, order[k].added))
    && (forall j, k | 0 <= j < k < |order| :: order[j].outputIndex < order[k].outputIndex)
  }

  /** What the client has been shown is the message, if begun, and the calls. */
  ghost predicate ShownFor(shown: seq<Shown>, textStarted: bool, messageIndex: int, messageID: string, text: string,
                           order: seq<CallState>)
  {
    && (if textStarted then 0 <= messageIndex < |shown| && shown[messageIndex] == ShownMessage(messageID, 1, text, 0)
        else text == "")
    && CallsShown(shown, order)
    && (forall i | 0 <= i < |shown| :: (textStarted && i == messageIndex) || HasCall(order, i))
  }

  /** The same items with the same content, at whatever stage. */
  ghost predicate SameContent(a: seq<Shown>, b: seq<Shown>) {
    |a| == |b| && forall i | 0 <= i < |a| ::
      && a[i].ShownMessage? == b[i].ShownMessage? && a[i].id == b[i].id && a[i].received == b[i].received
      && (a[i].ShownCall? ==> a[i].added == b[i].added)
  }

  /** Places of the calls of the inputs among the items shown, one for one. */
  ghost predicate Places(shown: seq<Shown>, inputs: seq<Upstream>, place: map<int, int>) {
    && (forall i :: i in place <==> MentionsCall(inputs, i))
    && (forall i | i in place ::
          && 0 <= place[i] < |shown| && shown[place[i]].ShownCall?
          && shown[place[i]].received == CallOf(inputs, i).arguments
          && CallOf(inputs, i).first == Some(shown[place[i]].added))
    && (forall i, j | i in place && j in place && i != j :: place[i] != place[j])
    && (forall p | 0 <= p < |shown| && shown[p].ShownCall? :: exists i :: i in place && place[i] == p)
  }

  /** The output has each call under the id and the name the upstream sent. */
  ghost predicate SlotsSay(output: seq<Option<Item>>, inputs: seq<Upstream>, place: map<int, int>) {
    forall i | i in place ::
      && 0 <= place[i] < |output| && output[place[i]].Some? && output[place[i]].value.CallItem?
      && var item := output[place[i]].value;
         var call := CallOf(inputs, i);
         item.callID == call.id && item.name == call.name && item.arguments == call.arguments
  }

  /** The items a client was shown carry exactly the text and the arguments that the
      upstream sent: one message if there was text, one item per call. The output at the
      end, unless the response failed, has the ids and names as well. */
  ghost predicate Delivered(shown: seq<Shown>, output: seq<Option<Item>>, inputs: seq<Upstream>) {
    && (forall i | 0 <= i < |shown| && shown[i].ShownMessage? :: shown[i].received == TextOf(inputs))
    && (TextOf(inputs) != "" ==> exists i :: 0 <= i < |shown| && shown[i].ShownMessage?)
    && exists place: map<int, int> ::
         Places(shown, inputs, place) && (output != [] ==> SlotsSay(output, inputs, place))
  }

  /** Fresh names for items: all different, and different from the message's. */
  ghost predicate FreshIDs(messageID: string, itemID: nat -> string) {
    && (forall k: nat :: itemID(k) != messageID)
    && forall j: nat, k: nat | j != k :: itemID(j) != itemID(k)
  }

  ghost predicate DistinctItems(shown: seq<Shown>) {
    forall i, j | 0 <= i < j < |shown| :: shown[i].id != shown[j].id
  }

  lemma ItemsDiffer(shown: seq<Shown>, final: seq<Shown>, textStarted: bool, messageIndex: int, messageID: string,
                    text: string, order: seq<CallState>, itemID: nat -> string)
    requires ShownFor(shown, textStarted, messageIndex, messageID, text, order) && SameContent(shown, final)
    requires FreshIDs(messageID, itemID) && forall k: nat | k < |order| :: order[k].itemID == itemID(k)
    ensures DistinctItems(final)
  {
    forall i, j | 0 <= i < j < |final| ensures final[i].id != final[j].id {
      if !(textStarted && i == messageIndex) {
        assert HasCall(order, i);
        var k :| 0 <= k < |order| && order[k].outputIndex == i;
        assert final[i].id == itemID(k);
      }
      if !(textStarted && j == messageIndex) {
        assert HasCall(order, j);
        var k :| 0 <= k < |order| && order[k].outputIndex == j;
        assert final[j].id == itemID(k);
      }
    }
  }

  lemma SamePlaces(a: seq<Shown>, b: seq<Shown>, inputs: seq<Upstream>, place: map<int, int>)
    requires SameContent(a, b) && Places(a, inputs, place)
    ensures Places(b, inputs, place)
  {
    hide TextOf, CallOf, MentionsCall;
  }

  /** What was gathered is delivered: shown is what the client had been shown when the
      inputs ended, final what it has been shown in the end. */
  lemma GatheredDelivers(shown: seq<Shown>, final: seq<Shown>, output: seq<Option<Item>>, status: Status,
                         textStarted: bool, messageIndex: int, messageID: string, text: string,
                         order: seq<CallState>, calls: map<int, nat>, inputs: seq<Upstream>)
    requires ShownFor(shown, textStarted, messageIndex, messageID, text, order) && Indexed(calls, |order|)
    requires text == TextOf(inputs) && SameContent(shown, final)
    requires forall i :: i in calls <==> MentionsCall(inputs, i)
    requires forall i :: StateAt(calls, order, i) == CallOf(inputs, i)
    requires output == [] || OutputFor(shown, textStarted, messageIndex, messageID, text, order, status, output)
    ensures Delivered(final, output, inputs)
  {
    hide TextOf, CallOf, MentionsCall, Places, StateAt;
    var place := PlacesOfCalls(shown, order, calls, inputs);
    SamePlaces(shown, final, inputs, place);
    forall i | 0 <= i < |shown| && shown[i].ShownMessage? ensures shown[i].received == TextOf(inputs) {
      assert textStarted && i == messageIndex by {
        NotACall(shown, textStarted, messageIndex, messageID, text, order, i);
      }
    }
    if TextOf(inputs) != "" {
      assert final[messageIndex].ShownMessage?;
    }
    if output != [] {
      SlotsFollow(shown, output, status, textStarted, messageIndex, messageID, text, order, calls, inputs, place);
    }
  }

  lemma NotACall(shown: seq<Shown>, textStarted: bool, messageIndex: int, messageID: string, text: string,
                 order: seq<CallState>, i: int)
    requires ShownFor(shown, textStarted, messageIndex, messageID, text, order)
    requires 0 <= i < |shown| && shown[i].ShownMessage?
    ensures textStarted && i == messageIndex
  {
    assert (textStarted && i == messageIndex) || HasCall(order, i);
  }

  lemma SlotsFollow(shown: seq<Shown>, output: seq<Option<Item>>, status: Status,
                    textStarted: bool, messageIndex: int, messageID: string, text: string,
                    order: seq<CallState>, calls: map<int, nat>, inputs: seq<Upstream>, place: map<int, int>)
    requires OutputFor(shown, textStarted, messageIndex, messageID, text, order, status, output)
    requires forall i | i in place :: i in calls && calls[i] < |order| && place[i] == order[calls[i]].outputIndex
    requires forall i :: StateAt(calls, order, i) == CallOf(inputs, i)
    ensures SlotsSay(output, inputs, place)
  {
    hide CallOf;
    forall i | i in place
      ensures 0 <= place[i] < |output| && output[place[i]] == Some(ItemOf(order[calls[i]], status))
      ensures var st := order[calls[i]];
              StateAt(calls, order, i) == Spelt(st.id, st.name, st.arguments, Some(st.added))
    {
    }
  }

  lemma PlacesOfCalls(shown: seq<Shown>, order: seq<CallState>, calls: map<int, nat>, inputs: seq<Upstream>)
    returns (place: map<int, int>)
    requires CallsShown(shown, order) && Indexed(calls, |order|)
    requires forall p | 0 <= p < |shown| && shown[p].ShownCall? :: HasCall(order, p)
    requires forall i :: i in calls <==> MentionsCall(inputs, i)
    requires forall i :: StateAt(calls, order, i) == CallOf(inputs, i)
    ensures Places(shown, inputs, place)
    ensures forall i | i in place :: i in calls && calls[i] < |order| && place[i] == order[calls[i]].outputIndex
  {
    hide TextOf, CallOf, MentionsCall, HasCall, IsIndexed;
    place := map i | i in calls :: order[calls[i]].outputIndex;
    forall i | i in place
      ensures 0 <= place[i] < |shown| && shown[place[i]].ShownCall?
      ensures shown[place[i]].received == CallOf(inputs, i).arguments
      ensures CallOf(inputs, i).first == Some(shown[place[i]].added)
    {
      assert StateAt(calls, order, i).arguments == order[calls[i]].arguments;
    }
    forall i, j | i in place && j in place && i != j ensures place[i] != place[j] {
      IncreasingIndices(shown, order, calls[i], calls[j]);
    }
    forall p | 0 <= p < |shown| && shown[p].ShownCall? ensures exists i :: i in place && place[i] == p {
      var i := CallAt(order, calls, p);
      assert place[i] == p;
    }
  }

  lemma CallAt(order: seq<CallState>, calls: map<int, nat>, p: int) returns (i: int)
    requires HasCall(order, p) && Indexed(calls, |order|)
    ensures i in calls && calls[i] < |order| && order[calls[i]].outputIndex == p
  {
    var k :| 0 <= k < |order| && order[k].outputIndex == p;
    assert IsIndexed(calls, k);
    i :| i in calls && calls[i] == k;
  }

  lemma IncreasingIndices(shown: seq<Shown>, order: seq<CallState>, j: nat, k: nat)
    requires CallsShown(shown, order) && j < |order| && k < |order| && j != k
    ensures order[j].outputIndex != order[k].outputIndex
  {
    var low, high := if j < k then j else k, if j < k then k else j;
    assert order[low].outputIndex < order[high].outputIndex;
  }

  lemma TextUnshown(shown: seq<Shown>, textStarted: bool, messageIndex: int, messageID: string, text: string,
                    order: seq<CallState>)
    requires ShownFor(shown, textStarted, messageIndex, messageID, text, order)
    ensures if textStarted
            then 0 <= messageIndex < |shown| && shown[messageIndex] == ShownMessage(messageID, 1, text, 0)
            else text == "" && ShownFor(shown, false, -1, messageID, "", order)
  {
  }

  lemma MessageBegins(shown: seq<Shown>, messageID: string, text: string, order: seq<CallState>)
    requires ShownFor(shown, false, -1, messageID, "", order)
    ensures forall s | s in shown :: s.ShownCall?
    ensures ShownFor(shown + [ShownMessage(messageID, 1, text, 0)], true, |shown|, messageID, text, order)
  {
    forall s | s in shown ensures s.ShownCall? {
      var i :| 0 <= i < |shown| && shown[i] == s;
      assert HasCall(order, i);
    }
    var more := shown + [ShownMessage(messageID, 1, text, 0)];
    assert forall i | 0 <= i < |shown| :: more[i] == shown[i];
  }

  lemma MessageGrows(shown: seq<Shown>, messageIndex: int, messageID: string, text: string,
                     order: seq<CallState>, more: string)
    requires ShownFor(shown, true, messageIndex, messageID, text, order)
    ensures ShownFor(shown[messageIndex := ShownMessage(messageID, 1, text + more, 0)],
                     true, messageIndex, messageID, text + more, order)
  {
  }

  lemma CallBegins(shown: seq<Shown>, textStarted: bool, messageIndex: int, messageID: string, text: string,
                   order: seq<CallState>, st: CallState)
    requires ShownFor(shown, textStarted, messageIndex, messageID, text, order)
    requires st.outputIndex == |shown| && st.arguments == ""
    ensures ShownFor(shown + [ShownCall(st.itemID, "", 0, st.added)],
                     textStarted, messageIndex, messageID, text, order + [st])
  {
    var more, longer := shown + [ShownCall(st.itemID, "", 0, st.added)], order + [st];
    assert forall i | 0 <= i < |shown| :: more[i] == shown[i];
    forall i | 0 <= i < |more| ensures (textStarted && i == messageIndex) || HasCall(longer, i) {
      if i == |shown| {
        assert longer[|order|].outputIndex == i;
      } else if HasCall(order, i) {
        var k :| 0 <= k < |order| && order[k].outputIndex == i;
        assert longer[k].outputIndex == i;
      }
    }
  }

  lemma CallShown(shown: seq<Shown>, textStarted: bool, messageIndex: int, messageID: string, text: string,
                  order: seq<CallState>, k: nat)
    requires ShownFor(shown, textStarted, messageIndex, messageID, text, order) && k < |order|
    ensures 0 <= order[k].outputIndex < |shown|
    ensures shown[order[k].outputIndex] == ShownCall(order[k].itemID, order[k].arguments, 0, order[k].added)
  {
  }

  lemma CallGrows(shown: seq<Shown>, textStarted: bool, messageIndex: int, messageID: string, text: string,
                  order: seq<CallState>, k: nat, st: CallState)
    requires ShownFor(shown, textStarted, messageIndex, messageID, text, order) && k < |order|
    requires st.outputIndex == order[k].outputIndex && st.itemID == order[k].itemID && st.added == order[k].added
    ensures ShownFor(shown[st.outputIndex := ShownCall(st.itemID, st.arguments, 0, st.added)],
                     textStarted, messageIndex, messageID, text, order[k := st])
  {
    var longer := order[k := st];
    forall i | 0 <= i < |shown| ensures (textStarted && i == messageIndex) || HasCall(longer, i) {
      if HasCall(order, i) {
        var j :| 0 <= j < |order| && order[j].outputIndex == i;
        assert longer[j].outputIndex == i;
      }
    }
  }

  /** The call gathered for an upstream index. */
  ghost function StateAt(calls: map<int, nat>, order: seq<CallState>, index: int): Spelt {
    if index in calls && calls[index] < |order| then
      var st := order[calls[index]];
      Spelt(st.id, st.name, st.arguments, Some(st.added))
    else BLANK
  }

  /** Every call was announced under a beginning of its name, and nothing is done yet. */
  ghost predicate Announced(client: Client, order: seq<CallState>) {
    && client.named == map[] && client.done == map[]
    && BegunNames(client.announced, order)
  }

  ghost predicate BegunNames(announced: map<int, string>, order: seq<CallState>) {
    forall k | 0 <= k < |order| && order[k].outputIndex in announced ::
      announced[order[k].outputIndex] <= order[k].name
  }

  lemma NameBegins(announced: map<int, string>, shown: seq<Shown>, order: seq<CallState>, st: CallState)
    requires BegunNames(announced, order) && CallsShown(shown, order) && st.outputIndex == |shown|
    ensures BegunNames(announced[st.outputIndex := st.name], order + [st])
  {
    var more, longer := announced[st.outputIndex := st.name], order + [st];
    forall k | 0 <= k < |longer| && longer[k].outputIndex in more
      ensures more[longer[k].outputIndex] <= longer[k].name
    {
      if k < |order| {
        assert longer[k] == order[k] && order[k].outputIndex < |shown|;
      }
    }
  }

  lemma NameGrows(announced: map<int, string>, order: seq<CallState>, k: nat, st: CallState)
    requires BegunNames(announced, order) && k < |order|
    requires st.outputIndex == order[k].outputIndex && order[k].name <= st.name
    ensures BegunNames(announced, order[k := st])
  {
  }

  /** Upstream indices stand for distinct positions among n calls. */
  ghost predicate Indexed(calls: map<int, nat>, n: nat) {
    && (forall index | index in calls :: calls[index] < n)
    && (forall a, b | a in calls && b in calls && a != b :: calls[a] != calls[b])
    && (n == 0 <==> calls.Keys == {})
    && (forall k: nat | k < n :: IsIndexed(calls, k))
  }

  ghost predicate IsIndexed(calls: map<int, nat>, k: nat) {
    exists index :: index in calls && calls[index] == k
  }

  lemma IndexedBelow(calls: map<int, nat>, n: nat)
    requires Indexed(calls, n)
    ensures forall index | index in calls :: calls[index] < n
    ensures forall a, b | a in calls && b in calls && a != b :: calls[a] != calls[b]
  {
  }

  lemma IndexedMore(calls: map<int, nat>, n: nat, index: int)
    requires Indexed(calls, n) && index !in calls
    ensures Indexed(calls[index := n], n + 1)
  {
    var more := calls[index := n];
    assert index in more.Keys;
    forall k: nat | k < n + 1 ensures IsIndexed(more, k) {
      if k < n {
        assert IsIndexed(calls, k);
        var i :| i in calls && calls[i] == k;
        assert i in more && more[i] == k;
      } else {
        assert more[index] == k;
      }
    }
  }

  lemma NothingShown(needsCommit: bool, messageID: string)
    ensures Replay(needsCommit, []) == Some(CONNECTED)
    ensures ShownFor([], false, -1, messageID, "", [])
    ensures Indexed(map[], 0)
    ensures TextOf([]) == "" && FinishOf([]) == "" && CodeOf([]) == "" && !UpstreamFailed([])
    ensures forall index :: !MentionsCall([], index) && StateAt(map[], [], index) == CallOf([], index)
    ensures ComplaintsOf([]) == "" && BeatsOf([]) == 0
  {
  }

  lemma ProgressIsSeen(needsCommit: bool, c: Client)
    requires !c.finished && c.next > 0
    ensures Observe(needsCommit, c, Sent(c.next, InProgress)) == Some(c.(next := c.next + 1, beats := c.beats + 1))
  {
  }

  lemma CreationIsSeen(needsCommit: bool)
    ensures Observe(needsCommit, CONNECTED, Sent(0, Created)) == Some(CONNECTED.(next := 1))
  {
  }

  lemma CallIsSeen(needsCommit: bool, c: Client, st: CallState)
    requires !c.finished && c.next >= 2 && c.commit.None? && st.outputIndex == |c.shown|
    ensures Observe(needsCommit, c, Sent(c.next, CallAdded(st.outputIndex, st.itemID, st.id, st.name))) ==
            Some(c.(next := c.next + 1, announced := c.announced[st.outputIndex := st.name],
                    shown := c.shown + [ShownCall(st.itemID, "", 0, Announcement(st.id, st.name))]))
  {
  }

  lemma NothingAnnounced(client: Client)
    requires client.named == map[] && client.done == map[]
    ensures Announced(client, [])
  {
  }

  class Transducer {
    const needsCommit: bool
    const messageID: string
    const itemID: nat -> string

    var sequence: int
    var text: string
    var textStarted: bool
    var messageIndex: int
    var nextIndex: int
    var calls: map<int, nat>
    var order: seq<CallState>
    var errorText: string
    var errorCode: string
    var finish: string
    var failed: bool
    var sawDone: bool

    var log: seq<Entry>

    ghost var client: Client

    /** The in-progress events sent so far. */
    ghost var beats: nat

    /** The client accepted the log, and nothing is committed yet. */
    ghost predicate Open()
      reads this`log, this`sequence, this`client, this`beats
    {
      && Replay(needsCommit, log) == Some(client)
      && client.next == sequence >= 2 && client.commit == None && client.persisted == None
      && client.executable == [] && !client.finished && client.beats == beats
    }

    ghost predicate Gathering()
      reads this`log, this`sequence, this`client, this`beats, this`text, this`textStarted, this`messageIndex
      reads this`nextIndex, this`calls, this`order
    {
      && Open()
      && |client.shown| == nextIndex
      && ShownFor(client.shown, textStarted, messageIndex, messageID, text, order)
      && Announced(client, order)
      && Indexed(calls, |order|)
      && forall k: nat | k < |order| :: order[k].itemID == itemID(k)
    }

    /** The fields hold what the inputs read so far say. */
    ghost predicate Gathered(inputs: seq<Upstream>)
      reads this
    {
      && text == TextOf(inputs)
      && (forall index :: index in calls <==> MentionsCall(inputs, index))
      && (forall index :: StateAt(calls, order, index) == CallOf(inputs, index))
      && finish == FinishOf(inputs) && errorCode == CodeOf(inputs)
      && (failed <==> UpstreamFailed(inputs))
      && (sawDone <==> DoneMark in inputs)
      && errorText == ComplaintsOf(inputs) && beats == 1 + BeatsOf(inputs)
    }

    constructor (needsCommit: bool, messageID: string, itemID: nat -> string)
      ensures Gathering() && Gathered([])
      ensures this.needsCommit == needsCommit && this.messageID == messageID && this.itemID == itemID
    {
      this.needsCommit, this.messageID, this.itemID := needsCommit, messageID, itemID;
      text, textStarted, messageIndex, nextIndex := "", false, -1, 0;
      calls, order := map[], [];
      errorText, errorCode, finish, failed, sawDone := "", "", "", false, false;
      sequence, log, client, beats := 0, [], CONNECTED, 1;
      new;
      hide Gathering, Gathered;
      Start();
    }

    /** The two events that every stream begins with. */
    method Start()
      requires text == "" && !textStarted && messageIndex == -1 && nextIndex == 0 && calls == map[] && order == []
      requires errorText == errorCode == finish == "" && !failed && !sawDone
      requires sequence == 0 && log == [] && client == CONNECTED && beats == 1
      modifies this`log, this`sequence, this`client
      ensures Gathering() && Gathered([])
    {
      hide Replay, ShownFor, Indexed, TextOf, FinishOf, CodeOf, MentionsCall, UpstreamFailed, ComplaintsOf, BeatsOf;
      hide CallOf, StateAt, Announced, Observe;
      NothingShown(needsCommit, messageID);
      CreationIsSeen(needsCommit);
      Emit(Created);
      ProgressIsSeen(needsCommit, client);
      Emit(InProgress);
      NothingAnnounced(client);
    }

    /** Sends one event, numbered, to a client that accepts it. */
    method Emit(body: Body)
      requires Replay(needsCommit, log) == Some(client) && client.next == sequence
      requires Observe(needsCommit, client, Sent(sequence, body)).Some?
      modifies this`log, this`sequence, this`client
      ensures log == old(log) + [Sent(old(sequence), body)] && sequence == old(sequence) + 1
      ensures client == Observe(needsCommit, old(client), Sent(old(sequence), body)).value
      ensures Replay(needsCommit, log) == Some(client) && client.next == sequence
    {
      ReplayMore(needsCommit, log, Sent(sequence, body));
      client := Observe(needsCommit, client, Sent(sequence, body)).value;
      log := log + [Sent(sequence, body)];
      sequence := sequence + 1;
    }

    /** A heartbeat: an event without content. */
    method Beat()
      requires Gathering()
      modifies this`log, this`sequence, this`client, this`beats
      ensures Gathering() && beats == old(beats) + 1
    {
      hide Replay, ShownFor, Indexed, Observe;
      ProgressIsSeen(needsCommit, client);
      Emit(InProgress);
      beats := beats + 1;
    }

    /** The message is announced under the next output index. */
    method BeginMessage()
      requires Gathering() && !textStarted
      modifies this`textStarted, this`messageIndex, this`nextIndex, this`log, this`sequence, this`client
      ensures Gathering() && textStarted
    {
      hide Replay, ShownFor, Indexed, BegunNames;
      ghost var shown := client.shown;
      TextUnshown(shown, textStarted, messageIndex, messageID, text, order);
      MessageBegins(shown, messageID, "", order);
      textStarted := true;
      messageIndex := nextIndex;
      nextIndex := nextIndex + 1;
      Emit(MessageAdded(messageIndex, messageID));
      Emit(PartAdded(messageIndex, messageID));
      assert client.shown == shown + [ShownMessage(messageID, 1, "", 0)];
    }

    method HandleText(content: string)
      requires Gathering() && content != ""
      modifies this`text, this`textStarted, this`messageIndex, this`nextIndex, this`log, this`sequence, this`client
      ensures Gathering() && text == old(text) + content
    {
      hide Replay, ShownFor, Indexed, BegunNames;
      if !textStarted {
        BeginMessage();
      }
      TextUnshown(client.shown, textStarted, messageIndex, messageID, text, order);
      MessageGrows(client.shown, messageIndex, messageID, text, order, content);
      text := text + content;
      Emit(TextDelta(messageIndex, messageID, content));
    }

    /** A call met for the first time is announced under the next output index. */
    method BeginCall(d: CallDelta)
      requires Gathering() && d.index !in calls
      modifies this`calls, this`order, this`nextIndex, this`log, this`sequence, this`client
      ensures Gathering()
      ensures calls.Keys == old(calls).Keys + {d.index}
      ensures forall i :: StateAt(calls, order, i) == Apply(StateAt(old(calls), old(order), i), NamingFor(d, i))
    {
      hide Replay, ShownFor, Indexed, BegunNames, Observe;
      IndexedBelow(calls, |order|);
      var st := CallState(OrEmpty(d.id), OrEmpty(d.name), "", itemID(|order|), nextIndex,
                          Announcement(OrEmpty(d.id), OrEmpty(d.name)));
      CallBegins(client.shown, textStarted, messageIndex, messageID, text, order, st);
      CallsAreShown(client.shown, textStarted, messageIndex, messageID, text, order);
      NameBegins(client.announced, client.shown, order, st);
      IndexedMore(calls, |order|, d.index);
      StateBegins(calls, order, d, st);
      calls := calls[d.index := |order|];
      order := order + [st];
      nextIndex := nextIndex + 1;
      CallIsSeen(needsCommit, client, st);
      Emit(CallAdded(st.outputIndex, st.itemID, st.id, st.name));
    }

    method RenameCall(d: CallDelta)
      requires Gathering() && d.index in calls
      modifies this`order
      ensures Gathering()
      ensures forall i :: StateAt(calls, order, i) == Apply(StateAt(calls, old(order), i), NamingFor(d, i))
    {
      hide Replay, ShownFor, Indexed, BegunNames;
      IndexedBelow(calls, |order|);
      var k := calls[d.index];
      var st := order[k].(id := if d.id.Some? then d.id.value else order[k].id,
                          name := order[k].name + OrEmpty(d.name));
      CallShown(client.shown, textStarted, messageIndex, messageID, text, order, k);
      CallGrows(client.shown, textStarted, messageIndex, messageID, text, order, k, st);
      NameGrows(client.announced, order, k, st);
      StateGrows(calls, order, d.index, st, NamingFor(d, d.index));
      assert client.shown[st.outputIndex := ShownCall(st.itemID, st.arguments, 0, st.added)] == client.shown;
      order := order[k := st];
    }

    method GrowCall(index: int, arguments: string)
      requires Gathering() && index in calls
      modifies this`order, this`log, this`sequence, this`client
      ensures Gathering()
      ensures forall i :: StateAt(calls, order, i) ==
                          Apply(StateAt(calls, old(order), i),
                                if i == index then Spelling(None, "", arguments, None) else SILENT)
    {
      hide Replay, ShownFor, Indexed, BegunNames;
      IndexedBelow(calls, |order|);
      var k := calls[index];
      var st := order[k].(arguments := order[k].arguments + arguments);
      CallShown(client.shown, textStarted, messageIndex, messageID, text, order, k);
      CallGrows(client.shown, textStarted, messageIndex, messageID, text, order, k, st);
      NameGrows(client.announced, order, k, st);
      StateGrows(calls, order, index, st, Spelling(None, "", arguments, None));
      Emit(ArgumentsDelta(st.outputIndex, st.itemID, arguments));
      order := order[k := st];
    }

    /** A delta replaces the id of its call, and adds to its name and its arguments. */
    method HandleCall(d: CallDelta)
      requires Gathering()
      modifies this`calls, this`order, this`nextIndex, this`log, this`sequence, this`client
      ensures Gathering()
      ensures CallsGrow(old(calls), old(order), calls, order, d)
    {
      hide Replay, ShownFor, Indexed, Observe, StateAt, Apply, NamingFor, SpellingFor;
      ghost var startCalls, startOrder := calls, order;
      if d.index in calls {
        RenameCall(d);
      } else {
        BeginCall(d);
      }
      ghost var midCalls, midOrder := calls, order;
      if d.arguments.Some? {
        GrowCall(d.index, d.arguments.value);
      }
      NamedThenGrown(startCalls, startOrder, midCalls, midOrder, calls, order, d);
    }

    method HandleChoice(ghost inputs: seq<Upstream>, c: Upstream)
      requires c.Choice? && Gathering() && Gathered(inputs)
      modifies this
      ensures Gathering() && Gathered(inputs + [c])
    {
      hide Replay, ShownFor, Indexed, TextOf, CallOf, SpellingIn, FinishOf, CodeOf, UpstreamFailed, MentionsCall;
      hide CallsIndex, ComplaintsOf, BeatsOf, Malformation, Gathering;
      hide Observe, StateAt, CallsGathered, CallsGrow, Announced;
      ghost var startCalls, startOrder := calls, order;
      OneMoreInput(inputs, c);
      if c.finish != "" {
        finish := c.finish;
      }
      if c.content != "" {
        HandleText(c.content);
      }
      CallsGatheredStart(calls, order, c.calls);
      var j := 0;
      while j < |c.calls|
        invariant 0 <= j <= |c.calls| && Gathering()
        invariant text == TextOf(inputs + [c]) && finish == FinishOf(inputs + [c])
        invariant failed == UpstreamFailed(inputs) && sawDone == (DoneMark in inputs) && errorCode == CodeOf(inputs)
        invariant errorText == ComplaintsOf(inputs) && beats == 1 + BeatsOf(inputs)
        invariant CallsGathered(startCalls, startOrder, calls, order, c.calls[..j])
      {
        ghost var midCalls, midOrder := calls, order;
        HandleCall(c.calls[j]);
        CallsGatheredMore(startCalls, startOrder, midCalls, midOrder, calls, order, c.calls, j);
        j := j + 1;
      }
      assert c.calls[..j] == c.calls;
      CallsAreGathered(inputs, c, startCalls, startOrder, calls, order);
    }

    /** The failed terminal event: it shows no output and nothing executable. */
    method Fail(code: string, message: string)
      requires Replay(needsCommit, log) == Some(client) && client.next == sequence >= 2
      requires client.executable == [] && !client.finished
      requires forall i | 0 <= i < |client.shown| :: client.shown[i].stage == 0
      modifies this`log, this`sequence, this`client
      ensures Replay(needsCommit, log) == Some(client) && client.finished
      ensures EndsWith(log, Failed, code, message) && client.shown == old(client.shown) && client.output == []
      ensures client.commit == old(client.commit) && client.beats == old(client.beats)
    {
      hide Replay;
      Emit(Terminal(Failed, [], code, message));
    }

    /** Every output slot is filled with the item that was added under its index. */
    method BuildOutput(status: Status) returns (output: seq<Option<Item>>)
      requires Gathering()
      ensures OutputFor(client.shown, textStarted, messageIndex, messageID, text, order, status, output)
    {
      hide Replay;
      output := seq(nextIndex, _ => None);
      if textStarted {
        output := output[messageIndex := Some(MessageItem(messageID, text, status))];
      }
      var k := 0;
      while k < |order|
        invariant 0 <= k <= |order| && |output| == nextIndex
        invariant textStarted ==> output[messageIndex] == Some(MessageItem(messageID, text, status))
        invariant forall j | 0 <= j < k :: output[order[j].outputIndex] == Some(ItemOf(order[j], status))
      {
        output := output[order[k].outputIndex := Some(ItemOf(order[k], status))];
        k := k + 1;
      }
    }

    /** Heartbeats go on while the continuation state is being written. */
    method Persist(assistant: Message, ticks: seq<bool>, ok: bool)
      requires Gathering() && needsCommit
      modifies this`log, this`sequence, this`client, this`beats
      ensures Replay(needsCommit, log) == Some(client) && client.next == sequence >= 2 && !client.finished
      ensures client.shown == old(client.shown) && client.executable == [] && Announced(client, order)
      ensures client.beats == beats == old(beats) + Due(ticks)
      ensures client.commit == Some(ok) && client.persisted == if ok then Some(assistant) else None
    {
      hide Replay, ShownFor, Indexed;
      var i := 0;
      while i < |ticks|
        invariant 0 <= i <= |ticks| && Open() && client.shown == old(client.shown) && Announced(client, order)
        invariant beats == old(beats) + Due(ticks[..i])
      {
        assert ticks[..i + 1][..i] == ticks[..i];
        if ticks[i] {
          ProgressIsSeen(needsCommit, client);
          Emit(InProgress);
          beats := beats + 1;
        }
        i := i + 1;
      }
      assert ticks[..i] == ticks;
      ReplayMore(needsCommit, log, Commit(assistant, ok));
      log := log + [Commit(assistant, ok)];
      client := client.(commit := Some(ok), persisted := if ok then Some(assistant) else None);
    }

    /** The client is being shown what is done; n calls are already. */
    ghost predicate Closing(messageStage: nat, n: nat, output: seq<Option<Item>>)
      reads this
    {
      && Replay(needsCommit, log) == Some(client) && client.next == sequence >= 2 && !client.finished
      && Gate(needsCommit, client) && client.beats == beats
      && |client.shown| == nextIndex && n <= |order|
      && ClosingFor(client.shown, textStarted, messageIndex, messageID, text, order, messageStage, n)
      && client.executable == Executable(order[..n])
      && Noted(client, order, output)
    }

    method CloseText(output: seq<Option<Item>>)
      requires Closing(0, 0, output) && textStarted
      modifies this`log, this`sequence, this`client
      ensures Closing(2, 0, output) && client.persisted == old(client.persisted)
      ensures client.commit == old(client.commit)
      ensures SameContent(old(client.shown), client.shown)
    {
      hide Replay, ClosingFor, BegunNames;
      ghost var shown := client.shown;
      MessageCloses(shown, messageIndex, messageID, text, order, 0, 0, 2);
      Emit(TextDone(messageIndex, messageID, text));
      Emit(PartDone(messageIndex, messageID, text));
      assert client.shown == shown[messageIndex := ShownMessage(messageID, 1, text, 2)];
    }

    method CloseMessage(output: seq<Option<Item>>, status: Status)
      requires Closing(0, 0, output) && textStarted && 0 <= messageIndex < |output|
      requires output[messageIndex] == Some(MessageItem(messageID, text, status))
      modifies this`log, this`sequence, this`client
      ensures Closing(3, 0, output) && client.persisted == old(client.persisted)
      ensures client.commit == old(client.commit)
      ensures SameContent(old(client.shown), client.shown)
    {
      hide Replay, ClosingFor, BegunNames;
      CloseText(output);
      ghost var shown := client.shown;
      MessageCloses(shown, messageIndex, messageID, text, order, 0, 2, 3);
      Emit(ItemDone(messageIndex, output[messageIndex]));
      assert client.shown == shown[messageIndex := ShownMessage(messageID, 1, text, 3)];
    }

    method CloseCall(k: nat, messageStage: nat, output: seq<Option<Item>>)
      requires Closing(messageStage, k, output) && k < |order| && 0 <= order[k].outputIndex < |output|
      requires output[order[k].outputIndex] == Some(ItemOf(order[k], Completed))
      modifies this`log, this`sequence, this`client
      ensures Closing(messageStage, k + 1, output) && client.persisted == old(client.persisted)
      ensures client.commit == old(client.commit)
      ensures SameContent(old(client.shown), client.shown)
    {
      hide Replay, ClosingFor;
      var st := order[k];
      ghost var shown := client.shown;
      CallCloses(shown, textStarted, messageIndex, messageID, text, order, messageStage, k);
      Emit(ArgumentsDone(st.outputIndex, st.itemID, st.name, st.arguments));
      Emit(ItemDone(st.outputIndex, output[st.outputIndex]));
      assert client.shown == shown[st.outputIndex := ShownCall(st.itemID, st.arguments, 2, st.added)];
      ExecutableMore(order, k);
    }

    /** The last events: everything done that may be, then the terminal event. */
    method Close(status: Status, output: seq<Option<Item>>)
      requires Closing(0, 0, output) && status != Failed
      requires OutputFor(client.shown, textStarted, messageIndex, messageID, text, order, status, output)
      requires needsCommit ==> client.persisted.Some?
      requires needsCommit ==>
                 client.persisted.value.toolCalls == (if status == Completed then Executable(order) else [])
                 && IsAnswer(client.persisted.value, textStarted, text)
      modifies this`log, this`sequence, this`client
      ensures Replay(needsCommit, log) == Some(client) && client.finished
      ensures EndsWith(log, status, "", "") && SameContent(old(client.shown), client.shown)
      ensures client.output == output && client.commit == old(client.commit) && client.beats == beats
    {
      hide Replay, ClosingFor, OutputFor, Observe, Executable, Noted;
      ghost var shown := client.shown;
      var stage := if textStarted then 3 else 0;
      if textStarted {
        SlotOfMessage(shown, messageIndex, messageID, text, order, status, output);
        CloseMessage(output, status);
      }
      var k := 0;
      if status == Completed {
        while k < |order|
          invariant 0 <= k <= |order| && Closing(stage, k, output) && client.persisted == old(client.persisted)
          invariant SameContent(old(client.shown), client.shown) && client.commit == old(client.commit)
        {
          SlotOfCall(shown, textStarted, messageIndex, messageID, text, order, status, output, k);
          CloseCall(k, stage, output);
          k := k + 1;
        }
        assert order[..k] == order;
      }
      NotedRepeats(client, textStarted, messageIndex, messageID, text, order, status, output, shown, stage, k);
      EverythingClosed(needsCommit, client, textStarted, messageIndex, messageID, text, order, status, output, shown);
      TerminalAccepted(needsCommit, client, sequence, status, output);
      Emit(Terminal(status, output, "", ""));
    }

    /** A read error or a missing end mark is an upstream failure too. */
    method NoteEnd(readError: Option<string>)
      requires Gathering()
      modifies this`failed, this`errorText
      ensures Gathering() && failed == (old(failed) || readError.Some? || !sawDone)
      ensures errorText == old(errorText) + LastWords(readError, sawDone)
    {
      hide Gathering, ReadFailed, Disconnected;
      if readError.Some? {
        failed := true;
        errorText := errorText + ReadFailed(readError.value);
      }
      if !sawDone {
        failed := true;
        errorText := errorText + Disconnected();
      }
    }

    /** The end of the stream: a failure, or the commit and then the done events. */
    method Finish(ghost inputs: seq<Upstream>, readError: Option<string>, ticks: seq<bool>, commitOk: bool)
      requires Gathering() && Gathered(inputs)
      modifies this
      ensures Replay(needsCommit, log) == Some(client) && client.finished
      ensures EndsWith(log, Outcome(inputs, readError, needsCommit, commitOk),
                     EndCode(inputs, readError, needsCommit, commitOk),
                     EndMessage(inputs, readError, needsCommit, commitOk))
      ensures Delivered(client.shown, client.output, inputs)
      ensures client.beats == 1 + BeatsOf(inputs) + if client.commit.Some? then Due(ticks) else 0
      ensures FreshIDs(messageID, itemID) ==> DistinctItems(client.shown)
      ensures client.commit == if needsCommit && Outcome(inputs, readError, false, true) != Failed
                               then Some(commitOk) else None
    {
      hide Replay, ShownFor, Indexed, TextOf, CallOf, FinishOf, CodeOf, UpstreamFailed, MentionsCall, Observe, StateAt;
      hide Outcome, OutputFor, Delivered, SameContent, Announced, FreshIDs, DistinctItems;
      hide ComplaintsOf, BeatsOf, LastWords, NoContent, EndCode, EndMessage, EndsWith, Text.Trim;
      NoteEnd(readError);
      StagesAreOpen(client.shown, textStarted, messageIndex, messageID, text, order);
      NoCallsMentioned(inputs, calls);
      OutcomeIs(inputs, readError, needsCommit, commitOk, calls == map[]);
      EndIs(inputs, readError, needsCommit, commitOk, NothingToDeliver(), errorCode, errorText);
      ghost var shown := client.shown;
      var status := FailOrDeliver(ticks, commitOk);
      if FreshIDs(messageID, itemID) {
        ItemsDiffer(shown, client.shown, textStarted, messageIndex, messageID, text, order, itemID);
      }
      GatheredDelivers(shown, client.shown, client.output, status, textStarted, messageIndex, messageID, text,
                       order, calls, inputs);
    }

    /** There is nothing to deliver after a failure, nor when neither text nor calls came
        and the length limit is no excuse. */
    predicate NothingToDeliver()
      reads this`failed, this`finish, this`calls, this`text
    {
      failed || (finish != "length" && calls == map[] && Text.Trim(text) == "")
    }

    method FailOrDeliver(ticks: seq<bool>, commitOk: bool) returns (status: Status)
      requires Gathering()
      requires forall i | 0 <= i < |client.shown| :: client.shown[i].stage == 0
      modifies this`log, this`sequence, this`client, this`beats
      ensures status == if finish == "length" then Incomplete else Completed
      ensures Replay(needsCommit, log) == Some(client) && client.finished
      ensures EndsWith(log, if NothingToDeliver() || (needsCommit && !commitOk) then Failed else status,
                       if NothingToDeliver() then if errorCode != "" then errorCode else "upstream_error"
                       else if needsCommit && !commitOk then "session_persistence_error" else "",
                       if NothingToDeliver() then
                         if Text.Trim(errorText) == "" then NoContent() else Text.Trim(errorText)
                       else if needsCommit && !commitOk then NOT_PERSISTED else "")
      ensures client.beats == beats == old(beats) + if client.commit.Some? then Due(ticks) else 0
      ensures SameContent(old(client.shown), client.shown)
      ensures client.output == []
              || OutputFor(old(client.shown), textStarted, messageIndex, messageID, text, order, status, client.output)
      ensures client.commit == if needsCommit && !NothingToDeliver() then Some(commitOk) else None
    {
      hide Replay, ShownFor, Indexed, Observe, OutputFor, SameContent, Announced, NoContent;
      SameContentReflexive(client.shown);
      status := if finish == "length" then Incomplete else Completed;
      if NothingToDeliver() {
        var message := Text.Trim(errorText);
        if message == "" {
          message := NoContent();
        }
        Fail(if errorCode != "" then errorCode else "upstream_error", message);
      } else {
        Deliver(status, ticks, commitOk);
      }
    }

    method Deliver(status: Status, ticks: seq<bool>, commitOk: bool)
      requires Gathering() && status != Failed
      requires forall i | 0 <= i < |client.shown| :: client.shown[i].stage == 0
      modifies this`log, this`sequence, this`client, this`beats
      ensures Replay(needsCommit, log) == Some(client) && client.finished
      ensures EndsWith(log, if needsCommit && !commitOk then Failed else status,
                       if needsCommit && !commitOk then "session_persistence_error" else "",
                       if needsCommit && !commitOk then NOT_PERSISTED else "")
      ensures client.beats == beats == old(beats) + if needsCommit then Due(ticks) else 0
      ensures SameContent(old(client.shown), client.shown)
      ensures client.output == []
              || OutputFor(old(client.shown), textStarted, messageIndex, messageID, text, order, status, client.output)
      ensures client.commit == if needsCommit then Some(commitOk) else None
    {
      hide Replay, ShownFor, Indexed, Observe, ClosingFor, OutputFor, Announced;
      var output := BuildOutput(status);
      StartClosing(client.shown, textStarted, messageIndex, messageID, text, order);
      CommitAndClose(status, output, ticks, commitOk);
    }

    /** The commit, and only then what tells the client that it may execute calls. */
    method CommitAndClose(status: Status, output: seq<Option<Item>>, ticks: seq<bool>, commitOk: bool)
      requires Gathering() && status != Failed
      requires ClosingFor(client.shown, textStarted, messageIndex, messageID, text, order, 0, 0)
      requires OutputFor(client.shown, textStarted, messageIndex, messageID, text, order, status, output)
      requires forall i | 0 <= i < |client.shown| :: client.shown[i].stage == 0
      modifies this`log, this`sequence, this`client, this`beats
      ensures Replay(needsCommit, log) == Some(client) && client.finished
      ensures EndsWith(log, if needsCommit && !commitOk then Failed else status,
                       if needsCommit && !commitOk then "session_persistence_error" else "",
                       if needsCommit && !commitOk then NOT_PERSISTED else "")
      ensures client.beats == beats == old(beats) + if needsCommit then Due(ticks) else 0
      ensures SameContent(old(client.shown), client.shown)
      ensures client.output == if needsCommit && !commitOk then [] else output
      ensures client.commit == if needsCommit then Some(commitOk) else None
    {
      hide Replay, ShownFor, Indexed, Observe, ClosingFor, OutputFor, Executable, BegunNames;
      if needsCommit {
        var assistant := Message("assistant", if textStarted then Some(text) else None, "", "",
                                 if status == Completed then Executable(order) else []);
        Persist(assistant, ticks, commitOk);
        if !commitOk {
          Fail("session_persistence_error", NOT_PERSISTED);
          return;
        }
      }
      NothingExecutable(order[..0]);
      Close(status, output);
    }

    /** Consumes one input; the fields then hold what the longer input says. */
    method Handle(ghost inputs: seq<Upstream>, input: Upstream)
      requires Gathering() && Gathered(inputs)
      modifies this
      ensures Gathering() && Gathered(inputs + [input])
    {
      hide Replay, ShownFor, Indexed, TextOf, CallOf, SpellingIn, FinishOf, CodeOf, UpstreamFailed, MentionsCall;
      hide CallsIndex, ComplaintsOf, BeatsOf, Malformation, Gathering;
      hide Observe, StateAt, Announced;
      if input.Choice? {
        HandleChoice(inputs, input);
        return;
      }
      OneMoreInput(inputs, input);
      match input
      case Tick(due) =>
        if due {
          Beat();
        }
      case Ignored =>
      case PlainText(text) =>
        errorText := errorText + (text + "; ");
      case ErrorPayload(message, code) =>
        if message != "" {
          errorText := errorText + (message + "; ");
        }
        if code != "" {
          errorCode := code;
        }
        failed := true;
      case DoneMark =>
        sawDone := true;
      case Malformed =>
        failed := true;
        errorText := errorText + Malformation();
      case ErrorChunk(message, code) =>
        if message != "" {
          errorText := errorText + (message + "; ");
        }
        if code != "" {
          errorCode := code;
        }
        failed := true;
      case Choice(_, _, _) =>
    }
  }

  function ItemOf(st: CallState, status: Status): Item {
    CallItem(st.itemID, st.id, st.name, st.arguments, status)
  }

  /** The calls a client may execute once it has seen them done. */
  function Executable(order: seq<CallState>): (r: seq<ToolCall>)
    ensures |r| == |order|
  {
    seq(|order|, i requires 0 <= i < |order| => ToolCall(order[i].id, order[i].name, order[i].arguments))
  }

  lemma NoCallsMentioned(inputs: seq<Upstream>, calls: map<int, nat>)
    requires forall i :: i in calls <==> MentionsCall(inputs, i)
    ensures calls == map[] <==> forall i :: !MentionsCall(inputs, i)
  {
    hide MentionsCall;
    if forall i :: !MentionsCall(inputs, i) {
      assert forall i :: i !in calls;
      assert calls == map[];
    }
  }

  lemma OutcomeIs(inputs: seq<Upstream>, readError: Option<string>, needsCommit: bool, commitOk: bool, noCalls: bool)
    requires noCalls <==> forall i :: !MentionsCall(inputs, i)
    ensures Outcome(inputs, readError, false, true) == Failed <==>
            readError.Some? || DoneMark !in inputs || UpstreamFailed(inputs)
            || (FinishOf(inputs) != "length" && noCalls && Text.Trim(TextOf(inputs)) == "")
    ensures Outcome(inputs, readError, needsCommit, commitOk) ==
            if readError.Some? || DoneMark !in inputs || UpstreamFailed(inputs)
               || (FinishOf(inputs) != "length" && noCalls && Text.Trim(TextOf(inputs)) == "")
               || (needsCommit && !commitOk) then Failed
            else if FinishOf(inputs) == "length" then Incomplete else Completed
  {
    hide MentionsCall, TextOf, FinishOf, UpstreamFailed;
  }

  lemma EndIs(inputs: seq<Upstream>, readError: Option<string>, needsCommit: bool, commitOk: bool, refused: bool,
              errorCode: string, complaints: string)
    requires refused <==> Outcome(inputs, readError, false, true) == Failed
    requires errorCode == CodeOf(inputs)
    requires complaints == ComplaintsOf(inputs) + LastWords(readError, DoneMark in inputs)
    ensures EndCode(inputs, readError, needsCommit, commitOk) ==
            if refused then if errorCode != "" then errorCode else "upstream_error"
            else if needsCommit && !commitOk then "session_persistence_error" else ""
    ensures EndMessage(inputs, readError, needsCommit, commitOk) ==
            if refused then if Text.Trim(complaints) == "" then NoContent() else Text.Trim(complaints)
            else if needsCommit && !commitOk then NOT_PERSISTED else ""
  {
    hide Outcome, CodeOf, ComplaintsOf, LastWords, NoContent, Text.Trim;
  }

  lemma NothingExecutable(order: seq<CallState>)
    requires order == []
    ensures Executable(order) == []
  {
  }

  lemma ExecutableMore(order: seq<CallState>, k: nat)
    requires k < |order|
    ensures Executable(order[..k + 1]) ==
            Executable(order[..k]) + [ToolCall(order[k].id, order[k].name, order[k].arguments)]
  {
  }

  ghost predicate EndsWith(log: seq<Entry>, status: Status, code: string, message: string) {
    && log != [] && log[|log| - 1].Sent? && log[|log| - 1].body.Terminal?
    && log[|log| - 1].body.status == status && log[|log| - 1].body.code == code
    && log[|log| - 1].body.message == message
  }

  ghost predicate OutputFor(shown: seq<Shown>, textStarted: bool, messageIndex: int, messageID: string, text: string,
                            order: seq<CallState>, status: Status, output: seq<Option<Item>>)
  {
    && |output| == |shown|
    && (textStarted ==>
          0 <= messageIndex < |output| && output[messageIndex] == Some(MessageItem(messageID, text, status)))
    && (forall k | 0 <= k < |order| ::
          0 <= order[k].outputIndex < |output| && output[order[k].outputIndex] == Some(ItemOf(order[k], status)))
  }

  lemma SlotOfMessage(shown: seq<Shown>, messageIndex: int, messageID: string, text: string,
                      order: seq<CallState>, status: Status, output: seq<Option<Item>>)
    requires OutputFor(shown, true, messageIndex, messageID, text, order, status, output)
    ensures 0 <= messageIndex < |output| && output[messageIndex] == Some(MessageItem(messageID, text, status))
  {
  }

  /** The message, if begun, is at the given stage, and the first n calls are done. */
  ghost predicate ClosingFor(shown: seq<Shown>, textStarted: bool, messageIndex: int, messageID: string, text: string,
                             order: seq<CallState>, messageStage: nat, n: nat)
  {
    && (textStarted ==>
          0 <= messageIndex < |shown| && shown[messageIndex] == ShownMessage(messageID, 1, text, messageStage))
    && (forall k | 0 <= k < |order| ::
          0 <= order[k].outputIndex < |shown|
          && shown[order[k].outputIndex] ==
             ShownCall(order[k].itemID, order[k].arguments, if k < n then 2 else 0, order[k].added))
    && (forall j, k | 0 <= j < k < |order| :: order[j].outputIndex < order[k].outputIndex)
    && (forall i | 0 <= i < |shown| :: (textStarted && i == messageIndex) || HasCall(order, i))
  }

  lemma StartClosing(shown: seq<Shown>, textStarted: bool, messageIndex: int, messageID: string, text: string,
                     order: seq<CallState>)
    requires ShownFor(shown, textStarted, messageIndex, messageID, text, order)
    ensures ClosingFor(shown, textStarted, messageIndex, messageID, text, order, 0, 0)
  {
  }

  lemma StagesAreOpen(shown: seq<Shown>, textStarted: bool, messageIndex: int, messageID: string, text: string,
                      order: seq<CallState>)
    requires ShownFor(shown, textStarted, messageIndex, messageID, text, order)
    ensures forall i | 0 <= i < |shown| :: shown[i].stage == 0
  {
    forall i | 0 <= i < |shown| ensures shown[i].stage == 0 {
      if !(textStarted && i == messageIndex) {
        assert HasCall(order, i);
      }
    }
  }

  lemma MessageCloses(shown: seq<Shown>, messageIndex: int, messageID: string, text: string,
                      order: seq<CallState>, n: nat, from: nat, to: nat)
    requires ClosingFor(shown, true, messageIndex, messageID, text, order, from, n)
    ensures 0 <= messageIndex < |shown| && shown[messageIndex] == ShownMessage(messageID, 1, text, from)
    ensures ClosingFor(shown[messageIndex := ShownMessage(messageID, 1, text, to)],
                       true, messageIndex, messageID, text, order, to, n)
  {
  }

  lemma CallCloses(shown: seq<Shown>, textStarted: bool, messageIndex: int, messageID: string, text: string,
                   order: seq<CallState>, messageStage: nat, k: nat)
    requires ClosingFor(shown, textStarted, messageIndex, messageID, text, order, messageStage, k) && k < |order|
    ensures 0 <= order[k].outputIndex < |shown|
    ensures shown[order[k].outputIndex] == ShownCall(order[k].itemID, order[k].arguments, 0, order[k].added)
    ensures ClosingFor(shown[order[k].outputIndex := ShownCall(order[k].itemID, order[k].arguments, 2, order[k].added)],
                       textStarted, messageIndex, messageID, text, order, messageStage, k + 1)
  {
  }

  predicate IsAnswer(m: Message, textStarted: bool, text: string) {
    m.role == "assistant" && m.content == if textStarted then Some(text) else None
  }

  lemma AnswerRemembers(shown: seq<Shown>, textStarted: bool, messageIndex: int, messageID: string, text: string,
                        order: seq<CallState>, messageStage: nat, n: nat, m: Message)
    requires ClosingFor(shown, textStarted, messageIndex, messageID, text, order, messageStage, n)
    requires IsAnswer(m, textStarted, text)
    ensures Remembers(shown, m)
  {
    forall i | 0 <= i < |shown| && !(textStarted && i == messageIndex) ensures shown[i].ShownCall? {
      assert HasCall(order, i);
    }
  }

  lemma SameContentReflexive(shown: seq<Shown>)
    ensures SameContent(shown, shown)
  {
  }

  lemma SlotOfCall(shown: seq<Shown>, textStarted: bool, messageIndex: int, messageID: string, text: string,
                   order: seq<CallState>, status: Status, output: seq<Option<Item>>, k: nat)
    requires OutputFor(shown, textStarted, messageIndex, messageID, text, order, status, output) && k < |order|
    ensures 0 <= order[k].outputIndex < |output| && output[order[k].outputIndex] == Some(ItemOf(order[k], status))
  {
  }

  /** What the client has noted agrees with the calls and with the output to come. */
  ghost predicate Noted(c: Client, order: seq<CallState>, output: seq<Option<Item>>) {
    && BegunNames(c.announced, order)
    && (forall i | i in c.named && 0 <= i < |output| && output[i].Some? && output[i].value.CallItem? ::
          c.named[i] == output[i].value.name)
    && (forall i | i in c.done :: 0 <= i < |output| && output[i] == Some(c.done[i]))
  }

  lemma NotedRepeats(c: Client, textStarted: bool, messageIndex: int, messageID: string, text: string,
                     order: seq<CallState>, status: Status, output: seq<Option<Item>>, shown: seq<Shown>,
                     messageStage: nat, n: nat)
    requires Noted(c, order, output) && |shown| == |c.shown|
    requires OutputFor(shown, textStarted, messageIndex, messageID, text, order, status, output)
    requires ClosingFor(c.shown, textStarted, messageIndex, messageID, text, order, messageStage, n)
    ensures Repeats(c, output)
  {
    forall i | 0 <= i < |output| ensures Named(c, i, output[i]) {
      if !(textStarted && i == messageIndex) {
        assert HasCall(order, i);
      }
    }
  }

  lemma EverythingClosed(needsCommit: bool, c: Client, textStarted: bool, messageIndex: int, messageID: string,
                         text: string, order: seq<CallState>, status: Status, output: seq<Option<Item>>,
                         shown: seq<Shown>)
    requires status != Failed && Gate(needsCommit, c) && |shown| == |c.shown|
    requires OutputFor(shown, textStarted, messageIndex, messageID, text, order, status, output)
    requires ClosingFor(c.shown, textStarted, messageIndex, messageID, text, order, if textStarted then 3 else 0,
                        if status == Completed then |order| else 0)
    requires needsCommit ==> c.persisted.Some? && c.persisted.value.toolCalls == c.executable
    requires needsCommit ==> IsAnswer(c.persisted.value, textStarted, text)
    requires Repeats(c, output)
    ensures TerminalOk(needsCommit, c, status, output)
  {
    if needsCommit {
      AnswerRemembers(c.shown, textStarted, messageIndex, messageID, text, order, if textStarted then 3 else 0,
                      if status == Completed then |order| else 0, c.persisted.value);
    }
    forall i | 0 <= i < |output|
      ensures Matches(c.shown[i], output[i], status)
      ensures c.shown[i].stage == if c.shown[i].ShownMessage? then 3 else if status == Completed then 2 else 0
    {
      if !(textStarted && i == messageIndex) {
        assert HasCall(order, i);
      }
    }
  }

  lemma TerminalAccepted(needsCommit: bool, c: Client, n: int, status: Status, output: seq<Option<Item>>)
    requires TerminalOk(needsCommit, c, status, output) && !c.finished && c.next == n >= 2
    ensures Observe(needsCommit, c, Sent(n, Terminal(status, output, "", ""))) ==
            Some(c.(next := n + 1, output := output, finished := true))
  {
  }

  function NamingFor(d: CallDelta, i: int): Spelling {
    if d.index == i then Spelling(d.id, OrEmpty(d.name), "", Some(Announcement(OrEmpty(d.id), OrEmpty(d.name))))
    else SILENT
  }

  lemma CallsAreShown(shown: seq<Shown>, textStarted: bool, messageIndex: int, messageID: string, text: string,
                      order: seq<CallState>)
    requires ShownFor(shown, textStarted, messageIndex, messageID, text, order)
    ensures CallsShown(shown, order)
  {
  }

  lemma StateBegins(calls: map<int, nat>, order: seq<CallState>, d: CallDelta, st: CallState)
    requires d.index !in calls && forall i | i in calls :: calls[i] < |order|
    requires st.id == OrEmpty(d.id) && st.name == OrEmpty(d.name) && st.arguments == ""
    requires st.added == Announcement(st.id, st.name)
    ensures forall i :: StateAt(calls[d.index := |order|], order + [st], i) ==
                        Apply(StateAt(calls, order, i), NamingFor(d, i))
  {
    forall i ensures StateAt(calls[d.index := |order|], order + [st], i) ==
                     Apply(StateAt(calls, order, i), NamingFor(d, i))
    {
      ApplySilent(StateAt(calls, order, i));
    }
  }

  lemma StateGrows(calls: map<int, nat>, order: seq<CallState>, index: int, st: CallState, more: Spelling)
    requires index in calls && (forall i | i in calls :: calls[i] < |order|)
    requires forall a, b | a in calls && b in calls && a != b :: calls[a] != calls[b]
    requires Spelt(st.id, st.name, st.arguments, Some(st.added)) == Apply(StateAt(calls, order, index), more)
    ensures forall i :: StateAt(calls, order[calls[index] := st], i) ==
                        Apply(StateAt(calls, order, i), if i == index then more else SILENT)
  {
    forall i ensures StateAt(calls, order[calls[index] := st], i) ==
                     Apply(StateAt(calls, order, i), if i == index then more else SILENT)
    {
      ApplySilent(StateAt(calls, order, i));
    }
  }

  lemma NamedThenGrown(calls0: map<int, nat>, order0: seq<CallState>, calls1: map<int, nat>, order1: seq<CallState>,
                       calls2: map<int, nat>, order2: seq<CallState>, d: CallDelta)
    requires calls1.Keys == calls0.Keys + {d.index} && calls2.Keys == calls1.Keys
    requires forall i :: StateAt(calls1, order1, i) == Apply(StateAt(calls0, order0, i), NamingFor(d, i))
    requires if d.arguments.None? then calls2 == calls1 && order2 == order1
             else forall i :: StateAt(calls2, order2, i) ==
                              Apply(StateAt(calls1, order1, i),
                                    if i == d.index then Spelling(None, "", d.arguments.value, None) else SILENT)
    ensures CallsGrow(calls0, order0, calls2, order2, d)
  {
    hide StateAt;
    forall i ensures StateAt(calls2, order2, i) == Apply(StateAt(calls0, order0, i), SpellingFor(d, i)) {
      var v := StateAt(calls0, order0, i);
      ApplySilent(Apply(v, NamingFor(d, i)));
      assert v.arguments + "" == v.arguments;
    }
  }

  /** One delta is applied to its own call and to no other. */
  ghost predicate CallsGrow(oldCalls: map<int, nat>, oldOrder: seq<CallState>,
                            calls: map<int, nat>, order: seq<CallState>, d: CallDelta)
  {
    && calls.Keys == oldCalls.Keys + {d.index}
    && forall i :: StateAt(calls, order, i) == Apply(StateAt(oldCalls, oldOrder, i), SpellingFor(d, i))
  }

  /** The same for a run of deltas. */
  ghost predicate CallsGathered(oldCalls: map<int, nat>, oldOrder: seq<CallState>,
                                calls: map<int, nat>, order: seq<CallState>, deltas: seq<CallDelta>)
  {
    && (forall i :: i in calls <==> i in oldCalls || CallsIndex(deltas, i))
    && (forall i :: StateAt(calls, order, i) == Apply(StateAt(oldCalls, oldOrder, i), SpellingIn(deltas, i)))
  }

  lemma CallsGatheredStart(calls: map<int, nat>, order: seq<CallState>, deltas: seq<CallDelta>)
    ensures CallsGathered(calls, order, calls, order, deltas[..0])
  {
    hide StateAt;
    forall i ensures StateAt(calls, order, i) == Apply(StateAt(calls, order, i), SpellingIn(deltas[..0], i)) {
      ApplySilent(StateAt(calls, order, i));
    }
  }

  lemma OneMoreDelta(deltas: seq<CallDelta>, j: nat, i: int)
    requires j < |deltas|
    ensures CallsIndex(deltas[..j + 1], i) <==> CallsIndex(deltas[..j], i) || deltas[j].index == i
    ensures SpellingIn(deltas[..j + 1], i) == Joined(SpellingIn(deltas[..j], i), SpellingFor(deltas[j], i))
  {
    var front := deltas[..j + 1];
    assert front[..j] == deltas[..j];
    assert front[j] == deltas[j];
    if CallsIndex(deltas[..j], i) {
      var m :| 0 <= m < j && deltas[..j][m].index == i;
      assert front[m].index == i;
    }
    if CallsIndex(front, i) {
      var m :| 0 <= m < |front| && front[m].index == i;
      if m < j {
        assert deltas[..j][m].index == i;
      }
    }
  }

  lemma CallsGatheredMore(calls0: map<int, nat>, order0: seq<CallState>, calls1: map<int, nat>, order1: seq<CallState>,
                          calls2: map<int, nat>, order2: seq<CallState>, deltas: seq<CallDelta>, j: nat)
    requires j < |deltas|
    requires CallsGathered(calls0, order0, calls1, order1, deltas[..j])
    requires CallsGrow(calls1, order1, calls2, order2, deltas[j])
    ensures CallsGathered(calls0, order0, calls2, order2, deltas[..j + 1])
  {
    hide CallsIndex, SpellingIn, StateAt, SpellingFor, Apply, Joined;
    forall i
      ensures i in calls2 <==> i in calls0 || CallsIndex(deltas[..j + 1], i)
      ensures StateAt(calls2, order2, i) == Apply(StateAt(calls0, order0, i), SpellingIn(deltas[..j + 1], i))
    {
      OneMoreDelta(deltas, j, i);
      ApplyJoined(StateAt(calls0, order0, i), SpellingIn(deltas[..j], i), SpellingFor(deltas[j], i));
    }
  }

  lemma OneMoreComplaint(inputs: seq<Upstream>, c: Upstream)
    ensures ComplaintsOf(inputs + [c]) == ComplaintsOf(inputs) + Complaint(c)
    ensures BeatsOf(inputs + [c]) == BeatsOf(inputs) + if c == Tick(true) then 1 else 0
    ensures Complaint(c) == "" ==> ComplaintsOf(inputs + [c]) == ComplaintsOf(inputs)
  {
    hide Complaint;
    assert (inputs + [c])[..|inputs|] == inputs;
    assert ComplaintsOf(inputs) + "" == ComplaintsOf(inputs);
  }

  /** What one more input does to everything that is read off the inputs. */
  lemma OneMoreInput(inputs: seq<Upstream>, c: Upstream)
    ensures TextOf(inputs + [c]) == TextOf(inputs) + if c.Choice? then c.content else ""
    ensures FinishOf(inputs + [c]) == if c.Choice? && c.finish != "" then c.finish else FinishOf(inputs)
    ensures CodeOf(inputs + [c]) ==
            if (c.ErrorPayload? || c.ErrorChunk?) && c.code != "" then c.code else CodeOf(inputs)
    ensures ComplaintsOf(inputs + [c]) == ComplaintsOf(inputs) + Complaint(c)
    ensures Complaint(c) == "" ==> ComplaintsOf(inputs + [c]) == ComplaintsOf(inputs)
    ensures BeatsOf(inputs + [c]) == BeatsOf(inputs) + if c == Tick(true) then 1 else 0
    ensures UpstreamFailed(inputs + [c]) <==> UpstreamFailed(inputs) || c.ErrorPayload? || c.Malformed? || c.ErrorChunk?
    ensures DoneMark in inputs + [c] <==> DoneMark in inputs || c == DoneMark
    ensures forall i :: MentionsCall(inputs + [c], i) <==>
                        MentionsCall(inputs, i) || (c.Choice? && CallsIndex(c.calls, i))
    ensures forall i :: CallOf(inputs + [c], i) ==
                        if c.Choice? then Apply(CallOf(inputs, i), SpellingIn(c.calls, i)) else CallOf(inputs, i)
  {
    hide CallsIndex, SpellingIn, Complaint, ComplaintsOf, BeatsOf;
    OneMoreComplaint(inputs, c);
    var more := inputs + [c];
    assert more[..|inputs|] == inputs && more[|inputs|] == c;
    assert forall m | 0 <= m < |inputs| :: more[m] == inputs[m];
    forall i ensures MentionsCall(more, i) <==> MentionsCall(inputs, i) || (c.Choice? && CallsIndex(c.calls, i)) {
      if MentionsCall(inputs, i) {
        var m :| 0 <= m < |inputs| && inputs[m].Choice? && CallsIndex(inputs[m].calls, i);
        assert more[m] == inputs[m];
      }
      if c.Choice? && CallsIndex(c.calls, i) {
        assert more[|inputs|].Choice?;
      }
    }
    forall i ensures CallOf(more, i) ==
                     if c.Choice? then Apply(CallOf(inputs, i), SpellingIn(c.calls, i)) else CallOf(inputs, i)
    {
      CallOfMore(inputs, c, i);
    }
  }

  lemma CallOfMore(inputs: seq<Upstream>, c: Upstream, i: int)
    ensures CallOf(inputs + [c], i) ==
            if c.Choice? then Apply(CallOf(inputs, i), SpellingIn(c.calls, i)) else CallOf(inputs, i)
  {
    hide SpellingIn, Apply, Joined;
    var more := inputs + [c];
    assert more[..|inputs|] == inputs && more[|inputs|] == c;
    var added := if c.Choice? then SpellingIn(c.calls, i) else SILENT;
    assert SpellingOf(more, i) == Joined(SpellingOf(inputs, i), added);
    ApplyJoined(BLANK, SpellingOf(inputs, i), added);
    ApplySilent(CallOf(inputs, i));
  }

  lemma CallsAreGathered(inputs: seq<Upstream>, c: Upstream, calls0: map<int, nat>, order0: seq<CallState>,
                         calls: map<int, nat>, order: seq<CallState>)
    requires c.Choice? && CallsGathered(calls0, order0, calls, order, c.calls)
    requires forall i :: i in calls0 <==> MentionsCall(inputs, i)
    requires forall i :: StateAt(calls0, order0, i) == CallOf(inputs, i)
    ensures forall i :: i in calls <==> MentionsCall(inputs + [c], i)
    ensures forall i :: StateAt(calls, order, i) == CallOf(inputs + [c], i)
  {
    hide MentionsCall, CallOf, SpellingIn, CallsIndex, StateAt, Apply;
    OneMoreInput(inputs, c);
  }

  /** A whole stream: whatever the upstream sends, wherever heartbeats fall, and
      whether or not the commit succeeds, the strict client accepts every event and
      sees exactly one end, the one the inputs call for. */
  method StreamResponses(inputs: seq<Upstream>, readError: Option<string>, needsCommit: bool, ticks: seq<bool>,
                         commitOk: bool, messageID: string, itemID: nat -> string)
    returns (log: seq<Entry>)
    ensures Replay(needsCommit, log).Some? && Replay(needsCommit, log).value.finished
    ensures EndsWith(log, Outcome(inputs, readError, needsCommit, commitOk),
                     EndCode(inputs, readError, needsCommit, commitOk),
                     EndMessage(inputs, readError, needsCommit, commitOk))
    ensures Delivered(Replay(needsCommit, log).value.shown, Replay(needsCommit, log).value.output, inputs)
    ensures FreshIDs(messageID, itemID) ==> DistinctItems(Replay(needsCommit, log).value.shown)
    ensures Replay(needsCommit, log).value.commit ==
            if needsCommit && Outcome(inputs, readError, false, true) != Failed then Some(commitOk) else None
    ensures var client := Replay(needsCommit, log).value;
            client.beats == 1 + BeatsOf(inputs) + if client.commit.Some? then Due(ticks) else 0
  {
    hide Replay, ShownFor, Indexed, TextOf, CallOf, FinishOf, CodeOf, UpstreamFailed, MentionsCall, StateAt, Outcome;
    hide Delivered;
    hide Announced;
    var t := new Transducer(needsCommit, messageID, itemID);
    var i := 0;
    while i < |inputs|
      invariant 0 <= i <= |inputs| && fresh(t) && t.needsCommit == needsCommit
      invariant t.messageID == messageID && t.itemID == itemID
      invariant t.Gathering() && t.Gathered(inputs[..i])
    {
      assert inputs[..i + 1] == inputs[..i] + [inputs[i]];
      t.Handle(inputs[..i], inputs[i]);
      i := i + 1;
    }
    assert inputs[..i] == inputs;
    t.Finish(inputs, readError, ticks, commitOk);
    return t.log;
  }
}
