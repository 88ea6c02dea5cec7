/**
 A client thread over the store. In each round the upstream binding is filed under a new
 response id, and later the turn is committed under it and the stable head moves along.
 Before, between and after these two writes other requests may prune or remove records and
 write to threads of their own. What each id reads is settled by its own round.
 */
module ResponseThread {
  import opened Chat
  import opened Portable
  import opened Forest
  import opened SessionStore
  import Text

  /** The stable head of a thread and all the response ids that are ever used for it. */
  datatype Thread = Thread(head: string, ids: set<string>)

  /** A binding is filed, a turn is committed, records are pruned or removed, or another
      thread writes the records it touches. */
  datatype Event =
    | Filed(id: string, binding: Conversation, at: int)
    | Answered(id: string, request: seq<Message>, assistant: Message, at: int)
    | Rebased(after: Records)
    | Elsewhere(after: Records, touched: set<string>)

  function File(env: Env, data: Records, binding: Conversation, at: int): Records {
    data[binding.id := Upserted(env, data, binding, at)]
  }

  function TurnOf(head: string, e: Event): Turn
    requires e.Answered?
  {
    Turn(head, e.id, e.request, e.assistant, true, e.at)
  }

  /** A commit that is refused changes nothing. */
  function Answer(w: Wire, data: Records, head: string, e: Event): Records
    requires e.Answered?
  {
    if CommitRefusal(data, TurnOf(head, e)).None? then Committed(w, data, TurnOf(head, e)) else data
  }

  function Happen(env: Env, data: Records, head: string, e: Event): Records {
    match e
    case Filed(_, binding, at) => File(env, data, binding, at)
    case Answered(_, _, _, _) => Answer(env.wire, data, head, e)
    case Rebased(after) => after
    case Elsewhere(after, _) => after
  }

  /** The store after the events, one by one. */
  function Play(env: Env, data: Records, head: string, events: seq<Event>): Records {
    if events == [] then data
    else Happen(env, Play(env, data, head, events[..|events| - 1]), head, events[|events| - 1])
  }

  // ---------------------------------------------------- the thread without a store

  /** The ids that have been filed, those of them that wait for their turn to be committed,
      the thread's keys that are stored, and what the head must read. */
  datatype Story = Story(seen: set<string>, waiting: set<string>, stored: set<string>, text: seq<Message>)

  function Opening(w: Wire, data: Records, head: string): Story {
    Story({}, {}, data.Keys * {head}, HistoryOf(w, data, head))
  }

  /** A turn appends what is new and the answer, unless both its id and the head are gone;
      a head that has been removed starts again from nothing. */
  function Told(w: Wire, s: Story, head: string, e: Event): Story {
    match e
    case Filed(id, _, _) => s.(seen := s.seen + {id}, waiting := s.waiting + {id}, stored := s.stored + {id})
    case Answered(id, request, assistant, _) =>
      var answered := s.(waiting := s.waiting - {id});
      if s.stored !! {id, head} then answered
      else answered.(stored := s.stored + {id, head}, text := Bound(w, Merge(w, s.text, request) + [assistant]))
    case Rebased(after) => s.(stored := s.stored * after.Keys, text := if head in after then s.text else [])
    case Elsewhere(_, _) => s
  }

  function Tale(w: Wire, start: Story, head: string, events: seq<Event>): Story {
    if events == [] then start
    else Told(w, Tale(w, start, head, events[..|events| - 1]), head, events[|events| - 1])
  }

  function Touched(events: seq<Event>): set<string> {
    if events == [] then {}
    else
      Touched(events[..|events| - 1])
      + if events[|events| - 1].Elsewhere? then events[|events| - 1].touched else {}
  }

  // -------------------------------------------------------------- what may happen

  /** Every record but the changed ones was there before and reads the same. It has the
      parent it had or none. */
  ghost predicate Carries(w: Wire, before: Records, after: Records, changed: set<string>) {
    forall k | k in after && k !in changed ::
      && k in before && after[k].responseAlias == before[k].responseAlias
      && Read(w, after, k) == Read(w, before, k)
      && (after[k].historyParent == "" || after[k].historyParent == before[k].historyParent)
  }

  ghost predicate ParentsClear(after: Records, changed: set<string>, waiting: set<string>) {
    forall k | k in changed && k in after :: after[k].historyParent !in waiting
  }

  /** Other threads write records of their own, and none links to an id whose turn has not
      been committed: no client has been told that id. */
  ghost predicate OthersWrite(w: Wire, before: Records, after: Records, touched: set<string>, waiting: set<string>) {
    && Sound(w, after) && Carries(w, before, after, touched) && ParentsClear(after, touched, waiting)
    && forall k | k in before && k !in touched :: k in after
  }

  ghost predicate Possible(env: Env, data: Records, t: Thread, earlier: seq<Event>, e: Event) {
    var s, before := Tale(env.wire, Opening(env.wire, data, t.head), t.head, earlier), Play(env, data, t.head, earlier);
    match e
    case Filed(id, binding, _) =>
      id in t.ids && id !in s.seen && ValidKey(id) && binding.id == id && !HasPortableState(binding)
    case Answered(id, _, _, _) => id in s.waiting
    case Rebased(after) => RebaseOf(env.wire, before, after)
    case Elsewhere(after, touched) =>
      touched !! t.ids + {t.head} && OthersWrite(env.wire, before, after, touched, s.waiting)
  }

  /** The thread's key is no response id, and its response ids are new to the store. */
  ghost predicate Playable(env: Env, data: Records, t: Thread, events: seq<Event>) {
    && EnvOk(env) && Sound(env.wire, data) && t.ids !! data.Keys + {t.head}
    && t.head != "" && (t.head in data ==> !data[t.head].responseAlias)
    && forall i | 0 <= i < |events| :: Possible(env, data, t, events[..i], events[i])
  }

  // ------------------------------------------------------------- what is promised

  ghost predicate HeadReads(w: Wire, head: string, text: seq<Message>, after: Records) {
    && Sound(w, after) && (head in after ==> !after[head].responseAlias)
    && HistoryOf(w, after, head) == text
  }

  ghost predicate KeysAgree(t: Thread, s: Story, after: Records) {
    && (forall k | k == t.head || k in t.ids :: k in after <==> k in s.stored)
    && s.waiting <= s.seen <= t.ids && s.stored <= s.seen + {t.head} && t.head !in t.ids
    && forall k | k in s.seen :: ValidKey(k)
  }

  ghost predicate WaitingReads(w: Wire, waiting: set<string>, after: Records) {
    forall k | k in waiting :: NobodysParent(after, k) && (k in after ==> Read(w, after, k) == History([]))
  }

  /** While it is stored, the id of a committed turn reads the transcript as it was after
      that turn. */
  ghost predicate Snapshot(w: Wire, start: Story, head: string, events: seq<Event>, after: Records, i: nat)
    requires i < |events| && events[i].Answered?
  {
    events[i].id in after ==> Read(w, after, events[i].id) == History(Tale(w, start, head, events[..i + 1]).text)
  }

  ghost predicate SnapshotsRead(w: Wire, start: Story, head: string, events: seq<Event>, after: Records) {
    forall i | 0 <= i < |events| && events[i].Answered? :: Snapshot(w, start, head, events, after, i)
  }

  /** Records that neither this thread nor another one wrote read what they read at first. */
  ghost predicate StrangersRead(w: Wire, data: Records, t: Thread, touched: set<string>, after: Records) {
    forall k | k in after && k != t.head && k !in t.ids && k !in touched ::
      k in data && Read(w, after, k) == Read(w, data, k)
  }

  ghost predicate ThreadReads(w: Wire, data: Records, t: Thread, events: seq<Event>, after: Records) {
    var start := Opening(w, data, t.head);
    var s := Tale(w, start, t.head, events);
    && HeadReads(w, t.head, s.text, after) && KeysAgree(t, s, after) && WaitingReads(w, s.waiting, after)
    && SnapshotsRead(w, start, t.head, events, after) && StrangersRead(w, data, t, Touched(events), after)
  }

  // -------------------------------------------------------------- the single steps

  lemma NewTarget(w: Wire, data: Records, id: string)
    requires Sound(w, data) && id !in data && id != ""
    ensures NobodysParent(data, id)
  {
    hide Materialize;
    forall k | k in data ensures data[k].historyParent != id {
      assert SoundAt(w, data, k);
    }
  }

  /** A binding that is filed under a new id has no history and no links. */
  lemma FileReads(env: Env, data: Records, head: string, binding: Conversation, at: int)
    requires EnvOk(env) && Sound(env.wire, data) && head != binding.id
    requires binding.id !in data && ValidKey(binding.id) && !HasPortableState(binding)
    ensures var after := File(env, data, binding, at);
            && Sound(env.wire, after) && Carries(env.wire, data, after, {binding.id}) && data.Keys <= after.Keys
            && Read(env.wire, after, binding.id) == History([]) && NobodysParent(after, binding.id)
            && after[binding.id].historyParent == ""
            && HistoryOf(env.wire, after, head) == HistoryOf(env.wire, data, head)
  {
    hide Materialize, Bound, Sound;
    NewTarget(env.wire, data, binding.id);
    BindingSoundIff(env, data, binding, at);
    BindingReads(env, data, binding, at);
    if head !in data {
      UnfiledReads(env.wire, data, head);
      UnfiledReads(env.wire, File(env, data, binding, at), head);
    }
  }

  lemma MergeNothing(w: Wire, h: seq<Message>)
    requires Bound(w, h) == h
    ensures Merge(w, h, []) == h
  {
    assert Bound(w, []) == [];
    assert Overlap(h, []) == 0;
    assert h + [] == h;
  }

  lemma HeadIsBounded(w: Wire, data: Records, head: string)
    ensures Bound(w, HistoryOf(w, data, head)) == HistoryOf(w, data, head)
  {
    hide Materialize;
    if Read(w, data, head).History? {
      ReadIsBounded(w, data, head);
    }
  }

  /** What a commit files, and where it links. */
  lemma AnswerLinks(w: Wire, data: Records, head: string, e: Event)
    requires e.Answered? && CommitRefusal(data, TurnOf(head, e)).None?
    requires e.id != head && head != "" && (head in data ==> !data[head].responseAlias)
    ensures var after := Committed(w, data, TurnOf(head, e));
            && head in after && e.id in after && !after[head].responseAlias && after.Keys == data.Keys + {e.id, head}
            && (forall k | k in data && k != head && k != e.id :: after[k] == data[k])
            && LightHead(after[head]) && after[head].historyParent == e.id
            && after[e.id].historyParent ==
               if head in data && LightHead(data[head]) then data[head].historyParent else ""
  {
    hide Materialize, Bound, CommittedHistory, Transit, TargetBase;
  }

  /** The transcript that is committed under an id that has no history, or is gone. */
  lemma AnswerText(w: Wire, data: Records, head: string, e: Event)
    requires e.Answered? && e.id != head && (e.id in data ==> Read(w, data, e.id) == History([]))
    ensures CommittedHistory(w, data, TurnOf(head, e)) ==
            Bound(w, Merge(w, HistoryOf(w, data, head), e.request) + [e.assistant])
  {
    hide Materialize, Bound, Merge;
    HeadIsBounded(w, data, head);
    MergeNothing(w, HistoryOf(w, data, head));
  }

  /** One turn has been committed: its id and the head read t, and all else is as before. */
  ghost predicate TurnAdded(w: Wire, before: Records, after: Records, head: string, id: string, t: seq<Message>) {
    && Sound(w, after) && Carries(w, before, after, {id, head}) && after.Keys == before.Keys + {id, head}
    && Read(w, after, head) == History(t) && Read(w, after, id) == History(t)
    && !after[head].responseAlias && LightHead(after[head]) && after[head].historyParent == id
    && after[id].historyParent == (if head in before && LightHead(before[head]) then before[head].historyParent else "")
    && forall k | k in before && k != head && k != id :: after[k] == before[k]
  }

  /** A commit settles its own id and the head, and leaves all others alone. */
  lemma AnswerReads(w: Wire, data: Records, head: string, e: Event)
    requires e.Answered? && Sound(w, data) && head != "" && (head in data ==> !data[head].responseAlias)
    requires e.id != head && ValidKey(e.id) && NobodysParent(data, e.id)
    requires e.id in data ==> Read(w, data, e.id) == History([])
    requires e.id in data || head in data
    ensures TurnAdded(w, data, Answer(w, data, head, e), head, e.id,
                      Bound(w, Merge(w, HistoryOf(w, data, head), e.request) + [e.assistant]))
  {
    hide Materialize, Bound, Merge, Sound, Committed, LightHead, CommittedHistory;
    AnswerLinks(w, data, head, e);
    CommitReads(w, data, TurnOf(head, e));
    AnswerText(w, data, head, e);
  }

  /** One whole round, with nothing in between. */
  lemma RoundReads(env: Env, data: Records, head: string, binding: Conversation, e: Event)
    requires EnvOk(env) && Sound(env.wire, data) && head != "" && (head in data ==> !data[head].responseAlias)
    requires e.Answered? && e.id == binding.id != head && e.id !in data && ValidKey(e.id) && !HasPortableState(binding)
    ensures var after := Answer(env.wire, File(env, data, binding, e.at), head, e);
            var t := Bound(env.wire, Merge(env.wire, HistoryOf(env.wire, data, head), e.request) + [e.assistant]);
            && Sound(env.wire, after) && after.Keys == data.Keys + {e.id, head}
            && Read(env.wire, after, head) == History(t) && Read(env.wire, after, e.id) == History(t)
            && forall k | k in data && k != head :: Read(env.wire, after, k) == Read(env.wire, data, k)
  {
    hide Materialize, Bound, Merge, Sound, Answer, LightHead, ValidKey, HasPortableState;
    FileReads(env, data, head, binding, e.at);
    AnswerReads(env.wire, File(env, data, binding, e.at), head, e);
  }

  lemma RebaseCarries(w: Wire, before: Records, after: Records)
    requires Sound(w, before) && RebaseOf(w, before, after)
    ensures Sound(w, after) && Carries(w, before, after, {}) && after.Keys <= before.Keys
  {
    hide Materialize, Bound;
    RebaseSound(w, before, after);
    forall k | k in after
      ensures k in before && after[k].responseAlias == before[k].responseAlias
      ensures Read(w, after, k) == Read(w, before, k)
      ensures after[k].historyParent == "" || after[k].historyParent == before[k].historyParent
    {
      assert KeptAt(w, before, after, k) && SoundAt(w, before, k);
      RebaseReads(w, before, after, k);
    }
  }

  // ------------------------------------------------------------ what carries over

  lemma WaitingCarries(w: Wire, waiting: set<string>, before: Records, after: Records, changed: set<string>)
    requires WaitingReads(w, waiting, before) && Carries(w, before, after, changed)
    requires ParentsClear(after, changed, waiting) && waiting !! changed && "" !in waiting
    ensures WaitingReads(w, waiting, after)
  {
    hide Read;
    forall k | k in waiting ensures NobodysParent(after, k) {
      assert NobodysParent(before, k);
    }
  }

  lemma SnapshotsCarry(w: Wire, start: Story, head: string, events: seq<Event>,
                       before: Records, after: Records, changed: set<string>)
    requires events != [] && SnapshotsRead(w, start, head, events[..|events| - 1], before)
    requires Carries(w, before, after, changed)
    requires forall i | 0 <= i < |events| - 1 && events[i].Answered? :: events[i].id !in changed
    requires var last := |events| - 1; events[last].Answered? ==> Snapshot(w, start, head, events, after, last)
    ensures SnapshotsRead(w, start, head, events, after)
  {
    hide Read, Tale, Snapshot;
    var earlier := events[..|events| - 1];
    forall i | 0 <= i < |earlier| && events[i].Answered? ensures Snapshot(w, start, head, events, after, i) {
      assert earlier[i] == events[i] && Snapshot(w, start, head, earlier, before, i);
      SnapshotCarries(w, start, head, events, before, after, i);
    }
  }

  lemma SnapshotCarries(w: Wire, start: Story, head: string, events: seq<Event>,
                        before: Records, after: Records, i: nat)
    requires i < |events| - 1 && events[i].Answered?
    requires Snapshot(w, start, head, events[..|events| - 1], before, i)
    requires var id := events[i].id; id in after ==> id in before && Read(w, after, id) == Read(w, before, id)
    ensures Snapshot(w, start, head, events, after, i)
  {
    hide Read, Tale;
    assert events[..|events| - 1][..i + 1] == events[..i + 1];
  }

  lemma StrangersCarry(w: Wire, data: Records, t: Thread, events: seq<Event>,
                       before: Records, after: Records, changed: set<string>)
    requires events != [] && StrangersRead(w, data, t, Touched(events[..|events| - 1]), before)
    requires Carries(w, before, after, changed) && changed <= t.ids + {t.head} + Touched(events)
    ensures StrangersRead(w, data, t, Touched(events), after)
  {
    hide Read;
  }

  lemma ToldSeen(w: Wire, s: Story, head: string, e: Event)
    ensures var told := Told(w, s, head, e);
            && s.seen <= told.seen
            && (e.Filed? ==> told.seen == s.seen + {e.id} && told.waiting == s.waiting + {e.id})
            && (e.Answered? ==> told.waiting == s.waiting - {e.id})
            && (e.Rebased? || e.Elsewhere? ==> told.waiting == s.waiting)
  {
    hide Bound, Merge;
  }

  /** An id whose turn has been committed has been filed and does not wait any more. */
  lemma {:induction false} AnsweredSeen(env: Env, data: Records, t: Thread, events: seq<Event>)
    requires Playable(env, data, t, events)
    ensures var s := Tale(env.wire, Opening(env.wire, data, t.head), t.head, events);
            && s.waiting <= s.seen
            && forall i | 0 <= i < |events| && events[i].Answered? ::
                 events[i].id in s.seen && events[i].id !in s.waiting
    decreases |events|
  {
    hide HistoryOf, Told, Play, RebaseOf, OthersWrite, Sound, ValidKey, HasPortableState;
    if events != [] {
      var last := |events| - 1;
      var earlier := events[..last];
      EarlierPlayable(env, data, t, events);
      AnsweredSeen(env, data, t, earlier);
      assert Possible(env, data, t, earlier, events[last]);
      ToldSeen(env.wire, Tale(env.wire, Opening(env.wire, data, t.head), t.head, earlier), t.head, events[last]);
      assert forall i | 0 <= i < last :: earlier[i] == events[i];
    }
  }

  lemma EarlierPlayable(env: Env, data: Records, t: Thread, events: seq<Event>)
    requires Playable(env, data, t, events) && events != []
    ensures Playable(env, data, t, events[..|events| - 1])
  {
    hide Possible, Sound;
    var earlier := events[..|events| - 1];
    forall i | 0 <= i < |earlier| ensures Possible(env, data, t, earlier[..i], earlier[i]) {
      assert Possible(env, data, t, events[..i], events[i]) && earlier[..i] == events[..i] && earlier[i] == events[i];
    }
  }

  // ------------------------------------------------------------ the four events

  /** What holds before the last event of a run. */
  ghost predicate Until(env: Env, data: Records, t: Thread, events: seq<Event>, before: Records) {
    && events != [] && Playable(env, data, t, events)
    && before == Play(env, data, t.head, events[..|events| - 1])
    && ThreadReads(env.wire, data, t, events[..|events| - 1], before)
  }

  lemma EarlierAnswers(env: Env, data: Records, t: Thread, events: seq<Event>)
    requires Playable(env, data, t, events) && events != []
    ensures var s := Tale(env.wire, Opening(env.wire, data, t.head), t.head, events[..|events| - 1]);
            forall i | 0 <= i < |events| - 1 && events[i].Answered? ::
              events[i].id in s.seen && events[i].id !in s.waiting
  {
    hide Playable, Tale;
    var earlier := events[..|events| - 1];
    EarlierPlayable(env, data, t, events);
    AnsweredSeen(env, data, t, earlier);
    assert forall i | 0 <= i < |events| - 1 :: earlier[i] == events[i];
  }

  lemma NoBlank(t: Thread, s: Story, after: Records)
    requires KeysAgree(t, s, after)
    ensures "" !in s.waiting
  {
    assert Text.Trim("") == "";
  }

  lemma HeadCarries(w: Wire, head: string, text: seq<Message>, before: Records, after: Records, changed: set<string>)
    requires HeadReads(w, head, text, before) && Sound(w, after) && Carries(w, before, after, changed)
    requires head !in changed && (head in before ==> head in after)
    ensures HeadReads(w, head, text, after)
  {
    hide Materialize, Sound;
    if head !in before {
      UnfiledReads(w, before, head);
      UnfiledReads(w, after, head);
    }
  }

  lemma FiledReads(env: Env, data: Records, t: Thread, events: seq<Event>, before: Records)
    requires Until(env, data, t, events, before) && events[|events| - 1].Filed?
    ensures ThreadReads(env.wire, data, t, events, Play(env, data, t.head, events))
  {
    hide Bound, Merge, Read, HistoryOf, Sound, Carries, Upserted, SnapshotsRead, StrangersRead, HeadReads;
    hide WaitingReads, ValidKey, HasPortableState;
    var w, e, earlier := env.wire, events[|events| - 1], events[..|events| - 1];
    var start := Opening(w, data, t.head);
    var s, after := Tale(w, start, t.head, earlier), Play(env, data, t.head, events);
    assert Possible(env, data, t, earlier, e);
    SoundBefore(w, t.head, s.text, before);
    FileReads(env, before, t.head, e.binding, e.at);
    HeadCarries(w, t.head, s.text, before, after, {e.id});
    EarlierAnswers(env, data, t, events);
    SnapshotsCarry(w, start, t.head, events, before, after, {e.id});
    StrangersCarry(w, data, t, events, before, after, {e.id});
    NoBlank(t, s, before);
    WaitingFiled(w, s.waiting, before, after, e.id);
    CarriedWasThere(w, before, after, {e.id});
    assert KeysAgree(t, Tale(w, start, t.head, events), after);
  }

  lemma SoundBefore(w: Wire, head: string, text: seq<Message>, before: Records)
    requires HeadReads(w, head, text, before)
    ensures Sound(w, before)
  {
    hide Sound;
  }

  lemma WaitingFiled(w: Wire, waiting: set<string>, before: Records, after: Records, id: string)
    requires WaitingReads(w, waiting, before) && Carries(w, before, after, {id}) && id !in waiting && "" !in waiting
    requires id in after && after[id].historyParent == ""
    requires NobodysParent(after, id) && Read(w, after, id) == History([])
    ensures WaitingReads(w, waiting + {id}, after)
  {
    hide Read, NobodysParent;
    WaitingCarries(w, waiting, before, after, {id});
  }

  lemma AnswerApplies(w: Wire, head: string, s: Story, before: Records, e: Event)
    requires HeadReads(w, head, s.text, before) && WaitingReads(w, s.waiting, before)
    requires e.Answered? && e.id in s.waiting && e.id != head && head != "" && ValidKey(e.id)
    requires e.id in before || head in before
    ensures TurnAdded(w, before, Answer(w, before, head, e), head, e.id,
                      Bound(w, Merge(w, s.text, e.request) + [e.assistant]))
  {
    hide Materialize, Bound, Merge, Sound, ValidKey, Answer, TurnAdded;
    AnswerReads(w, before, head, e);
  }

  lemma AnsweredWaiting(w: Wire, head: string, waiting: set<string>, before: Records, after: Records,
                        id: string, text: seq<Message>)
    requires WaitingReads(w, waiting, before) && TurnAdded(w, before, after, head, id, text)
    requires head !in waiting && "" !in waiting
    ensures WaitingReads(w, waiting - {id}, after)
  {
    hide Read, Sound, Carries, LightHead;
    assert ParentsClear(after, {id, head}, waiting - {id}) by {
      forall k | k in waiting ensures head in before ==> before[head].historyParent != k {
        assert NobodysParent(before, k);
      }
    }
    WaitingOnly(w, waiting, waiting - {id}, before);
    WaitingCarries(w, waiting - {id}, before, after, {id, head});
  }

  lemma AnsweredHead(w: Wire, head: string, before: Records, after: Records, id: string, text: seq<Message>)
    requires TurnAdded(w, before, after, head, id, text)
    ensures HeadReads(w, head, text, after)
  {
    hide Sound, Carries;
  }

  lemma SnapshotNow(w: Wire, start: Story, head: string, events: seq<Event>, after: Records)
    requires events != [] && events[|events| - 1].Answered?
    requires var id := events[|events| - 1].id;
             id in after ==> Read(w, after, id) == History(Tale(w, start, head, events).text)
    ensures Snapshot(w, start, head, events, after, |events| - 1)
  {
    hide Read, Tale;
    assert events[..|events|] == events;
  }

  lemma NothingCarries(w: Wire, data: Records)
    ensures Carries(w, data, data, {})
  {
    hide Read;
  }

  /** The commit takes place. */
  lemma AnswerTaken(env: Env, data: Records, t: Thread, events: seq<Event>, before: Records)
    requires Until(env, data, t, events, before) && events[|events| - 1].Answered?
    requires events[|events| - 1].id in before || t.head in before
    ensures ThreadReads(env.wire, data, t, events, Play(env, data, t.head, events))
  {
    hide Bound, Merge, Read, Sound, Carries, SnapshotsRead, StrangersRead, HeadReads, WaitingReads, ValidKey;
    hide TurnAdded, Answer, HistoryOf, Snapshot;
    var w, e, earlier := env.wire, events[|events| - 1], events[..|events| - 1];
    var start := Opening(w, data, t.head);
    var s, after := Tale(w, start, t.head, earlier), Play(env, data, t.head, events);
    assert Possible(env, data, t, earlier, e);
    EarlierAnswers(env, data, t, events);
    var told := Tale(w, start, t.head, events);
    AnswerApplies(w, t.head, s, before, e);
    TurnFacts(w, before, after, t.head, e.id, told.text);
    AnsweredHead(w, t.head, before, after, e.id, told.text);
    NoBlank(t, s, before);
    AnsweredWaiting(w, t.head, s.waiting, before, after, e.id, told.text);
    SnapshotNow(w, start, t.head, events, after);
    SnapshotsCarry(w, start, t.head, events, before, after, {e.id, t.head});
    StrangersCarry(w, data, t, events, before, after, {e.id, t.head});
  }

  lemma TurnFacts(w: Wire, before: Records, after: Records, head: string, id: string, text: seq<Message>)
    requires TurnAdded(w, before, after, head, id, text)
    ensures Carries(w, before, after, {id, head}) && after.Keys == before.Keys + {id, head}
    ensures Read(w, after, id) == History(text)
  {
    hide Sound, Carries, Read;
  }

  lemma WaitingOnly(w: Wire, waiting: set<string>, fewer: set<string>, after: Records)
    requires WaitingReads(w, waiting, after) && fewer <= waiting
    ensures WaitingReads(w, fewer, after)
  {
    hide Read, NobodysParent;
  }

  /** Both its id and the head are gone, and the commit is refused. */
  lemma AnswerRefused(env: Env, data: Records, t: Thread, events: seq<Event>, before: Records)
    requires Until(env, data, t, events, before) && events[|events| - 1].Answered?
    requires events[|events| - 1].id !in before && t.head !in before
    ensures ThreadReads(env.wire, data, t, events, Play(env, data, t.head, events))
  {
    hide Bound, Merge, Read, Sound, Carries, SnapshotsRead, StrangersRead, WaitingReads, Snapshot, Committed;
    var w, e, earlier := env.wire, events[|events| - 1], events[..|events| - 1];
    var start := Opening(w, data, t.head);
    var s, told := Tale(w, start, t.head, earlier), Tale(w, start, t.head, events);
    assert Possible(env, data, t, earlier, e);
    assert told == s.(waiting := s.waiting - {e.id}) && Play(env, data, t.head, events) == before;
    EarlierAnswers(env, data, t, events);
    NothingCarries(w, before);
    WaitingOnly(w, s.waiting, told.waiting, before);
    SnapshotNow(w, start, t.head, events, before);
    SnapshotsCarry(w, start, t.head, events, before, before, {});
    StrangersCarry(w, data, t, events, before, before, {});
  }

  lemma RebasedReads(env: Env, data: Records, t: Thread, events: seq<Event>, before: Records)
    requires Until(env, data, t, events, before) && events[|events| - 1].Rebased?
    ensures ThreadReads(env.wire, data, t, events, Play(env, data, t.head, events))
  {
    hide Bound, Merge, Read, Sound, Carries, SnapshotsRead, StrangersRead, WaitingReads, RebaseOf, ValidKey, HeadReads;
    hide HistoryOf;
    var w, e, earlier := env.wire, events[|events| - 1], events[..|events| - 1];
    var start := Opening(w, data, t.head);
    var s, told := Tale(w, start, t.head, earlier), Tale(w, start, t.head, events);
    var after := e.after;
    assert Possible(env, data, t, earlier, e);
    SoundBefore(w, t.head, s.text, before);
    RebaseCarries(w, before, after);
    RebasedHead(w, t.head, s.text, before, after);
    EarlierAnswers(env, data, t, events);
    NoBlank(t, s, before);
    WaitingCarries(w, s.waiting, before, after, {});
    SnapshotsCarry(w, start, t.head, events, before, after, {});
    StrangersCarry(w, data, t, events, before, after, {});
  }

  lemma RebasedHead(w: Wire, head: string, text: seq<Message>, before: Records, after: Records)
    requires HeadReads(w, head, text, before) && Sound(w, after) && Carries(w, before, after, {})
    ensures HeadReads(w, head, if head in after then text else [], after)
  {
    hide Materialize, Sound;
    if head !in after {
      UnfiledReads(w, after, head);
    }
  }

  lemma ElsewhereReads(env: Env, data: Records, t: Thread, events: seq<Event>, before: Records)
    requires Until(env, data, t, events, before) && events[|events| - 1].Elsewhere?
    ensures ThreadReads(env.wire, data, t, events, Play(env, data, t.head, events))
  {
    hide Bound, Merge, Read, Sound, Carries, SnapshotsRead, StrangersRead, WaitingReads, ValidKey, HeadReads, HistoryOf;
    hide ParentsClear;
    var w, e, earlier := env.wire, events[|events| - 1], events[..|events| - 1];
    var start := Opening(w, data, t.head);
    var s, after := Tale(w, start, t.head, earlier), e.after;
    assert Possible(env, data, t, earlier, e);
    HeadCarries(w, t.head, s.text, before, after, e.touched);
    EarlierAnswers(env, data, t, events);
    assert forall k | k == t.head || k in t.ids :: k in after ==> k in before by {
      CarriedWasThere(w, before, after, e.touched);
    }
    NoBlank(t, s, before);
    WaitingCarries(w, s.waiting, before, after, e.touched);
    SnapshotsCarry(w, start, t.head, events, before, after, e.touched);
    StrangersCarry(w, data, t, events, before, after, e.touched);
  }

  lemma CarriedWasThere(w: Wire, before: Records, after: Records, changed: set<string>)
    requires Carries(w, before, after, changed)
    ensures forall k | k in after && k !in changed :: k in before
  {
    hide Read;
  }

  // ------------------------------------------------------------------ whole runs

  /** Over every run of these events each response id that is stored reads the transcript
      of its own round, the head reads the latest, an id whose turn has not been committed
      reads as empty, and records that neither this thread nor another one wrote read what
      they read at first. */
  lemma {:induction false} ThreadKeepsSnapshots(env: Env, data: Records, t: Thread, events: seq<Event>)
    requires Playable(env, data, t, events)
    ensures ThreadReads(env.wire, data, t, events, Play(env, data, t.head, events))
    decreases |events|
  {
    hide Playable, ThreadReads, Play, Tale;
    if events != [] {
      EarlierPlayable(env, data, t, events);
      ThreadKeepsSnapshots(env, data, t, events[..|events| - 1]);
      var before := Play(env, data, t.head, events[..|events| - 1]);
      match events[|events| - 1]
      case Filed(_, _, _) => FiledReads(env, data, t, events, before);
      case Answered(id, _, _, _) =>
        if id in before || t.head in before {
          AnswerTaken(env, data, t, events, before);
        } else {
          AnswerRefused(env, data, t, events, before);
        }
      case Rebased(_) => RebasedReads(env, data, t, events, before);
      case Elsewhere(_, _) => ElsewhereReads(env, data, t, events, before);
    } else {
      NothingHappened(env, data, t);
    }
  }

  lemma NothingHappened(env: Env, data: Records, t: Thread)
    requires Playable(env, data, t, [])
    ensures ThreadReads(env.wire, data, t, [], Play(env, data, t.head, []))
  {
    hide Materialize, Bound, Sound;
  }

  // -------------------------------------------------------- what other threads do

  /** Another thread's commit is such a write, and so is a turn that branches off from the
      head or from an id that a client has been told without moving the head. */
  lemma CommitIsElsewhere(w: Wire, data: Records, t: Turn, waiting: set<string>)
    requires Commits(w, data, t) && WaitingReads(w, waiting, data)
    requires t.source !in waiting && t.target !in waiting && "" !in waiting
    ensures OthersWrite(w, data, Committed(w, data, t), {t.target} + (if Advances(t) then {t.source} else {}), waiting)
  {
    hide Materialize, Bound, Sound, CommittedHistory, Transit, TargetBase;
    CommitReads(w, data, t);
    forall k | k in waiting ensures t.source in data ==> data[t.source].historyParent != k {
      assert NobodysParent(data, k);
    }
  }

  lemma BindingIsElsewhere(env: Env, data: Records, v: Conversation, now: int, waiting: set<string>)
    requires Sound(env.wire, data) && !HasPortableState(v) && v.id != ""
    requires v.responseAlias || NobodysParent(data, v.id)
    requires WaitingReads(env.wire, waiting, data) && "" !in waiting
    ensures OthersWrite(env.wire, data, File(env, data, v, now), {v.id}, waiting)
  {
    hide Materialize, Bound, Sound;
    BindingSoundIff(env, data, v, now);
    BindingReads(env, data, v, now);
    if v.id in data {
      BindingHistory(env, data, v, now);
    }
    forall k | k in waiting ensures v.id in data ==> data[v.id].historyParent != k {
      assert NobodysParent(data, k);
    }
  }

  // -------------------------------------------------------------------- the links

  /** The ids of the committed turns, in order. */
  function Answers(events: seq<Event>): seq<string> {
    if events == [] then []
    else
      Answers(events[..|events| - 1])
      + if events[|events| - 1].Answered? then [events[|events| - 1].id] else []
  }

  /** Nothing is lost, each committed id but the first is a link to the one committed
      before it, and the head to the last. */
  ghost predicate Linked(ids: seq<string>, head: string, after: Records) {
    && (forall m | 0 <= m < |ids| :: ids[m] in after)
    && (forall m | 1 <= m < |ids| :: after[ids[m]].historyParent == ids[m - 1])
    && (ids != [] ==>
          head in after && LightHead(after[head]) && after[head].historyParent == ids[|ids| - 1])
  }

  lemma {:induction false} AnswersSeen(s: Story, events: seq<Event>)
    requires forall i | 0 <= i < |events| && events[i].Answered? :: events[i].id in s.seen && events[i].id !in s.waiting
    ensures forall m | 0 <= m < |Answers(events)| :: Answers(events)[m] in s.seen && Answers(events)[m] !in s.waiting
    decreases |events|
  {
    if events != [] {
      AnswersSeen(s, events[..|events| - 1]);
    }
  }

  lemma NothingLinked(head: string, data: Records)
    ensures Linked([], head, data)
  {
  }

  lemma FiledLinks(ids: seq<string>, head: string, before: Records, after: Records, id: string)
    requires Linked(ids, head, before) && id !in before && id != head
    requires forall k | k in before :: k in after && after[k] == before[k]
    ensures Linked(ids, head, after)
  {
  }

  lemma AnsweredLinks(w: Wire, ids: seq<string>, head: string, before: Records, after: Records, id: string,
                      text: seq<Message>)
    requires Linked(ids, head, before) && TurnAdded(w, before, after, head, id, text)
    requires id !in ids && head !in ids
    ensures Linked(ids + [id], head, after)
  {
    hide Read, Sound, Carries, LightHead;
  }

  lemma FiledIsNew(w: Wire, data: Records, t: Thread, events: seq<Event>, before: Records, id: string)
    requires ThreadReads(w, data, t, events, before)
    requires id in t.ids && id !in Tale(w, Opening(w, data, t.head), t.head, events).seen
    ensures id !in before && id != t.head
  {
    hide Tale, HeadReads, WaitingReads, SnapshotsRead, StrangersRead, ValidKey;
  }

  lemma ReadyToAnswer(w: Wire, data: Records, t: Thread, events: seq<Event>, before: Records, e: Event)
    requires ThreadReads(w, data, t, events, before) && e.Answered? && t.head != ""
    requires var s := Tale(w, Opening(w, data, t.head), t.head, events); e.id in s.waiting && s.seen <= before.Keys
    ensures var s := Tale(w, Opening(w, data, t.head), t.head, events);
            && TurnAdded(w, before, Answer(w, before, t.head, e), t.head, e.id,
                         Bound(w, Merge(w, s.text, e.request) + [e.assistant]))
            && t.head !in s.seen
  {
    hide Tale, HeadReads, WaitingReads, SnapshotsRead, StrangersRead, ValidKey, TurnAdded, Bound, Merge, Answer;
    AnswerApplies(w, t.head, Tale(w, Opening(w, data, t.head), t.head, events), before, e);
  }

  /** Whatever rounds overlap, when nothing is pruned or removed. */
  lemma {:induction false} ThreadLinks(env: Env, data: Records, t: Thread, events: seq<Event>)
    requires Playable(env, data, t, events)
    requires forall i | 0 <= i < |events| :: events[i].Filed? || events[i].Answered?
    ensures var s, after := Tale(env.wire, Opening(env.wire, data, t.head), t.head, events),
                            Play(env, data, t.head, events);
            Linked(Answers(events), t.head, after) && data.Keys + s.seen <= after.Keys
    decreases |events|
  {
    hide Bound, Merge, Read, HistoryOf, Sound, Carries, Upserted, Linked, ThreadReads, LightHead, ValidKey;
    hide HasPortableState, TurnAdded, Answer, RebaseOf, OthersWrite;
    if events != [] {
      var last, w := |events| - 1, env.wire;
      var e, earlier := events[last], events[..last];
      EarlierPlayable(env, data, t, events);
      assert Possible(env, data, t, earlier, e);
      ThreadLinks(env, data, t, earlier);
      ThreadKeepsSnapshots(env, data, t, earlier);
      AnsweredSeen(env, data, t, earlier);
      var s, before := Tale(w, Opening(w, data, t.head), t.head, earlier), Play(env, data, t.head, earlier);
      AnswersSeen(s, earlier);
      if e.Filed? {
        FiledIsNew(w, data, t, earlier, before, e.id);
        FiledLinks(Answers(earlier), t.head, before, File(env, before, e.binding, e.at), e.id);
        assert Answers(events) == Answers(earlier);
      } else {
        ReadyToAnswer(w, data, t, earlier, before, e);
        var text := Bound(w, Merge(w, s.text, e.request) + [e.assistant]);
        AnsweredLinks(w, Answers(earlier), t.head, before, Answer(w, before, t.head, e), e.id, text);
        TurnFacts(w, before, Answer(w, before, t.head, e), t.head, e.id, text);
      }
    } else {
      NothingLinked(t.head, data);
    }
  }
}
