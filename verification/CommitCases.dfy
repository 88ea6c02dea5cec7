/**
 What commits and bindings file, in terms of the records and messages that go in: the
 transcript, the link, and the identity that is carried along.
 */
module CommitCases {
  import opened Chat
  import opened Portable
  import opened PortableCases
  import opened Forest
  import opened Pruning
  import opened SessionStore
  import Text

  /** What a key reads, or nothing if it is not stored. */
  function HistoryAt(w: Wire, data: Records, k: string): seq<Message> {
    if k in data && Read(w, data, k).History? then Read(w, data, k).messages else []
  }

  lemma HistoryAtIs(w: Wire, data: Records, k: string)
    ensures HistoryAt(w, data, k) == HistoryOf(w, data, k)
  {
    hide Materialize;
    if k !in data {
      UnfiledReads(w, data, k);
    }
  }

  lemma NothingToMerge(w: Wire, h: seq<Message>)
    requires Bound(w, h) == h
    ensures Merge(w, h, []) == h && Merge(w, [], h) == h
  {
    assert Bound(w, []) == [];
    assert Overlap(h, []) == 0 && Overlap([], h) == 0;
    assert h + [] == h && [] + h[0..] == h;
  }

  lemma HistoryAtBounded(w: Wire, data: Records, k: string)
    ensures Bound(w, HistoryAt(w, data, k)) == HistoryAt(w, data, k)
  {
    hide Materialize;
    if k in data && Read(w, data, k).History? {
      ReadIsBounded(w, data, k);
    }
  }

  /** What was there before: what the source reads, followed by what the target reads. */
  function Before(w: Wire, data: Records, t: Turn): seq<Message> {
    if t.source == t.target then HistoryAt(w, data, t.target)
    else Merge(w, HistoryAt(w, data, t.source), HistoryAt(w, data, t.target))
  }

  /** In every case the committed transcript is what was there before, the messages of the
      request and the answer. */
  lemma CommitText(w: Wire, data: Records, t: Turn)
    ensures CommittedHistory(w, data, t) == Bound(w, Merge(w, Before(w, data, t), t.request) + [t.assistant])
  {
    hide Bound, Merge, Materialize;
    HistoryAtIs(w, data, t.source);
    HistoryAtIs(w, data, t.target);
    HistoryAtBounded(w, data, t.source);
    if t.target !in data {
      NothingToMerge(w, HistoryAt(w, data, t.source));
    }
  }

  /** A turn whose source is its own target, as the first turn of a conversation without a
      key of its own: in every sound store the key reads what it read before, if anything,
      with the request and the answer. */
  lemma SameKeyReads(w: Wire, data: Records, t: Turn)
    requires Sound(w, data) && CommitRefusal(data, t).None? && t.source == t.target
    ensures Read(w, Committed(w, data, t), t.target) ==
            History(Bound(w, Merge(w, HistoryAt(w, data, t.target), t.request) + [t.assistant]))
  {
    hide Bound, Merge, Materialize, CommittedHistory, Committed, Sound, Clear, HistoryAt;
    CommitText(w, data, t);
    TargetReadsIff(w, data, t);
  }

  /** A turn that goes on from another record, under a target that may already have a
      history of its own. */
  lemma OtherKeyReads(w: Wire, data: Records, t: Turn)
    requires Commits(w, data, t) && t.source != t.target
    ensures var h := Merge(w, HistoryAt(w, data, t.source), HistoryAt(w, data, t.target));
            Read(w, Committed(w, data, t), t.target) == History(Bound(w, Merge(w, h, t.request) + [t.assistant]))
  {
    hide Bound, Merge, Materialize, CommittedHistory, Committed, Commits, HistoryAt;
    CommitText(w, data, t);
    CommitReads(w, data, t);
    assert Overwritten(t, t.target);
  }

  /** While all is within the limits and nothing repeats, a turn appends its messages and
      the answer to what there was. */
  lemma TurnAppends(w: Wire, data: Records, t: Turn)
    requires Sound(w, data) && CommitRefusal(data, t).None?
    requires t.source != t.target ==> Commits(w, data, t) && HistoryAt(w, data, t.target) == []
    requires var h := HistoryAt(w, data, t.source); var all := h + t.request + [t.assistant];
             && Sanitized(all) && |all| <= 1537 && (forall m | m in h :: m !in t.request)
             && w.size(h) <= 8388608 && w.size(t.request) <= 8388608
             && w.size(h + t.request) <= 8388608 && w.size(all) <= 8388608
    ensures Read(w, Committed(w, data, t), t.target) ==
            History(HistoryAt(w, data, t.source) + t.request + [t.assistant])
  {
    hide Bound, Merge, Materialize, Committed, Commits, Sound, HistoryAt, Sanitize;
    var h := HistoryAt(w, data, t.source);
    var asked, all := h + t.request, h + t.request + [t.assistant];
    assert Sanitized(asked) by {
      assert forall i | 0 <= i < |asked| :: asked[i] == all[i];
    }
    NewIsAppended(w, h, t.request);
    SanitizedStays(all);
    FittingStays(w, all);
    if t.source == t.target {
      SameKeyReads(w, data, t);
    } else {
      HistoryAtBounded(w, data, t.source);
      NothingToMerge(w, h);
      OtherKeyReads(w, data, t);
    }
  }

  /** A commit is refused for a blank or over-long target, and if a record that it needs is
      missing: the source where it goes on from another one, unless the target is there
      already and the source is a head that it may create. */
  lemma RefusalMeans(data: Records, t: Turn)
    ensures var bad := Text.Trim(t.target) == "" || Text.ByteLength(t.target) > 256;
            && (CommitRefusal(data, t) == Some(InvalidKey) <==> bad)
            && (CommitRefusal(data, t) == Some(NotFound) <==>
                  && !bad && t.source !in data && t.source != t.target
                  && (t.target !in data || (!t.advance && t.source != "")))
            && (CommitRefusal(data, t).Some? ==> CommitRefusal(data, t).value in {InvalidKey, NotFound})
  {
    hide Text.Trim, Text.ByteLength;
  }

  // -------------------------------------------------------------------- the record

  /** Where the identity of a committed response comes from: the record that is there
      already, or else the source. */
  predicate SameIdentity(a: Conversation, b: Conversation) {
    && a.accountID == b.accountID && a.conversationID == b.conversationID && a.sessionID == b.sessionID
    && a.title == b.title && a.routeGeneration == b.routeGeneration && a.createdAt == b.createdAt
  }

  /** A committed response keeps the identity of its binding; one that was never bound has
      that of its source, and one without either has none. It is as new as its turn. */
  lemma CommitCarries(w: Wire, data: Records, t: Turn)
    requires CommitRefusal(data, t).None?
    ensures var stored := CommittedTarget(w, data, t);
            && stored.id == (if t.target in data then data[t.target].id else t.target) && stored.updatedAt == t.now
            && (t.target in data ==> SameIdentity(stored, data[t.target]))
            && (t.target !in data && t.source in data ==> SameIdentity(stored, data[t.source]))
            && (t.target !in data && t.source !in data ==>
                  stored.accountID == "" && stored.conversationID == "" && stored.sessionID == ""
                  && stored.routeGeneration == 0)
    ensures t.now != 0 ==> !Stale(t.target, CommittedTarget(w, data, t), t.now)
  {
    hide Bound, CommittedHistory, Transit;
  }

  /** A response that follows another one is an alias in its group, and it is stored as a
      link: to its source if that is a response itself, to the response that a light head
      names, and in all other cases as a full copy. */
  lemma CommitLinks(w: Wire, data: Records, t: Turn)
    requires CommitRefusal(data, t).None?
    ensures var stored := CommittedTarget(w, data, t); var follows := t.source in data && t.source != t.target;
            && (t.source != t.target ==> stored.responseAlias)
            && (follows && data[t.source].responseAlias && t.source != "" ==>
                  stored.historyParent == t.source && stored.portableMessages == [])
            && (follows && !data[t.source].responseAlias && data[t.source].historyParent != ""
                && data[t.source].historyDrop == 0 && data[t.source].portableDelta == []
                && data[t.source].portableMessages == [] ==>
                  stored.historyParent == data[t.source].historyParent && stored.portableMessages == [])
            && (!follows || (!data[t.source].responseAlias
                             && (data[t.source].historyDrop != 0 || data[t.source].portableDelta != []
                                 || data[t.source].portableMessages != [])) ==>
                  stored.historyParent == "" && stored.historyDrop == 0 && stored.portableDelta == []
                  && stored.portableMessages == CommittedHistory(w, data, t))
            && (follows && Text.Trim(data[t.source].aliasGroup) != "" ==>
                  stored.aliasGroup == data[t.source].aliasGroup)
            && (t.source !in data && t.source != t.target ==> stored.aliasGroup == t.source)
  {
    hide Bound, CommittedHistory;
  }

  /** An advanced head takes over the identity of the new response. It stays a stable record
      of its own group, as old as it was, and only names that response. */
  lemma HeadCarries(w: Wire, data: Records, t: Turn)
    requires CommitRefusal(data, t).None?
    ensures var head, stored := AdvancedHead(w, data, t), CommittedTarget(w, data, t);
            && head.id == t.source && head.aliasGroup == t.source && !head.responseAlias
            && SameIdentity(head.(createdAt := stored.createdAt), stored) && head.updatedAt == t.now
            && head.createdAt == (if t.source in data && data[t.source].createdAt != 0
                                  then data[t.source].createdAt else stored.createdAt)
            && head.historyParent == t.target && head.historyDrop == 0
            && head.portableDelta == [] && head.portableMessages == []
    ensures t.now != 0 && ValidKey(t.source) ==> !Stale(t.source, AdvancedHead(w, data, t), t.now)
  {
    hide Bound, CommittedHistory, Transit, TargetBase, ParentFor;
  }

  /** A record that survives an eviction or a deletion is as old as it was, keeps its
      identity and its place among the aliases, and links to what it linked to or to
      nothing any more. */
  lemma RebaseCarries(w: Wire, before: Records, after: Records, k: string)
    requires RebaseOf(w, before, after) && k in after
    ensures k in before && after[k].id == before[k].id && SameIdentity(after[k], before[k])
    ensures after[k].updatedAt == before[k].updatedAt
    ensures after[k].aliasGroup == before[k].aliasGroup && after[k].responseAlias == before[k].responseAlias
    ensures after[k].historyParent == before[k].historyParent || after[k].historyParent == ""
  {
    hide Materialize;
    assert KeptAt(w, before, after, k);
  }

  /** A binding brings the whole identity of its record and is as new as its filing. */
  lemma BindingCarries(env: Env, data: Records, v: Conversation, now: int)
    ensures var filed := Upserted(env, data, v, now);
            && filed.id == v.id && filed.accountID == v.accountID && filed.conversationID == v.conversationID
            && filed.sessionID == v.sessionID && filed.routeGeneration == v.routeGeneration
            && filed.responseAlias == v.responseAlias && filed.title == env.boundTitle(v.title)
            && filed.updatedAt == now
            && filed.createdAt == (if v.createdAt != 0 then v.createdAt
                                   else if v.id in data && data[v.id].createdAt != 0 then data[v.id].createdAt else now)
            && (v.aliasGroup != "" ==> filed.aliasGroup == v.aliasGroup)
            && (v.aliasGroup == "" && v.id in data && data[v.id].aliasGroup != "" ==>
                  filed.aliasGroup == data[v.id].aliasGroup)
    ensures now != 0 && ValidKey(v.id) ==> !Stale(v.id, Upserted(env, data, v, now), now)
  {
    hide Bound, SanitizeAll;
  }

  /** A record that says nothing about a transcript. */
  predicate Bare(v: Conversation) {
    v.portableMessages == [] && v.historyParent == "" && v.portableDelta == [] && v.historyDrop <= 0
  }

  predicate SameTranscript(a: Conversation, b: Conversation) {
    && a.portableMessages == b.portableMessages && a.historyParent == b.historyParent
    && a.portableDelta == b.portableDelta && a.historyDrop == b.historyDrop
  }

  /** A bare record takes over the transcript that is stored under its id; else a link is
      filed with its sanitised delta and no copy, and anything else as a bounded copy. */
  lemma FiledTranscript(env: Env, data: Records, v: Conversation, now: int)
    ensures var filed := Upserted(env, data, v, now);
            if Bare(v) && v.id in data && !Bare(data[v.id]) then SameTranscript(filed, data[v.id])
            else if v.historyParent != "" then
              && filed.historyParent == v.historyParent && filed.historyDrop == v.historyDrop
              && filed.portableDelta == SanitizeAll(v.portableDelta) && filed.portableMessages == []
            else
              && filed.historyParent == "" && filed.historyDrop == 0 && filed.portableDelta == []
              && filed.portableMessages == Bound(env.wire, v.portableMessages)
  {
    hide Bound, SanitizeAll;
  }

  /** So a bare record leaves what its id reads as it was, or starts an empty transcript. */
  lemma BareKeepsReading(env: Env, data: Records, v: Conversation, now: int)
    requires Sound(env.wire, data) && Bare(v)
    ensures var after := data[v.id := Upserted(env, data, v, now)];
            && Read(env.wire, after, v.id) == History(HistoryAt(env.wire, data, v.id))
            && forall k | k in data :: Read(env.wire, after, k) == Read(env.wire, data, k)
  {
    hide Materialize, Upserted, Sound;
    BindingReads(env, data, v, now);
    if v.id in data {
      SoundReads(env.wire, data, v.id);
    }
  }
}
