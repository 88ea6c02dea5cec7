/**
 Stores from before alias groups were recorded: how loading sorts their records into a
 stable root and aliases and compacts them, and what that can do to a thread that goes on.
 */
module LegacyStore {
  import opened Chat
  import opened Forest
  import opened Portable
  import opened Pruning
  import opened SessionStore
  import Text

  /** A record of an account's upstream conversation that has no group yet. */
  predicate Ungrouped(v: Conversation) {
    v.aliasGroup == "" && v.accountID != "" && v.conversationID != "" && v.sessionID != ""
  }

  predicate SameUpstream(a: Conversation, b: Conversation) {
    a.accountID == b.accountID && a.conversationID == b.conversationID && a.sessionID == b.sessionID
  }

  predicate Sooner(data: Records, a: string, b: string)
    requires a in data && b in data
  {
    || data[a].createdAt < data[b].createdAt
    || (data[a].createdAt == data[b].createdAt
        && (data[a].updatedAt < data[b].updatedAt || (data[a].updatedAt == data[b].updatedAt && LexLess(a, b))))
  }

  /** The earliest record of the same upstream conversation. */
  ghost predicate IsRoot(data: Records, k: string, root: string)
    requires k in data
  {
    && root in data && Ungrouped(data[root]) && SameUpstream(data[root], data[k])
    && forall m | m in data && m != root && Ungrouped(data[m]) && SameUpstream(data[m], data[k]) ::
         Sooner(data, root, m)
  }

  ghost predicate ClassifiedAt(data: Records, after: Records, k: string)
    requires k in data && k in after
  {
    if Ungrouped(data[k]) then
      exists root :: IsRoot(data, k, root) && after[k] == data[k].(aliasGroup := root, responseAlias := k != root)
    else after[k] == data[k]
  }

  /** Loading groups the ungrouped records: the root of a group stays a stable head and
      the others become aliases. */
  ghost predicate Classifies(data: Records, after: Records) {
    data.Keys == after.Keys && forall k | k in data :: ClassifiedAt(data, after, k)
  }

  lemma SameHistory(data: Records, after: Records, k: string)
    requires Classifies(data, after) && k in data
    ensures after[k] == data[k].(aliasGroup := after[k].aliasGroup, responseAlias := after[k].responseAlias)
  {
    hide IsRoot, Ungrouped;
    assert ClassifiedAt(data, after, k);
  }

  lemma {:induction false} ClassifiedUnfolds(w: Wire, data: Records, after: Records, k: string, n: nat)
    requires Classifies(data, after) && k in data
    ensures Unfold(w, after, k, n) == Unfold(w, data, k, n)
    decreases n
  {
    hide Bound, ClassifiedAt;
    SameHistory(data, after, k);
    if n > 0 && data[k].historyParent in data {
      ClassifiedUnfolds(w, data, after, data[k].historyParent, n - 1);
    }
  }

  /** Classification changes no reading. */
  lemma ClassifiedReads(w: Wire, data: Records, after: Records, k: string)
    requires Classifies(data, after) && k in data
    ensures Read(w, after, k).History? <==> Read(w, data, k).History?
    ensures Read(w, data, k).History? ==> Read(w, after, k) == Read(w, data, k)
  {
    hide Bound, Materialize;
    if Read(w, data, k).History? {
      var n := UnfoldFromRead(w, data, k);
      ClassifiedUnfolds(w, data, after, k, n);
      ReadFromUnfold(w, after, k, n);
    }
    if Read(w, after, k).History? {
      var n := UnfoldFromRead(w, after, k);
      ClassifiedUnfolds(w, data, after, k, n);
      ReadFromUnfold(w, data, k, n);
    }
  }

  function Legacy(id: string, createdAt: int): Conversation {
    Conversation(id, "account", "conversation", "session", "", [], "", 0, [], "", false, 0, createdAt, createdAt)
  }

  const OLD_STORE: Records := map["first" := Legacy("first", 1), "head" := Legacy("head", 2)]
  const CLASSIFIED: Records := map["first" := Legacy("first", 1).(aliasGroup := "first"),
                                   "head" := Legacy("head", 2).(aliasGroup := "first", responseAlias := true)]
  const NEXT_TURN := Turn("head", "next", [], Message("assistant", Some("done"), "", "", []), true, 3)

  /** What loading makes of it: the group is classified, then compacted around its alias. */
  function Loaded(w: Wire): Records {
    CompactGroup(w, CLASSIFIED, {"first", "head"}, "head")
  }

  lemma OldIsClassified()
    ensures Classifies(OLD_STORE, CLASSIFIED)
  {
    assert IsRoot(OLD_STORE, "first", "first") && IsRoot(OLD_STORE, "head", "first");
    assert ClassifiedAt(OLD_STORE, CLASSIFIED, "first") && ClassifiedAt(OLD_STORE, CLASSIFIED, "head");
  }

  lemma ClassifiedIsSound(w: Wire)
    ensures Sound(w, CLASSIFIED)
  {
    hide Bound;
    forall k ensures SoundAt(w, CLASSIFIED, k) {
      assert k in CLASSIFIED ==> Read(w, CLASSIFIED, k) == History(Bound(w, []));
    }
  }

  lemma GroupMembers()
    ensures Members(CLASSIFIED, "first") == {"first", "head"}
  {
    hide Text.Trim;
    NamesStay();
  }

  lemma LoadedLinks(w: Wire)
    ensures Loaded(w).Keys == {"first", "head"}
    ensures Loaded(w)["first"].historyParent == "head" && Loaded(w)["first"].portableMessages == []
    ensures Loaded(w)["head"] == CLASSIFIED["head"]
    ensures var first := Loaded(w)["first"];
            first == CLASSIFIED["first"].(portableMessages := [], historyParent := "head",
                                          historyDrop := first.historyDrop, portableDelta := first.portableDelta)
  {
    hide Transit, Bound;
  }

  /** The two records are a group that loading compacts, around the head. */
  lemma OneGroup(w: Wire)
    ensures CompactedGroup(CLASSIFIED, Loaded(w), "first")
  {
    hide Loaded, Members, NamedGroup;
    GroupMembers();
    LoadedLinks(w);
    assert |{"first", "head"}| == 2;
    assert CLASSIFIED["head"].responseAlias && !Structured(CLASSIFIED["first"]) && !Structured(CLASSIFIED["head"]);
    assert BuiltAround(CLASSIFIED, Loaded(w), {"first", "head"}, "head");
  }

  /** So the pruning at the end of loading finds nothing to do. */
  lemma NothingStale(w: Wire)
    ensures !NeedsPrune(Loaded(w), NEXT_TURN.now)
  {
    hide Transit, Bound, Text.Trim, NamedGroup, NamedAliases;
    var data := Loaded(w);
    NamesStay();
    LoadedLinks(w);
    assert |data| == |data.Keys| == 2;
    forall k | k in data ensures !Stale(k, data[k], NEXT_TURN.now) {
      Text.ByteLengthAtMost(k);
    }
    forall g ensures |NamedAliases(data, g)| <= MAX_ALIASES {
      FewAliases(data, g);
    }
  }

  lemma FewAliases(data: Records, group: string)
    requires data.Keys == {"first", "head"}
    ensures |NamedAliases(data, group)| <= MAX_ALIASES
  {
    Smaller(NamedAliases(data, group), data.Keys);
  }

  lemma LoadedIsSound(w: Wire)
    ensures Sound(w, Loaded(w)) && forall k | k in CLASSIFIED :: Read(w, Loaded(w), k) == Read(w, CLASSIFIED, k)
  {
    hide Bound, Transit, Materialize, Sound, CompactGroup;
    ClassifiedIsSound(w);
    CompactReads(w, CLASSIFIED, {"first", "head"}, "head");
  }

  /** An old store holds two records of one upstream conversation, of which the later is a
      thread's stable head. Loading makes the head an alias and the other record a link to
      it. It can all still be read, but the thread's next turn leaves the head and the new
      response linked to each other, and none of the three can be read again. */
  lemma LegacyHeadCycles(w: Wire)
    ensures Classifies(OLD_STORE, CLASSIFIED) && CompactedGroup(CLASSIFIED, Loaded(w), "first")
    ensures !NeedsPrune(Loaded(w), NEXT_TURN.now)
    ensures Sound(w, Loaded(w)) && CommitRefusal(Loaded(w), NEXT_TURN).None?
    ensures NobodysParent(Loaded(w), NEXT_TURN.target) && Advances(NEXT_TURN)
    ensures var after := Committed(w, Loaded(w), NEXT_TURN);
            && after.Keys == {"first", "head", "next"} && !Sound(w, after)
            && Read(w, after, "head").Broken? && Read(w, after, "next").Broken? && Read(w, after, "first").Broken?
  {
    hide Bound, Materialize, CommittedHistory, Transit, Sound, Text.Trim, Classifies, CompactedGroup, Loaded;
    hide NeedsPrune;
    OldIsClassified();
    OneGroup(w);
    NothingStale(w);
    LoadedIsSound(w);
    LoadedLinks(w);
    NamesStay();
    CommitSoundIff(w, Loaded(w), NEXT_TURN);
    var after := Committed(w, Loaded(w), NEXT_TURN);
    assert after["head"].historyParent == "next" && after["next"].historyParent == "head";
    TwoCycleUnreadable(w, after, "head", "next");
    TwoCycleUnreadable(w, after, "next", "head");
    ChildUnreadable(w, after, "first");
  }

  lemma NamesStay()
    ensures Text.Trim("next") == "next" && Text.Trim("first") == "first" && Text.Trim("head") == "head"
  {
  }

  /** What links to an unreadable record is unreadable. */
  lemma ChildUnreadable(w: Wire, data: Records, k: string)
    requires k in data && data[k].historyParent != "" && Read(w, data, data[k].historyParent).Broken?
    ensures Read(w, data, k).Broken?
  {
    hide Materialize, Bound;
    if Read(w, data, k).History? {
      var n := UnfoldFromRead(w, data, k);
      ReadFromUnfold(w, data, data[k].historyParent, n - 1);
    }
  }

  lemma TwoCycleUnreadable(w: Wire, data: Records, a: string, b: string)
    requires a in data && b in data && a != "" && b != ""
    requires data[a].historyParent == b && data[b].historyParent == a
    ensures Read(w, data, a).Broken?
  {
    hide Materialize;
    if Read(w, data, a).History? {
      var n := UnfoldFromRead(w, data, a);
      NoTwoCycle(w, data, a, b, n);
    }
  }
}
