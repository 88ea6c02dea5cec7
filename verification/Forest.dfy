/**
 The response-session forest. A stored conversation is either a full transcript
 or a link "parent, drop, delta"; reading one means materialising its chain. This
 module holds the records, the reader, and the rewrites of the forest as
 functions on maps, with the proofs of what every surviving record still reads.
 */
module Forest {
  import opened Chat
  import opened Portable
  import Text

  datatype Conversation = Conversation(
    id: string,
    accountID: string,
    conversationID: string,
    sessionID: string,
    title: string,
    portableMessages: seq<Message>,
    historyParent: string,
    historyDrop: int,
    portableDelta: seq<Message>,
    aliasGroup: string,
    responseAlias: bool,
    routeGeneration: nat,
    createdAt: int,
    updatedAt: int)

  type Records = map<string, Conversation>

  datatype HistoryError = Missing(id: string) | Cyclic(id: string) | BadDrop(id: string)

  datatype Reading = History(messages: seq<Message>) | Broken(error: HistoryError)

  // ----------------------------------------------------------------- the reader

  /** Follows parent links; visiting holds the records being materialised, so the
      recursion ends on every map, a cyclic one included. */
  function Materialize(w: Wire, data: Records, id: string, visiting: set<string>): Reading
    decreases data.Keys - visiting
  {
    if id !in data then Broken(Missing(id))
    else if id in visiting then Broken(Cyclic(id))
    else
      var v := data[id];
      if v.historyParent == "" then History(Bound(w, v.portableMessages))
      else
        assert id in data.Keys - visiting;
        var parent := Materialize(w, data, v.historyParent, visiting + {id});
        if parent.Broken? then parent
        else if v.historyDrop < 0 || v.historyDrop > |parent.messages| then Broken(BadDrop(id))
        else History(Bound(w, parent.messages[v.historyDrop..] + v.portableDelta))
  }

  function Read(w: Wire, data: Records, id: string): Reading {
    Materialize(w, data, id, {})
  }

  /** What a record reads, an unreadable one counting as empty. */
  function HistoryOf(w: Wire, data: Records, id: string): seq<Message> {
    var r := Read(w, data, id);
    if r.History? then r.messages else []
  }

  /** The meaning of a record without the guard against cycles: the history found
      by following at most n records. */
  ghost function Unfold(w: Wire, data: Records, id: string, n: nat): Option<seq<Message>>
    decreases n
  {
    if n == 0 || id !in data then None
    else
      var v := data[id];
      if v.historyParent == "" then Some(Bound(w, v.portableMessages))
      else
        var parent := Unfold(w, data, v.historyParent, n - 1);
        if parent.None? || v.historyDrop < 0 || v.historyDrop > |parent.value| then None
        else Some(Bound(w, parent.value[v.historyDrop..] + v.portableDelta))
  }

  lemma UnfoldMore(w: Wire, data: Records, id: string, n: nat, m: nat)
    requires n <= m && Unfold(w, data, id, n).Some?
    ensures Unfold(w, data, id, m) == Unfold(w, data, id, n)
    decreases n
  {
    hide Bound;
    if data[id].historyParent != "" {
      UnfoldMore(w, data, data[id].historyParent, n - 1, m - 1);
    }
  }

  /** A record that unfolds is materialised whatever is being visited, as long as
      nothing being visited unfolds in as few steps. */
  lemma UnfoldMaterializes(w: Wire, data: Records, id: string, n: nat, visiting: set<string>)
    requires Unfold(w, data, id, n).Some?
    requires forall v | v in visiting :: Unfold(w, data, v, n).None?
    ensures Materialize(w, data, id, visiting) == History(Unfold(w, data, id, n).value)
    decreases n
  {
    hide Bound;
    forall v | v in visiting ensures Unfold(w, data, v, n - 1).None? {
      if Unfold(w, data, v, n - 1).Some? {
        UnfoldMore(w, data, v, n - 1, n);
      }
    }
    if Unfold(w, data, id, n - 1).Some? {
      UnfoldMore(w, data, id, n - 1, n);
      UnfoldMaterializes(w, data, id, n - 1, visiting);
    } else if data[id].historyParent != "" {
      UnfoldMaterializes(w, data, data[id].historyParent, n - 1, visiting + {id});
    }
  }

  lemma MaterializeUnfolds(w: Wire, data: Records, id: string, visiting: set<string>)
    requires Materialize(w, data, id, visiting).History?
    ensures Unfold(w, data, id, |data.Keys - visiting|) == Some(Materialize(w, data, id, visiting).messages)
    decreases data.Keys - visiting
  {
    hide Bound;
    assert id in data.Keys - visiting;
    assert data.Keys - (visiting + {id}) == (data.Keys - visiting) - {id};
    if data[id].historyParent != "" {
      MaterializeUnfolds(w, data, data[id].historyParent, visiting + {id});
    }
  }

  /** The guarded reader returns a history exactly when unfolding the links finds
      that history, however many links that takes. */
  lemma ReadIsUnfold(w: Wire, data: Records, id: string, h: seq<Message>)
    ensures Read(w, data, id) == History(h) <==> exists n: nat :: Unfold(w, data, id, n) == Some(h)
  {
    if Read(w, data, id) == History(h) {
      MaterializeUnfolds(w, data, id, {});
    }
    if n: nat :| Unfold(w, data, id, n) == Some(h) {
      UnfoldMaterializes(w, data, id, n, {});
    }
  }

  lemma ReadFromUnfold(w: Wire, data: Records, id: string, n: nat)
    requires Unfold(w, data, id, n).Some?
    ensures Read(w, data, id) == History(Unfold(w, data, id, n).value)
  {
    UnfoldMaterializes(w, data, id, n, {});
  }

  lemma UnfoldFromRead(w: Wire, data: Records, id: string) returns (n: nat)
    requires Read(w, data, id).History?
    ensures Unfold(w, data, id, n) == Some(Read(w, data, id).messages)
  {
    MaterializeUnfolds(w, data, id, {});
    n := |data.Keys - {}|;
  }

  /** Histories that are read are bounded already. */
  lemma ReadIsBounded(w: Wire, data: Records, id: string)
    requires Read(w, data, id).History?
    ensures Bound(w, Read(w, data, id).messages) == Read(w, data, id).messages
  {
    hide Bound;
    var v := data[id];
    if v.historyParent == "" {
      BoundIdempotent(w, v.portableMessages);
    } else {
      var parent := Materialize(w, data, v.historyParent, {} + {id});
      BoundIdempotent(w, parent.messages[v.historyDrop..] + v.portableDelta);
    }
  }

  // ------------------------------------------------------------- the invariant

  /** Every record is filed under its id and can be read (so parents exist, chains
      end and drops are in range), and only response aliases are parents. */
  ghost predicate SoundAt(w: Wire, data: Records, k: string) {
    k in data ==>
      && data[k].id == k
      && Read(w, data, k).History?
      && (data[k].historyParent != "" ==>
            data[k].historyParent in data && data[data[k].historyParent].responseAlias)
  }

  ghost predicate Sound(w: Wire, data: Records) {
    forall k :: SoundAt(w, data, k)
  }

  /** In a sound forest the drop of a link is within its parent's history, and the
      link reads as the rest of that history followed by its delta. */
  lemma LinkReads(w: Wire, data: Records, id: string)
    requires Sound(w, data) && id in data && data[id].historyParent != ""
    ensures var v := data[id];
            && Read(w, data, v.historyParent).History?
            && 0 <= v.historyDrop <= |HistoryOf(w, data, v.historyParent)|
            && HistoryOf(w, data, id) ==
               Bound(w, HistoryOf(w, data, v.historyParent)[v.historyDrop..] + v.portableDelta)
  {
    hide Bound;
    assert SoundAt(w, data, id) && SoundAt(w, data, data[id].historyParent);
    var n := UnfoldFromRead(w, data, id);
    ReadFromUnfold(w, data, data[id].historyParent, n - 1);
  }

  /** A rank that falls along every link, with existing parents and drops in range. */
  ghost predicate RankedAt(w: Wire, data: Records, rank: map<string, nat>, k: string) {
    k in data ==>
      && k in rank
      && var v := data[k];
         v.historyParent != "" ==>
           && v.historyParent in data && v.historyParent in rank && rank[v.historyParent] < rank[k]
           && 0 <= v.historyDrop <= |HistoryOf(w, data, v.historyParent)|
  }

  ghost predicate Ranked(w: Wire, data: Records, rank: map<string, nat>) {
    forall k :: RankedAt(w, data, rank, k)
  }

  lemma RankedUnfolds(w: Wire, data: Records, rank: map<string, nat>, k: string)
    requires Ranked(w, data, rank) && k in data && k in rank
    ensures Unfold(w, data, k, rank[k] + 1).Some?
    decreases rank[k]
  {
    hide Bound;
    assert RankedAt(w, data, rank, k);
    var parent := data[k].historyParent;
    if parent != "" {
      assert RankedAt(w, data, rank, parent);
      RankedUnfolds(w, data, rank, parent);
      ReadFromUnfold(w, data, parent, rank[parent] + 1);
      UnfoldMore(w, data, parent, rank[parent] + 1, rank[k]);
    }
  }

  /** The fewest steps in which a record unfolds, given that n suffice. */
  ghost function Depth(w: Wire, data: Records, k: string, n: nat): nat
    decreases n
  {
    if n > 0 && Unfold(w, data, k, n - 1).Some? then Depth(w, data, k, n - 1) else n
  }

  lemma DepthIsLeast(w: Wire, data: Records, k: string, n: nat)
    requires Unfold(w, data, k, n).Some?
    ensures var d := Depth(w, data, k, n);
            0 < d <= n && Unfold(w, data, k, d).Some? && Unfold(w, data, k, d - 1).None?
    decreases n
  {
    hide Bound;
    if Unfold(w, data, k, n - 1).Some? {
      DepthIsLeast(w, data, k, n - 1);
    }
  }

  /** A readable parent unfolds in fewer steps than its child. */
  lemma ParentDepth(w: Wire, data: Records, k: string, n: nat, parent: string, m: nat)
    requires Unfold(w, data, k, n).Some? && data[k].historyParent == parent != ""
    requires Unfold(w, data, parent, m).Some?
    ensures Depth(w, data, parent, m) < Depth(w, data, k, n)
  {
    hide Bound;
    DepthIsLeast(w, data, k, n);
    DepthIsLeast(w, data, parent, m);
    var d := Depth(w, data, k, n);
    if Depth(w, data, parent, m) > d - 1 {
      UnfoldMore(w, data, parent, d - 1, Depth(w, data, parent, m) - 1);
    }
  }

  /** Every record can be read exactly when the links form a forest: parents exist,
      some rank falls along every link, and no drop exceeds its parent's history. */
  lemma ReadableIffForest(w: Wire, data: Records)
    ensures (forall k | k in data :: Read(w, data, k).History?) <==>
            exists rank: map<string, nat> :: Ranked(w, data, rank)
  {
    hide Bound, Materialize;
    if rank: map<string, nat> :| Ranked(w, data, rank) {
      forall k | k in data ensures Read(w, data, k).History? {
        assert RankedAt(w, data, rank, k);
        RankedUnfolds(w, data, rank, k);
        ReadFromUnfold(w, data, k, rank[k] + 1);
      }
    }
    if forall k | k in data :: Read(w, data, k).History? {
      var n := |data|;
      forall k | k in data ensures Unfold(w, data, k, n) == Some(HistoryOf(w, data, k)) {
        MaterializeUnfolds(w, data, k, {});
        assert data.Keys - {} == data.Keys;
      }
      var rank: map<string, nat> := map k | k in data :: Depth(w, data, k, n);
      forall k ensures RankedAt(w, data, rank, k) {
        if k in data && data[k].historyParent != "" {
          var parent := data[k].historyParent;
          assert Unfold(w, data, parent, n - 1).Some?;
          UnfoldMore(w, data, parent, n - 1, n);
          ParentDepth(w, data, k, n, parent, n);
        }
      }
      assert Ranked(w, data, rank);
    }
  }

  // ----------------------------------------------------------------- rebasing

  function AsRoot(v: Conversation, history: seq<Message>): Conversation {
    v.(portableMessages := history, historyParent := "", historyDrop := 0, portableDelta := [])
  }

  /** The forest without some records: their surviving children become roots that
      hold the history they used to read. */
  function Without(w: Wire, data: Records, ids: set<string>): Records {
    map k | k in data && k !in ids ::
      if data[k].historyParent in ids then AsRoot(data[k], HistoryOf(w, data, k)) else data[k]
  }

  /** Nothing is added, and each survivor is as before or became a root with the
      history it used to read. */
  ghost predicate KeptAt(w: Wire, before: Records, after: Records, k: string) {
    k in after ==>
      && k in before
      && (|| (after[k] == before[k] && (before[k].historyParent == "" || before[k].historyParent in after))
          || after[k] == AsRoot(before[k], HistoryOf(w, before, k)))
  }

  ghost predicate RebaseOf(w: Wire, before: Records, after: Records) {
    forall k :: KeptAt(w, before, after, k)
  }

  lemma RebaseUnfolds(w: Wire, before: Records, after: Records, k: string, n: nat)
    requires RebaseOf(w, before, after)
    requires k in after && Unfold(w, before, k, n).Some?
    ensures Unfold(w, after, k, n) == Unfold(w, before, k, n)
    decreases n
  {
    hide Bound;
    assert KeptAt(w, before, after, k);
    if after[k] == AsRoot(before[k], HistoryOf(w, before, k)) {
      ReadFromUnfold(w, before, k, n);
      ReadIsBounded(w, before, k);
    } else if before[k].historyParent != "" {
      RebaseUnfolds(w, before, after, before[k].historyParent, n - 1);
    }
  }

  /** Rebasing never changes what a survivor reads. */
  lemma RebaseReads(w: Wire, before: Records, after: Records, k: string)
    requires RebaseOf(w, before, after)
    requires k in after && Read(w, before, k).History?
    ensures Read(w, after, k) == Read(w, before, k)
  {
    var n := UnfoldFromRead(w, before, k);
    RebaseUnfolds(w, before, after, k, n);
    ReadFromUnfold(w, after, k, n);
  }

  lemma RebaseSound(w: Wire, before: Records, after: Records)
    requires Sound(w, before) && RebaseOf(w, before, after)
    ensures Sound(w, after)
  {
    forall k ensures SoundAt(w, after, k) {
      if k in after {
        assert SoundAt(w, before, k) && KeptAt(w, before, after, k);
        RebaseReads(w, before, after, k);
        if after[k].historyParent != "" {
          assert KeptAt(w, before, after, after[k].historyParent);
        }
      }
    }
  }

  lemma RebaseTransitive(w: Wire, a: Records, b: Records, c: Records)
    requires Sound(w, a) && RebaseOf(w, a, b) && RebaseOf(w, b, c)
    ensures RebaseOf(w, a, c)
  {
    forall k ensures KeptAt(w, a, c, k) {
      if k in c {
        assert KeptAt(w, b, c, k) && KeptAt(w, a, b, k) && SoundAt(w, a, k);
        RebaseReads(w, a, b, k);
      }
    }
  }

  lemma RebaseReflexive(w: Wire, data: Records)
    requires Sound(w, data)
    ensures RebaseOf(w, data, data)
  {
    forall k ensures KeptAt(w, data, data, k) {
      assert SoundAt(w, data, k);
    }
  }

  lemma WithoutIsRebase(w: Wire, data: Records, ids: set<string>)
    requires Sound(w, data)
    ensures RebaseOf(w, data, Without(w, data, ids))
  {
    forall k ensures KeptAt(w, data, Without(w, data, ids), k) {
      assert SoundAt(w, data, k);
    }
  }

  /** Removing any set of records from a sound forest leaves a sound forest in
      which every survivor reads exactly what it read before. */
  lemma WithoutReads(w: Wire, data: Records, ids: set<string>)
    requires Sound(w, data)
    ensures Sound(w, Without(w, data, ids))
    ensures forall k | k in data && k !in ids :: Read(w, Without(w, data, ids), k) == Read(w, data, k)
  {
    WithoutIsRebase(w, data, ids);
    RebaseSound(w, data, Without(w, data, ids));
    forall k | k in data && k !in ids ensures Read(w, Without(w, data, ids), k) == Read(w, data, k) {
      assert SoundAt(w, data, k);
      RebaseReads(w, data, Without(w, data, ids), k);
    }
  }

  /** A rebase caught in the middle: no record is gone yet, and some became roots. */
  ghost predicate HalfKeptAt(w: Wire, before: Records, after: Records, k: string) {
    k in before && k in after ==>
      || after[k] == before[k]
      || (Read(w, before, k).History? && after[k] == AsRoot(before[k], HistoryOf(w, before, k)))
  }

  ghost predicate HalfRebased(w: Wire, before: Records, after: Records) {
    before.Keys == after.Keys && forall k :: HalfKeptAt(w, before, after, k)
  }

  lemma HalfRebasedUnfolds(w: Wire, before: Records, after: Records, k: string, n: nat)
    requires HalfRebased(w, before, after)
    ensures Unfold(w, before, k, n).Some? ==> Unfold(w, after, k, n) == Unfold(w, before, k, n)
    ensures Unfold(w, after, k, n).Some? ==> Read(w, before, k) == History(Unfold(w, after, k, n).value)
    decreases n
  {
    hide Bound, Materialize;
    if n > 0 && k in before {
      assert HalfKeptAt(w, before, after, k);
      if Unfold(w, before, k, n).Some? {
        ReadFromUnfold(w, before, k, n);
      }
      if after[k] != before[k] {
        ReadIsBounded(w, before, k);
      } else if before[k].historyParent != "" {
        var parent := before[k].historyParent;
        HalfRebasedUnfolds(w, before, after, parent, n - 1);
        if Unfold(w, after, k, n).Some? {
          var m := UnfoldFromRead(w, before, parent);
          ReadFromUnfold(w, before, k, m + 1);
        }
      } else {
        assert Unfold(w, before, k, n) == Unfold(w, after, k, n);
      }
    }
  }

  /** While a rebase is under way every record is as readable as it was, and a
      readable one reads the same, on any map, sound or not. */
  lemma HalfRebasedReads(w: Wire, before: Records, after: Records, k: string)
    requires HalfRebased(w, before, after)
    ensures Read(w, after, k).History? <==> Read(w, before, k).History?
    ensures Read(w, before, k).History? ==> Read(w, after, k) == Read(w, before, k)
  {
    hide Bound, Materialize;
    if Read(w, before, k).History? {
      var n := UnfoldFromRead(w, before, k);
      HalfRebasedUnfolds(w, before, after, k, n);
      ReadFromUnfold(w, after, k, n);
    }
    if Read(w, after, k).History? {
      var n := UnfoldFromRead(w, after, k);
      HalfRebasedUnfolds(w, before, after, k, n);
    }
  }

  // --------------------------------------------------------- legacy compaction

  predicate Structured(v: Conversation) {
    v.historyParent != "" || v.historyDrop != 0 || v.portableDelta != []
  }

  /** Every member of the group other than the base becomes a transition from it. */
  function CompactGroup(w: Wire, data: Records, members: set<string>, base: string): Records
    requires base in data
  {
    map k | k in data ::
      if k in members && k != base then
        var link := Transit(w, Bound(w, data[base].portableMessages), data[k].portableMessages);
        data[k].(portableMessages := [], historyParent := base, historyDrop := link.drop, portableDelta := link.delta)
      else data[k]
  }

  lemma CompactUnfolds(w: Wire, data: Records, members: set<string>, base: string, k: string, n: nat)
    requires base in members && base != "" && members <= data.Keys
    requires forall m | m in members :: !Structured(data[m])
    requires Unfold(w, data, k, n).Some?
    ensures Unfold(w, CompactGroup(w, data, members, base), k, n + 1) == Unfold(w, data, k, n)
    decreases n
  {
    hide Bound;
    var after := CompactGroup(w, data, members, base);
    if k in members {
      assert !Structured(data[k]) && !Structured(data[base]);
      if k != base {
        var h, target := Bound(w, data[base].portableMessages), Bound(w, data[k].portableMessages);
        BoundIdempotent(w, data[base].portableMessages);
        BoundIdempotent(w, data[k].portableMessages);
        TransitionRebuilds(h, target, 0, []);
        assert Unfold(w, after, base, n) == Some(h);
      }
    } else if data[k].historyParent != "" {
      CompactUnfolds(w, data, members, base, data[k].historyParent, n - 1);
    }
  }

  /** Compacting a legacy group around one of its aliases changes no reading and
      keeps the forest sound. */
  lemma CompactReads(w: Wire, data: Records, members: set<string>, base: string)
    requires Sound(w, data) && base in members && base != "" && members <= data.Keys
    requires data[base].responseAlias && forall m | m in members :: !Structured(data[m])
    ensures var after := CompactGroup(w, data, members, base);
            Sound(w, after) && forall k | k in data :: Read(w, after, k) == Read(w, data, k)
  {
    hide Bound, Materialize, Transit;
    var after := CompactGroup(w, data, members, base);
    forall k | k in data ensures Read(w, after, k) == Read(w, data, k) {
      assert SoundAt(w, data, k);
      var n := UnfoldFromRead(w, data, k);
      CompactUnfolds(w, data, members, base, k, n);
      ReadFromUnfold(w, after, k, n + 1);
    }
    forall k ensures SoundAt(w, after, k) {
      if k in after {
        assert SoundAt(w, data, k);
        assert Read(w, after, k) == Read(w, data, k);
      }
    }
  }

  // -------------------------------------------------------------------- commit

  function FirstNonEmpty(a: string, b: string, c: string): string {
    if Text.Trim(a) != "" then a else if Text.Trim(b) != "" then b else if Text.Trim(c) != "" then c else ""
  }

  datatype StoreError = InvalidKey | NotFound | BrokenHistory(error: HistoryError) | WriteFailed

  datatype Turn = Turn(
    source: string,
    target: string,
    request: seq<Message>,
    assistant: Message,
    advance: bool,
    now: int)

  predicate Advances(t: Turn) {
    t.advance && t.source != "" && t.source != t.target
  }

  const MAX_KEY_LENGTH := 256

  predicate ValidKey(id: string) {
    Text.Trim(id) != "" && Text.ByteLength(id) <= MAX_KEY_LENGTH
  }

  /** The reasons a commit is refused before anything is changed. */
  function CommitRefusal(data: Records, t: Turn): Option<StoreError> {
    if !ValidKey(t.target) then Some(InvalidKey)
    else if !t.advance && t.source != "" && t.source != t.target && t.source !in data then Some(NotFound)
    else if t.target !in data && t.source !in data && t.source != t.target then Some(NotFound)
    else None
  }

  /** The transcript a commit must leave under the target. */
  function CommittedHistory(w: Wire, data: Records, t: Turn): seq<Message> {
    var source := HistoryOf(w, data, t.source);
    var stored :=
      if t.target in data && t.source != t.target then Merge(w, source, HistoryOf(w, data, t.target)) else source;
    Bound(w, Merge(w, stored, t.request) + [t.assistant])
  }

  /** A stable head that only names its latest response. */
  predicate LightHead(v: Conversation) {
    v.historyParent != "" && v.historyDrop == 0 && v.portableDelta == [] && v.portableMessages == []
  }

  function ParentFor(data: Records, t: Turn): string {
    if t.source in data && t.source != t.target then
      var source := data[t.source];
      if source.responseAlias then t.source
      else if LightHead(source) then source.historyParent
      else ""
    else ""
  }

  function TargetBase(data: Records, t: Turn): Conversation
    requires CommitRefusal(data, t).None?
  {
    if t.target in data then data[t.target]
    else if t.source in data then
      var s := data[t.source];
      s.(id := t.target, responseAlias := t.target != t.source,
         aliasGroup := if s.aliasGroup == "" then FirstNonEmpty(t.source, t.target, "") else s.aliasGroup)
    else
      Conversation(t.target, "", "", "", "", [], "", 0, [], t.target, false, 0, 0, 0)
  }

  function CommittedTarget(w: Wire, data: Records, t: Turn): Conversation
    requires CommitRefusal(data, t).None?
  {
    var b := TargetBase(data, t).(updatedAt := t.now);
    var named :=
      if t.target != t.source then
        b.(responseAlias := true,
           aliasGroup := if t.source in data
                         then FirstNonEmpty(data[t.source].aliasGroup, data[t.source].id, t.source) else t.source)
      else if b.aliasGroup == "" then b.(aliasGroup := t.target) else b;
    var history := CommittedHistory(w, data, t);
    var parent := ParentFor(data, t);
    if parent == "" then AsRoot(named, history)
    else
      var link := Transit(w, HistoryOf(w, data, parent), history);
      named.(portableMessages := [], historyParent := parent, historyDrop := link.drop, portableDelta := link.delta)
  }

  function AdvancedHead(w: Wire, data: Records, t: Turn): Conversation
    requires CommitRefusal(data, t).None?
  {
    var target := CommittedTarget(w, data, t);
    target.(id := t.source, aliasGroup := t.source, responseAlias := false,
            portableMessages := [], historyParent := t.target, historyDrop := 0, portableDelta := [],
            createdAt := if t.source in data && data[t.source].createdAt != 0
                         then data[t.source].createdAt else target.createdAt)
  }

  function Committed(w: Wire, data: Records, t: Turn): Records
    requires CommitRefusal(data, t).None?
  {
    var stored := data[t.target := CommittedTarget(w, data, t)];
    if Advances(t) then stored[t.source := AdvancedHead(w, data, t)] else stored
  }

  ghost predicate NobodysParent(data: Records, id: string) {
    forall k | k in data :: data[k].historyParent != id
  }

  /** What a commit may overwrite: the target, and the source when it advances. */
  predicate Overwritten(t: Turn, k: string) {
    k == t.target || (Advances(t) && k == t.source)
  }

  /** Callers pass a target that nobody links to, and advance stable heads only. */
  ghost predicate Commits(w: Wire, data: Records, t: Turn) {
    && Sound(w, data) && CommitRefusal(data, t).None?
    && NobodysParent(data, t.target)
    && (Advances(t) && t.source in data ==> !data[t.source].responseAlias)
  }

  lemma OthersUnfold(w: Wire, data: Records, t: Turn, k: string, n: nat)
    requires Commits(w, data, t) && !Overwritten(t, k) && Unfold(w, data, k, n).Some?
    ensures Unfold(w, Committed(w, data, t), k, n) == Unfold(w, data, k, n)
    decreases n
  {
    hide Bound, CommittedHistory, Transit, CommittedTarget;
    var parent := data[k].historyParent;
    if parent != "" {
      assert SoundAt(w, data, k);
      OthersUnfold(w, data, t, parent, n - 1);
    }
  }

  /** A commit leaves every other record as readable, and reading the same. */
  lemma OthersRead(w: Wire, data: Records, t: Turn, k: string)
    requires Commits(w, data, t) && !Overwritten(t, k) && k in data
    ensures Read(w, Committed(w, data, t), k) == Read(w, data, k)
  {
    assert SoundAt(w, data, k);
    var n := UnfoldFromRead(w, data, k);
    OthersUnfold(w, data, t, k, n);
    ReadFromUnfold(w, Committed(w, data, t), k, n);
  }

  lemma ParentIsOther(w: Wire, data: Records, t: Turn)
    requires Commits(w, data, t) && ParentFor(data, t) != ""
    ensures var p := ParentFor(data, t); p in data && !Overwritten(t, p) && data[p].responseAlias
  {
    assert SoundAt(w, data, t.source);
  }

  /** Stored as a root or as a link, the target reads back as exactly the bounded
      merge of what was there and what came in, followed by the answer. */
  lemma TargetReads(w: Wire, data: Records, t: Turn) returns (n: nat)
    requires Commits(w, data, t)
    ensures Unfold(w, Committed(w, data, t), t.target, n) == Some(CommittedHistory(w, data, t))
  {
    hide Bound;
    var after, history, p := Committed(w, data, t), CommittedHistory(w, data, t), ParentFor(data, t);
    var stored := CommittedTarget(w, data, t);
    assert after[t.target] == stored;
    HistoryIsBounded(w, data, t);
    if p == "" {
      n := 1;
    } else {
      ParentIsOther(w, data, t);
      assert SoundAt(w, data, p);
      var m := UnfoldFromRead(w, data, p);
      OthersUnfold(w, data, t, p, m);
      ReadIsBounded(w, data, p);
      TransitionRebuilds(HistoryOf(w, data, p), history, 0, []);
      n := m + 1;
    }
  }

  lemma HistoryIsBounded(w: Wire, data: Records, t: Turn)
    ensures Bound(w, CommittedHistory(w, data, t)) == CommittedHistory(w, data, t)
  {
    hide Bound, Merge;
    var stored :=
      if t.target in data && t.source != t.target
      then Merge(w, HistoryOf(w, data, t.source), HistoryOf(w, data, t.target)) else HistoryOf(w, data, t.source);
    BoundIdempotent(w, Merge(w, stored, t.request) + [t.assistant]);
  }

  /** An advanced head reads what its target reads. */
  lemma HeadReads(w: Wire, data: Records, t: Turn)
    requires Commits(w, data, t) && Advances(t)
    ensures Read(w, Committed(w, data, t), t.source) == History(CommittedHistory(w, data, t))
  {
    hide Bound, CommittedHistory, CommittedTarget;
    var after, history := Committed(w, data, t), CommittedHistory(w, data, t);
    var n := TargetReads(w, data, t);
    HistoryIsBounded(w, data, t);
    assert after[t.source] == AdvancedHead(w, data, t);
    assert history[0..] + [] == history;
    assert t.target != "";
    assert Unfold(w, after, t.source, n + 1) == Some(history);
    ReadFromUnfold(w, after, t.source, n + 1);
  }

  /** Commit: the target, and the head when it advances, read the committed
      transcript; every other record reads what it read before; the forest is
      sound again. */
  lemma CommitReads(w: Wire, data: Records, t: Turn)
    requires Commits(w, data, t)
    ensures var after := Committed(w, data, t);
            && Sound(w, after)
            && (forall k | Overwritten(t, k) :: Read(w, after, k) == History(CommittedHistory(w, data, t)))
            && (forall k | k in data && !Overwritten(t, k) :: Read(w, after, k) == Read(w, data, k))
  {
    hide Bound, CommittedHistory, CommittedTarget, Committed, Materialize;
    var after := Committed(w, data, t);
    var n := TargetReads(w, data, t);
    ReadFromUnfold(w, after, t.target, n);
    if Advances(t) {
      HeadReads(w, data, t);
    }
    forall k | k in data && !Overwritten(t, k) ensures Read(w, after, k) == Read(w, data, k) {
      OthersRead(w, data, t, k);
    }
    forall k ensures SoundAt(w, after, k) {
      if k in after {
        assert SoundAt(w, data, k) && SoundAt(w, data, t.source);
        CommittedFiled(w, data, t, k);
      }
    }
  }

  /** Ids and parents after a commit. */
  lemma CommittedFiled(w: Wire, data: Records, t: Turn, k: string)
    requires Commits(w, data, t) && k in Committed(w, data, t)
    ensures var after := Committed(w, data, t);
            && (k in data || Overwritten(t, k)) && after[k].id == k
            && (after[k].historyParent != "" ==>
                  after[k].historyParent in after && after[after[k].historyParent].responseAlias)
  {
    hide Bound, CommittedHistory, Materialize, Transit;
    var after := Committed(w, data, t);
    assert SoundAt(w, data, k) && SoundAt(w, data, t.target);
    if k == t.target {
      if ParentFor(data, t) != "" {
        ParentIsOther(w, data, t);
      }
    } else if !Overwritten(t, k) && data[k].historyParent != "" {
      assert !Overwritten(t, data[k].historyParent);
    }
  }

  /** Advancing a head that is itself a response alias ties a cycle: both records
      become unreadable. So, for a target nobody links to, a commit keeps the
      forest sound exactly when it does not do that. */
  lemma CommitSoundIff(w: Wire, data: Records, t: Turn)
    requires Sound(w, data) && CommitRefusal(data, t).None? && NobodysParent(data, t.target)
    ensures Sound(w, Committed(w, data, t)) <==>
            !(Advances(t) && t.source in data && data[t.source].responseAlias)
  {
    hide Bound, CommittedHistory, Transit, Materialize;
    if Advances(t) && t.source in data && data[t.source].responseAlias {
      var after := Committed(w, data, t);
      assert after[t.source].historyParent == t.target && after[t.target].historyParent == t.source;
      if Sound(w, after) {
        assert SoundAt(w, after, t.source);
        var n := UnfoldFromRead(w, after, t.source);
        NoTwoCycle(w, after, t.source, t.target, n);
      }
    } else {
      CommitReads(w, data, t);
    }
  }

  lemma NoTwoCycle(w: Wire, data: Records, a: string, b: string, n: nat)
    requires a in data && b in data && a != "" && b != ""
    requires data[a].historyParent == b && data[b].historyParent == a
    ensures Unfold(w, data, a, n).None? && Unfold(w, data, b, n).None?
  {
    hide Bound;
    if n > 0 {
      NoTwoCycle(w, data, a, b, n - 1);
    }
  }

  // ------------------------------------------------- commits without any conditions

  /** The first n records on the way up from k are none that the commit overwrites. */
  predicate Clear(data: Records, t: Turn, k: string, n: nat)
    decreases n
  {
    n == 0 || k !in data
    || (!Overwritten(t, k) && (data[k].historyParent == "" || Clear(data, t, data[k].historyParent, n - 1)))
  }

  ghost predicate Apart(data: Records, t: Turn, k: string) {
    forall n: nat :: Clear(data, t, k, n)
  }

  lemma {:induction false} ApartUnfolds(w: Wire, data: Records, t: Turn, k: string, n: nat)
    requires CommitRefusal(data, t).None? && Clear(data, t, k, n) && Unfold(w, data, k, n).Some?
    ensures Unfold(w, Committed(w, data, t), k, n) == Unfold(w, data, k, n)
    decreases n
  {
    hide Bound, CommittedHistory, Transit, CommittedTarget;
    if data[k].historyParent != "" {
      ApartUnfolds(w, data, t, data[k].historyParent, n - 1);
    }
  }

  /** In any store a commit changes no reading of a record that does not depend on what it
      overwrites. */
  lemma ApartReads(w: Wire, data: Records, t: Turn, k: string)
    requires CommitRefusal(data, t).None? && Apart(data, t, k) && Read(w, data, k).History?
    ensures Read(w, Committed(w, data, t), k) == Read(w, data, k)
  {
    hide Clear, Materialize, Committed;
    var n := UnfoldFromRead(w, data, k);
    assert Clear(data, t, k, n);
    ApartUnfolds(w, data, t, k, n);
    ReadFromUnfold(w, Committed(w, data, t), k, n);
  }

  /** Whoever is not apart is read through the target. */
  lemma {:induction false} ReadThroughTarget(w: Wire, data: Records, t: Turn, k: string, n: nat, m: nat)
    returns (l: nat)
    requires CommitRefusal(data, t).None? && !Clear(data, t, k, n)
    requires Unfold(w, Committed(w, data, t), k, m).Some?
    ensures l <= m && Unfold(w, Committed(w, data, t), t.target, l).Some?
    decreases n
  {
    hide Bound, CommittedHistory, Transit, CommittedTarget;
    var after := Committed(w, data, t);
    if k == t.target {
      l := m;
    } else if Overwritten(t, k) {
      assert after[k].historyParent == t.target && t.target != "";
      l := m - 1;
    } else {
      assert after[k] == data[k];
      l := ReadThroughTarget(w, data, t, data[k].historyParent, n - 1, m - 1);
    }
  }

  lemma {:induction false} TargetCycles(w: Wire, data: Records, t: Turn, n: nat, m: nat)
    requires CommitRefusal(data, t).None? && ParentFor(data, t) != "" && !Clear(data, t, ParentFor(data, t), n)
    ensures Unfold(w, Committed(w, data, t), t.target, m).None?
    decreases m
  {
    hide Bound, CommittedHistory, Transit, Clear;
    if Unfold(w, Committed(w, data, t), t.target, m).Some? {
      TargetsParent(w, data, t);
      var l := ReadThroughTarget(w, data, t, ParentFor(data, t), n, m - 1);
      TargetCycles(w, data, t, n, l);
    }
  }

  lemma TargetsParent(w: Wire, data: Records, t: Turn)
    requires CommitRefusal(data, t).None?
    ensures t.target in Committed(w, data, t)
    ensures Committed(w, data, t)[t.target].historyParent == ParentFor(data, t)
  {
    hide Bound, CommittedHistory, Transit;
  }

  /** In every sound store, whatever the target is and whatever links to it: the target
      reads the committed transcript if it becomes a root or if its parent does not depend
      on what the commit overwrites, and otherwise it cannot be read at all. */
  lemma TargetReadsIff(w: Wire, data: Records, t: Turn)
    requires Sound(w, data) && CommitRefusal(data, t).None?
    ensures var p, after := ParentFor(data, t), Committed(w, data, t);
            if p == "" || Apart(data, t, p) then Read(w, after, t.target) == History(CommittedHistory(w, data, t))
            else Read(w, after, t.target).Broken?
  {
    hide Bound, Materialize, CommittedHistory, Committed, CommittedTarget, Clear;
    var p, after := ParentFor(data, t), Committed(w, data, t);
    if p == "" {
      RootReads(w, data, t);
    } else if Apart(data, t, p) {
      ParentIsStored(w, data, t);
      var m := UnfoldFromRead(w, data, p);
      assert Clear(data, t, p, m);
      ApartUnfolds(w, data, t, p, m);
      LinkedTargetReads(w, data, t, m);
    } else {
      var n: nat :| !Clear(data, t, p, n);
      if Read(w, after, t.target).History? {
        var m := UnfoldFromRead(w, after, t.target);
        TargetCycles(w, data, t, n, m);
      }
    }
  }

  lemma ParentIsStored(w: Wire, data: Records, t: Turn)
    requires Sound(w, data) && ParentFor(data, t) != ""
    ensures ParentFor(data, t) in data && Read(w, data, ParentFor(data, t)).History?
  {
    hide Materialize;
    assert SoundAt(w, data, t.source);
    assert SoundAt(w, data, ParentFor(data, t));
  }

  lemma RootReads(w: Wire, data: Records, t: Turn)
    requires CommitRefusal(data, t).None? && ParentFor(data, t) == ""
    ensures Read(w, Committed(w, data, t), t.target) == History(CommittedHistory(w, data, t))
  {
    hide Bound, Materialize, CommittedHistory;
    HistoryIsBounded(w, data, t);
    assert Unfold(w, Committed(w, data, t), t.target, 1) == Some(CommittedHistory(w, data, t));
    ReadFromUnfold(w, Committed(w, data, t), t.target, 1);
  }

  lemma LinkedTargetReads(w: Wire, data: Records, t: Turn, m: nat)
    requires CommitRefusal(data, t).None? && ParentFor(data, t) != ""
    requires var p := ParentFor(data, t);
             && Read(w, data, p).History?
             && Unfold(w, Committed(w, data, t), p, m) == Some(HistoryOf(w, data, p))
    ensures Read(w, Committed(w, data, t), t.target) == History(CommittedHistory(w, data, t))
  {
    hide Bound, Materialize, CommittedHistory;
    var p, after := ParentFor(data, t), Committed(w, data, t);
    HistoryIsBounded(w, data, t);
    ReadIsBounded(w, data, p);
    TransitionRebuilds(HistoryOf(w, data, p), CommittedHistory(w, data, t), 0, []);
    assert Unfold(w, after, t.target, m + 1) == Some(CommittedHistory(w, data, t));
    ReadFromUnfold(w, after, t.target, m + 1);
  }

  /** An advanced head shares the fate of the target. */
  lemma HeadReadsIff(w: Wire, data: Records, t: Turn)
    requires Sound(w, data) && CommitRefusal(data, t).None? && Advances(t)
    ensures Read(w, Committed(w, data, t), t.source).History? <==> Read(w, Committed(w, data, t), t.target).History?
    ensures Read(w, Committed(w, data, t), t.source).History? ==>
              Read(w, Committed(w, data, t), t.source) == History(CommittedHistory(w, data, t))
  {
    hide Bound, Materialize, CommittedHistory, CommittedTarget;
    var after, history := Committed(w, data, t), CommittedHistory(w, data, t);
    TargetReadsIff(w, data, t);
    HistoryIsBounded(w, data, t);
    assert after[t.source] == AdvancedHead(w, data, t) && t.target != "";
    assert history[0..] + [] == history;
    if Read(w, after, t.target).History? {
      var n := UnfoldFromRead(w, after, t.target);
      assert Unfold(w, after, t.source, n + 1) == Some(history);
      ReadFromUnfold(w, after, t.source, n + 1);
    } else if Read(w, after, t.source).History? {
      var n := UnfoldFromRead(w, after, t.source);
      ReadFromUnfold(w, after, t.target, n - 1);
    }
  }
}
