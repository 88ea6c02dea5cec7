/**
 What pruning may remove: the records a pin protects, the phases' guarantees as
 predicates on record maps, and the order in which records are given up.
 */
module Pruning {
  import opened Portable
  import opened Forest
  import Text

  const MAX_STORED := 5000
  const SESSION_TTL := 30 * 24 * 3600 * 1_000_000_000
  const MAX_ALIASES := 128
  const MAX_STORE_BYTES := 0x100_0000

  type Pins = map<string, int>

  // -------------------------------------------------------------------- pinning

  /** The records met when following parent links from a record. */
  function Chain(data: Records, current: string, seen: set<string>): set<string>
    decreases data.Keys - seen
  {
    if current == "" || current in seen then {}
    else if current !in data then {current}
    else
      assert current in data.Keys - seen;
      {current} + Chain(data, data[current].historyParent, seen + {current})
  }

  /** The pinned records and everything their histories are built from. */
  function Protected(data: Records, pins: Pins): set<string> {
    set p, k | p in pins && pins[p] > 0 && k in Chain(data, p, {}) + {p} :: k
  }

  lemma ChainFrame(before: Records, after: Records, current: string, seen: set<string>)
    requires forall k | k in Chain(before, current, seen) ::
               (k in before <==> k in after) && (k in before ==> after[k].historyParent == before[k].historyParent)
    ensures Chain(after, current, seen) == Chain(before, current, seen)
    decreases before.Keys - seen
  {
    if current != "" && current !in seen {
      assert current in Chain(before, current, seen);
      if current in before {
        assert current in before.Keys - seen;
        ChainFrame(before, after, before[current].historyParent, seen + {current});
      }
    }
  }

  // ------------------------------------------------------------ what is promised

  /** Survivors read as before, and protected records stay, with their links: a
      protected link record is not touched at all. */
  ghost predicate Pruned(w: Wire, pins: Pins, before: Records, after: Records) {
    && RebaseOf(w, before, after)
    && forall k | k in Protected(before, pins) && k in before && k != "" ::
         k in after && after[k].historyParent == before[k].historyParent
  }

  lemma PrunedProtects(w: Wire, pins: Pins, before: Records, after: Records)
    requires Pruned(w, pins, before, after)
    ensures Protected(after, pins) == Protected(before, pins)
  {
    forall p | p in pins && pins[p] > 0 ensures Chain(after, p, {}) == Chain(before, p, {}) {
      forall k | k in Chain(before, p, {})
        ensures (k in before <==> k in after) && (k in before ==> after[k].historyParent == before[k].historyParent)
      {
        assert k in Chain(before, p, {}) + {p};
        assert KeptAt(w, before, after, k);
        ChainNamed(before, p, {}, k);
      }
      ChainFrame(before, after, p, {});
    }
    forall k ensures k in Protected(after, pins) <==> k in Protected(before, pins) {
      if k in Protected(after, pins) {
        var p :| p in pins && pins[p] > 0 && k in Chain(after, p, {}) + {p};
        assert k in Chain(before, p, {}) + {p};
      }
      if k in Protected(before, pins) {
        var p :| p in pins && pins[p] > 0 && k in Chain(before, p, {}) + {p};
        assert k in Chain(after, p, {}) + {p};
      }
    }
  }

  lemma PrunedTransitive(w: Wire, pins: Pins, a: Records, b: Records, c: Records)
    requires Sound(w, a) && Pruned(w, pins, a, b) && Pruned(w, pins, b, c)
    ensures Pruned(w, pins, a, c)
  {
    hide Materialize, Bound;
    RebaseTransitive(w, a, b, c);
    PrunedProtects(w, pins, a, b);
  }

  lemma PrunedReflexive(w: Wire, pins: Pins, data: Records)
    requires Sound(w, data)
    ensures Pruned(w, pins, data, data)
  {
    RebaseReflexive(w, data);
  }

  lemma ChainNamed(data: Records, current: string, seen: set<string>, k: string)
    requires k in Chain(data, current, seen)
    ensures k != ""
    decreases data.Keys - seen
  {
    if k != current {
      ChainNamed(data, data[current].historyParent, seen + {current}, k);
    }
  }

  lemma {:induction false} ChainClosed(data: Records, current: string, seen: set<string>, k: string)
    requires k in Chain(data, current, seen) && k in data && data[k].historyParent != ""
    ensures data[k].historyParent in Chain(data, current, seen) + seen
    decreases data.Keys - seen
  {
    var parent := data[current].historyParent;
    if k == current {
      if parent !in seen + {current} {
        assert parent in Chain(data, parent, seen + {current});
      }
    } else {
      ChainClosed(data, parent, seen + {current}, k);
    }
  }

  lemma ProtectedClosed(data: Records, pins: Pins, k: string)
    requires k in Protected(data, pins) && k in data && k != "" && data[k].historyParent != ""
    ensures data[k].historyParent in Protected(data, pins)
  {
    var p :| p in pins && pins[p] > 0 && k in Chain(data, p, {}) + {p};
    assert k in Chain(data, p, {});
    ChainClosed(data, p, {}, k);
  }

  /** The n-th record on the way up from k, if there are so many. */
  function Up(data: Records, k: string, n: nat): string
    decreases n
  {
    if n == 0 || k !in data then k else Up(data, data[k].historyParent, n - 1)
  }

  lemma {:induction false} ChainGoesUp(data: Records, current: string, seen: set<string>, k: string) returns (n: nat)
    requires k in Chain(data, current, seen)
    ensures Up(data, current, n) == k && k != ""
    decreases data.Keys - seen
  {
    n := 0;
    if k != current {
      var m := ChainGoesUp(data, data[current].historyParent, seen + {current}, k);
      n := m + 1;
    }
  }

  lemma {:induction false} UpIsProtected(data: Records, pins: Pins, k: string, n: nat)
    requires "" !in data && k in Protected(data, pins) && k != "" && Up(data, k, n) != ""
    ensures Up(data, k, n) in Protected(data, pins)
    decreases n
  {
    if n > 0 && k in data {
      NothingAbove(data, n - 1);
      ProtectedClosed(data, pins, k);
      UpIsProtected(data, pins, data[k].historyParent, n - 1);
    }
  }

  lemma NothingAbove(data: Records, n: nat)
    ensures "" !in data ==> Up(data, "", n) == ""
  {
  }

  /** What pins protect are the pinned records and whatever is above them. */
  lemma ProtectedMeans(data: Records, pins: Pins, k: string)
    requires "" !in data && k != ""
    ensures k in Protected(data, pins) <==> exists p, n: nat :: p in pins && pins[p] > 0 && Up(data, p, n) == k
  {
    hide Chain;
    if k in Protected(data, pins) {
      var p :| p in pins && pins[p] > 0 && k in Chain(data, p, {}) + {p};
      assert Up(data, p, 0) == p;
      if k != p {
        var n := ChainGoesUp(data, p, {}, k);
      }
    }
    if p, n: nat :| p in pins && pins[p] > 0 && Up(data, p, n) == k {
      assert p in Chain(data, p, {}) + {p} && p in Protected(data, pins);
      NothingAbove(data, n);
      UpIsProtected(data, pins, p, n);
    }
  }

  /** A record that is not protected can be taken out by rebasing its children. */
  lemma EvictPrunes(w: Wire, pins: Pins, data: Records, id: string)
    requires Sound(w, data) && id !in Protected(data, pins)
    ensures Pruned(w, pins, data, Without(w, data, {id}))
  {
    hide Materialize, Bound, Protected;
    WithoutIsRebase(w, data, {id});
    forall k | k in Protected(data, pins) && k in data && k != ""
      ensures k in Without(w, data, {id}) && Without(w, data, {id})[k].historyParent == data[k].historyParent
    {
      if data[k].historyParent != "" {
        ProtectedClosed(data, pins, k);
      }
    }
  }

  // ------------------------------------------------------------ staleness, order

  predicate Stale(k: string, v: Conversation, now: int) {
    Text.Trim(k) == "" || Text.ByteLength(k) > MAX_KEY_LENGTH || v.updatedAt == 0 || now - v.updatedAt > SESSION_TTL
  }

  function GroupOf(v: Conversation): string {
    if v.aliasGroup == "" then v.id else v.aliasGroup
  }

  function AliasesIn(data: Records, group: string): set<string> {
    set k | k in data && data[k].responseAlias && GroupOf(data[k]) == group
  }

  /** Aliases are given up before stable records, older ones before newer ones. */
  predicate SoonerGone(a: Conversation, b: Conversation) {
    if a.responseAlias != b.responseAlias then a.responseAlias else a.updatedAt <= b.updatedAt
  }

  predicate NewestFirst(a: Conversation, b: Conversation) {
    a.updatedAt >= b.updatedAt
  }

  /** Whatever was removed had to go no later than whatever unprotected record stays. */
  ghost predicate InOrder(pins: Pins, before: Records, after: Records) {
    forall r, q | r in before && r !in after && q in after && q in before && q !in Protected(before, pins) ::
      SoonerGone(before[r], before[q])
  }

  /** A sound forest after any removals keeps flags, groups and times. */
  lemma KeptFields(w: Wire, before: Records, after: Records, k: string)
    requires RebaseOf(w, before, after) && k in after
    ensures k in before && after[k].id == before[k].id
    ensures after[k].responseAlias == before[k].responseAlias && after[k].aliasGroup == before[k].aliasGroup
    ensures after[k].updatedAt == before[k].updatedAt
  {
    assert KeptAt(w, before, after, k);
  }

  ghost predicate Filed(data: Records, keys: set<string>, items: seq<Conversation>) {
    forall i | 0 <= i < |items| :: items[i].id in keys && items[i].id in data && items[i] == data[items[i].id]
  }

  ghost predicate Covers(keys: set<string>, items: seq<Conversation>) {
    forall k | k in keys :: exists i :: 0 <= i < |items| && items[i].id == k
  }

  ghost predicate OrderedBy(items: seq<Conversation>, le: (Conversation, Conversation) -> bool) {
    forall i, j | 0 <= i < j < |items| :: le(items[i], items[j])
  }

  /** The records of some keys, sorted; ids stand for keys in a sound forest. */
  ghost predicate SortedRecords(data: Records, keys: set<string>, items: seq<Conversation>,
                                le: (Conversation, Conversation) -> bool)
  {
    Filed(data, keys, items) && Covers(keys, items) && OrderedBy(items, le)
  }

  ghost predicate TotalPreorder(le: (Conversation, Conversation) -> bool) {
    && (forall a, b :: le(a, b) || le(b, a))
    && (forall a, b, c :: le(a, b) && le(b, c) ==> le(a, c))
  }

  /** The ids of a run of items. */
  function IdsOf(items: seq<Conversation>): (ids: set<string>)
    ensures forall i | 0 <= i < |items| :: items[i].id in ids
    ensures forall k | k in ids :: exists i :: 0 <= i < |items| && items[i].id == k
    ensures |ids| <= |items|
  {
    if items == [] then {}
    else
      var rest := IdsOf(items[1..]);
      assert forall i | 1 <= i < |items| :: items[i] == items[1..][i - 1];
      {items[0].id} + rest
  }

  method SortRecords(data: Records, keys: set<string>, le: (Conversation, Conversation) -> bool)
    returns (items: seq<Conversation>)
    requires keys <= data.Keys && TotalPreorder(le)
    requires forall k | k in keys :: data[k].id == k
    ensures SortedRecords(data, keys, items, le) && |items| == |keys|
  {
    items := [];
    var todo := keys;
    while todo != {}
      invariant todo <= keys
      invariant SortedRecords(data, keys - todo, items, le) && |items| + |todo| == |keys|
      decreases |todo|
    {
      var k :| k in todo;
      var v := data[k];
      var p := 0;
      while p < |items| && le(items[p], v)
        invariant 0 <= p <= |items|
        invariant forall i | 0 <= i < p :: le(items[i], v)
      {
        p := p + 1;
      }
      InsertSorted(data, keys - todo, items, le, k, p);
      items := items[..p] + [v] + items[p..];
      assert keys - todo + {k} == keys - (todo - {k});
      todo := todo - {k};
    }
    assert keys - {} == keys;
  }

  lemma InsertOrdered(items: seq<Conversation>, le: (Conversation, Conversation) -> bool, v: Conversation, p: nat)
    requires TotalPreorder(le) && OrderedBy(items, le) && p <= |items|
    requires forall i | 0 <= i < p :: le(items[i], v)
    requires p < |items| ==> le(v, items[p])
    ensures OrderedBy(items[..p] + [v] + items[p..], le)
  {
    var out := items[..p] + [v] + items[p..];
    forall i, j | 0 <= i < j < |out| ensures le(out[i], out[j]) {
      if i == p {
        assert out[j] == items[j - 1];
        if j - 1 > p {
          assert le(v, items[p]) && le(items[p], items[j - 1]);
        }
      } else if j != p {
        assert out[i] == items[if i < p then i else i - 1] && out[j] == items[if j < p then j else j - 1];
      }
    }
  }

  lemma InsertCovers(keys: set<string>, items: seq<Conversation>, v: Conversation, p: nat)
    requires Covers(keys, items) && p <= |items|
    ensures Covers(keys + {v.id}, items[..p] + [v] + items[p..])
  {
    var out := items[..p] + [v] + items[p..];
    forall x | x in keys + {v.id} ensures exists i :: 0 <= i < |out| && out[i].id == x {
      if x in keys {
        var i :| 0 <= i < |items| && items[i].id == x;
        assert out[if i < p then i else i + 1] == items[i];
      } else {
        assert out[p] == v;
      }
    }
  }

  lemma InsertSorted(data: Records, keys: set<string>, items: seq<Conversation>,
                     le: (Conversation, Conversation) -> bool, k: string, p: nat)
    requires TotalPreorder(le) && SortedRecords(data, keys, items, le)
    requires k in data && data[k].id == k && p <= |items|
    requires forall i | 0 <= i < p :: le(items[i], data[k])
    requires p < |items| ==> !le(items[p], data[k])
    ensures SortedRecords(data, keys + {k}, items[..p] + [data[k]] + items[p..], le)
  {
    InsertOrdered(items, le, data[k], p);
    InsertCovers(keys, items, data[k], p);
  }
}
