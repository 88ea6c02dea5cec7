/**
 What each phase of pruning does, on the raw times, groups and sizes: which records it may
 give up, which it has to, and where it stops.
 */
module PrunePhases {
  import opened Forest
  import opened Pruning
  import Text

  /** Blank or over-long keys, records that were never written, and those not touched for
      thirty days. */
  predicate Expired(k: string, v: Conversation, now: int) {
    || Text.Trim(k) == "" || Text.ByteLength(k) > 256 || v.updatedAt == 0
    || now - v.updatedAt > 30 * 24 * 3600 * 1_000_000_000
  }

  ghost predicate DropsExpired(pins: Pins, before: Records, after: Records, now: int) {
    && after.Keys <= before.Keys
    && forall k | k in before :: k !in after <==> Expired(k, before[k], now) && k !in Protected(before, pins)
  }

  /** The aliases of a group, which is named by their group name or else their id. */
  function Group(data: Records, name: string): set<string> {
    set k | k in data && data[k].responseAlias && name == (if data[k].aliasGroup == "" then data[k].id
                                                           else data[k].aliasGroup)
  }

  predicate InGroup(a: Conversation, b: Conversation) {
    (if a.aliasGroup == "" then a.id else a.aliasGroup) == (if b.aliasGroup == "" then b.id else b.aliasGroup)
  }

  /** There are 128 other aliases of its group that are at least as new. */
  ghost predicate CrowdedOut(data: Records, r: string) {
    r in data && data[r].responseAlias &&
    exists newer: set<string> :: Crowd(data, r, newer)
  }

  ghost predicate Crowd(data: Records, r: string, newer: set<string>)
    requires r in data
  {
    && |newer| == 128 && r !in newer
    && forall q | q in newer ::
         q in data && data[q].responseAlias && InGroup(data[q], data[r]) && data[r].updatedAt <= data[q].updatedAt
  }

  /** Of a crowded group the 128 newest aliases stay. */
  ghost predicate KeepsNewest(pins: Pins, before: Records, after: Records) {
    && after.Keys <= before.Keys
    && (forall r | r in before && r !in after :: CrowdedOut(before, r) && r !in Protected(before, pins))
    && (forall r, q | r in before && r !in after && q in before && q in after && q !in Protected(before, pins)
                      && before[q].responseAlias && InGroup(before[r], before[q]) ::
          before[r].updatedAt <= before[q].updatedAt)
    && forall g :: |Group(after, g) - Protected(before, pins)| <= 128
  }

  /** Aliases before stable records, and older ones before newer ones. */
  predicate GoesBefore(a: Conversation, b: Conversation) {
    (a.responseAlias && !b.responseAlias) || (a.responseAlias == b.responseAlias && a.updatedAt <= b.updatedAt)
  }

  ghost predicate OldestGo(pins: Pins, before: Records, after: Records) {
    && after.Keys <= before.Keys
    && forall r | r in before && r !in after ::
         r !in Protected(before, pins)
         && forall q | q in before && q in after && q !in Protected(before, pins) :: GoesBefore(before[r], before[q])
  }

  /** At most 5000 records stay; no more are given up than that takes. */
  ghost predicate KeepsCount(pins: Pins, before: Records, after: Records) {
    && OldestGo(pins, before, after)
    && (|after| <= 5000 || after.Keys <= Protected(before, pins))
    && (after != before ==> |before| > 5000 && |after| >= 5000)
  }

  /** The sizes of the items from one position up to another that no pin protects. */
  function Shed(size: Records -> nat, protected: set<string>, items: seq<Conversation>, from: nat, end: nat): int
    requires from <= end <= |items|
    decreases end
  {
    if from == end then 0
    else
      var last := items[end - 1];
      Shed(size, protected, items, from, end - 1) + if last.id in protected then 0 else size(map[last.id := last]) - 2
  }

  /** Before item n was given up the estimate was still too large: what the file measured
      at some earlier point, less the sizes of what was given up since. */
  ghost predicate StillTooLarge(size: Records -> nat, protected: set<string>, before: Records, after: Records,
                                items: seq<Conversation>, n: nat, measured: Records, from: nat)
  {
    && from <= n < |items| && (after.Keys <= measured.Keys <= before.Keys)
    && (forall k | k in before && k !in measured :: exists j :: 0 <= j < from && items[j].id == k)
    && (forall j | 0 <= j < from :: items[j].id !in measured || items[j].id in protected)
    && (forall k | k in before && k !in after :: exists j :: 0 <= j <= n && items[j].id == k)
    && (forall i, j | 0 <= i < j < |items| :: GoesBefore(items[i], items[j]))
    && (forall j | 0 <= j < |items| :: items[j].id in before && items[j] == before[items[j].id])
    && size(measured) - Shed(size, protected, items, from, n) > 16777216
  }

  ghost predicate Estimated(size: Records -> nat, protected: set<string>, before: Records, after: Records,
                            items: seq<Conversation>, n: nat)
  {
    exists measured, from :: StillTooLarge(size, protected, before, after, items, n, measured, from)
  }

  /** The file comes down to sixteen MiB; giving up stops when estimate and measure fit. */
  ghost predicate KeepsBytes(size: Records -> nat, pins: Pins, before: Records, after: Records) {
    && OldestGo(pins, before, after)
    && (size(after) <= 16777216 || after.Keys <= Protected(before, pins))
    && (after != before ==>
          && size(before) > 16777216
          && exists items, n :: Estimated(size, Protected(before, pins), before, after, items, n))
  }

  /** The four phases of a pruning, one after the other. */
  ghost predicate Phases(size: Records -> nat, pins: Pins, a: Records, e: Records, now: int) {
    exists b, c, d ::
      DropsExpired(pins, a, b, now) && KeepsNewest(pins, b, c) && KeepsCount(pins, c, d) && KeepsBytes(size, pins, d, e)
  }

  // ------------------------------------------------------ the sorting does this

  lemma ExpiredIsStale(k: string, v: Conversation, now: int)
    ensures Expired(k, v, now) <==> Stale(k, v, now)
  {
    hide Text.Trim, Text.ByteLength;
  }

  lemma GoesBeforeIs(items: seq<Conversation>)
    requires OrderedBy(items, SoonerGone)
    ensures forall i, j | 0 <= i < j < |items| :: GoesBefore(items[i], items[j])
  {
    forall i, j | 0 <= i < j < |items| ensures GoesBefore(items[i], items[j]) {
      assert SoonerGone(items[i], items[j]);
    }
  }

  lemma OldestAreGone(pins: Pins, before: Records, after: Records)
    requires InOrder(pins, before, after) && after.Keys <= before.Keys
    requires forall r | r in before && r !in after :: r !in Protected(before, pins)
    ensures OldestGo(pins, before, after)
  {
    hide Protected;
    forall r, q | r in before && r !in after && q in before && q in after && q !in Protected(before, pins)
      ensures GoesBefore(before[r], before[q])
    {
      assert SoonerGone(before[r], before[q]);
    }
  }

  lemma GroupIs(data: Records, name: string)
    ensures Group(data, name) == AliasesIn(data, name)
  {
  }

  lemma InGroupIs(a: Conversation, b: Conversation)
    ensures InGroup(a, b) <==> GroupOf(a) == GroupOf(b)
  {
  }

  lemma {:induction false} IdsOfAppend(a: seq<Conversation>, b: seq<Conversation>)
    ensures IdsOf(a + b) == IdsOf(a) + IdsOf(b)
  {
    if a == [] {
      assert a + b == b;
    } else {
      assert (a + b)[1..] == a[1..] + b;
      IdsOfAppend(a[1..], b);
    }
  }

  lemma {:induction false} SameSize<T>(a: set<T>, b: set<T>)
    requires a <= b && |a| >= |b|
    ensures a == b
  {
    if x :| x in b && x !in a {
      Fewer(a, b - {x});
    }
  }

  lemma {:induction false} Fewer<T>(a: set<T>, b: set<T>)
    requires a <= b
    ensures |a| <= |b|
  {
    if x :| x in a {
      Fewer(a - {x}, b - {x});
    }
  }

  lemma NoneShared<T>(a: set<T>, b: set<T>)
    requires |a + b| >= |a| + |b|
    ensures a !! b
  {
    var rest := b - a;
    assert a + b == a + rest && |a + rest| == |a| + |rest|;
    SameSize(rest, b);
  }

  /** As many items as ids: the first m have m ids, and no later one has one of them. */
  lemma FirstIds(items: seq<Conversation>, m: nat, j: nat)
    requires |IdsOf(items)| == |items| && m <= j < |items|
    ensures |IdsOf(items[..m])| == m && items[j].id !in IdsOf(items[..m])
  {
    hide IdsOf;
    var a, b := items[..m], items[m..];
    assert a + b == items;
    IdsOfAppend(a, b);
    NoneShared(IdsOf(a), IdsOf(b));
    assert b[j - m] == items[j];
  }

  lemma AsManyIds(data: Records, keys: set<string>, items: seq<Conversation>)
    requires SortedRecords(data, keys, items, NewestFirst) && |items| == |keys|
    ensures |IdsOf(items)| == |items|
  {
    hide IdsOf;
    assert IdsOf(items) == keys;
  }

  /** In a group sorted newest first whoever comes after the 128th is crowded out. */
  lemma SortedOut(data: Records, group: string, items: seq<Conversation>, j: nat)
    requires SortedRecords(data, AliasesIn(data, group), items, NewestFirst)
    requires |items| == |AliasesIn(data, group)| && 128 <= j < |items|
    ensures CrowdedOut(data, items[j].id)
  {
    hide IdsOf;
    var newer, r := IdsOf(items[..128]), items[j].id;
    AsManyIds(data, AliasesIn(data, group), items);
    FirstIds(items, 128, j);
    forall q | q in newer
      ensures q in data && data[q].responseAlias && InGroup(data[q], data[r]) && data[r].updatedAt <= data[q].updatedAt
    {
      var i :| 0 <= i < |items[..128]| && items[..128][i].id == q;
      assert items[..128][i] == items[i] && NewestFirst(items[i], items[j]);
    }
    assert Crowd(data, r, newer);
  }
}
