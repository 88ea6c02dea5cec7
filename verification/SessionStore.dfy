/**
 The session store: the methods that rewrite the forest in place, prune it, and
 write it to disk. A write either replaces the whole file or fails and changes
 nothing; which of the two happens is an argument of every operation that writes.
 */
module SessionStore {
  import opened Chat
  import opened Portable
  import opened Forest
  import opened Pruning
  import opened PrunePhases
  import Compaction
  import Text

  /** What the environment fixes: message sizes, the serialised size
      of a whole file, and the bounding of titles. */
  datatype Env = Env(wire: Wire, fileSize: Records -> nat, boundTitle: string -> string)

  ghost predicate EnvOk(env: Env) {
    env.fileSize(map[]) <= MAX_STORE_BYTES
  }

  // ------------------------------------------------------------- guarantees

  /** Every stale record that is left is protected. */
  ghost predicate NoStale(pins: Pins, data: Records, now: int) {
    forall k | k in data && Stale(k, data[k], now) :: k in Protected(data, pins)
  }

  /** No group keeps more aliases than allowed, protected ones aside. */
  ghost predicate AliasesCapped(pins: Pins, data: Records) {
    forall g :: |AliasesIn(data, g) - Protected(data, pins)| <= MAX_ALIASES
  }

  ghost predicate CountCapped(pins: Pins, data: Records) {
    |data| <= MAX_STORED || data.Keys <= Protected(data, pins)
  }

  ghost predicate BytesCapped(env: Env, pins: Pins, data: Records) {
    env.fileSize(data) <= MAX_STORE_BYTES || data.Keys <= Protected(data, pins)
  }

  /** Further removals keep the earlier guarantees. */
  lemma FewerStillCapped(w: Wire, pins: Pins, before: Records, after: Records, now: int)
    requires Pruned(w, pins, before, after)
    ensures NoStale(pins, before, now) ==> NoStale(pins, after, now)
    ensures AliasesCapped(pins, before) ==> AliasesCapped(pins, after)
    ensures CountCapped(pins, before) ==> CountCapped(pins, after)
  {
    hide Materialize, Bound, Protected;
    PrunedProtects(w, pins, before, after);
    forall k | k in after ensures k in before && Stale(k, after[k], now) == Stale(k, before[k], now) {
      KeptFields(w, before, after, k);
    }
    if AliasesCapped(pins, before) {
      forall g ensures |AliasesIn(after, g) - Protected(after, pins)| <= MAX_ALIASES {
        forall k | k in AliasesIn(after, g) ensures k in AliasesIn(before, g) {
          KeptFields(w, before, after, k);
        }
        Smaller(AliasesIn(after, g) - Protected(after, pins), AliasesIn(before, g) - Protected(before, pins));
      }
    }
    assert after.Keys <= before.Keys;
    Smaller(after.Keys, before.Keys);
    assert |after| == |after.Keys| && |before| == |before.Keys|;
  }

  lemma Smaller<T>(a: set<T>, b: set<T>)
    requires a <= b
    ensures |a| <= |b|
  {
    if a != {} {
      var x :| x in a;
      Smaller(a - {x}, b - {x});
    }
  }

  /** The first n items have been given up, unless protected, and nothing else. */
  ghost predicate GaveUp(pins: Pins, before: Records, after: Records, items: seq<Conversation>, n: nat)
    requires n <= |items|
  {
    && (forall k | k in before && k !in after ::
          k !in Protected(before, pins) && exists j :: 0 <= j < n && items[j].id == k)
    && (forall j | 0 <= j < n :: items[j].id !in after || items[j].id in Protected(before, pins))
    && after.Keys <= before.Keys
  }

  lemma GaveUpInOrder(pins: Pins, before: Records, after: Records, items: seq<Conversation>, n: nat)
    requires n <= |items| && SortedRecords(before, before.Keys, items, SoonerGone)
    requires GaveUp(pins, before, after, items, n)
    ensures InOrder(pins, before, after)
  {
    hide Protected;
    forall r, q | r in before && r !in after && q in after && q in before && q !in Protected(before, pins)
      ensures SoonerGone(before[r], before[q])
    {
      var j :| 0 <= j < n && items[j].id == r;
      var m :| 0 <= m < |items| && items[m].id == q;
      assert m >= n;
    }
  }

  lemma NothingShed(size: Records -> nat, protected: set<string>, items: seq<Conversation>, i: nat)
    requires i <= |items|
    ensures Shed(size, protected, items, i, i) == 0
  {
  }

  lemma ShedOne(size: Records -> nat, protected: set<string>, items: seq<Conversation>, from: nat, i: nat)
    requires from <= i < |items|
    ensures Shed(size, protected, items, from, i + 1) ==
            Shed(size, protected, items, from, i)
            + if items[i].id in protected then 0 else size(map[items[i].id := items[i]]) - 2
  {
  }

  lemma NothingGone(env: Env, pins: Pins, data: Records)
    requires env.fileSize(data) <= MAX_STORE_BYTES
    ensures BytesCapped(env, pins, data) && KeepsBytes(env.fileSize, pins, data, data) && InOrder(pins, data, data)
  {
    hide Protected;
  }

  lemma StillLarge(env: Env, pins: Pins, before: Records, after: Records, items: seq<Conversation>, i: nat,
                   measured: Records, from: nat)
    requires SortedRecords(before, before.Keys, items, SoonerGone) && from <= i < |items|
    requires GaveUp(pins, before, after, items, i + 1) && GaveUp(pins, before, measured, items, from)
    requires after.Keys <= measured.Keys
    requires env.fileSize(measured) - Shed(env.fileSize, Protected(before, pins), items, from, i) > MAX_STORE_BYTES
    ensures Estimated(env.fileSize, Protected(before, pins), before, after, items, i)
  {
    hide Protected, Shed;
    GoesBeforeIs(items);
    assert StillTooLarge(env.fileSize, Protected(before, pins), before, after, items, i, measured, from);
  }

  lemma BytesKept(env: Env, pins: Pins, before: Records, after: Records, items: seq<Conversation>, i: nat)
    requires SortedRecords(before, before.Keys, items, SoonerGone) && 0 < i <= |items|
    requires GaveUp(pins, before, after, items, i) && env.fileSize(before) > MAX_STORE_BYTES
    requires Estimated(env.fileSize, Protected(before, pins), before, after, items, i - 1)
    requires env.fileSize(after) <= MAX_STORE_BYTES || after.Keys <= Protected(before, pins)
    requires Protected(after, pins) == Protected(before, pins)
    ensures KeepsBytes(env.fileSize, pins, before, after) && InOrder(pins, before, after)
    ensures BytesCapped(env, pins, after)
  {
    hide Protected, Estimated;
    GaveUpInOrder(pins, before, after, items, i);
    OldestAreGone(pins, before, after);
  }

  lemma OneLess(before: Records, after: Records, id: string)
    requires before.Keys - after.Keys <= {id}
    ensures |after| >= |before| - 1
  {
    Smaller(before.Keys, after.Keys + {id});
    assert |after| == |after.Keys| && |before| == |before.Keys|;
  }

  lemma SoonerGoneIsPreorder()
    ensures TotalPreorder(SoonerGone)
  {
  }

  lemma NewestFirstIsPreorder()
    ensures TotalPreorder(NewestFirst)
  {
  }

  /** Within a group, the unprotected aliases that are left are at least as recent as
      any alias that was removed. */
  ghost predicate NewestKept(pins: Pins, before: Records, after: Records) {
    forall r, q | r in before && r !in after && q in after && q in before && q !in Protected(before, pins)
                  && before[r].responseAlias && before[q].responseAlias && GroupOf(before[r]) == GroupOf(before[q]) ::
      NewestFirst(before[q], before[r])
  }

  /** Groups that are dealt with are capped, and only their aliases are gone. */
  ghost predicate GroupsCapped(pins: Pins, before: Records, after: Records, groups: set<string>) {
    && (forall g | g in groups :: |AliasesIn(after, g) - Protected(before, pins)| <= MAX_ALIASES)
    && (forall k | k in before && k !in after :: before[k].responseAlias && GroupOf(before[k]) in groups)
  }

  lemma GroupsCappedMore(w: Wire, pins: Pins, before: Records, mid: Records, after: Records,
                         groups: set<string>, g: string)
    requires Pruned(w, pins, before, mid) && Pruned(w, pins, before, after) && after.Keys <= mid.Keys
    requires GroupsCapped(pins, before, mid, groups)
    requires |AliasesIn(after, g) - Protected(before, pins)| <= MAX_ALIASES
    requires forall k | k in mid && k !in after :: k in AliasesIn(before, g)
    ensures GroupsCapped(pins, before, after, groups + {g})
  {
    hide Materialize, Bound, Protected, Pruned, AliasesIn, GroupOf;
    forall k | k in before && k !in after ensures before[k].responseAlias && GroupOf(before[k]) in groups + {g} {
      if k in mid {
        GoneFrom(before, g, k);
      }
    }
    forall h | h in groups && h != g ensures |AliasesIn(after, h) - Protected(before, pins)| <= MAX_ALIASES {
      FewerAliases(w, pins, before, mid, after, h);
      Smaller(AliasesIn(after, h) - Protected(before, pins), AliasesIn(mid, h) - Protected(before, pins));
    }
  }

  /** Evicting all but the newest aliases leaves none that is newer than one kept. */
  lemma NewestAreKept(w: Wire, pins: Pins, snapshot: Records, before: Records, after: Records,
                      aliases: set<string>, items: seq<Conversation>)
    requires SortedRecords(snapshot, aliases, items, NewestFirst) && |items| > MAX_ALIASES && aliases <= snapshot.Keys
    requires forall j | MAX_ALIASES <= j < |items| :: items[j].id !in after || items[j].id in Protected(snapshot, pins)
    requires forall k | k in before && k !in after :: exists j :: MAX_ALIASES <= j < |items| && items[j].id == k
    ensures forall q | q in after && q in aliases && q !in Protected(snapshot, pins) ::
              q in IdsOf(items[..MAX_ALIASES])
              && forall r | r in before && r !in after :: r in snapshot && NewestFirst(snapshot[q], snapshot[r])
  {
    hide Protected;
    forall q | q in after && q in aliases && q !in Protected(snapshot, pins)
      ensures q in IdsOf(items[..MAX_ALIASES])
      ensures forall r | r in before && r !in after :: r in snapshot && NewestFirst(snapshot[q], snapshot[r])
    {
      var m :| 0 <= m < |items| && items[m].id == q;
      assert m < MAX_ALIASES && items[..MAX_ALIASES][m] == items[m];
    }
  }

  lemma AllGroupsCapped(w: Wire, pins: Pins, before: Records, after: Records, groups: set<string>)
    requires Pruned(w, pins, before, after) && GroupsCapped(pins, before, after, groups)
    requires forall k | k in before && before[k].responseAlias :: GroupOf(before[k]) in groups
    ensures AliasesCapped(pins, after)
  {
    hide Materialize, Bound, Protected;
    PrunedProtects(w, pins, before, after);
    forall g ensures |AliasesIn(after, g) - Protected(after, pins)| <= MAX_ALIASES {
      forall k | k in AliasesIn(after, g) ensures g in groups {
        KeptFields(w, before, after, k);
      }
      if g !in groups {
        assert AliasesIn(after, g) - Protected(after, pins) == {};
      }
    }
  }

  /** The guarantees of the phases on the raw times, groups and sizes. */
  lemma StaleAreDropped(pins: Pins, before: Records, after: Records, now: int)
    requires after.Keys <= before.Keys
    requires forall k | k in before && k !in after :: Stale(k, before[k], now) && k !in Protected(before, pins)
    requires forall k | k in before && k in after && Stale(k, before[k], now) :: k in Protected(before, pins)
    ensures DropsExpired(pins, before, after, now)
  {
    hide Stale, Expired, Protected;
    forall k | k in before ensures Expired(k, before[k], now) <==> Stale(k, before[k], now) {
      ExpiredIsStale(k, before[k], now);
    }
  }

  lemma NewestStay(w: Wire, pins: Pins, before: Records, after: Records)
    requires Pruned(w, pins, before, after) && after.Keys <= before.Keys
    requires NewestKept(pins, before, after) && AliasesCapped(pins, after)
    requires forall r | r in before && r !in after :: CrowdedOut(before, r) && r !in Protected(before, pins)
    ensures KeepsNewest(pins, before, after)
  {
    hide Materialize, Bound, Protected, Pruned, AliasesIn, Group, InGroup, GroupOf;
    PrunedProtects(w, pins, before, after);
    forall g ensures |Group(after, g) - Protected(before, pins)| <= 128 {
      GroupIs(after, g);
    }
    forall r, q | r in before && r !in after && q in before && q in after && q !in Protected(before, pins)
                  && before[q].responseAlias && InGroup(before[r], before[q])
      ensures before[r].updatedAt <= before[q].updatedAt
    {
      InGroupIs(before[r], before[q]);
      assert CrowdedOut(before, r) && NewestFirst(before[q], before[r]);
    }
  }

  lemma GoneFrom(data: Records, group: string, k: string)
    ensures k in AliasesIn(data, group) <==> k in data && data[k].responseAlias && GroupOf(data[k]) == group
  {
  }

  lemma FewerAliases(w: Wire, pins: Pins, before: Records, mid: Records, after: Records, group: string)
    requires Pruned(w, pins, before, mid) && Pruned(w, pins, before, after) && after.Keys <= mid.Keys
    ensures AliasesIn(after, group) <= AliasesIn(mid, group)
  {
    hide Materialize, Bound, Protected;
    forall k | k in AliasesIn(after, group) ensures k in AliasesIn(mid, group) {
      KeptFields(w, before, after, k);
      KeptFields(w, before, mid, k);
    }
  }

  lemma NewestKeptMore(pins: Pins, before: Records, mid: Records, after: Records, g: string)
    requires NewestKept(pins, before, mid) && after.Keys <= mid.Keys
    requires forall k | k in mid && k !in after :: k in AliasesIn(before, g)
    requires forall r, q | r in mid && r !in after && q in after && q in AliasesIn(before, g)
                           && q !in Protected(before, pins) :: NewestFirst(before[q], before[r])
    ensures NewestKept(pins, before, after)
  {
    hide Protected;
    forall r, q | r in before && r !in after && q in after && q in before && q !in Protected(before, pins)
                  && before[r].responseAlias && before[q].responseAlias && GroupOf(before[r]) == GroupOf(before[q])
      ensures NewestFirst(before[q], before[r])
    {
      if r in mid {
        assert r in AliasesIn(before, g);
        assert q in AliasesIn(before, g);
      } else {
        assert q in mid;
      }
    }
  }

  /** A removed stable record that was not stale leaves no unprotected alias behind,
      and no unprotected stable record older than itself. */
  ghost predicate StableLast(pins: Pins, before: Records, after: Records, now: int) {
    forall r, q | r in before && r !in after && !before[r].responseAlias && !Stale(r, before[r], now)
                  && q in after && q in before && q !in Protected(before, pins) ::
      !before[q].responseAlias && before[r].updatedAt <= before[q].updatedAt
  }

  lemma PhasesAreStableLast(w: Wire, pins: Pins, a: Records, b: Records, c: Records, d: Records, e: Records, now: int)
    requires Pruned(w, pins, a, b) && Pruned(w, pins, a, c) && Pruned(w, pins, a, d) && Pruned(w, pins, a, e)
    requires e.Keys <= d.Keys <= c.Keys <= b.Keys
    requires forall k | k in a && k !in b :: Stale(k, a[k], now)
    requires forall k | k in b && k !in c :: b[k].responseAlias
    requires InOrder(pins, c, d) && InOrder(pins, d, e)
    ensures StableLast(pins, a, e, now)
  {
    hide Materialize, Bound, Protected;
    PrunedProtects(w, pins, a, c);
    PrunedProtects(w, pins, a, d);
    forall r, q | r in a && r !in e && !a[r].responseAlias && !Stale(r, a[r], now)
                  && q in e && q in a && q !in Protected(a, pins)
      ensures !a[q].responseAlias && a[r].updatedAt <= a[q].updatedAt
    {
      KeptFields(w, a, b, r);
      KeptFields(w, a, c, r);
      KeptFields(w, a, c, q);
      KeptFields(w, a, d, q);
      if r in d {
        KeptFields(w, a, d, r);
        assert SoonerGone(d[r], d[q]);
      } else {
        assert SoonerGone(c[r], c[q]);
      }
    }
  }

  function NamedGroup(k: string, v: Conversation): string {
    FirstNonEmpty(v.aliasGroup, v.id, k)
  }

  function NamedAliases(data: Records, group: string): set<string> {
    set k | k in data && data[k].responseAlias && NamedGroup(k, data[k]) == group
  }

  /** When an ordinary write has to prune first. */
  ghost predicate NeedsPrune(data: Records, now: int) {
    || |data| > MAX_STORED
    || (exists k :: k in data && Stale(k, data[k], now))
    || (exists g :: |NamedAliases(data, g)| > MAX_ALIASES)
  }

  /** A record names its group by a word. */
  predicate NamesGroup(v: Conversation) {
    if v.aliasGroup == "" then Text.Trim(v.id) != "" else Text.Trim(v.aliasGroup) != ""
  }

  lemma NamedGroupIs(k: string, v: Conversation)
    requires NamesGroup(v)
    ensures NamedGroup(k, v) == if v.aliasGroup == "" then v.id else v.aliasGroup
  {
    assert Text.Trim("") == "";
  }

  /** Where every record does, a write has to prune exactly when there are more than 5000
      records, one has expired, or a group has more than 128 aliases. */
  lemma NeedsPruneIs(data: Records, now: int)
    requires forall k | k in data :: NamesGroup(data[k])
    ensures NeedsPrune(data, now) <==>
            || |data| > 5000 || (exists k :: k in data && Expired(k, data[k], now))
            || exists g :: |Group(data, g)| > 128
  {
    hide Expired, Stale, NamedGroup, NamesGroup;
    forall k | k in data
      ensures Expired(k, data[k], now) <==> Stale(k, data[k], now)
      ensures NamedGroup(k, data[k]) == if data[k].aliasGroup == "" then data[k].id else data[k].aliasGroup
    {
      ExpiredIsStale(k, data[k], now);
      NamedGroupIs(k, data[k]);
    }
    forall g ensures NamedAliases(data, g) == Group(data, g) {
    }
  }

  /** A write prunes in all phases when it must, and otherwise takes nothing away. */
  ghost predicate Settled(env: Env, pins: Pins, before: Records, after: Records, now: int) {
    if NeedsPrune(before, now) || env.fileSize(before) > 16777216 then Phases(env.fileSize, pins, before, after, now)
    else after == before
  }

  /** What the store promises after every write: the caps, protected records aside.
      Group names made of spaces only are counted by an ordinary write as if each
      record were its own group, so the alias cap is promised for the others. */
  ghost predicate Tidy(env: Env, pins: Pins, data: Records, now: int) {
    && NoStale(pins, data, now)
    && (forall g | Text.Trim(g) != "" :: |AliasesIn(data, g) - Protected(data, pins)| <= MAX_ALIASES)
    && CountCapped(pins, data)
    && BytesCapped(env, pins, data)
  }

  lemma NoPruneIsTidy(env: Env, pins: Pins, data: Records, now: int)
    requires !NeedsPrune(data, now) && env.fileSize(data) <= MAX_STORE_BYTES
    ensures Tidy(env, pins, data, now)
  {
    hide Protected;
    forall g | Text.Trim(g) != "" ensures |AliasesIn(data, g) - Protected(data, pins)| <= MAX_ALIASES {
      forall k | k in AliasesIn(data, g) ensures k in NamedAliases(data, g) {
        assert !Stale(k, data[k], now);
      }
      Smaller(AliasesIn(data, g) - Protected(data, pins), NamedAliases(data, g));
    }
  }

  /** Names of different lengths. */
  function Name(i: nat): (r: string)
    ensures |r| == i + 1 && forall j | 0 <= j < |r| :: r[j] == 'a'
  {
    (if i == 0 then "" else Name(i - 1)) + "a"
  }

  function Names(n: nat): set<string> {
    set i | 0 <= i < n :: Name(i)
  }

  lemma {:induction false} NamesCount(n: nat)
    ensures |Names(n)| == n
  {
    hide Name;
    if n > 0 {
      NamesCount(n - 1);
      assert Names(n) == Names(n - 1) + {Name(n - 1)};
      assert |Name(n - 1)| == n;
    }
  }

  lemma NameIsKey(i: nat)
    requires i < MAX_KEY_LENGTH
    ensures Text.Trim(Name(i)) == Name(i) != "" && Text.ByteLength(Name(i)) <= MAX_KEY_LENGTH
  {
    hide Name;
    Text.TrimOfTrimmed(Name(i));
    Compaction.AsciiLength(Name(i));
  }

  function AliasOf(group: string, k: string): Conversation {
    Conversation(k, "", "", "", "", [], "", 0, [], group, true, 0, 1, 1)
  }

  /** One alias too many in a group. */
  function Crowd(group: string): Records {
    map k | k in Names(MAX_ALIASES + 1) :: AliasOf(group, k)
  }

  lemma CrowdStays(w: Wire, group: string)
    requires Text.Trim(group) == "" && group != ""
    ensures Sound(w, Crowd(group)) && !NeedsPrune(Crowd(group), 1)
    ensures |AliasesIn(Crowd(group), group)| == MAX_ALIASES + 1
  {
    hide Bound, Name, Text.Trim;
    var data, keys := Crowd(group), Names(MAX_ALIASES + 1);
    NamesCount(MAX_ALIASES + 1);
    assert data.Keys == keys && |data| == |keys|;
    forall k | k in keys ensures Text.Trim(k) == k != "" && Text.ByteLength(k) <= MAX_KEY_LENGTH {
      NameIsKey(|k| - 1);
    }
    forall k ensures SoundAt(w, data, k) {
      assert k in data ==> Read(w, data, k) == History(Bound(w, []));
    }
    forall g ensures |NamedAliases(data, g)| <= MAX_ALIASES {
      assert forall k | k in data :: NamedGroup(k, data[k]) == k;
      assert NamedAliases(data, g) <= {g};
      Smaller(NamedAliases(data, g), {g});
    }
    assert AliasesIn(data, group) == keys;
  }

  /** An ordinary write counts a record whose group is named by spaces as a group of its
      own. So in a store that such writes leave unpruned the cap holds for a group
      exactly when its name is not one of those. */
  lemma AliasCapIff(w: Wire, group: string)
    ensures (forall data, now | Sound(w, data) && !NeedsPrune(data, now) :: |AliasesIn(data, group)| <= MAX_ALIASES)
            <==> Text.Trim(group) != "" || group == ""
  {
    hide Bound, Materialize;
    if Text.Trim(group) == "" && group != "" {
      CrowdStays(w, group);
      assert !NeedsPrune(Crowd(group), 1) && |AliasesIn(Crowd(group), group)| > MAX_ALIASES;
    } else {
      forall data, now | Sound(w, data) && !NeedsPrune(data, now)
        ensures |AliasesIn(data, group)| <= MAX_ALIASES
      {
        UnprunedIsCapped(w, data, now, group);
      }
    }
  }

  lemma UnprunedIsCapped(w: Wire, data: Records, now: int, group: string)
    requires Sound(w, data) && !NeedsPrune(data, now) && (Text.Trim(group) != "" || group == "")
    ensures |AliasesIn(data, group)| <= MAX_ALIASES
  {
    hide Materialize;
    forall k | k in AliasesIn(data, group) ensures k in NamedAliases(data, group) {
      assert !Stale(k, data[k], now) && SoundAt(w, data, k);
    }
    Smaller(AliasesIn(data, group), NamedAliases(data, group));
  }

  /** Without pins the caps hold outright. */
  lemma TidyWithoutPins(env: Env, pins: Pins, data: Records, now: int)
    requires EnvOk(env) && Tidy(env, pins, data, now)
    requires forall p | p in pins :: pins[p] <= 0
    ensures |data| <= MAX_STORED && env.fileSize(data) <= MAX_STORE_BYTES
    ensures forall k | k in data :: !Stale(k, data[k], now)
    ensures forall g | Text.Trim(g) != "" :: |AliasesIn(data, g)| <= MAX_ALIASES
  {
    hide Materialize, Bound, AliasesIn, Stale;
    assert Protected(data, pins) == {};
    if data.Keys <= {} {
      assert data == map[];
    }
    forall g | Text.Trim(g) != "" ensures |AliasesIn(data, g)| <= MAX_ALIASES {
      assert AliasesIn(data, g) - {} == AliasesIn(data, g);
    }
  }

  // ------------------------------------------------------------------ bindings

  function HasPortableState(v: Conversation): bool {
    v.portableMessages != [] || v.historyParent != "" || v.portableDelta != [] || v.historyDrop > 0
  }

  /** The record an upsert files for v. */
  function Upserted(env: Env, data: Records, v: Conversation, now: int): Conversation {
    var existed := v.id in data;
    var group :=
      if v.aliasGroup != "" then v.aliasGroup
      else if existed && data[v.id].aliasGroup != "" then data[v.id].aliasGroup else v.id;
    var grouped := v.(aliasGroup := group);
    var history :=
      if !HasPortableState(v) && existed && HasPortableState(data[v.id]) then
        var prev := data[v.id];
        grouped.(portableMessages := prev.portableMessages, historyParent := prev.historyParent,
                 historyDrop := prev.historyDrop, portableDelta := prev.portableDelta)
      else if v.historyParent != "" then
        grouped.(portableMessages := [], portableDelta := SanitizeAll(v.portableDelta))
      else
        grouped.(portableMessages := Bound(env.wire, v.portableMessages), historyDrop := 0, portableDelta := []);
    history.(createdAt := if v.createdAt != 0 then v.createdAt
                          else if existed && data[v.id].createdAt != 0 then data[v.id].createdAt else now,
             updatedAt := now,
             title := env.boundTitle(v.title))
  }

  lemma BoundNothing(w: Wire)
    ensures Bound(w, []) == []
  {
  }

  /** A binding leaves the history of its record as it was. */
  lemma BindingHistory(env: Env, data: Records, v: Conversation, now: int)
    requires Sound(env.wire, data) && !HasPortableState(v) && v.id in data
    ensures var u := Upserted(env, data, v, now);
            && u.portableMessages == data[v.id].portableMessages && u.historyParent == data[v.id].historyParent
            && (u.historyParent != "" ==>
                  u.historyDrop == data[v.id].historyDrop && u.portableDelta == data[v.id].portableDelta)
  {
    hide Bound, Materialize;
    BoundNothing(env.wire);
  }

  lemma {:induction false} BindingUnfolds(env: Env, data: Records, v: Conversation, now: int, k: string, n: nat)
    requires Sound(env.wire, data) && !HasPortableState(v) && Unfold(env.wire, data, k, n).Some?
    ensures Unfold(env.wire, data[v.id := Upserted(env, data, v, now)], k, n) == Unfold(env.wire, data, k, n)
    decreases n
  {
    hide Bound, Upserted, Sound, HasPortableState;
    if k == v.id {
      BindingHistory(env, data, v, now);
    }
    if data[k].historyParent != "" {
      BindingUnfolds(env, data, v, now, data[k].historyParent, n - 1);
    }
  }

  /** Filing a binding changes no reading; a new binding reads as empty. */
  lemma BindingReads(env: Env, data: Records, v: Conversation, now: int)
    requires Sound(env.wire, data) && !HasPortableState(v)
    ensures var after := data[v.id := Upserted(env, data, v, now)];
            && (forall k | k in data :: Read(env.wire, after, k) == Read(env.wire, data, k))
            && (v.id !in data ==> Read(env.wire, after, v.id) == History([]))
  {
    hide Materialize, Upserted;
    var after := data[v.id := Upserted(env, data, v, now)];
    forall k | k in data ensures Read(env.wire, after, k) == Read(env.wire, data, k) {
      assert SoundAt(env.wire, data, k);
      var n := UnfoldFromRead(env.wire, data, k);
      BindingUnfolds(env, data, v, now, k, n);
      ReadFromUnfold(env.wire, after, k, n);
    }
    if v.id !in data {
      NewBindingUnfolds(env, data, v, now);
      ReadFromUnfold(env.wire, after, v.id, 1);
    }
  }

  lemma NewBindingUnfolds(env: Env, data: Records, v: Conversation, now: int)
    requires v.id !in data && !HasPortableState(v)
    ensures Unfold(env.wire, data[v.id := Upserted(env, data, v, now)], v.id, 1) == Some([])
  {
    assert Bound(env.wire, []) == [];
  }

  /** Filing a binding keeps the forest sound exactly when it does not take the
      alias mark off a record that others are linked to. */
  lemma BindingSoundIff(env: Env, data: Records, v: Conversation, now: int)
    requires Sound(env.wire, data) && !HasPortableState(v)
    ensures Sound(env.wire, data[v.id := Upserted(env, data, v, now)]) <==>
            v.responseAlias || NobodysParent(data, v.id) || v.id == ""
  {
    hide Materialize, Bound;
    var after := data[v.id := Upserted(env, data, v, now)];
    BindingReads(env, data, v, now);
    if v.responseAlias || NobodysParent(data, v.id) || v.id == "" {
      forall k ensures SoundAt(env.wire, after, k) {
        assert SoundAt(env.wire, data, k) && SoundAt(env.wire, data, v.id);
      }
    } else {
      var k :| k in data && data[k].historyParent == v.id;
      assert SoundAt(env.wire, data, k) && SoundAt(env.wire, data, v.id);
      assert after[k].historyParent == v.id && !SoundAt(env.wire, after, k);
    }
  }

  /** A link that reads: to another record, an alias, with a drop within its history. */
  ghost predicate LinkFits(w: Wire, data: Records, u: Conversation) {
    var parent := u.historyParent;
    parent != "" ==>
      && parent != u.id && parent in data && data[parent].responseAlias
      && 0 <= u.historyDrop <= |HistoryOf(w, data, parent)|
  }

  lemma {:induction false} LeafUnfolds(w: Wire, data: Records, u: Conversation, k: string, n: nat)
    requires Sound(w, data) && NobodysParent(data, u.id) && k != u.id && k in data
    ensures Unfold(w, data[u.id := u], k, n) == Unfold(w, data, k, n)
    decreases n
  {
    hide Bound, Materialize;
    assert SoundAt(w, data, k);
    if n > 0 && data[k].historyParent != "" {
      LeafUnfolds(w, data, u, data[k].historyParent, n - 1);
    }
  }

  /** Filing a record that nobody links to changes no other reading. */
  lemma LeafReads(w: Wire, data: Records, u: Conversation, k: string)
    requires Sound(w, data) && NobodysParent(data, u.id) && k != u.id && k in data
    ensures Read(w, data[u.id := u], k) == Read(w, data, k)
  {
    hide Materialize;
    assert SoundAt(w, data, k);
    var n := UnfoldFromRead(w, data, k);
    LeafUnfolds(w, data, u, k, n);
    ReadFromUnfold(w, data[u.id := u], k, n);
  }

  /** So any such record may be filed exactly when its own link reads. */
  lemma UpsertSoundIff(env: Env, data: Records, v: Conversation, now: int)
    requires Sound(env.wire, data) && NobodysParent(data, v.id) && v.id != ""
    ensures var u := Upserted(env, data, v, now);
            Sound(env.wire, data[v.id := u]) <==> LinkFits(env.wire, data, u)
  {
    hide Materialize, Bound, Upserted, Sound;
    var u := Upserted(env, data, v, now);
    UpsertedKeepsId(env, data, v, now);
    LeafSoundIff(env.wire, data, u);
  }

  lemma UpsertedKeepsId(env: Env, data: Records, v: Conversation, now: int)
    ensures Upserted(env, data, v, now).id == v.id
  {
    hide Bound;
  }

  lemma LeafSoundIff(w: Wire, data: Records, u: Conversation)
    requires Sound(w, data) && NobodysParent(data, u.id) && u.id != ""
    ensures Sound(w, data[u.id := u]) <==> LinkFits(w, data, u)
  {
    hide Materialize, Bound;
    var after, parent := data[u.id := u], u.historyParent;
    forall k | k in data && k != u.id ensures Read(w, after, k) == Read(w, data, k) {
      LeafReads(w, data, u, k);
    }
    if Sound(w, after) && parent != "" {
      assert SoundAt(w, after, u.id);
      if parent == u.id {
        var n := UnfoldFromRead(w, after, u.id);
        NoTwoCycle(w, after, u.id, u.id, n);
      }
      LinkReads(w, after, u.id);
    }
    if LinkFits(w, data, u) {
      LeafReadable(w, data, u);
      forall k ensures SoundAt(w, after, k) {
        assert SoundAt(w, data, k);
      }
    }
  }

  lemma LeafReadable(w: Wire, data: Records, u: Conversation)
    requires Sound(w, data) && NobodysParent(data, u.id) && LinkFits(w, data, u)
    ensures Read(w, data[u.id := u], u.id).History?
  {
    hide Materialize, Bound;
    var after, parent := data[u.id := u], u.historyParent;
    if parent == "" {
      ReadFromUnfold(w, after, u.id, 1);
    } else {
      assert SoundAt(w, data, parent);
      var n := UnfoldFromRead(w, data, parent);
      LeafUnfolds(w, data, u, parent, n);
      ReadFromUnfold(w, after, u.id, n + 1);
    }
  }

  /** A binding write is stale when the stored one is of a later generation, or of
      the same generation for another account and the writer is not the active one. */
  predicate StaleBinding(data: Records, v: Conversation, authoritative: bool) {
    v.id in data &&
    var current := data[v.id];
    || current.routeGeneration > v.routeGeneration
    || (current.routeGeneration == v.routeGeneration && current.accountID != "" && current.accountID != v.accountID
        && !authoritative)
  }

  // --------------------------------------------------------- legacy compaction

  function Members(data: Records, group: string): set<string> {
    set k | k in data && NamedGroup(k, data[k]) == group
  }

  predicate LexLess(a: string, b: string) {
    b != "" && (a == "" || a[0] < b[0] || (a[0] == b[0] && LexLess(a[1..], b[1..])))
  }

  /** Up to position p they are the same; there the first ends, or has the smaller character. */
  predicate DiffersAt(a: string, b: string, p: nat) {
    p <= |a| && p < |b| && a[..p] == b[..p] && (p == |a| || a[p] < b[p])
  }

  ghost predicate NameBefore(a: string, b: string) {
    exists p: nat :: DiffersAt(a, b, p)
  }

  lemma {:induction false} LexLessIs(a: string, b: string)
    ensures LexLess(a, b) <==> NameBefore(a, b)
  {
    if a != "" && b != "" && a[0] == b[0] {
      LexLessIs(a[1..], b[1..]);
      if NameBefore(a[1..], b[1..]) {
        var p: nat :| DiffersAt(a[1..], b[1..], p);
        assert a[..p + 1] == [a[0]] + a[1..][..p] && b[..p + 1] == [b[0]] + b[1..][..p];
        assert DiffersAt(a, b, p + 1);
      }
      if NameBefore(a, b) {
        var p: nat :| DiffersAt(a, b, p);
        assert a[1..][..p - 1] == a[..p][1..] && b[1..][..p - 1] == b[..p][1..];
        assert DiffersAt(a[1..], b[1..], p - 1);
      }
    } else if LexLess(a, b) {
      assert DiffersAt(a, b, 0);
    }
  }

  lemma {:induction false} LexTotal(a: string, b: string)
    ensures a == b || LexLess(a, b) || LexLess(b, a)
  {
    if a != "" && b != "" {
      LexTotal(a[1..], b[1..]);
      assert a == [a[0]] + a[1..] && b == [b[0]] + b[1..];
    }
  }

  lemma {:induction false} LexTransitive(a: string, b: string, c: string)
    requires LexLess(a, b) && LexLess(b, c)
    ensures LexLess(a, c)
  {
    if a != "" && a[0] == b[0] == c[0] {
      LexTransitive(a[1..], b[1..], c[1..]);
    }
  }

  predicate CreatedBefore(data: Records, a: string, b: string)
    requires a in data && b in data
  {
    data[a].createdAt < data[b].createdAt || (data[a].createdAt == data[b].createdAt && LexLess(a, b))
  }

  lemma EarlierStill(data: Records, m: string, base: string)
    requires m in data
    ensures base in data && CreatedBefore(data, m, base) ==>
              forall x | x in data && CreatedBefore(data, base, x) :: CreatedBefore(data, m, x)
  {
    hide LexLess;
    if base in data && CreatedBefore(data, m, base) {
      forall x | x in data && CreatedBefore(data, base, x) ensures CreatedBefore(data, m, x) {
        if LexLess(m, base) && LexLess(base, x) {
          LexTransitive(m, base, x);
        }
      }
    }
  }

  /** A legacy group is rebuilt around the earliest of its aliases, which stays as it was
      while all other members become links to it; any other group is left alone. */
  ghost predicate CompactedGroup(before: Records, after: Records, group: string) {
    if LeftAlone(before, Members(before, group))
    then forall m | m in Members(before, group) :: m in after && after[m] == before[m]
    else exists base :: BuiltAround(before, after, Members(before, group), base)
  }

  ghost predicate LeftAlone(before: Records, members: set<string>)
    requires members <= before.Keys
  {
    |members| < 2 || (exists m :: m in members && Structured(before[m]))
    || (forall m | m in members :: !before[m].responseAlias || m == "")
  }

  ghost predicate BuiltAround(before: Records, after: Records, members: set<string>, base: string)
    requires members <= before.Keys
  {
    && base in members && before[base].responseAlias && base in after && after[base] == before[base]
    && (forall m | m in members && before[m].responseAlias && m != "" ::
          || before[base].createdAt < before[m].createdAt
          || (before[base].createdAt == before[m].createdAt && (m == base || NameBefore(base, m))))
    && forall m | m in members && m != base ::
         m in after && after[m] == before[m].(portableMessages := [], historyParent := base,
                                              historyDrop := after[m].historyDrop,
                                              portableDelta := after[m].portableDelta)
  }

  // ------------------------------------------------------------------ the class

  class SessionStore {
    const env: Env
    var data: Records
    var pins: Pins
    var disk: Records

    ghost predicate Valid()
      reads this
    {
      EnvOk(env) && Sound(env.wire, data)
    }

    constructor (env: Env)
      requires EnvOk(env)
      ensures Valid() && this.env == env && data == map[] && pins == map[] && disk == map[]
    {
      this.env := env;
      data, pins, disk := map[], map[], map[];
    }

    // ---------------------------------------------------------------- pins

    method Walk(pinned: string, id: string) returns (met: bool)
      ensures met <==> id in Chain(data, pinned, {})
    {
      var seen: set<string> := {};
      var current := pinned;
      while current != "" && current !in seen
        invariant seen <= data.Keys
        invariant id in Chain(data, pinned, {}) <==> id in Chain(data, current, seen)
        decreases data.Keys - seen
      {
        if current == id {
          return true;
        }
        if current !in data {
          break;
        }
        assert current in data.Keys - seen;
        seen, current := seen + {current}, data[current].historyParent;
      }
      return false;
    }

    method PinnedDependency(id: string) returns (b: bool)
      ensures b <==> id in Protected(data, pins)
    {
      if id in pins && pins[id] > 0 {
        assert id in Chain(data, id, {}) + {id};
        return true;
      }
      var todo := pins.Keys;
      while todo != {}
        invariant todo <= pins.Keys
        invariant forall p | p in pins.Keys - todo && pins[p] > 0 :: id !in Chain(data, p, {})
        decreases |todo|
      {
        var p :| p in todo;
        todo := todo - {p};
        if pins[p] > 0 {
          var met := Walk(p, id);
          if met {
            assert id in Chain(data, p, {}) + {p};
            return true;
          }
        }
      }
      return false;
    }

    method Pin(id: string) returns (v: Option<Conversation>)
      modifies this`pins
      ensures v.Some? <==> id in data && Read(env.wire, data, id).History?
      ensures v.Some? ==> v.value == data[id].(portableMessages := HistoryOf(env.wire, data, id))
      ensures pins == if v.None? then old(pins)
                      else old(pins)[id := (if id in old(pins) then old(pins)[id] else 0) + 1]
    {
      v := Materialized(id);
      if v.Some? {
        pins := pins[id := (if id in pins then pins[id] else 0) + 1];
      }
    }

    method Unpin(id: string)
      modifies this`pins
      ensures pins == if id == "" then old(pins)
                      else if id !in old(pins) || old(pins)[id] <= 1 then old(pins) - {id}
                      else old(pins)[id := old(pins)[id] - 1]
    {
      if id == "" {
        return;
      }
      if id !in pins || pins[id] <= 1 {
        pins := pins - {id};
        return;
      }
      pins := pins[id := pins[id] - 1];
    }

    method Materialized(id: string) returns (v: Option<Conversation>)
      ensures v.Some? <==> id in data && Read(env.wire, data, id).History?
      ensures v.Some? ==> v.value == data[id].(portableMessages := HistoryOf(env.wire, data, id))
    {
      if id !in data {
        return None;
      }
      var r := Read(env.wire, data, id);
      if r.Broken? {
        return None;
      }
      return Some(data[id].(portableMessages := r.messages));
    }

    /** The same for a key that a caller brings, which may not be blank or over-long. */
    method Get(id: string) returns (v: Option<Conversation>)
      ensures v.Some? <==> ValidKey(id) && id in data && Read(env.wire, data, id).History?
      ensures v.Some? ==> v.value == data[id].(portableMessages := HistoryOf(env.wire, data, id))
    {
      if Text.Trim(id) == "" || Text.ByteLength(id) > MAX_KEY_LENGTH {
        return None;
      }
      v := Materialized(id);
    }

    // ------------------------------------------------------------- deletion

    /** Takes one record out. On any map, sound or not, it fails exactly when some
        child cannot be read, and then no record is gone. */
    method DeleteWithRebase(id: string) returns (err: Option<HistoryError>)
      requires EnvOk(env)
      modifies this`data
      ensures err.None? <==>
              (id in old(data) ==>
                 forall k | k in old(data) && old(data)[k].historyParent == id :: Read(env.wire, old(data), k).History?)
      ensures err.None? ==> data == if id in old(data) then Without(env.wire, old(data), {id}) else old(data)
      ensures err.Some? ==> HalfRebased(env.wire, old(data), data)
    {
      hide Bound, Materialize, HalfRebased, Without;
      if id !in data {
        return None;
      }
      ghost var before := data;
      HalfStart(env.wire, data);
      var todo := data.Keys;
      while todo != {}
        invariant todo <= before.Keys
        invariant data.Keys == before.Keys && HalfRebased(env.wire, before, data)
        invariant forall k | k in todo :: data[k] == before[k]
        invariant forall k | k in before && k !in todo :: data[k] == RebasedChild(env.wire, before, id, k)
        invariant forall k | k in before && k !in todo && before[k].historyParent == id ::
                    Read(env.wire, before, k).History?
        decreases |todo|
      {
        var child :| child in todo;
        todo := todo - {child};
        if data[child].historyParent == id {
          HalfRebasedReads(env.wire, before, data, child);
          var history := Read(env.wire, data, child);
          if history.Broken? {
            return Some(history.error);
          }
          HalfStep(env.wire, before, data, child);
          data := data[child := AsRoot(data[child], history.messages)];
        }
      }
      ChildrenIsWithout(env.wire, before, data, id);
      data := data - {id};
      return None;
    }

    /** Gives up a record unless a pin protects it. */
    method Evict(id: string)
      requires Valid()
      modifies this`data
      ensures Valid()
      ensures Pruned(env.wire, pins, old(data), data)
      ensures data.Keys == if id in Protected(old(data), pins) then old(data).Keys else old(data).Keys - {id}
    {
      hide Materialize, Bound, Protected;
      ghost var before := data;
      PrunedReflexive(env.wire, pins, data);
      var pinned := PinnedDependency(id);
      if !pinned {
        forall k | k in data ensures Read(env.wire, data, k).History? {
          assert SoundAt(env.wire, data, k);
        }
        var err := DeleteWithRebase(id);
        if id in before {
          EvictPrunes(env.wire, pins, before, id);
        }
        RebaseSound(env.wire, before, data);
      }
    }

    // -------------------------------------------------------------- pruning

    method DropStale(now: int)
      requires Valid()
      modifies this`data
      ensures Valid() && Pruned(env.wire, pins, old(data), data)
      ensures NoStale(pins, data, now) && DropsExpired(pins, old(data), data, now)
      ensures forall k | k in old(data) && k !in data :: Stale(k, old(data)[k], now)
    {
      hide Materialize, Bound, Protected;
      ghost var before := data;
      PrunedReflexive(env.wire, pins, data);
      var todo := data.Keys;
      while todo != {}
        invariant todo <= before.Keys
        invariant Valid() && Pruned(env.wire, pins, before, data)
        invariant forall k | k in before.Keys - todo && k in data && Stale(k, before[k], now) ::
                    k in Protected(before, pins)
        invariant data.Keys <= before.Keys
        invariant forall k | k in before && k !in data :: Stale(k, before[k], now) && k !in Protected(before, pins)
        decreases |todo|
      {
        var k :| k in todo;
        todo := todo - {k};
        if k in data && Stale(k, data[k], now) {
          ghost var mid := data;
          KeptFields(env.wire, before, mid, k);
          PrunedProtects(env.wire, pins, before, mid);
          Evict(k);
          PrunedTransitive(env.wire, pins, before, mid, data);
        } else if k in data {
          KeptFields(env.wire, before, data, k);
        }
      }
      PrunedProtects(env.wire, pins, before, data);
      forall k | k in data && Stale(k, data[k], now) ensures k in Protected(data, pins) {
        KeptFields(env.wire, before, data, k);
      }
      StaleAreDropped(pins, before, data, now);
    }

    /** Gives up items from the given position on, protected ones excepted. */
    method EvictFrom(ghost before: Records, items: seq<Conversation>, from: nat)
      requires Valid() && Sound(env.wire, before) && Pruned(env.wire, pins, before, data) && from <= |items|
      modifies this`data
      ensures Valid() && Pruned(env.wire, pins, before, data) && data.Keys <= old(data).Keys
      ensures forall j | from <= j < |items| :: items[j].id !in data || items[j].id in Protected(before, pins)
      ensures forall k | k in old(data) && k !in data ::
                k !in Protected(before, pins) && exists j :: from <= j < |items| && items[j].id == k
    {
      hide Materialize, Bound, Protected;
      var i := from;
      while i < |items|
        invariant from <= i <= |items|
        invariant Valid() && Pruned(env.wire, pins, before, data) && data.Keys <= old(data).Keys
        invariant forall j | from <= j < i :: items[j].id !in data || items[j].id in Protected(before, pins)
        invariant forall k | k in old(data) && k !in data ::
                    k !in Protected(before, pins) && exists j :: from <= j < i && items[j].id == k
      {
        ghost var mid := data;
        PrunedProtects(env.wire, pins, before, mid);
        Evict(items[i].id);
        PrunedTransitive(env.wire, pins, before, mid, data);
        i := i + 1;
      }
    }

    method CapGroup(snapshot: Records, group: string)
      requires Valid() && Sound(env.wire, snapshot) && Pruned(env.wire, pins, snapshot, data)
      modifies this`data
      ensures Valid() && Pruned(env.wire, pins, snapshot, data) && data.Keys <= old(data).Keys
      ensures |AliasesIn(data, group) - Protected(snapshot, pins)| <= MAX_ALIASES
      ensures forall k | k in old(data) && k !in data :: k in AliasesIn(snapshot, group)
      ensures forall k | k in old(data) && k !in data :: k !in Protected(snapshot, pins) && CrowdedOut(snapshot, k)
      ensures forall r, q | r in old(data) && r !in data && q in data && q in AliasesIn(snapshot, group)
                            && q !in Protected(snapshot, pins) :: NewestFirst(snapshot[q], snapshot[r])
    {
      hide Materialize, Bound, Protected, EnvOk, CrowdedOut;
      var aliases := AliasesIn(snapshot, group);
      forall k | k in AliasesIn(data, group) ensures k in aliases {
        KeptFields(env.wire, snapshot, data, k);
      }
      if |aliases| <= MAX_ALIASES {
        Smaller(AliasesIn(data, group) - Protected(snapshot, pins), aliases);
        return;
      }
      forall k | k in aliases ensures snapshot[k].id == k {
        assert SoundAt(env.wire, snapshot, k);
      }
      NewestFirstIsPreorder();
      var items := SortRecords(snapshot, aliases, NewestFirst);
      ManyItems(aliases, items);
      EvictFrom(snapshot, items, MAX_ALIASES);
      forall k | k in old(data) && k !in data ensures CrowdedOut(snapshot, k) {
        var j :| MAX_ALIASES <= j < |items| && items[j].id == k;
        SortedOut(snapshot, group, items, j);
      }
      ghost var kept := IdsOf(items[..MAX_ALIASES]);
      NewestAreKept(env.wire, pins, snapshot, old(data), data, aliases, items);
      forall k | k in AliasesIn(data, group) ensures k in aliases {
        KeptFields(env.wire, snapshot, data, k);
      }
      Smaller(AliasesIn(data, group) - Protected(snapshot, pins), kept);
    }

    method CapAliases()
      requires Valid()
      modifies this`data
      ensures Valid() && Pruned(env.wire, pins, old(data), data)
      ensures AliasesCapped(pins, data)
      ensures forall k | k in old(data) && k !in data :: old(data)[k].responseAlias
      ensures NewestKept(pins, old(data), data) && KeepsNewest(pins, old(data), data)
    {
      hide Materialize, Bound, Protected, Pruned, AliasesIn, AliasesCapped, EnvOk, CrowdedOut;
      var snapshot := data;
      var groups := set k | k in data && data[k].responseAlias :: GroupOf(data[k]);
      PrunedReflexive(env.wire, pins, data);
      var todo := groups;
      while todo != {}
        invariant todo <= groups
        invariant Valid() && Pruned(env.wire, pins, snapshot, data)
        invariant GroupsCapped(pins, snapshot, data, groups - todo)
        invariant NewestKept(pins, snapshot, data) && data.Keys <= snapshot.Keys
        invariant forall k | k in snapshot && k !in data ::
                    k !in Protected(snapshot, pins) && CrowdedOut(snapshot, k)
        decreases |todo|
      {
        var g :| g in todo;
        ghost var mid := data;
        CapGroup(snapshot, g);
        GroupsCappedMore(env.wire, pins, snapshot, mid, data, groups - todo, g);
        NewestKeptMore(pins, snapshot, mid, data, g);
        assert groups - todo + {g} == groups - (todo - {g});
        todo := todo - {g};
      }
      assert groups - todo == groups;
      AllGroupsCapped(env.wire, pins, snapshot, data, groups);
      NewestStay(env.wire, pins, snapshot, data);
    }

    method CapCount()
      requires Valid()
      modifies this`data
      ensures Valid() && Pruned(env.wire, pins, old(data), data)
      ensures CountCapped(pins, data)
      ensures InOrder(pins, old(data), data) && KeepsCount(pins, old(data), data)
      ensures |old(data)| <= MAX_STORED ==> data == old(data)
    {
      hide Materialize, Bound, Protected;
      ghost var before := data;
      PrunedReflexive(env.wire, pins, data);
      if |data| <= MAX_STORED {
        return;
      }
      var items := Expendable();
      var i := 0;
      while |data| > MAX_STORED && i < |items|
        invariant 0 <= i <= |items|
        invariant Valid() && Pruned(env.wire, pins, before, data)
        invariant GaveUp(pins, before, data, items, i) && |data| >= MAX_STORED
        decreases |items| - i
      {
        ghost var mid := data;
        GiveUp(before, items, i);
        OneLess(mid, data, items[i].id);
        i := i + 1;
      }
      PrunedProtects(env.wire, pins, before, data);
      GaveUpInOrder(pins, before, data, items, i);
      OldestAreGone(pins, before, data);
      AllGivenUp(env.wire, pins, before, data, items, i);
    }

    /** Every record, aliases before stable records and older before newer. */
    method Expendable() returns (items: seq<Conversation>)
      requires Valid()
      ensures SortedRecords(data, data.Keys, items, SoonerGone) && |items| == |data|
    {
      hide Materialize, Bound;
      SoonerGoneIsPreorder();
      forall k | k in data ensures data[k].id == k {
        assert SoundAt(env.wire, data, k);
      }
      items := SortRecords(data, data.Keys, SoonerGone);
      assert |data.Keys| == |data|;
    }

    method GiveUp(ghost before: Records, items: seq<Conversation>, i: nat)
      requires Valid() && Sound(env.wire, before) && Pruned(env.wire, pins, before, data)
      requires i < |items| && GaveUp(pins, before, data, items, i)
      modifies this`data
      ensures Valid() && Pruned(env.wire, pins, before, data)
      ensures GaveUp(pins, before, data, items, i + 1) && data.Keys <= old(data).Keys
      ensures old(data).Keys - data.Keys <= {items[i].id}
    {
      hide Materialize, Bound, Protected;
      ghost var mid := data;
      PrunedProtects(env.wire, pins, before, mid);
      Evict(items[i].id);
      PrunedTransitive(env.wire, pins, before, mid, data);
    }

    /** Gives up records until the serialised file fits. The running estimate only
        decides when to measure again. */
    method CapBytes() returns (encoded: Records)
      requires Valid()
      modifies this`data
      ensures Valid() && Pruned(env.wire, pins, old(data), data)
      ensures encoded == data
      ensures BytesCapped(env, pins, data) && KeepsBytes(env.fileSize, pins, old(data), data)
      ensures InOrder(pins, old(data), data)
      ensures env.fileSize(old(data)) <= MAX_STORE_BYTES ==> data == old(data)
    {
      hide Materialize, Bound, Protected, Shed, StillTooLarge, SortedRecords, BytesCapped, OldestGo, InOrder;
      ghost var before := data;
      PrunedReflexive(env.wire, pins, data);
      if env.fileSize(data) <= MAX_STORE_BYTES {
        NothingGone(env, pins, data);
        return data;
      }
      var items := Expendable();
      assert |data| == 0 ==> data == map[];
      var remaining: int := env.fileSize(data);
      var i := 0;
      ghost var protected := Protected(before, pins);
      ghost var measured, from := data, 0;
      NothingShed(env.fileSize, protected, items, 0);
      while i < |items|
        invariant 0 <= from <= i <= |items|
        invariant Valid() && Pruned(env.wire, pins, before, data)
        invariant GaveUp(pins, before, data, items, i) && GaveUp(pins, before, measured, items, from)
        invariant data.Keys <= measured.Keys
        invariant remaining == env.fileSize(measured) - Shed(env.fileSize, protected, items, from, i) > MAX_STORE_BYTES
        invariant i > 0 ==> Estimated(env.fileSize, protected, before, data, items, i - 1)
      {
        PrunedProtects(env.wire, pins, before, data);
        var pinned := PinnedDependency(items[i].id);
        GiveUp(before, items, i);
        StillLarge(env, pins, before, data, items, i, measured, from);
        ShedOne(env.fileSize, protected, items, from, i);
        i := i + 1;
        if !pinned {
          remaining := remaining - (env.fileSize(map[items[i - 1].id := items[i - 1]]) - 2);
          if remaining <= MAX_STORE_BYTES {
            if env.fileSize(data) <= MAX_STORE_BYTES {
              PrunedProtects(env.wire, pins, before, data);
              BytesKept(env, pins, before, data, items, i);
              return data;
            }
            remaining := env.fileSize(data);
            measured, from := data, i;
            NothingShed(env.fileSize, protected, items, i);
          }
          if |data| == 0 {
            assert data == map[];
            PrunedProtects(env.wire, pins, before, data);
            BytesKept(env, pins, before, data, items, i);
            return map[];
          }
        }
      }
      AllGivenUp(env.wire, pins, before, data, items, i);
      PrunedProtects(env.wire, pins, before, data);
      BytesKept(env, pins, before, data, items, i);
      return data;
    }

    method Prune(now: int) returns (encoded: Records)
      requires Valid()
      modifies this`data
      ensures Valid() && Pruned(env.wire, pins, old(data), data) && encoded == data
      ensures NoStale(pins, data, now) && AliasesCapped(pins, data)
      ensures CountCapped(pins, data) && BytesCapped(env, pins, data)
      ensures StableLast(pins, old(data), data, now) && Phases(env.fileSize, pins, old(data), data, now)
    {
      hide Materialize, Bound, Protected, DropsExpired, KeepsNewest, KeepsCount, KeepsBytes;
      ghost var a := data;
      DropStale(now);
      ghost var b := data;
      CapAliases();
      ghost var c := data;
      PrunedTransitive(env.wire, pins, a, b, c);
      CapCount();
      ghost var d := data;
      PrunedTransitive(env.wire, pins, a, c, d);
      encoded := CapBytes();
      PrunedTransitive(env.wire, pins, a, d, data);
      FewerStillCapped(env.wire, pins, b, c, now);
      FewerStillCapped(env.wire, pins, c, d, now);
      FewerStillCapped(env.wire, pins, d, data, now);
      Shrinks(env.wire, b, c);
      Shrinks(env.wire, c, d);
      Shrinks(env.wire, d, data);
      PhasesAreStableLast(env.wire, pins, a, b, c, d, data, now);
    }

    method NeedsStructuralPrune(now: int) returns (b: bool)
      ensures b <==> NeedsPrune(data, now)
    {
      hide Stale, NamedGroup, NamedAliases, Counted;
      if |data| > MAX_STORED {
        return true;
      }
      var aliases: map<string, nat> := map[];
      var todo := data.Keys;
      NothingCounted(data);
      while todo != {}
        invariant todo <= data.Keys
        invariant forall k | k in data.Keys - todo :: !Stale(k, data[k], now)
        invariant Tallies(data, aliases, todo)
        decreases |todo|
      {
        var k :| k in todo;
        var v := data[k];
        if Stale(k, v, now) {
          return true;
        }
        CountOne(data, todo, k);
        todo := todo - {k};
        if v.responseAlias {
          var group := NamedGroup(k, v);
          aliases := aliases[group := (if group in aliases then aliases[group] else 0) + 1];
          if aliases[group] > MAX_ALIASES {
            CountedSoFar(data, group, todo);
            return true;
          }
        }
      }
      forall g ensures |NamedAliases(data, g)| <= MAX_ALIASES {
        CountedAll(data, g);
      }
      return false;
    }

    // -------------------------------------------------------------- writing

    /** The file is replaced as a whole, or the write fails and it stays. */
    method WriteFile(encoded: Records, ok: bool) returns (err: Option<StoreError>)
      modifies this`disk
      ensures disk == if ok then encoded else old(disk)
      ensures err == if ok then None else Some(WriteFailed)
    {
      if !ok {
        return Some(WriteFailed);
      }
      disk := encoded;
      return None;
    }

    /** Prunes only when it must; then what the map was before pruning is returned. */
    method PreparePersist(now: int) returns (encoded: Records, beforePrune: Option<Records>)
      requires Valid()
      modifies this`data
      ensures Valid() && Pruned(env.wire, pins, old(data), data) && encoded == data
      ensures beforePrune == if NeedsPrune(old(data), now) || env.fileSize(old(data)) > MAX_STORE_BYTES
                             then Some(old(data)) else None
      ensures beforePrune.None? ==> data == old(data)
      ensures Tidy(env, pins, data, now) && Settled(env, pins, old(data), data, now)
    {
      hide Materialize, Bound, Protected, NeedsPrune, Phases, StableLast;
      var needed := NeedsStructuralPrune(now);
      if !needed && env.fileSize(data) <= MAX_STORE_BYTES {
        PrunedReflexive(env.wire, pins, data);
        NoPruneIsTidy(env, pins, data, now);
        return data, None;
      }
      beforePrune := Some(data);
      encoded := Prune(now);
    }

    /** Prunes if needed and writes; a failed write puts back whatever pruning took. */
    method Persist(now: int, ok: bool) returns (err: Option<StoreError>)
      requires Valid()
      modifies this`data, this`disk
      ensures Valid()
      ensures err == if ok then None else Some(WriteFailed)
      ensures !ok ==> data == old(data) && disk == old(disk)
      ensures ok ==> disk == data && Pruned(env.wire, pins, old(data), data) && Tidy(env, pins, data, now)
      ensures ok ==> Settled(env, pins, old(data), data, now)
    {
      hide Materialize, Bound, Protected, Tidy, NeedsPrune, Settled;
      var encoded, beforePrune := PreparePersist(now);
      err := WriteFile(encoded, ok);
      if err.Some? && beforePrune.Some? {
        data := beforePrune.value;
      }
    }

    // ------------------------------------------------------------- upserts

    /** Files a record, whether a binding, a full copy or a link of the caller's own, as
        long as the forest is sound with it. */
    method UpsertLocked(v: Conversation, freshID: string, now: int, ok: bool)
      returns (stored: Option<Conversation>, err: Option<StoreError>)
      requires Valid() && freshID != ""
      requires var filed := v.(id := if v.id == "" then freshID else v.id);
               Sound(env.wire, data[filed.id := Upserted(env, data, filed, now)])
      modifies this`data, this`disk
      ensures Valid()
      ensures var filed := v.(id := if v.id == "" then freshID else v.id);
              var unpruned := old(data)[filed.id := Upserted(env, old(data), filed, now)];
              if Text.ByteLength(filed.id) > MAX_KEY_LENGTH then
                err == Some(InvalidKey) && data == old(data) && disk == old(disk)
              else if !ok then err == Some(WriteFailed) && data == old(data) && disk == old(disk)
              else err == None && disk == data && Pruned(env.wire, pins, unpruned, data) && Tidy(env, pins, data, now)
                   && Settled(env, pins, unpruned, data, now)
      ensures var id := if v.id == "" then freshID else v.id;
              && (stored.Some? <==> err.None? && id in data && Read(env.wire, data, id).History?)
              && (stored.Some? ==> stored.value == data[id].(portableMessages := HistoryOf(env.wire, data, id)))
    {
      hide Materialize, Bound, Protected, Upserted, Tidy, Pruned, Sound, NeedsPrune, Settled;
      var filed := if v.id == "" then v.(id := freshID) else v;
      if Text.ByteLength(filed.id) > MAX_KEY_LENGTH {
        return None, Some(InvalidKey);
      }
      ghost var before := data;
      var existed := filed.id in data;
      var previous := if existed then Some(data[filed.id]) else None;
      data := data[filed.id := Upserted(env, data, filed, now)];
      err := Persist(now, ok);
      if err.Some? {
        RestoreConversation(filed.id, previous);
        assert data == before;
        return None, err;
      }
      stored := Materialized(filed.id);
    }

    method RestoreConversation(id: string, value: Option<Conversation>)
      modifies this`data
      ensures data == if value.Some? then old(data)[id := value.value] else old(data) - {id}
    {
      if value.Some? {
        data := data[id := value.value];
      } else {
        data := data - {id};
      }
    }

    /** Files a binding unless it is stale. Nobody's reading changes, and either the
        write succeeds and memory equals the file, or neither has changed. */
    method UpsertBinding(v: Conversation, authoritative: bool, freshID: string, now: int, ok: bool)
      returns (applied: bool, err: Option<StoreError>)
      requires Valid() && !HasPortableState(v) && freshID != ""
      requires var id := if v.id == "" then freshID else v.id; v.responseAlias || NobodysParent(data, id)
      modifies this`data, this`disk
      ensures Valid()
      ensures applied <==>
              && (v.id !in old(data) || old(data)[v.id].routeGeneration < v.routeGeneration
                  || (old(data)[v.id].routeGeneration == v.routeGeneration
                      && (authoritative || old(data)[v.id].accountID in {"", v.accountID})))
              && Text.ByteLength(if v.id == "" then freshID else v.id) <= 256 && ok
      ensures !applied ==> data == old(data) && disk == old(disk)
      ensures err == if applied || StaleBinding(old(data), v, authoritative) then None
                     else if Text.ByteLength(if v.id == "" then freshID else v.id) > 256 then Some(InvalidKey)
                     else Some(WriteFailed)
      ensures applied ==> disk == data && Tidy(env, pins, data, now)
      ensures applied ==> var filed := v.(id := if v.id == "" then freshID else v.id);
                Settled(env, pins, old(data)[filed.id := Upserted(env, old(data), filed, now)], data, now)
      ensures applied ==> forall k | k in data && k in old(data) ::
                Read(env.wire, data, k) == Read(env.wire, old(data), k)
      ensures applied && v.id != "" && v.id in data ==>
                && data[v.id].accountID == v.accountID && data[v.id].routeGeneration == v.routeGeneration
                && data[v.id].conversationID == v.conversationID && data[v.id].sessionID == v.sessionID
                && data[v.id].responseAlias == v.responseAlias && data[v.id].updatedAt == now
      ensures applied && v.id != "" ==> forall k | k in data && k != v.id ::
                k in old(data) && data[k].accountID == old(data)[k].accountID
                && data[k].routeGeneration == old(data)[k].routeGeneration
    {
      hide Materialize, Bound, Protected, Tidy, Sound, Settled;
      if StaleBinding(data, v, authoritative) {
        return false, None;
      }
      ghost var before := data;
      BindingSoundIff(env, data, v.(id := if v.id == "" then freshID else v.id), now);
      var stored;
      stored, err := UpsertLocked(v, freshID, now, ok);
      applied := err.None?;
      if applied {
        ghost var filed := v.(id := if v.id == "" then freshID else v.id);
        ghost var unpruned := before[filed.id := Upserted(env, before, filed, now)];
        BindingReads(env, before, filed, now);
        forall k | k in data
          ensures k in unpruned && data[k].accountID == unpruned[k].accountID
          ensures data[k].routeGeneration == unpruned[k].routeGeneration
          ensures data[k].conversationID == unpruned[k].conversationID && data[k].sessionID == unpruned[k].sessionID
          ensures data[k].responseAlias == unpruned[k].responseAlias && data[k].updatedAt == unpruned[k].updatedAt
          ensures k in before ==> Read(env.wire, data, k) == Read(env.wire, before, k)
        {
          assert KeptAt(env.wire, unpruned, data, k);
          if k in before {
            SoundReads(env.wire, before, k);
            RebaseReads(env.wire, unpruned, data, k);
          }
        }
      }
    }

    // -------------------------------------------------------------- commits

    /** Appends a turn under an immutable target, and moves a stable head to it when
        asked. Refused or failed commits change nothing, in memory or on disk. After
        a successful one, the target and the advanced head, where they survive the
        pruning, read the committed transcript, and every other surviving record
        reads what it read before. */
    method CommitResponse(t: Turn, ok: bool) returns (err: Option<StoreError>)
      requires Valid()
      requires CommitRefusal(data, t).None? ==> Commits(env.wire, data, t)
      modifies this`data, this`disk
      ensures Valid()
      ensures err == if CommitRefusal(old(data), t).Some? then CommitRefusal(old(data), t)
                     else if ok then None else Some(WriteFailed)
      ensures err.Some? ==> data == old(data) && disk == old(disk)
      ensures err.None? ==> disk == data && Tidy(env, pins, data, t.now)
      ensures err.None? ==> Pruned(env.wire, pins, Committed(env.wire, old(data), t), data)
      ensures err.None? ==> Settled(env, pins, Committed(env.wire, old(data), t), data, t.now)
      ensures err.None? ==> forall k | k in data ::
                Read(env.wire, data, k) ==
                if Overwritten(t, k) then History(CommittedHistory(env.wire, old(data), t))
                else Read(env.wire, old(data), k)
    {
      hide Materialize, Bound, Protected, Tidy, Sound, Merge, Transit, Committed, CommittedHistory, RebaseOf, Settled;
      if CommitRefusal(data, t).Some? {
        return CommitRefusal(data, t);
      }
      ghost var before := data;
      var sourceExists, targetExists := t.source in data, t.target in data;
      var previousSource := if sourceExists then Some(data[t.source]) else None;
      var previousTarget := if targetExists then Some(data[t.target]) else None;
      FileTurn(t);
      CommitReads(env.wire, before, t);
      err := Persist(t.now, ok);
      if err.Some? {
        RestoreConversation(t.target, previousTarget);
        if t.source != t.target {
          RestoreConversation(t.source, previousSource);
        }
        CommitUndone(env.wire, before, t);
        return;
      }
      CommitSurvivors(env.wire, before, t, data);
    }

    /** Files the target, and the head that is moved to it. */
    method FileTurn(t: Turn)
      requires Valid() && CommitRefusal(data, t).None?
      modifies this`data
      ensures data == Committed(env.wire, old(data), t)
    {
      hide Materialize, Bound, Sound, CommittedTarget;
      var target := BuildTarget(t);
      var createdAt := if t.source in data && data[t.source].createdAt != 0 then data[t.source].createdAt
                       else target.createdAt;
      data := data[t.target := target];
      if Advances(t) {
        data := data[t.source := target.(id := t.source, aliasGroup := t.source, responseAlias := false,
          portableMessages := [], historyParent := t.target, historyDrop := 0, portableDelta := [],
          createdAt := createdAt)];
      }
    }

    /** The target record: its transcript, encoded as a transition from an immutable
        parent when the source offers one. */
    method BuildTarget(t: Turn) returns (target: Conversation)
      requires Valid() && CommitRefusal(data, t).None?
      ensures target == CommittedTarget(env.wire, data, t)
    {
      hide Materialize, Bound, Sound;
      var sourceExists := t.source in data;
      target := TargetBase(data, t);
      var sourceHistory := [];
      if sourceExists {
        SoundReads(env.wire, data, t.source);
        sourceHistory := Read(env.wire, data, t.source).messages;
      } else {
        UnfiledReads(env.wire, data, t.source);
      }
      var history := sourceHistory;
      if t.target in data {
        SoundReads(env.wire, data, t.target);
        var targetHistory := Read(env.wire, data, t.target).messages;
        if t.source == t.target {
          history := targetHistory;
        } else {
          history := MergePortableMessages(env.wire, history, targetHistory);
        }
      }
      history := MergePortableMessages(env.wire, history, t.request);
      history := BoundedPortableMessages(env.wire, history + [t.assistant]);
      target := target.(updatedAt := t.now);
      if t.target != t.source {
        target := target.(responseAlias := true,
          aliasGroup := if sourceExists
                        then FirstNonEmpty(data[t.source].aliasGroup, data[t.source].id, t.source) else t.source);
      } else if target.aliasGroup == "" {
        target := target.(aliasGroup := t.target);
      }
      var parent := "";
      if sourceExists && t.source != t.target {
        var source := data[t.source];
        if source.responseAlias {
          parent := t.source;
        } else if LightHead(source) {
          parent := source.historyParent;
        }
      }
      if parent == "" {
        target := AsRoot(target, history);
      } else {
        if !data[t.source].responseAlias {
          SoundParent(env.wire, data, t.source);
        }
        SoundReads(env.wire, data, parent);
        var parentHistory := Read(env.wire, data, parent).messages;
        var drop, delta := PortableTransition(env.wire, parentHistory, history);
        target := target.(portableMessages := [], historyParent := parent, historyDrop := drop, portableDelta := delta);
      }
    }

    // ------------------------------------------------------------- removals

    method Delete(id: string, ok: bool) returns (removed: bool, err: Option<StoreError>)
      requires Valid()
      modifies this`data, this`disk
      ensures Valid()
      ensures removed <==> id in old(data) && ok
      ensures err.Some? <==> id in old(data) && !ok
      ensures !removed ==> data == old(data) && disk == old(disk)
      ensures removed ==> disk == data && data == Without(env.wire, old(data), {id})
      ensures forall k | k in data :: k in old(data) && Read(env.wire, data, k) == Read(env.wire, old(data), k)
    {
      hide Materialize, Bound;
      if id !in data {
        return false, None;
      }
      var previous := data;
      forall k | k in data ensures Read(env.wire, data, k).History? {
        assert SoundAt(env.wire, data, k);
      }
      var broken := DeleteWithRebase(id);
      WithoutReads(env.wire, previous, {id});
      err := WriteFile(data, ok);
      if err.Some? {
        data := previous;
        return false, err;
      }
      return true, None;
    }

    /** Takes a set of records out, their surviving children becoming roots first. */
    method RebaseAway(gone: set<string>)
      requires Valid()
      modifies this`data
      ensures data == Without(env.wire, old(data), gone)
    {
      hide Materialize, Bound, HalfRebased, Sound, Without;
      ghost var before := data;
      HalfStart(env.wire, data);
      var todo := data.Keys;
      while todo != {}
        invariant todo <= before.Keys
        invariant data.Keys == before.Keys && HalfRebased(env.wire, before, data)
        invariant forall k | k in todo :: data[k] == before[k]
        invariant forall k | k in before && k !in todo :: data[k] == RebasedRecord(env.wire, before, gone, k)
        decreases |todo|
      {
        var child :| child in todo;
        todo := todo - {child};
        if child !in gone && data[child].historyParent in gone {
          SoundReads(env.wire, before, child);
          HalfRebasedReads(env.wire, before, data, child);
          HalfStep(env.wire, before, data, child);
          data := data[child := AsRoot(data[child], Read(env.wire, data, child).messages)];
        }
      }
      RebasedIsWithout(env.wire, before, data, gone);
      data := data - gone;
    }

    /** Removes every record bound to an account; what the others read is unchanged. */
    method DeleteByAccount(accountID: string, ok: bool) returns (removed: nat, err: Option<StoreError>)
      requires Valid()
      modifies this`data, this`disk
      ensures Valid()
      ensures var mine := set k | k in old(data) && old(data)[k].accountID == accountID;
              if mine == {} then removed == 0 && err == None && data == old(data) && disk == old(disk)
              else if !ok then removed == 0 && err == Some(WriteFailed) && data == old(data) && disk == old(disk)
              else removed == |mine| && err == None && disk == data && data == Without(env.wire, old(data), mine)
      ensures forall k | k in data :: k in old(data) && Read(env.wire, data, k) == Read(env.wire, old(data), k)
    {
      hide Materialize, Bound;
      var previous := data;
      var mine := set k | k in data && data[k].accountID == accountID;
      if mine == {} {
        return 0, None;
      }
      RebaseAway(mine);
      WithoutReads(env.wire, previous, mine);
      err := WriteFile(data, ok);
      if err.Some? {
        data := previous;
        return 0, err;
      }
      return |mine|, None;
    }

    /** The earliest created alias among some records, if any. */
    method EarliestAlias(members: set<string>) returns (base: string)
      requires members <= data.Keys
      ensures base != "" ==> base in members && data[base].responseAlias
      ensures base == "" ==> forall m | m in members :: !data[m].responseAlias || m == ""
      ensures base != "" ==> forall m | m in members && data[m].responseAlias && m != "" ::
                m == base || CreatedBefore(data, base, m)
    {
      hide LexLess;
      base := "";
      var todo := members;
      while todo != {}
        invariant todo <= members
        invariant base != "" ==> base in members && data[base].responseAlias
        invariant base == "" ==> forall m | m in members - todo :: !data[m].responseAlias || m == ""
        invariant base != "" ==> forall m | m in members - todo && data[m].responseAlias && m != "" ::
                    m == base || CreatedBefore(data, base, m)
        decreases |todo|
      {
        var m :| m in todo;
        todo := todo - {m};
        if m != "" && data[m].responseAlias {
          if base == "" || CreatedBefore(data, m, base) {
            EarlierStill(data, m, base);
            base := m;
          } else {
            LexTotal(m, base);
          }
        }
      }
    }

    method CompactOneGroup(group: string)
      requires Valid()
      modifies this`data
      ensures Valid() && data.Keys == old(data).Keys
      ensures forall k | k in data :: Read(env.wire, data, k) == Read(env.wire, old(data), k)
      ensures CompactedGroup(old(data), data, group)
      ensures forall k | k in data && k !in Members(old(data), group) :: data[k] == old(data)[k]
      ensures forall k | k in data :: NamedGroup(k, data[k]) == NamedGroup(k, old(data)[k])
    {
      hide Materialize, Bound, Transit, NamedGroup;
      ghost var before := data;
      var members := Members(data, group);
      if |members| < 2 || exists m | m in members :: Structured(data[m]) {
        return;
      }
      var base := EarliestAlias(members);
      if base == "" {
        return;
      }
      CompactReads(env.wire, data, members, base);
      data := CompactGroup(env.wire, data, members, base);
      forall k | k in data ensures NamedGroup(k, data[k]) == NamedGroup(k, before[k]) {
        SameGroup(k, data[k], before[k]);
      }
      forall m | m in members { LexLessIs(base, m); }
      assert BuiltAround(before, data, members, base);
    }

    /** Rebuilds every legacy group that holds full copies; nobody's reading changes. */
    method CompactLegacyPortableCopies()
      requires Valid()
      modifies this`data
      ensures Valid() && data.Keys == old(data).Keys
      ensures forall k | k in data :: Read(env.wire, data, k) == Read(env.wire, old(data), k)
      ensures forall g :: CompactedGroup(old(data), data, g)
    {
      hide Materialize, Bound, NamedGroup, Structured, Sound, CompactedGroup, Read, EnvOk, Compacting;
      ghost var before := data;
      var groups := set k | k in data :: NamedGroup(k, data[k]);
      var todo := groups;
      CompactingStart(env.wire, data, groups);
      while todo != {}
        invariant todo <= groups && Valid()
        invariant Compacting(env.wire, before, data, groups, todo)
        decreases |todo|
      {
        var g :| g in todo;
        ghost var mid := data;
        CompactOneGroup(g);
        CompactingMore(env.wire, before, mid, data, groups, todo, g);
        todo := todo - {g};
      }
      AllCompacted(env.wire, before, data, groups);
    }

    method PruneNow(now: int, ok: bool) returns (err: Option<StoreError>)
      requires Valid()
      modifies this`data, this`disk
      ensures Valid()
      ensures err == if ok then None else Some(WriteFailed)
      ensures !ok ==> data == old(data) && disk == old(disk)
      ensures ok ==> disk == data && Pruned(env.wire, pins, old(data), data)
                     && NoStale(pins, data, now) && AliasesCapped(pins, data)
                     && CountCapped(pins, data) && BytesCapped(env, pins, data)
                     && Phases(env.fileSize, pins, old(data), data, now)
    {
      hide Phases;
      var previous := data;
      var encoded := Prune(now);
      err := WriteFile(encoded, ok);
      if err.Some? {
        data := previous;
      }
    }
  }

  lemma HalfStart(w: Wire, data: Records)
    ensures HalfRebased(w, data, data)
  {
  }

  lemma HalfStep(w: Wire, before: Records, mid: Records, child: string)
    requires HalfRebased(w, before, mid) && child in mid && mid[child] == before[child]
    requires Read(w, before, child).History? && Read(w, mid, child) == Read(w, before, child)
    ensures HalfRebased(w, before, mid[child := AsRoot(mid[child], Read(w, mid, child).messages)])
  {
    hide Materialize;
    var after := mid[child := AsRoot(mid[child], Read(w, mid, child).messages)];
    forall k ensures HalfKeptAt(w, before, after, k) {
      assert HalfKeptAt(w, before, mid, k);
    }
  }

  /** A record of a forest that is about to lose a set of records. */
  function RebasedRecord(w: Wire, data: Records, gone: set<string>, k: string): Conversation
    requires k in data
  {
    if k !in gone && data[k].historyParent in gone then AsRoot(data[k], HistoryOf(w, data, k)) else data[k]
  }

  /** A record of a map that is about to lose one record. */
  function RebasedChild(w: Wire, data: Records, id: string, k: string): Conversation
    requires k in data
  {
    if data[k].historyParent == id then AsRoot(data[k], HistoryOf(w, data, k)) else data[k]
  }

  lemma ChildrenIsWithout(w: Wire, before: Records, after: Records, id: string)
    requires after.Keys == before.Keys
    requires forall k | k in before :: after[k] == RebasedChild(w, before, id, k)
    ensures after - {id} == Without(w, before, {id})
  {
  }

  lemma RebasedIsWithout(w: Wire, before: Records, after: Records, gone: set<string>)
    requires after.Keys == before.Keys
    requires forall k | k in before :: after[k] == RebasedRecord(w, before, gone, k)
    ensures after - gone == Without(w, before, gone)
  {
    hide Materialize;
    forall k ensures (k in after - gone <==> k in Without(w, before, gone))
                     && (k in after - gone ==> (after - gone)[k] == Without(w, before, gone)[k])
    {
    }
  }

  lemma SameGroup(k: string, a: Conversation, b: Conversation)
    requires a.aliasGroup == b.aliasGroup && a.id == b.id
    ensures NamedGroup(k, a) == NamedGroup(k, b)
  {
  }

  lemma NoMembers(before: Records, after: Records, g: string)
    requires Members(before, g) == {}
    ensures CompactedGroup(before, after, g)
  {
  }

  /** The groups that are dealt with are compacted, the others untouched, and every
      record is filed and reads as before. */
  ghost predicate Compacting(w: Wire, before: Records, data: Records, groups: set<string>, todo: set<string>) {
    && data.Keys == before.Keys
    && (forall k | k in data :: Read(w, data, k) == Read(w, before, k))
    && (forall k | k in data :: NamedGroup(k, data[k]) == NamedGroup(k, before[k]))
    && (forall k | k in data && NamedGroup(k, before[k]) in todo :: data[k] == before[k])
    && (forall g | g in groups - todo :: CompactedGroup(before, data, g))
  }

  lemma CompactingStart(w: Wire, data: Records, groups: set<string>)
    ensures Compacting(w, data, data, groups, groups)
  {
  }

  lemma CompactingMore(w: Wire, before: Records, mid: Records, after: Records,
                       groups: set<string>, todo: set<string>, g: string)
    requires Compacting(w, before, mid, groups, todo) && g in todo && after.Keys == mid.Keys
    requires forall k | k in after :: Read(w, after, k) == Read(w, mid, k)
    requires CompactedGroup(mid, after, g)
    requires forall k | k in after && k !in Members(mid, g) :: after[k] == mid[k]
    requires forall k | k in after :: NamedGroup(k, after[k]) == NamedGroup(k, mid[k])
    ensures Compacting(w, before, after, groups, todo - {g})
  {
    hide NamedGroup, Read, CompactedGroup;
    SameMembers(before, mid, after, g);
    forall h | h in groups - (todo - {g}) ensures CompactedGroup(before, after, h) {
      if h != g {
        OtherMembers(before, mid, after, g, h);
      }
    }
  }

  lemma AllCompacted(w: Wire, before: Records, data: Records, groups: set<string>)
    requires Compacting(w, before, data, groups, {})
    requires forall k | k in before :: NamedGroup(k, before[k]) in groups
    ensures data.Keys == before.Keys && forall k | k in data :: Read(w, data, k) == Read(w, before, k)
    ensures forall g :: CompactedGroup(before, data, g)
  {
    hide NamedGroup, Read, CompactedGroup;
    assert groups - {} == groups;
    forall g ensures CompactedGroup(before, data, g) {
      if g !in groups {
        NoMembers(before, data, g);
      }
    }
  }

  lemma SameRecords(before: Records, mid: Records, members: set<string>)
    requires members <= before.Keys && members <= mid.Keys && forall m | m in members :: mid[m] == before[m]
    ensures LeftAlone(before, members) <==> LeftAlone(mid, members)
  {
    hide Structured;
  }

  lemma BuiltAlike(a: Records, b: Records, after: Records, other: Records, members: set<string>, base: string)
    requires members <= a.Keys && members <= b.Keys && members <= after.Keys && members <= other.Keys
    requires forall m | m in members :: a[m] == b[m] && after[m] == other[m]
    requires BuiltAround(b, other, members, base)
    ensures BuiltAround(a, after, members, base)
  {
  }

  /** A group untouched so far is compacted from the start once its turn is over. */
  lemma SameMembers(before: Records, mid: Records, after: Records, g: string)
    requires before.Keys == mid.Keys == after.Keys
    requires forall k | k in mid :: NamedGroup(k, mid[k]) == NamedGroup(k, before[k])
    requires forall k | k in mid && NamedGroup(k, before[k]) == g :: mid[k] == before[k]
    requires CompactedGroup(mid, after, g)
    ensures CompactedGroup(before, after, g)
  {
    hide NamedGroup, BuiltAround, LeftAlone;
    assert Members(before, g) == Members(mid, g);
    SameRecords(before, mid, Members(before, g));
    if !LeftAlone(before, Members(before, g)) {
      var base :| BuiltAround(mid, after, Members(mid, g), base);
      BuiltAlike(before, mid, after, after, Members(before, g), base);
    }
  }

  /** Compacting one group leaves what was done to another as it is. */
  lemma OtherMembers(before: Records, mid: Records, after: Records, g: string, h: string)
    requires before.Keys == mid.Keys == after.Keys && g != h
    requires forall k | k in mid :: NamedGroup(k, mid[k]) == NamedGroup(k, before[k])
    requires forall k | k in after && k !in Members(mid, g) :: after[k] == mid[k]
    requires CompactedGroup(before, mid, h)
    ensures CompactedGroup(before, after, h)
  {
    hide NamedGroup, BuiltAround, LeftAlone;
    forall m | m in Members(before, h) ensures after[m] == mid[m] {
      assert m !in Members(mid, g);
    }
    if !LeftAlone(before, Members(before, h)) {
      var base :| BuiltAround(before, mid, Members(before, h), base);
      BuiltAlike(before, before, after, mid, Members(before, h), base);
    }
  }

  lemma SoundReads(w: Wire, data: Records, k: string)
    requires Sound(w, data) && k in data
    ensures Read(w, data, k).History?
  {
    assert SoundAt(w, data, k);
  }

  lemma UnfiledReads(w: Wire, data: Records, k: string)
    requires k !in data
    ensures HistoryOf(w, data, k) == []
  {
  }

  lemma SoundParent(w: Wire, data: Records, k: string)
    requires Sound(w, data) && k in data && data[k].historyParent != ""
    ensures data[k].historyParent in data
  {
    assert SoundAt(w, data, k);
  }

  lemma Shrinks(w: Wire, before: Records, after: Records)
    requires RebaseOf(w, before, after)
    ensures after.Keys <= before.Keys
  {
    forall k | k in after ensures k in before {
      assert KeptAt(w, before, after, k);
    }
  }

  /** The named aliases of a group that are no longer to do. */
  ghost function Counted(data: Records, group: string, todo: set<string>): nat {
    |NamedAliases(data, group) - todo|
  }

  /** The tallies are those of the records dealt with, and within the cap. */
  ghost predicate Tallies(data: Records, aliases: map<string, nat>, todo: set<string>) {
    forall g :: Counted(data, g, todo) == (if g in aliases then aliases[g] else 0) <= MAX_ALIASES
  }

  lemma CountedSoFar(data: Records, group: string, todo: set<string>)
    ensures Counted(data, group, todo) <= |NamedAliases(data, group)|
  {
    Smaller(NamedAliases(data, group) - todo, NamedAliases(data, group));
  }

  lemma CountedAll(data: Records, group: string)
    ensures Counted(data, group, {}) == |NamedAliases(data, group)|
  {
    assert NamedAliases(data, group) - {} == NamedAliases(data, group);
  }

  lemma NothingCounted(data: Records)
    ensures forall g :: Counted(data, g, data.Keys) == 0
  {
    forall g ensures Counted(data, g, data.Keys) == 0 {
      assert NamedAliases(data, g) - data.Keys == {};
    }
  }

  lemma CountOne(data: Records, todo: set<string>, k: string)
    requires todo <= data.Keys && k in todo
    ensures forall g :: Counted(data, g, todo - {k}) ==
                        Counted(data, g, todo) + if data[k].responseAlias && g == NamedGroup(k, data[k]) then 1 else 0
  {
    forall g ensures Counted(data, g, todo - {k}) ==
                     Counted(data, g, todo) + if data[k].responseAlias && g == NamedGroup(k, data[k]) then 1 else 0
    {
      var more, less := NamedAliases(data, g) - (todo - {k}), NamedAliases(data, g) - todo;
      if k in NamedAliases(data, g) {
        assert more == less + {k};
      } else {
        assert more == less;
      }
    }
  }

  lemma CommittedKeys(w: Wire, data: Records, t: Turn)
    requires CommitRefusal(data, t).None?
    ensures forall k | !Overwritten(t, k) ::
              (k in Committed(w, data, t) <==> k in data) && (k in data ==> Committed(w, data, t)[k] == data[k])
  {
    hide CommittedTarget, AdvancedHead;
  }

  function Restored(data: Records, before: Records, id: string): Records {
    if id in before then data[id := before[id]] else data - {id}
  }

  /** Putting back the target and the source undoes a commit. */
  lemma CommitUndone(w: Wire, before: Records, t: Turn)
    requires CommitRefusal(before, t).None?
    ensures var once := Restored(Committed(w, before, t), before, t.target);
            (if t.source != t.target then Restored(once, before, t.source) else once) == before
  {
    hide Committed;
    CommittedKeys(w, before, t);
    var once := Restored(Committed(w, before, t), before, t.target);
    var twice := if t.source != t.target then Restored(once, before, t.source) else once;
    forall k ensures (k in twice <==> k in before) && (k in before ==> twice[k] == before[k]) {
      assert k == t.target || k == t.source || !Overwritten(t, k);
    }
  }

  lemma CommitSurvivors(w: Wire, before: Records, t: Turn, after: Records)
    requires Commits(w, before, t) && RebaseOf(w, Committed(w, before, t), after)
    ensures forall k | k in after ::
              Read(w, after, k) ==
              if Overwritten(t, k) then History(CommittedHistory(w, before, t)) else Read(w, before, k)
  {
    hide Materialize, Bound, CommittedHistory, Transit, Merge;
    var mid := Committed(w, before, t);
    CommitReads(w, before, t);
    forall k | k in after
      ensures Read(w, after, k) ==
              if Overwritten(t, k) then History(CommittedHistory(w, before, t)) else Read(w, before, k)
    {
      assert KeptAt(w, mid, after, k) && SoundAt(w, mid, k);
      RebaseReads(w, mid, after, k);
    }
  }

  lemma AllGivenUp(w: Wire, pins: Pins, before: Records, after: Records, items: seq<Conversation>, n: nat)
    requires RebaseOf(w, before, after)
    requires n <= |items| && SortedRecords(before, before.Keys, items, SoonerGone)
    requires GaveUp(pins, before, after, items, n)
    ensures n == |items| ==> after.Keys <= Protected(before, pins)
  {
    hide Protected;
    if n == |items| {
      forall k | k in after ensures k in Protected(before, pins) {
        assert KeptAt(w, before, after, k);
        var j :| 0 <= j < |items| && items[j].id == k;
      }
    }
  }

  lemma ManyItems(keys: set<string>, items: seq<Conversation>)
    requires Covers(keys, items)
    ensures |keys| <= |items|
  {
    Smaller(keys, IdsOf(items));
  }
}
