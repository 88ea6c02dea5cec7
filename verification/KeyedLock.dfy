/**
 The ref-counted lock per stable session key. Counting in, trying the mutex, unlocking
 and counting out are separate steps, and steps of different threads interleave freely.
 */
module KeyedLock {

  datatype Entry = Entry(held: bool, refs: nat)

  /** Where a thread is between its steps; a thread that is not listed is outside. */
  datatype Stage =
    | Counted(key: string, entry: nat)
    | Holding(key: string, entry: nat)
    | Losing(key: string, entry: nat)
    | Leaving(key: string, entry: nat)

  /** The table from keys to entries; an entry lives on for threads that still point to
      it, even if the table should have dropped it. */
  datatype World = World(table: map<string, nat>, entries: map<nat, Entry>, threads: map<nat, Stage>)

  // ------------------------------------------------------------------ the steps

  ghost predicate CountsIn(w: World, w': World, th: nat, key: string, spare: nat) {
    && th !in w.threads && spare !in w.entries
    && var e := if key in w.table then w.table[key] else spare;
    && (key in w.table ==> e in w.entries)
    && var refs := if key in w.table then w.entries[e].refs else 0;
    var held := key in w.table && w.entries[e].held;
    w' == World(w.table[key := e], w.entries[e := Entry(held, refs + 1)], w.threads[th := Counted(key, e)])
  }

  /** TryLock: it never waits. */
  ghost predicate Tries(w: World, w': World, th: nat) {
    && th in w.threads && w.threads[th].Counted? && w.threads[th].entry in w.entries
    && var s := w.threads[th];
    if w.entries[s.entry].held then
      w' == w.(threads := w.threads[th := Losing(s.key, s.entry)])
    else
      w' == w.(threads := w.threads[th := Holding(s.key, s.entry)],
               entries := w.entries[s.entry := w.entries[s.entry].(held := true)])
  }

  ghost predicate Unlocks(w: World, w': World, th: nat) {
    && th in w.threads && w.threads[th].Holding? && w.threads[th].entry in w.entries
    && var s := w.threads[th];
    w' == w.(threads := w.threads[th := Leaving(s.key, s.entry)],
             entries := w.entries[s.entry := w.entries[s.entry].(held := false)])
  }

  ghost predicate CountsOut(w: World, w': World, th: nat) {
    && th in w.threads && (w.threads[th].Losing? || w.threads[th].Leaving?) && w.threads[th].entry in w.entries
    && var s := w.threads[th];
    && w.entries[s.entry].refs > 0
    && var left := w.entries[s.entry].refs - 1;
    w' == World(if left == 0 then w.table - {s.key} else w.table,
                w.entries[s.entry := w.entries[s.entry].(refs := left)], w.threads - {th})
  }

  ghost predicate Steps(w: World, w': World, th: nat) {
    || (exists key, spare :: CountsIn(w, w', th, key, spare))
    || Tries(w, w', th)
    || Unlocks(w, w', th)
    || CountsOut(w, w', th)
  }

  ghost predicate Next(w: World, w': World) {
    exists th :: Steps(w, w', th)
  }

  // --------------------------------------------------------------- the invariant

  /** The threads between counting in and counting out for a key. */
  ghost function Users(w: World, key: string): set<nat> {
    set th | th in w.threads && w.threads[th].key == key
  }

  /** Whoever is counted in points to the entry that the table has for its key. */
  ghost predicate Pointed(w: World) {
    && (forall th | th in w.threads ::
          var s := w.threads[th]; s.key in w.table && w.table[s.key] == s.entry)
    && (forall key | key in w.table :: w.table[key] in w.entries)
    && (forall k1, k2 | k1 in w.table && k2 in w.table && k1 != k2 :: w.table[k1] != w.table[k2])
  }

  /** The count is the number of threads counted in, and the table lists just the keys
      that have some. */
  ghost predicate Counts(w: World)
    requires Pointed(w)
  {
    forall key :: CountsAt(w, key)
  }

  ghost predicate CountsAt(w: World, key: string)
    requires Pointed(w)
  {
    if key in w.table then w.entries[w.table[key]].refs == |Users(w, key)| > 0 else Users(w, key) == {}
  }

  /** A mutex is held exactly while one thread holds it. */
  ghost predicate Exclusive(w: World)
    requires Pointed(w)
  {
    && (forall key, t1, t2 | Holder(w, t1, key) && Holder(w, t2, key) :: t1 == t2)
    && (forall key | key in w.table :: w.entries[w.table[key]].held <==> exists th :: Holder(w, th, key))
  }

  ghost predicate Holder(w: World, th: nat, key: string) {
    th in w.threads && w.threads[th].Holding? && w.threads[th].key == key
  }

  /** An entry that is counted or held has a place in the table. */
  ghost predicate Listed(w: World) {
    forall e | e in w.entries && (w.entries[e].refs > 0 || w.entries[e].held) :: Place(w, e)
  }

  ghost predicate Place(w: World, e: nat) {
    exists key :: key in w.table && w.table[key] == e
  }

  ghost predicate Inv(w: World) {
    Pointed(w) && Counts(w) && Exclusive(w) && Listed(w)
  }

  lemma ListedAfter(w: World, w': World, th: nat)
    requires Pointed(w) && Listed(w)
    requires (exists key, spare :: CountsIn(w, w', th, key, spare)) || Tries(w, w', th) || Unlocks(w, w', th)
    ensures Listed(w')
  {
    assert Place(w', w'.threads[th].entry) by {
      assert w'.threads[th].key in w'.table && w'.table[w'.threads[th].key] == w'.threads[th].entry;
    }
    forall e | e in w'.entries && (w'.entries[e].refs > 0 || w'.entries[e].held) ensures Place(w', e) {
      if Place(w, e) {
        var key :| key in w.table && w.table[key] == e;
        assert key in w'.table && w'.table[key] == e;
      }
    }
  }

  lemma ListedAfterLeaving(w: World, w': World, th: nat)
    requires Pointed(w) && Counts(w) && Exclusive(w) && Listed(w) && CountsOut(w, w', th)
    ensures Listed(w')
  {
    var s := w.threads[th];
    assert CountsAt(w, s.key);
    if w'.entries[s.entry].refs == 0 {
      OnlyUser(w, th);
      assert forall t :: !Holder(w, t, s.key);
    }
    forall e | e in w'.entries && (w'.entries[e].refs > 0 || w'.entries[e].held) ensures Place(w', e) {
      assert Place(w, e);
      var key :| key in w.table && w.table[key] == e;
      assert key in w'.table && w'.table[key] == e;
    }
  }

  lemma UsersOf(w: World, w': World, th: nat, key: string)
    requires forall t | t != th ::
               (t in w.threads <==> t in w'.threads) && (t in w.threads ==> w'.threads[t] == w.threads[t])
    ensures Users(w', key) ==
            (Users(w, key) - {th}) + (if th in w'.threads && w'.threads[th].key == key then {th} else {})
    ensures th in Users(w, key) <==> th in w.threads && w.threads[th].key == key
  {
  }

  lemma CountsInPointed(w: World, w': World, th: nat, key: string, spare: nat)
    requires Pointed(w) && CountsIn(w, w', th, key, spare)
    ensures Pointed(w')
  {
  }

  lemma CountsInCounts(w: World, w': World, th: nat, key: string, spare: nat, k: string)
    requires Pointed(w) && Pointed(w') && CountsAt(w, k) && CountsIn(w, w', th, key, spare)
    ensures CountsAt(w', k)
  {
    hide Users, Pointed;
    UsersOf(w, w', th, k);
    assert Users(w, k) - {th} == Users(w, k);
    if k == key {
      assert |Users(w', k)| == |Users(w, k)| + 1;
    } else {
      assert Users(w', k) == Users(w, k);
      OtherEntry(w, w', th, key, spare, k);
    }
  }

  lemma OtherEntry(w: World, w': World, th: nat, key: string, spare: nat, k: string)
    requires Pointed(w) && CountsIn(w, w', th, key, spare) && k != key
    ensures k in w'.table <==> k in w.table
    ensures k in w.table ==>
              && w'.table[k] == w.table[k] && w'.table[k] in w'.entries
              && w'.entries[w'.table[k]] == w.entries[w.table[k]]
  {
  }

  /** Neither counting in nor counting out moves a mutex that someone is left with. */
  lemma SameHolders(w: World, w': World, th: nat)
    requires Pointed(w) && Exclusive(w) && Pointed(w')
    requires forall t, k :: Holder(w', t, k) <==> Holder(w, t, k)
    requires forall k | k in w'.table ::
               if k in w.table then w'.entries[w'.table[k]].held == w.entries[w.table[k]].held
               else !w'.entries[w'.table[k]].held && forall t :: !Holder(w, t, k)
    ensures Exclusive(w')
  {
    hide Pointed, Holder;
  }

  lemma CountsInKeeps(w: World, w': World, th: nat, key: string, spare: nat)
    requires Inv(w) && CountsIn(w, w', th, key, spare)
    ensures Inv(w')
  {
    hide Users, CountsAt, Listed;
    CountsInPointed(w, w', th, key, spare);
    forall k ensures CountsAt(w', k) {
      CountsInCounts(w, w', th, key, spare, k);
    }
    CountsInHeld(w, w', th, key, spare);
    ListedAfter(w, w', th);
  }

  lemma CountsInHeld(w: World, w': World, th: nat, key: string, spare: nat)
    requires Pointed(w) && Exclusive(w) && Pointed(w') && CountsIn(w, w', th, key, spare)
    ensures Exclusive(w')
  {
    forall t, k ensures Holder(w', t, k) <==> Holder(w, t, k) {
      assert t != th ==> (t in w.threads <==> t in w'.threads);
    }
    SameHolders(w, w', th);
  }

  lemma MovesKeeps(w: World, w': World, th: nat)
    requires Inv(w) && (Tries(w, w', th) || Unlocks(w, w', th))
    ensures Inv(w')
  {
    hide Users, CountsAt, Exclusive, Listed;
    assert Pointed(w');
    forall k ensures CountsAt(w', k) {
      SameUsers(w, w', th, k);
    }
    HoldersAfter(w, w', th);
    ListedAfter(w, w', th);
  }

  /** A thread that moves within its lock call changes no table and no count. */
  lemma SameUsers(w: World, w': World, th: nat, k: string)
    requires Pointed(w) && Pointed(w') && CountsAt(w, k) && (Tries(w, w', th) || Unlocks(w, w', th))
    ensures CountsAt(w', k)
  {
    hide Users, Pointed;
    assert forall t | t != th ::
        (t in w.threads <==> t in w'.threads) && (t in w.threads ==> w'.threads[t] == w.threads[t]);
    SameUserSet(w, w', th, k);
    SameRefs(w, w', th, k);
  }

  lemma SameUserSet(w: World, w': World, th: nat, k: string)
    requires forall t | t != th ::
               (t in w.threads <==> t in w'.threads) && (t in w.threads ==> w'.threads[t] == w.threads[t])
    requires th in w.threads && th in w'.threads && w'.threads[th].key == w.threads[th].key
    ensures Users(w', k) == Users(w, k)
  {
    forall t ensures t in Users(w', k) <==> t in Users(w, k) {
    }
  }

  lemma SameRefs(w: World, w': World, th: nat, k: string)
    requires Pointed(w) && (Tries(w, w', th) || Unlocks(w, w', th))
    ensures w'.table == w.table
    ensures k in w.table ==> w.table[k] in w'.entries && w'.entries[w.table[k]].refs == w.entries[w.table[k]].refs
  {
  }

  lemma HoldersAfter(w: World, w': World, th: nat)
    requires Pointed(w) && Exclusive(w) && Pointed(w') && (Tries(w, w', th) || Unlocks(w, w', th))
    ensures Exclusive(w')
  {
    var s := w.threads[th];
    forall t, k | t != th ensures Holder(w', t, k) <==> Holder(w, t, k) {
      assert t in w.threads ==> w'.threads[t] == w.threads[t];
    }
    forall k | k in w'.table ensures w'.entries[w'.table[k]].held <==> exists t :: Holder(w', t, k) {
      if k != s.key {
        assert w'.entries[w'.table[k]] == w.entries[w.table[k]];
        assert forall t :: Holder(w', t, k) <==> Holder(w, t, k);
      } else if w'.threads[th].Holding? {
        assert Holder(w', th, k);
      } else if w.threads[th].Holding? {
        assert Holder(w, th, k);
      } else {
        assert forall t :: Holder(w', t, k) <==> Holder(w, t, k);
      }
    }
    if w'.threads[th].Holding? {
      assert forall t :: !Holder(w, t, s.key);
    }
  }

  lemma CountsOutKeeps(w: World, w': World, th: nat)
    requires Inv(w) && CountsOut(w, w', th)
    ensures Inv(w')
  {
    hide Users, CountsAt, Listed;
    CountsOutPointed(w, w', th);
    forall k ensures CountsAt(w', k) {
      CountsOutCounts(w, w', th, k);
    }
    forall t, k ensures Holder(w', t, k) <==> Holder(w, t, k) {
      assert t != th ==> (t in w.threads <==> t in w'.threads);
    }
    SameHolders(w, w', th);
    ListedAfterLeaving(w, w', th);
  }

  lemma CountsOutPointed(w: World, w': World, th: nat)
    requires Pointed(w) && Counts(w) && CountsOut(w, w', th)
    ensures Pointed(w')
  {
    hide Users;
    var s := w.threads[th];
    if w.entries[s.entry].refs == 1 {
      assert CountsAt(w, s.key);
      OnlyUser(w, th);
    }
  }

  lemma OnlyUser(w: World, th: nat)
    requires th in w.threads && |Users(w, w.threads[th].key)| == 1
    ensures forall t | t in w.threads && t != th :: w.threads[t].key != w.threads[th].key
  {
    var users := Users(w, w.threads[th].key);
    var rest := users - {th};
    assert th in users && |rest| == 0;
    forall t | t in w.threads && t != th ensures w.threads[t].key != w.threads[th].key {
      assert t !in rest;
    }
  }

  lemma CountsOutCounts(w: World, w': World, th: nat, k: string)
    requires Pointed(w) && Pointed(w') && CountsAt(w, k) && CountsOut(w, w', th)
    ensures CountsAt(w', k)
  {
    hide Users;
    var s := w.threads[th];
    UsersOf(w, w', th, k);
    if k == s.key {
      assert |Users(w', k)| == |Users(w, k)| - 1;
    } else {
      assert Users(w', k) == Users(w, k);
    }
  }

  /** A step of a thread that is counted in is always possible: nobody ever waits. */
  lemma NobodyWaits(w: World, th: nat)
    requires Inv(w) && th in w.threads
    ensures exists w' :: Tries(w, w', th) || Unlocks(w, w', th) || CountsOut(w, w', th)
  {
    var s := w.threads[th];
    assert CountsAt(w, s.key) && th in Users(w, s.key);
    if s.Counted? {
      var w' := if w.entries[s.entry].held then w.(threads := w.threads[th := Losing(s.key, s.entry)])
                else w.(threads := w.threads[th := Holding(s.key, s.entry)],
                        entries := w.entries[s.entry := w.entries[s.entry].(held := true)]);
      assert Tries(w, w', th);
    } else if s.Holding? {
      var w' := w.(threads := w.threads[th := Leaving(s.key, s.entry)],
                   entries := w.entries[s.entry := w.entries[s.entry].(held := false)]);
      assert Unlocks(w, w', th);
    } else {
      var left := w.entries[s.entry].refs - 1;
      var w' := World(if left == 0 then w.table - {s.key} else w.table,
                      w.entries[s.entry := w.entries[s.entry].(refs := left)], w.threads - {th});
      assert CountsOut(w, w', th);
    }
  }

  lemma NextKeeps(w: World, w': World)
    requires Inv(w) && Next(w, w')
    ensures Inv(w')
  {
    hide Inv, CountsIn, Tries, Unlocks, CountsOut;
    var th :| Steps(w, w', th);
    if key, spare :| CountsIn(w, w', th, key, spare) {
      CountsInKeeps(w, w', th, key, spare);
    } else if Tries(w, w', th) || Unlocks(w, w', th) {
      MovesKeeps(w, w', th);
    } else {
      CountsOutKeeps(w, w', th);
    }
  }

  // ------------------------------------------------------------- over whole runs

  ghost predicate IsRun(run: seq<World>) {
    && run != [] && run[0] == World(map[], map[], map[])
    && forall i | 0 <= i < |run| - 1 :: Next(run[i], run[i + 1])
  }

  lemma {:induction false} RunKeeps(run: seq<World>, i: nat)
    requires IsRun(run) && i < |run|
    ensures Inv(run[i])
  {
    hide Inv, Next;
    if i == 0 {
      assert Inv(run[0]) by { EmptyInv(run[0]); }
    } else {
      RunKeeps(run, i - 1);
      NextKeeps(run[i - 1], run[i]);
    }
  }

  lemma EmptyInv(w: World)
    requires w == World(map[], map[], map[])
    ensures Inv(w)
  {
  }

  /** At most one thread holds a key, whatever the interleaving. */
  lemma OneHolder(run: seq<World>, i: nat, t1: nat, t2: nat, key: string)
    requires IsRun(run) && i < |run| && Holder(run[i], t1, key) && Holder(run[i], t2, key)
    ensures t1 == t2
  {
    RunKeeps(run, i);
  }

  /** The table lists a key exactly while threads are counted in for it, with their
      number as its count; so nothing is left once all have gone. */
  lemma TableIsCounted(run: seq<World>, i: nat, key: string)
    requires IsRun(run) && i < |run|
    ensures key in run[i].table <==> exists th :: th in run[i].threads && run[i].threads[th].key == key
    ensures key in run[i].table ==>
              run[i].table[key] in run[i].entries && run[i].entries[run[i].table[key]].refs == |Users(run[i], key)| > 0
    ensures run[i].threads == map[] ==> run[i].table == map[]
  {
    RunKeeps(run, i);
    ListedIffCounted(run[i], key);
    if run[i].threads == map[] {
      forall k ensures k !in run[i].table {
        ListedIffCounted(run[i], k);
      }
      assert run[i].table == map[];
    }
  }

  lemma ListedIffCounted(w: World, key: string)
    requires Inv(w)
    ensures key in w.table <==> exists th :: th in w.threads && w.threads[th].key == key
    ensures key in w.table ==> w.table[key] in w.entries && w.entries[w.table[key]].refs == |Users(w, key)| > 0
  {
    hide Exclusive;
    assert CountsAt(w, key);
    assert forall th | th in w.threads && w.threads[th].key == key :: th in Users(w, key);
    if key in w.table {
      assert Users(w, key) != {};
      var th :| th in Users(w, key);
      assert th in w.threads;
    }
  }

  /** An entry has a place in the table exactly while it is counted, it has only one,
      and a held entry is counted: it is neither dropped nor replaced. */
  lemma EntryListedIffCounted(run: seq<World>, i: nat, e: nat)
    requires IsRun(run) && i < |run| && e in run[i].entries
    ensures Place(run[i], e) <==> run[i].entries[e].refs > 0
    ensures run[i].entries[e].held ==> run[i].entries[e].refs > 0
    ensures forall k1, k2 | k1 in run[i].table && k2 in run[i].table
                            && run[i].table[k1] == e && run[i].table[k2] == e :: k1 == k2
    ensures forall th | th in run[i].threads && run[i].threads[th].entry == e ::
              run[i].threads[th].key in run[i].table && run[i].table[run[i].threads[th].key] == e
  {
    hide Exclusive, Users;
    RunKeeps(run, i);
    if Place(run[i], e) {
      var key :| key in run[i].table && run[i].table[key] == e;
      assert CountsAt(run[i], key);
    }
  }

  /** A try is refused exactly when another thread holds the key at that moment. */
  lemma RefusedIffHeld(run: seq<World>, i: nat, th: nat)
    requires IsRun(run) && i + 1 < |run| && Tries(run[i], run[i + 1], th)
    ensures run[i + 1].threads[th].Losing? <==>
            exists other :: other != th && Holder(run[i], other, run[i].threads[th].key)
  {
    RunKeeps(run, i);
    var s := run[i].threads[th];
    assert s.key in run[i].table && run[i].table[s.key] == s.entry;
  }

  // ------------------------------------------------------------------ the lock

  class KeyedLock {
    var table: map<string, nat>
    var entries: map<nat, Entry>
    var nextEntry: nat
    ghost var threads: map<nat, Stage>

    ghost function View(): World
      reads this
    {
      World(table, entries, threads)
    }

    ghost predicate Valid()
      reads this
    {
      Inv(View()) && forall e | e in entries :: e < nextEntry
    }

    constructor ()
      ensures Valid() && View() == World(map[], map[], map[])
    {
      table, entries, nextEntry, threads := map[], map[], 0, map[];
      new;
      EmptyInv(View());
    }

    /** Under the table's mutex. The empty key takes no lock at all. */
    method CountIn(ghost th: nat, key: string) returns (e: nat)
      requires Valid() && key != "" && th !in threads
      modifies this
      ensures Valid() && CountsIn(old(View()), View(), th, key, old(nextEntry)) && threads[th] == Counted(key, e)
    {
      if key !in table {
        table := table[key := nextEntry];
        entries := entries[nextEntry := Entry(false, 0)];
        nextEntry := nextEntry + 1;
      }
      e := table[key];
      entries := entries[e := entries[e].(refs := entries[e].refs + 1)];
      threads := threads[th := Counted(key, e)];
      CountsInKeeps(old(View()), View(), th, key, old(nextEntry));
    }

    method TryLock(ghost th: nat, ghost key: string, e: nat) returns (ok: bool)
      requires Valid() && th in threads && threads[th] == Counted(key, e)
      modifies this`entries, this`threads
      ensures Valid() && Tries(old(View()), View(), th) && (ok <==> threads[th].Holding?)
    {
      ok := !entries[e].held;
      if ok {
        entries := entries[e := entries[e].(held := true)];
      }
      threads := threads[th := if ok then Holding(key, e) else Losing(key, e)];
      MovesKeeps(old(View()), View(), th);
    }

    method Unlock(ghost th: nat, ghost key: string, e: nat)
      requires Valid() && th in threads && threads[th] == Holding(key, e)
      modifies this`entries, this`threads
      ensures Valid() && Unlocks(old(View()), View(), th)
    {
      entries := entries[e := entries[e].(held := false)];
      threads := threads[th := Leaving(key, e)];
      MovesKeeps(old(View()), View(), th);
    }

    method CountOut(ghost th: nat, key: string, e: nat)
      requires Valid() && th in threads && (threads[th] == Losing(key, e) || threads[th] == Leaving(key, e))
      modifies this`table, this`entries, this`threads
      ensures Valid() && CountsOut(old(View()), View(), th)
    {
      assert CountsAt(View(), key) && th in Users(View(), key);
      hide Users, Exclusive;
      entries := entries[e := entries[e].(refs := entries[e].refs - 1)];
      if entries[e].refs == 0 {
        table := table - {key};
      }
      threads := threads - {th};
      CountsOutKeeps(old(View()), View(), th);
    }
  }
}
