/**
 Bindings across the router and the store: reading the route generation and filing
 the binding are two steps, and any other step may come between them.
 */
module BindingSafety {
  import opened AccountRouter
  import opened Forest
  import opened SessionStore
  import Text

  /** What a writer holds between its two steps. */
  datatype Ticket = Ticket(account: string, version: nat, authoritative: bool)

  datatype World = World(generation: nat, owner: map<nat, string>, data: Records, tickets: map<nat, Ticket>)

  /** The router moves on: old generations keep their owners. */
  ghost predicate Advances(w: World, w': World) {
    && w.generation <= w'.generation
    && (forall g | g in w.owner :: g in w'.owner && w'.owner[g] == w.owner[g])
    && (forall g | g in w'.owner :: g <= w'.generation && w'.owner[g] != "")
  }

  ghost predicate Moves(w: World, w': World) {
    Advances(w, w') && w'.data == w.data && w'.tickets == w.tickets
  }

  /** First step of a write: the writer notes the generation and whether it is active. */
  ghost predicate ReadsVersion(w: World, w': World, thread: nat, t: Ticket) {
    && Advances(w, w') && w'.data == w.data && w'.tickets == w.tickets[thread := t]
    && t.version == w'.generation
    && (t.authoritative ==> t.version in w'.owner && w'.owner[t.version] == Text.Trim(t.account))
  }

  /** The records other than one keep their owners; some may be evicted. */
  ghost predicate OthersKept(before: Records, after: Records, key: string) {
    forall k | k in after && k != key ::
      k in before && after[k].accountID == before[k].accountID && after[k].routeGeneration == before[k].routeGeneration
  }

  ghost predicate Files(before: Records, after: Records, key: string, t: Ticket) {
    && OthersKept(before, after, key)
    && (key in after ==> after[key].accountID == t.account && after[key].routeGeneration == t.version)
  }

  /** Second step: the binding is filed unless it is stale by then or the write fails. */
  ghost predicate Writes(w: World, w': World, thread: nat, v: Conversation) {
    && thread in w.tickets
    && v.accountID == w.tickets[thread].account && v.routeGeneration == w.tickets[thread].version
    && w' == w.(data := w'.data, tickets := w.tickets - {thread})
    && (if StaleBinding(w.data, v, w.tickets[thread].authoritative) then w'.data == w.data
        else w'.data == w.data || Files(w.data, w'.data, v.id, w.tickets[thread]))
  }

  /** Pruning and deletion. */
  ghost predicate Evicts(w: World, w': World) {
    && w' == w.(data := w'.data)
    && forall k | k in w'.data :: k in w.data && w'.data[k].accountID == w.data[k].accountID
                                  && w'.data[k].routeGeneration == w.data[k].routeGeneration
  }

  ghost predicate Next(w: World, w': World) {
    || Moves(w, w')
    || (exists thread, t :: ReadsVersion(w, w', thread, t))
    || (exists thread, v :: Writes(w, w', thread, v))
    || Evicts(w, w')
  }

  ghost predicate Inv(w: World) {
    && (forall g | g in w.owner :: g <= w.generation && w.owner[g] != "")
    && (forall th | th in w.tickets ::
          var t := w.tickets[th];
          t.version <= w.generation
          && (t.authoritative ==> t.version in w.owner && w.owner[t.version] == Text.Trim(t.account)))
  }

  lemma InvKept(w: World, w': World)
    requires Inv(w) && Next(w, w')
    ensures Inv(w')
    ensures Advances(w, w')
  {
    hide Text.Trim, StaleBinding, Files;
  }

  /** The key's binding belongs to the owner of generation g, or to a later generation. */
  ghost predicate Secured(w: World, key: string, g: nat) {
    && key in w.data && g in w.owner
    && (w.data[key].routeGeneration > g
        || (w.data[key].routeGeneration == g && Text.Trim(w.data[key].accountID) == w.owner[g]))
  }

  /** An authoritative write that lands secures its key. */
  lemma WriteSecures(w: World, w': World, thread: nat, v: Conversation)
    requires Inv(w) && Writes(w, w', thread, v) && w.tickets[thread].authoritative
    requires w'.data != w.data && v.id in w'.data
    ensures Secured(w', v.id, v.routeGeneration)
  {
  }

  /** No step undoes it while the key stays stored: a writer of the same generation
      for another account is not the owner, hence not authoritative, hence stale. */
  lemma SecuredKept(w: World, w': World, key: string, g: nat)
    requires Inv(w) && Next(w, w') && Secured(w, key, g) && key in w'.data
    ensures Secured(w', key, g)
  {
    hide Text.Trim;
    InvKept(w, w');
    if thread, v :| Writes(w, w', thread, v) {
      if v.id == key && w'.data != w.data {
        var t := w.tickets[thread];
        assert !StaleBinding(w.data, v, t.authoritative);
        if v.routeGeneration == g && w.data[key].accountID != v.accountID {
          assert w.data[key].accountID != "" by {
            NotBlank(w.data[key].accountID);
          }
          assert t.authoritative;
        }
      }
    }
  }

  lemma NotBlank(id: string)
    requires Text.Trim(id) != ""
    ensures id != ""
  {
  }

  ghost predicate IsRun(run: seq<World>) {
    && run != [] && Inv(run[0])
    && forall i | 0 <= i < |run| - 1 :: Next(run[i], run[i + 1])
  }

  lemma RunInv(run: seq<World>, i: nat)
    requires IsRun(run) && i < |run|
    ensures Inv(run[i])
  {
    if i > 0 {
      RunInv(run, i - 1);
      InvKept(run[i - 1], run[i]);
    }
  }

  /** The generation never falls over a run, and each has at most one owner in it. */
  lemma {:induction false} RunAdvances(run: seq<World>, i: nat, j: nat)
    requires IsRun(run) && i <= j < |run|
    ensures run[i].generation <= run[j].generation
    ensures forall g | g in run[i].owner :: g in run[j].owner && run[j].owner[g] == run[i].owner[g]
    decreases j
  {
    if i < j {
      RunAdvances(run, i, j - 1);
      RunInv(run, j - 1);
      InvKept(run[j - 1], run[j]);
    }
  }

  /** Once the owner of a generation has filed a key's binding, over every later run in
      which the key stays stored, the binding is that account's or of a later
      generation: no writer of this or an earlier generation takes it over. */
  lemma {:induction false} BindingStays(run: seq<World>, i: nat, j: nat, key: string, g: nat)
    requires IsRun(run) && i <= j < |run| && Secured(run[i], key, g)
    requires forall n | i <= n <= j :: key in run[n].data
    ensures Secured(run[j], key, g)
    ensures run[j].owner[g] == run[i].owner[g]
    decreases j
  {
    RunAdvances(run, i, j);
    if i < j {
      BindingStays(run, i, j - 1, key, g);
      RunInv(run, j - 1);
      SecuredKept(run[j - 1], run[j], key, g);
    }
  }

  /** The key has to stay stored: after an eviction a late writer of an earlier
      generation finds nothing to compare with, and its binding is filed. */
  lemma EvictionForgets(v: Conversation)
    requires v.id == "key" && v.accountID == "old" && v.routeGeneration == 1
    ensures exists w, evicted, w' ::
              && Inv(w) && Secured(w, "key", 2) && Evicts(w, evicted) && Writes(evicted, w', 0, v)
              && "key" in w'.data && !Secured(w', "key", 2)
  {
    var owner := map[1 := "old", 2 := "new"];
    var ticket := Ticket("old", 1, true);
    var w := World(2, owner, map["key" := v.(accountID := "new", routeGeneration := 2)], map[0 := ticket]);
    var evicted := w.(data := map[]);
    var w' := World(2, owner, map["key" := v], map[]);
    NamesAreTrimmed();
    hide Text.Trim;
    assert Writes(evicted, w', 0, v) by {
      assert evicted.tickets - {0} == w'.tickets;
    }
    assert Inv(w) && Secured(w, "key", 2) && Evicts(w, evicted) by {
      hide Writes;
    }
  }

  lemma NamesAreTrimmed()
    ensures Text.Trim("new") == "new" && Text.Trim("old") == "old"
  {
  }

  // ------------------------------------------------- the classes take these steps

  /** The router and the store with the writers between their two steps. */
  class Bridge {
    const router: AccountRouter
    const store: SessionStore
    var tickets: map<nat, Ticket>

    ghost predicate Valid()
      reads this, router, router.health, store
    {
      router.Valid() && store.Valid() && Inv(View())
    }

    ghost function View(): World
      reads this, router, store
    {
      World(router.generation, router.owner, store.data, tickets)
    }

    constructor (router: AccountRouter, store: SessionStore)
      requires router.Valid() && store.Valid()
      ensures Valid() && this.router == router && this.store == store && tickets == map[]
    {
      this.router, this.store, tickets := router, store, map[];
      new;
      RouterOwners(router);
    }

    method ReadVersion(thread: nat, account: string)
      requires Valid()
      modifies this, router
      ensures Valid() && thread in tickets && ReadsVersion(old(View()), View(), thread, tickets[thread])
      ensures tickets[thread].account == account && tickets[thread].version == router.generation
    {
      hide Inv, Text.Trim;
      var version, authoritative := router.RouteVersion(account);
      var t := Ticket(account, version, authoritative);
      tickets := tickets[thread := t];
      RouterOwners(router);
      assert ReadsVersion(old(View()), View(), thread, t);
      InvKept(old(View()), View());
    }

    /** Files the binding of a thread's ticket under the key. */
    method WriteBinding(thread: nat, v: Conversation, now: int, ok: bool) returns (applied: bool)
      requires Valid() && thread in tickets && v.id != "" && !HasPortableState(v)
      requires v.responseAlias || NobodysParent(store.data, v.id)
      requires v.accountID == tickets[thread].account && v.routeGeneration == tickets[thread].version
      modifies this, store
      ensures Valid() && Writes(old(View()), View(), thread, v)
      ensures applied ==> !StaleBinding(old(store.data), v, old(tickets)[thread].authoritative)
      ensures !applied ==> store.data == old(store.data)
    {
      hide Inv, Text.Trim, Sound, Tidy, EnvOk;
      var err;
      applied, err := store.UpsertBinding(v, tickets[thread].authoritative, v.id, now, ok);
      tickets := tickets - {thread};
      assert Writes(old(View()), View(), thread, v);
      InvKept(old(View()), View());
    }

    method MarkAccountResult(id: string, outcome: AccountOutcome, now: int) returns (advanced: bool)
      requires Valid() && now >= router.health.clock
      modifies router, router.health
      ensures Valid() && Moves(old(View()), View())
    {
      hide Inv, Text.Trim;
      advanced := router.MarkAccountResult(id, outcome, now);
      RouterOwners(router);
      assert Moves(old(View()), View());
      InvKept(old(View()), View());
    }

    method DeleteAccount(id: string, deletable: bool) returns (ok: bool)
      requires Valid()
      modifies router
      ensures Valid() && Moves(old(View()), View())
    {
      hide Inv, Text.Trim;
      ok := router.DeleteAccount(id, deletable);
      RouterOwners(router);
      assert Moves(old(View()), View());
      InvKept(old(View()), View());
    }

    method DeleteSession(id: string, ok: bool) returns (removed: bool)
      requires Valid()
      modifies store
      ensures Valid() && Evicts(old(View()), View())
    {
      hide Inv, Text.Trim, Sound, EnvOk;
      var err;
      removed, err := store.Delete(id, ok);
      assert Evicts(old(View()), View());
      InvKept(old(View()), View());
    }

    method DeleteSessionsOf(accountID: string, ok: bool) returns (removed: nat)
      requires Valid()
      modifies store
      ensures Valid() && Evicts(old(View()), View())
    {
      hide Inv, Text.Trim, Sound, EnvOk;
      var err;
      removed, err := store.DeleteByAccount(accountID, ok);
      assert Evicts(old(View()), View());
      InvKept(old(View()), View());
    }
  }

  lemma RouterOwners(router: AccountRouter)
    requires router.Valid()
    ensures forall g | g in router.owner :: g <= router.generation && router.owner[g] != ""
  {
  }
}
