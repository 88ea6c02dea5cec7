/**
 The active-account router: one global pointer with a generation that counts its
 moves, persisted on every move and rolled back when that fails. Each method is one
 step under the routing lock.
 */
module AccountRouter {
  import opened Signals = AccountHealth
  import Text
  import opened Chat

  const SHARED_WINDOW := 12
  const CIRCUIT_REST := 20

  /** The classes of request outcomes that matter to routing. Local failures are
      those that say nothing about an account; a connection failure is shared unless
      it is the account's own proxy that failed. */
  datatype Failure =
    | PolicyRefusal
    | Local
    | Quota(until: int)
    | RateLimit(until: int)
    | Auth
    | Connection(shared: bool)

  /** What a turn carries of the identity that owned it when it began. */
  datatype Lease = Lease(accountID: string, generation: nat)

  datatype Admission = Refused | Admitted(leaseID: nat, lease: Lease)

  datatype Saved = NothingSaved | Saved(active: string, generation: nat, health: Health)

  function SavedGeneration(saved: Saved): nat {
    if saved.Saved? then saved.generation else 0
  }

  /** The health signal that a failure of an account sends. */
  function SignalOf(id: string, f: Failure, now: int): Signal {
    match f
    case PolicyRefusal => Disengaged(id, now)
    case Quota(until) => QuotaExhausted(id, until, now)
    case RateLimit(until) => RateLimited(id, until, now)
    case Auth => AuthFailed(id, now)
    case _ => Transient(id, now)
  }

  /** What a failure means for the health of its account from then on. */
  ghost predicate Hurts(before: Health, after: Health, id: string, f: Failure, now: int) {
    match f
    case PolicyRefusal => RestsUntil(before, after, id, now + 720, now)
    case Quota(until) => RestsUntil(before, after, id, if until == 0 then now + 21600 else until, now)
    case RateLimit(until) => RestsUntil(before, after, id, if until == 0 then now + 120 else until, now)
    case Auth => IsOut(before, after, id, now)
    case Connection(_) => RestsUntil(before, after, id, now + 30, now)
    case Local => after == before
  }

  // ------------------------------------------------------------ the account list

  predicate Trimmed(id: string) {
    id != "" && Text.Trim(id) == id
  }

  ghost predicate Distinct<T>(list: seq<T>) {
    forall i, j | 0 <= i < j < |list| :: list[i] != list[j]
  }

  ghost predicate ListOk(list: seq<string>) {
    Distinct(list) && forall id | id in list :: Trimmed(id)
  }

  lemma NobodyIsBlank(list: seq<string>)
    requires ListOk(list)
    ensures "" !in list
  {
  }

  function IndexOf<T(==)>(list: seq<T>, id: T): (i: int)
    ensures -1 <= i < |list|
    ensures i >= 0 ==> list[i] == id
    ensures i < 0 <==> id !in list
    ensures forall j | 0 <= j < i :: list[j] != id
  {
    if list == [] then -1
    else if list[0] == id then 0
    else
      var rest := IndexOf(list[1..], id);
      if rest < 0 then -1 else rest + 1
  }

  lemma Wraps(k: nat, n: nat)
    requires k < 2 * n
    ensures k % n == if k < n then k else k - n
  {
  }

  /** The account some steps further in the cyclic order of the list. */
  function Around<T>(list: seq<T>, start: nat, offset: nat): T
    requires start < |list|
  {
    list[(start + offset) % |list|]
  }

  /** The successor of an account: the first selectable one after it, going round. */
  ghost predicate IsSuccessor(list: seq<string>, h: Health, from: string, id: string, now: int) {
    var start := IndexOf(list, from);
    start >= 0 &&
    exists offset: nat ::
      && 1 <= offset < |list| && id == Around(list, start, offset) && Selectable(h, id, now)
      && forall nearer: nat | 1 <= nearer < offset :: !Selectable(h, Around(list, start, nearer), now)
  }

  ghost predicate NoSuccessor(list: seq<string>, h: Health, from: string, now: int) {
    var start := IndexOf(list, from);
    start >= 0 ==> forall offset: nat | 1 <= offset < |list| :: !Selectable(h, Around(list, start, offset), now)
  }

  lemma SuccessorDiffers<T>(list: seq<T>, start: nat, offset: nat)
    requires Distinct(list) && start < |list| && 1 <= offset < |list|
    ensures Around(list, start, offset) != list[start]
    ensures Around(list, start, offset) in list
  {
    hide Trimmed;
    Wraps(start + offset, |list|);
  }

  function Without<T(==)>(list: seq<T>, id: T): (r: seq<T>)
    ensures id !in r
    ensures forall x | x in r :: x in list
    ensures forall x | x in list :: x == id || x in r
    ensures id !in list ==> r == list
  {
    if list == [] then [] else (if list[0] == id then [] else [list[0]]) + Without(list[1..], id)
  }

  lemma {:induction false} WithoutAt<T>(list: seq<T>, i: nat)
    requires Distinct(list) && i < |list|
    ensures Without(list, list[i]) == list[..i] + list[i + 1..]
  {
    var rest := list[1..];
    if i == 0 {
      assert list[0] !in rest;
    } else {
      WithoutAt(rest, i - 1);
      assert Without(list, list[i]) == [list[0]] + Without(rest, rest[i - 1]);
      assert list[..i] == [list[0]] + rest[..i - 1];
    }
  }

  lemma WithoutOk(list: seq<string>, id: string)
    requires ListOk(list)
    ensures ListOk(Without(list, id))
    ensures id in list ==> |Without(list, id)| == |list| - 1
  {
    hide Trimmed, Without, Distinct;
    if id in list {
      var i :| 0 <= i < |list| && list[i] == id;
      WithoutAt(list, i);
      OneLess(list, i);
    }
  }

  lemma OneLess<T>(list: seq<T>, i: nat)
    requires Distinct(list) && i < |list|
    ensures Distinct(list[..i] + list[i + 1..])
  {
    var less := list[..i] + list[i + 1..];
    assert forall k | 0 <= k < |less| :: less[k] == list[if k < i then k else k + 1];
  }

  /** The pointer, its history and the file agree. */
  ghost predicate Coherent(activeID: string, generation: nat, owner: map<nat, string>, disk: Saved) {
    && (activeID != "" ==> Trimmed(activeID) && generation in owner && owner[generation] == activeID)
    && (forall g | g in owner :: g <= generation && Trimmed(owner[g]))
    && SavedGeneration(disk) <= generation
    && (disk.Saved? && disk.active != "" ==>
          Trimmed(disk.active) && (generation in owner ==> owner[generation] == disk.active))
  }

  /** What is still known about generations when the pointer is read back. */
  ghost function OwnersAfter(owner: map<nat, string>, last: nat, generation: nat, active: string): map<nat, string> {
    var known := if generation < last then map g | g in owner && g < generation :: owner[g] else owner;
    if active == "" then known else known[generation := active]
  }

  lemma ReloadCoherent(activeID: string, last: nat, owner: map<nat, string>, disk: Saved, generation: nat)
    requires Coherent(activeID, last, owner, disk) && generation >= SavedGeneration(disk)
    ensures var active := if disk.Saved? then disk.active else "";
            Coherent(active, generation, OwnersAfter(owner, last, generation, active), disk)
    ensures last <= generation ==> forall g | g in owner ::
              var later := OwnersAfter(owner, last, generation, if disk.Saved? then disk.active else "");
              g in later && later[g] == owner[g]
  {
    hide Trimmed;
  }

  // ------------------------------------------------------------------ the class

  class AccountRouter {
    /** Whether the k-th write of the state file succeeds. */
    const writable: nat -> bool
    const health: AccountHealth

    var list: seq<string>
    var activeID: string
    var generation: nat
    var sharedFailures: map<string, int>
    var circuitUntil: int
    var disk: Saved
    var writes: nat

    var leases: set<nat>
    var lastLease: nat

    /** The account that was active in each generation that had one. */
    ghost var owner: map<nat, string>

    ghost predicate Valid()
      reads this, health
    {
      health.Valid() && ListOk(list) && Coherent(activeID, generation, owner, disk)
      && forall l | l in leases :: l <= lastLease
    }

    /** The lease's account was the active one in the lease's generation. */
    ghost predicate Minted(lease: Lease)
      reads this
    {
      lease.generation in owner && owner[lease.generation] == lease.accountID
    }

    /** The file holds the current generation, so that a restart finds it again. */
    ghost predicate Durable()
      reads this
    {
      SavedGeneration(disk) == generation
    }

    /** The file says where the pointer is and how every account is. */
    ghost predicate UpToDate()
      reads this, health
    {
      disk == Saved(activeID, generation, health.State())
    }

    /** The generation never falls, and what it meant before it means for good. */
    twostate predicate Grows()
      reads this
    {
      && old(generation) <= generation
      && (forall g | g in old(owner) :: g in owner && owner[g] == old(owner)[g])
    }

    twostate predicate Keeps()
      reads this
    {
      Grows() && (old(Durable()) ==> Durable())
    }

    twostate predicate SamePointer()
      reads this
    {
      activeID == old(activeID) && generation == old(generation) && owner == old(owner)
    }

    constructor (writable: nat -> bool, health: AccountHealth)
      requires health.Valid()
      ensures Valid() && Durable() && this.health == health && this.writable == writable
      ensures list == [] && activeID == "" && generation == 0 && disk == NothingSaved
    {
      this.writable, this.health := writable, health;
      list, activeID, generation := [], "", 0;
      sharedFailures, circuitUntil := map[], 0;
      disk, writes, owner := NothingSaved, 0, map[];
      leases, lastLease := {}, 0;
    }

    method Persist(id: string) returns (ok: bool)
      modifies this`disk, this`writes
      ensures ok == writable(old(writes)) && writes == old(writes) + 1
      ensures disk == if ok then Saved(id, generation, health.State()) else old(disk)
      ensures old(Valid()) && id == activeID ==> Valid()
    {
      hide ListOk, Trimmed, Explains;
      ok := writable(writes);
      writes := writes + 1;
      if ok {
        disk := Saved(id, generation, health.State());
      }
    }

    /** Moves the pointer, one generation on, or leaves everything as it was. */
    method ActivateAccount(id: string) returns (ok: bool)
      requires Valid() && (id == "" || Trimmed(id))
      modifies this`activeID, this`generation, this`owner, this`disk, this`writes
      ensures Valid() && Keeps()
      ensures id == old(activeID) ==> ok && SamePointer() && disk == old(disk) && writes == old(writes)
      ensures id != old(activeID) ==> ok == writable(old(writes)) && writes == old(writes) + 1
      ensures !ok ==> SamePointer() && disk == old(disk)
      ensures ok && id != old(activeID) ==> activeID == id && generation == old(generation) + 1 && UpToDate()
    {
      hide Trimmed, Explains;
      if id == activeID {
        return true;
      }
      var previousID, previousGeneration := activeID, generation;
      activeID, generation := id, generation + 1;
      ok := Persist(id);
      if !ok {
        activeID, generation := previousID, previousGeneration;
        return false;
      }
      if id != "" {
        owner := owner[generation := id];
      }
    }

    /** Puts the pointer on an account of the list, or on none if there is none. */
    method EnsureActive() returns (ok: bool)
      requires Valid()
      modifies this`activeID, this`generation, this`owner, this`disk, this`writes
      ensures Valid() && Keeps()
      ensures old(activeID) in list ==> ok && SamePointer() && disk == old(disk) && writes == old(writes)
      ensures list == [] ==> ok && activeID == "" && generation == old(generation) && owner == old(owner)
                             && disk == old(disk) && writes == old(writes)
      ensures old(activeID) !in list && list != [] ==>
                && ok == writable(old(writes)) && writes == old(writes) + 1
                && (if ok then activeID == list[0] && generation == old(generation) + 1 && UpToDate()
                    else SamePointer() && disk == old(disk))
    {
      hide Trimmed, Explains;
      if |list| == 0 {
        activeID := "";
        return true;
      }
      if IndexOf(list, activeID) >= 0 {
        return true;
      }
      assert Trimmed(list[0]) && list[0] in list;
      ok := ActivateAccount(list[0]);
    }

    /** Compare and swap: only a failure of the active account moves the pointer, and
        then to that account's successor. One call moves it twice exactly when the
        pointer had dangled and the failed account heads the list. */
    method AdvanceActive(failedID: string, now: int) returns (advanced: bool, ok: bool)
      requires Valid() && now >= health.clock
      modifies this`activeID, this`generation, this`owner, this`disk, this`writes
      ensures Valid() && Keeps()
      ensures advanced ==> ok
      ensures old(activeID) in list && failedID != old(activeID) ==> !advanced
      ensures old(activeID) in list && !advanced ==> SamePointer()
      ensures advanced ==> failedID in list && failedID == (if old(activeID) in list then old(activeID) else list[0])
                           && generation == old(generation) + (if old(activeID) in list then 1 else 2)
                           && IsSuccessor(list, health.State(), failedID, activeID, now) && activeID != failedID
      ensures old(activeID) in list && failedID == old(activeID) && ok && !advanced ==>
                NoSuccessor(list, health.State(), failedID, now)
      ensures !ok && old(activeID) in list ==> !writable(old(writes))
      ensures writes >= old(writes) && (old(activeID) in list ==> writes <= old(writes) + 1)
      ensures advanced || !ok ==> writes > old(writes)
      ensures old(activeID) in list && !advanced && ok ==> writes == old(writes)
      ensures if writes > old(writes) && writable(old(writes)) then UpToDate() else disk == old(disk)
    {
      hide Trimmed, Explains, Coherent;
      NobodyIsBlank(list);
      ok := EnsureActive();
      if !ok || activeID == "" || activeID != failedID {
        return false, ok;
      }
      var start := IndexOf(list, activeID);
      label Search:
      var offset := 1;
      while offset < |list|
        invariant 1 <= offset <= |list|
        invariant unchanged@Search(this) && unchanged@Search(health)
        invariant forall nearer: nat | 1 <= nearer < offset ::
                    !Selectable(health.State(), Around(list, start, nearer), now)
      {
        var candidate := Around(list, start, offset);
        var available := health.Available(candidate, now);
        if available {
          SuccessorDiffers(list, start, offset);
          ok := ActivateAccount(candidate);
          return ok, ok;
        }
        offset := offset + 1;
      }
      return false, true;
    }

    /** Two accounts failing alike within the window open the shared circuit. */
    method ObserveSharedFailure(id: string, f: Failure, now: int) returns (tripped: bool)
      modifies this`sharedFailures, this`circuitUntil
      ensures tripped <==> f == Connection(true)
                           && exists other :: other != id && other in old(sharedFailures)
                                              && now - old(sharedFailures)[other] <= 12
      ensures circuitUntil == if tripped && now + 20 > old(circuitUntil) then now + 20 else old(circuitUntil)
      ensures f == Connection(true) ==>
                sharedFailures == (map a | a in old(sharedFailures) && now - old(sharedFailures)[a] <= 12 ::
                                     old(sharedFailures)[a])[id := now]
      ensures f != Connection(true) ==> sharedFailures == old(sharedFailures)
    {
      if f != Connection(true) {
        return false;
      }
      ghost var before := sharedFailures;
      sharedFailures := map a | a in sharedFailures && now - sharedFailures[a] <= SHARED_WINDOW :: sharedFailures[a];
      sharedFailures := sharedFailures[id := now];
      if |sharedFailures| < 2 {
        OnlyOne(sharedFailures, id);
        assert forall other | other != id && other in before && now - before[other] <= SHARED_WINDOW ::
            other in sharedFailures;
        return false;
      }
      if now + CIRCUIT_REST > circuitUntil {
        circuitUntil := now + CIRCUIT_REST;
      }
      ghost var other := Another(sharedFailures, id);
      assert other in before;
      return true;
    }

    /** One outcome of a request. With the pointer on the list, it answers true
        exactly when the pointer moved one generation on, out of the account that
        failed and to its successor, and no other outcome moves it. A failure of the
        active account leaves it in place only under an open circuit, a failed write,
        or when no other account is selectable. */
    method MarkAccountResult(id: string, outcome: AccountOutcome, now: int) returns (advanced: bool)
      requires Valid() && now >= health.clock
      modifies this, health
      ensures Valid() && Keeps() && list == old(list)
      ensures old(activeID) in list ==> (advanced <==> !SamePointer())
      ensures old(activeID) in list && advanced ==>
                && generation == old(generation) + 1 && old(activeID) == Text.Trim(id) != activeID
                && outcome.Failed? && outcome.failure !in {PolicyRefusal, Local}
                && IsSuccessor(list, health.State(), old(activeID), activeID, now)
      ensures advanced ==> Text.Trim(id) != "" && outcome.Failed? && outcome.failure !in {PolicyRefusal, Local}
                           && (circuitUntil == 0 || circuitUntil <= now)
      ensures old(activeID) in list && old(activeID) == Text.Trim(id) != "" && outcome.Failed?
              && outcome.failure !in {PolicyRefusal, Local} && !advanced ==>
                now < circuitUntil || !writable(old(writes)) || NoSuccessor(list, health.State(), activeID, now)
      ensures health.log == old(health.log) +
                (if Text.Trim(id) != "" && outcome.Failed? && outcome.failure != Local
                 then [SignalOf(Text.Trim(id), outcome.failure, now)]
                 else if Text.Trim(id) != "" && outcome.Ok? && activeID == Text.Trim(id)
                         && (old(activeID) in list || list == [] || writable(old(writes)))
                 then [Succeeded(Text.Trim(id), now)]
                 else [])
      ensures Text.Trim(id) != "" && outcome.Failed? ==>
                Hurts(old(health.State()), health.State(), Text.Trim(id), outcome.failure, now)
      ensures Text.Trim(id) == "" || outcome.Ok? ==>
                forall a, t | t >= now :: Selectable(health.State(), a, t) <==> Selectable(old(health.State()), a, t)
      ensures Text.Trim(id) == "" || outcome == Failed(Local) ==> writes == old(writes) && disk == old(disk)
      ensures Text.Trim(id) != "" && outcome.Failed? && outcome.failure != Local ==>
                && writes > old(writes) && (writable(old(writes)) ==> UpToDate())
                && (old(activeID) in list ==>
                      writes == old(writes) + 1 && (!writable(old(writes)) ==> disk == old(disk)))
      ensures circuitUntil ==
              if Text.Trim(id) != "" && outcome == Failed(Connection(true)) && now + 20 > old(circuitUntil)
                 && exists other :: other != Text.Trim(id) && other in old(sharedFailures)
                                    && now - old(sharedFailures)[other] <= 12
              then now + 20 else old(circuitUntil)
    {
      hide Trimmed, Explains, Coherent, ListOk, IsSuccessor, NoSuccessor, RestsUntil, IsOut, Selectable;
      var account := Text.Trim(id);
      if account == "" {
        return false;
      }
      match outcome
      case Ok =>
        var ok := EnsureActive();
        if ok && activeID == account {
          health.MarkSuccess(account, now);
        }
        return false;
      case Failed(f) =>
        if f == PolicyRefusal {
          RecordFailure(account, f, now);
          var saved := Persist(activeID);
          return false;
        }
        if f == Local {
          return false;
        }
        advanced := HandleFailure(account, f, now);
    }

    /** A failure that says something about the account, other than a refusal. */
    method HandleFailure(account: string, f: Failure, now: int) returns (advanced: bool)
      requires Valid() && now >= health.clock && account != "" && f !in {PolicyRefusal, Local}
      modifies this, health
      ensures Valid() && Keeps() && list == old(list)
      ensures old(activeID) in list ==> (advanced <==> !SamePointer())
      ensures old(activeID) in list && advanced ==>
                && generation == old(generation) + 1 && old(activeID) == account != activeID
                && IsSuccessor(list, health.State(), old(activeID), activeID, now)
      ensures advanced ==> circuitUntil == 0 || circuitUntil <= now
      ensures old(activeID) in list && old(activeID) == account && !advanced ==>
                now < circuitUntil || !writable(old(writes)) || NoSuccessor(list, health.State(), activeID, now)
      ensures health.log == old(health.log) + [SignalOf(account, f, now)]
      ensures Hurts(old(health.State()), health.State(), account, f, now)
      ensures writes > old(writes) && (writable(old(writes)) ==> UpToDate())
      ensures old(activeID) in list ==>
                writes == old(writes) + 1 && (!writable(old(writes)) ==> disk == old(disk))
      ensures circuitUntil ==
              if f == Connection(true) && now + 20 > old(circuitUntil)
                 && exists other :: other != account && other in old(sharedFailures)
                                    && now - old(sharedFailures)[other] <= 12
              then now + 20 else old(circuitUntil)
    {
      hide Trimmed, Explains, Coherent, ListOk, IsSuccessor, NoSuccessor, Hurts, SignalOf, Selectable;
      RecordFailure(account, f, now);
      var tripped := ObserveSharedFailure(account, f, now);
      var ok := true;
      advanced := false;
      if !tripped && !(circuitUntil != 0 && now < circuitUntil) {
        advanced, ok := AdvanceActive(account, now);
      }
      if ok && !advanced {
        ok := Persist(activeID);
      }
    }

    method RecordFailure(id: string, f: Failure, now: int)
      requires Valid() && now >= health.clock
      modifies health
      requires f != Local
      ensures Valid() && health.clock == now && health.log == old(health.log) + [SignalOf(id, f, now)]
      ensures Hurts(old(health.State()), health.State(), id, f, now)
    {
      match f
      case PolicyRefusal => health.MarkDisengaged(id, now);
      case Quota(until) => health.MarkQuotaExhausted(id, until, now);
      case RateLimit(until) => health.MarkRateLimited(id, until, now);
      case Auth => health.MarkAuthFail(id, now);
      case Connection(_) => health.MarkTransient(id, now);
      case Local => assert false;
    }

    /** The generation to tag a write with, and whether the writer is active: if so,
        it owns that generation for good. */
    method RouteVersion(id: string) returns (version: nat, authoritative: bool)
      requires Valid()
      modifies this`activeID, this`generation, this`owner, this`disk, this`writes
      ensures Valid() && Keeps() && version == generation
      ensures authoritative ==> version in owner && owner[version] == Text.Trim(id) == activeID
      ensures old(activeID) in list ==> SamePointer() && (authoritative <==> Text.Trim(id) == activeID)
      ensures authoritative <==> (old(activeID) in list || writable(old(writes))) && list != []
                                 && Text.Trim(id) == if old(activeID) in list then old(activeID) else list[0]
    {
      hide Text.Trim, Explains;
      NobodyIsBlank(list);
      assert list != [] ==> list[0] in list;
      var ok := EnsureActive();
      authoritative := ok && Text.Trim(id) != "" && activeID == Text.Trim(id);
      version := generation;
    }

    /** Admits a turn of the active account, under a lease that stays true for good. */
    method BeginRequest(id: string) returns (admitted: Admission)
      requires Valid()
      modifies this`activeID, this`generation, this`owner, this`disk, this`writes, this`leases, this`lastLease
      ensures Valid() && Keeps()
      ensures old(activeID) in list ==> SamePointer()
      ensures admitted.Admitted? <==> (old(activeID) in list || writable(old(writes))) && list != []
                                      && Text.Trim(id) == if old(activeID) in list then old(activeID) else list[0]
      ensures admitted.Admitted? ==>
                && admitted.lease == Lease(activeID, generation) && activeID == Text.Trim(id) && Minted(admitted.lease)
                && admitted.leaseID !in old(leases) && leases == old(leases) + {admitted.leaseID}
      ensures admitted.Refused? ==> leases == old(leases)
    {
      hide Text.Trim, Explains;
      NobodyIsBlank(list);
      assert list != [] ==> list[0] in list;
      var account := Text.Trim(id);
      var ok := EnsureActive();
      if !ok || account == "" || account != activeID {
        return Refused;
      }
      lastLease := lastLease + 1;
      leases := leases + {lastLease};
      return Admitted(lastLease, Lease(account, generation));
    }

    /** Admits an upstream call: of the account its turn is leased to, even when the
        pointer has moved since, or else of the active account only. So every call
        goes out on an account that is active or was when its turn began. */
    method BeginCall(carried: Option<Lease>, id: string) returns (admitted: bool, leaseID: Option<nat>)
      requires Valid() && (carried.Some? ==> Minted(carried.value))
      modifies this`activeID, this`generation, this`owner, this`disk, this`writes, this`leases, this`lastLease
      ensures Valid() && Keeps()
      ensures admitted ==> exists g :: g in owner && owner[g] == Text.Trim(id)
      ensures carried.Some? && Text.Trim(id) != "" && carried.value.accountID == Text.Trim(id) ==>
                admitted && leaseID == None && SamePointer() && leases == old(leases)
      ensures !(carried.Some? && carried.value.accountID == Text.Trim(id)) && old(activeID) in list ==>
                SamePointer()
      ensures !(carried.Some? && Text.Trim(id) != "" && carried.value.accountID == Text.Trim(id)) ==>
                && (admitted <==> leaseID.Some?)
                && (admitted <==> (old(activeID) in list || writable(old(writes))) && list != []
                                  && id == if old(activeID) in list then old(activeID) else list[0])
      ensures leaseID.Some? ==> leaseID.value !in old(leases) && leases == old(leases) + {leaseID.value}
      ensures leaseID.None? ==> leases == old(leases)
    {
      hide Text.Trim, Explains;
      NobodyIsBlank(list);
      assert list != [] ==> list[0] in list;
      if carried.Some? {
        if Text.Trim(id) != "" && carried.value.accountID == Text.Trim(id) {
          return true, None;
        }
      }
      var ok := EnsureActive();
      if !ok || id == "" || id != activeID {
        return false, None;
      }
      lastLease := lastLease + 1;
      leases := leases + {lastLease};
      return true, Some(lastLease);
    }

    /** Gives a lease back once; a second release of it changes nothing. */
    method Release(leaseID: nat)
      requires Valid()
      modifies this`leases
      ensures Valid() && leases == old(leases) - {leaseID}
    {
      if leaseID in leases {
        leases := leases - {leaseID};
      }
    }

    /** Removing an account moves the pointer only if it was the active one, and then
        to its next neighbour, healthy or not. */
    method DeleteAccount(id: string, deletable: bool) returns (ok: bool)
      requires Valid()
      modifies this
      ensures Valid() && Keeps()
      ensures list == if deletable && (old(activeID) in old(list) || old(list) == [] || writable(old(writes)))
                      then Without(old(list), id) else old(list)
      ensures old(activeID) in old(list) && (!deletable || id != old(activeID)) ==> SamePointer() && ok == deletable
      ensures old(activeID) in old(list) && deletable && id == old(activeID) ==>
                && ok == writable(old(writes))
                && (if !ok then SamePointer() else
                      && generation == old(generation) + 1
                      && (if |old(list)| == 1 then activeID == "" && list == []
                          else activeID == Around(old(list), IndexOf(old(list), id), 1)))
    {
      hide Text.Trim, Explains, Coherent, Without;
      ok := EnsureActive();
      if !ok {
        return false;
      }
      var activeIndex := IndexOf(list, activeID);
      if !deletable {
        return false;
      }
      ghost var before := list;
      WithoutOk(list, id);
      list := Without(list, id);
      if id != activeID {
        return true;
      }
      if |list| == 0 {
        ok := ActivateAccount("");
        return;
      }
      NextNeighbour(before, activeIndex);
      assert list[activeIndex % |list|] in list;
      ok := ActivateAccount(list[activeIndex % |list|]);
    }

    method AddAccount(id: string)
      requires Valid() && Trimmed(id)
      modifies this`list
      ensures Valid() && list == if id in old(list) then old(list) else old(list) + [id]
    {
      if IndexOf(list, id) < 0 {
        list := list + [id];
      }
    }

    /** Reads the saved pointer back, at the newest generation that the file or the
        stored sessions remember. */
    method Reload(sessionFloor: nat)
      requires Valid()
      modifies this
      ensures Valid() && list == old(list) && disk == old(disk)
      ensures activeID == if disk.Saved? then disk.active else ""
      ensures generation == Larger(SavedGeneration(disk), sessionFloor)
      ensures sharedFailures == map[] && circuitUntil == 0
      ensures old(generation) <= generation ==> Grows()
    {
      hide ListOk, Coherent, OwnersAfter, Explains;
      activeID, generation := "", 0;
      if disk.Saved? {
        activeID, generation := disk.active, disk.generation;
      }
      if sessionFloor > generation {
        generation := sessionFloor;
      }
      sharedFailures, circuitUntil := map[], 0;
      ReloadCoherent(old(activeID), old(generation), owner, disk, generation);
      owner := OwnersAfter(owner, old(generation), generation, activeID);
    }

    /** A restart goes on from there, and keeps what every generation meant. */
    method Restart(sessionFloor: nat) returns (ok: bool)
      requires Valid()
      modifies this
      ensures Valid() && list == old(list)
      ensures old(generation) <= Larger(SavedGeneration(old(disk)), sessionFloor) ==> Grows()
      ensures old(Durable()) && sessionFloor <= old(generation) && old(disk).Saved? && old(disk).active in list ==>
                ok && activeID == old(disk).active && generation == old(generation)
      ensures sharedFailures == map[] && circuitUntil == 0
      ensures ok && list != [] ==> activeID in list
      ensures old(disk).Saved? && old(disk).active in list ==> ok && activeID == old(disk).active
      ensures ok && list != [] && !(old(disk).Saved? && old(disk).active in list) ==> activeID == list[0]
    {
      hide ListOk, Trimmed, Explains;
      NobodyIsBlank(list);
      Reload(sessionFloor);
      ok := EnsureActive();
    }
  }

  function Larger(a: int, b: int): int {
    if a >= b then a else b
  }

  datatype AccountOutcome = Ok | Failed(failure: Failure)

  lemma OnlyOne(m: map<string, int>, id: string)
    requires id in m && |m| < 2
    ensures forall other | other in m :: other == id
  {
    var rest := m.Keys - {id};
    assert m.Keys == rest + {id} && |m.Keys| == |rest| + 1;
    forall other | other in m ensures other == id {
      assert other !in rest;
    }
  }

  lemma Another(m: map<string, int>, id: string) returns (other: string)
    requires id in m && |m| >= 2
    ensures other in m && other != id
  {
    var rest := m.Keys - {id};
    assert m.Keys == rest + {id} && |m.Keys| == |rest| + 1;
    other :| other in rest;
  }

  /** After an account is taken out, its old position holds its next neighbour. */
  lemma NextNeighbour<T>(list: seq<T>, i: nat)
    requires Distinct(list) && i < |list| && |list| > 1
    ensures var after := Without(list, list[i]);
            |after| == |list| - 1 && after[i % |after|] == Around(list, i, 1)
    ensures Around(list, i, 1) != list[i]
  {
    hide Without;
    WithoutAt(list, i);
    SuccessorDiffers(list, i, 1);
    var after := list[..i] + list[i + 1..];
    Wraps(i, |after|);
    Wraps(i + 1, |list|);
  }
}
