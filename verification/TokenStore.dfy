/**
 The token store itself. Each method is one critical section, or one action between two
 sections, of the thread that calls it, and takes exactly that step of the protocol.
 */
module TokenStore {
  import opened Chat
  import opened TokenRefresh

  /** The accounts with another id, in order. */
  function Without(accounts: seq<Token>, id: string): (r: seq<Token>)
    ensures forall a | a in r :: a.id != id && a in accounts
    ensures forall a | a in accounts && a.id != id :: a in r
  {
    if accounts == [] then []
    else
      var last := accounts[|accounts| - 1];
      Without(accounts[..|accounts| - 1], id) + (if last.id == id then [] else [last])
  }

  lemma WithoutLast(a: seq<Token>, last: Token, id: string)
    ensures Without(a + [last], id) == Without(a, id) + if last.id == id then [] else [last]
  {
    assert (a + [last])[..|a|] == a;
  }

  /** Each account stays or goes on its own, and the order is kept. */
  lemma {:induction false} WithoutEach(a: seq<Token>, b: seq<Token>, id: string)
    ensures Without(a + b, id) == Without(a, id) + Without(b, id)
    decreases |b|
  {
    hide Without;
    if b == [] {
      assert a + b == a;
      NobodyLeft(id);
    } else {
      var c, last := b[..|b| - 1], b[|b| - 1];
      WithoutEach(a, c, id);
      WithoutLast(a + c, last, id);
      WithoutLast(c, last, id);
      assert a + b == (a + c) + [last] && b == c + [last];
    }
  }

  lemma NobodyLeft(id: string)
    ensures Without([], id) == []
  {
  }

  // ------------------------------------------------------ accounts, by position

  predicate GoesBy(a: Token, name: string) {
    name == a.id || name == a.oid || name == a.email
  }

  /** The first account that goes by a name, or has an id. */
  predicate FirstNamed(accounts: seq<Token>, name: string, i: nat) {
    i < |accounts| && GoesBy(accounts[i], name) && forall j | 0 <= j < i :: !GoesBy(accounts[j], name)
  }

  predicate FirstWith(accounts: seq<Token>, id: string, i: nat) {
    i < |accounts| && accounts[i].id == id && forall j | 0 <= j < i :: accounts[j].id != id
  }

  predicate SamePerson(a: Token, acc: Token) {
    a.id == acc.id || (acc.email != "" && a.email == acc.email)
  }

  /** A token goes over the first account of the same person, or to the end of the list. It
      keeps the refresh token, the object id and the proxy of that account unless it brings
      its own, and everything else is as it brings it. */
  ghost predicate FiledOver(before: seq<Token>, acc: Token, after: seq<Token>, stored: Token) {
    && stored == acc.(refreshToken := stored.refreshToken, oid := stored.oid, proxy := stored.proxy)
    && (acc.refreshToken != "" ==> stored.refreshToken == acc.refreshToken)
    && (acc.oid != "" ==> stored.oid == acc.oid) && (acc.proxy != "" ==> stored.proxy == acc.proxy)
    && ((forall a | a in before :: !SamePerson(a, acc)) ==> stored == acc && after == before + [acc])
    && forall i: nat | i < |before| && SamePerson(before[i], acc)
                       && (forall j | 0 <= j < i :: !SamePerson(before[j], acc)) ::
         && after == before[i := stored]
         && (acc.refreshToken == "" ==> stored.refreshToken == before[i].refreshToken)
         && (acc.oid == "" ==> stored.oid == before[i].oid) && (acc.proxy == "" ==> stored.proxy == before[i].proxy)
  }

  lemma UpsertFiles(accounts: seq<Token>, acc: Token)
    ensures FiledOver(accounts, acc, Upserted(accounts, acc).0, Upserted(accounts, acc).1)
  {
    hide Upserted;
    if exists k: nat :: k < |accounts| && SamePerson(accounts[k], acc) {
      var k: nat :| k < |accounts| && SamePerson(accounts[k], acc);
      var i := FirstOfPerson(accounts, acc, k);
      UpsertedAt(accounts, acc, i);
    } else {
      UpsertedAt(accounts, acc, |accounts|);
    }
  }

  lemma {:induction false} FirstOfPerson(accounts: seq<Token>, acc: Token, k: nat) returns (i: nat)
    requires k < |accounts| && SamePerson(accounts[k], acc)
    ensures i <= k && SamePerson(accounts[i], acc) && forall j | 0 <= j < i :: !SamePerson(accounts[j], acc)
  {
    i := k;
    if j: nat :| j < k && SamePerson(accounts[j], acc) {
      i := FirstOfPerson(accounts, acc, j);
    }
  }

  /** What is filed for a grant: whatever it leaves blank is filled from the account it was
      redeemed for, or made up, and the account is online again. */
  lemma GrantCompletes(acc: Token, granted: Token, spareID: string)
    ensures var c := Completed(acc, granted, spareID);
            && c.accessToken == granted.accessToken && c.refreshToken == granted.refreshToken
            && c.expiresAt == granted.expiresAt && c.online
            && c.email == (if granted.email != "" then granted.email else acc.email)
            && (granted.oid != "" ==> c.id == c.oid == granted.oid)
            && (granted.oid == "" && acc.oid != "" ==> c.id == c.oid == acc.oid)
            && (granted.oid == "" && acc.oid == "" && acc.id != "" ==> c.id == c.oid == acc.id)
            && (granted.oid == "" && acc.oid == "" && acc.id == "" ==>
                  c.id == c.oid == if c.email != "" then c.email else spareID)
  {
  }

  /** Where a caller with an expired copy finds itself: what it is told while the account
      rests, then the stored copy if that is fresh, then the flight that it joins or flies. */
  ghost predicate Entrance(w: World, snapshot: Token, flight: nat, s: Stage) {
    var id := snapshot.id;
    var taken := if id in w.inflight then Waiting(w.inflight[id]) else Redeeming(snapshot, flight);
    if id in w.backoff && w.clock < w.backoff[id] then
      s == Returned(Outcome(snapshot, Some(BackingOff(w.backoff[id]))), None)
    else
      && ((forall a | a in w.accounts :: a.id != id) ==> s == taken)
      && forall i: nat | FirstWith(w.accounts, id, i) ::
           s == if w.clock < w.accounts[i].expiresAt - 30 then Returned(Outcome(w.accounts[i], None), None)
                else if id in w.inflight then Waiting(w.inflight[id])
                else Redeeming(w.accounts[i], flight)
  }

  lemma EntranceIs(w: World, th: nat, snapshot: Token, flight: nat, s: Stage)
    requires Entered(w, th, snapshot, flight).threads[th] == s
    ensures Entrance(w, snapshot, flight, s)
  {
    hide Stored;
    var id := snapshot.id;
    forall i: nat | FirstWith(w.accounts, id, i) ensures Stored(w.accounts, id) == Some(w.accounts[i]) {
      StoredAt(w.accounts, id, i);
    }
  }

  class TokenStore {
    var accounts: seq<Token>
    var inflight: map<string, nat>
    var flights: map<nat, Flight>
    var nextFlight: nat
    var backoff: map<string, int>

    ghost var threads: map<nat, Stage>
    ghost var clock: int
    ghost var log: seq<Event>

    ghost function View(): World
      reads this
    {
      World(accounts, inflight, flights, backoff, threads, clock, log)
    }

    ghost predicate Valid()
      reads this
    {
      Inv(View()) && forall f | f in flights :: f < nextFlight
    }

    constructor (accounts: seq<Token>)
      ensures Valid() && Initial(View()) && this.accounts == accounts
    {
      this.accounts := accounts;
      inflight, flights, nextFlight, backoff := map[], map[], 0, map[];
      threads, clock, log := map[], 0, [];
      new;
      InitialInv(View());
    }

    /** The position of the first account with the id, or the number of accounts. */
    method Position(id: string) returns (i: nat)
      ensures i <= |accounts| && (i < |accounts| ==> accounts[i].id == id)
      ensures Stored(accounts, id) == if i < |accounts| then Some(accounts[i]) else None
      ensures forall j | 0 <= j < i :: accounts[j].id != id
    {
      i := 0;
      while i < |accounts|
        invariant i <= |accounts| && forall j | 0 <= j < i :: accounts[j].id != id
      {
        if accounts[i].id == id {
          StoredAt(accounts, id, i);
          return;
        }
        i := i + 1;
      }
    }

    /** The first account that goes by the name. */
    method Get(id: string) returns (acc: Option<Token>)
      ensures acc.None? <==> forall a | a in accounts :: !GoesBy(a, id)
      ensures acc.Some? ==> exists i: nat :: FirstNamed(accounts, id, i) && acc.value == accounts[i]
      ensures forall i: nat | FirstNamed(accounts, id, i) :: acc == Some(accounts[i])
    {
      var i := 0;
      while i < |accounts|
        invariant i <= |accounts|
        invariant forall j | 0 <= j < i :: !GoesBy(accounts[j], id)
      {
        var a := accounts[i];
        if a.id == id || a.oid == id || a.email == id {
          assert FirstNamed(accounts, id, i);
          return Some(a);
        }
        i := i + 1;
      }
      return None;
    }

    /** What a caller does before any redemption. Nobody by the name: it is told so. The
        first account by the name is good for another thirty seconds: it has that. Otherwise
        the account has expired for good, or the caller goes on to a refresh. */
    method EnsureValid(ghost th: nat, id: string, now: int) returns (s: Stage)
      requires Valid() && now == clock && th !in threads
      modifies this`threads
      ensures Valid() && threads == old(threads)[th := s]
      ensures (forall a | a in accounts :: !GoesBy(a, id)) ==> s == Returned(Outcome(NO_TOKEN, Some(Unknown)), None)
      ensures forall i: nat | FirstNamed(accounts, id, i) ::
                s == if now < accounts[i].expiresAt - 30 then Returned(Outcome(accounts[i], None), None)
                     else if accounts[i].refreshToken == "" then Expiring(accounts[i])
                     else Called(accounts[i])
      ensures s.Returned? ==> Answers(old(View()), View(), th, s.outcome)
      ensures s.Expiring? ==> FindsExpired(old(View()), View(), th, s.snapshot)
      ensures s.Called? ==> Calls(old(View()), View(), th, s.snapshot)
    {
      hide Inv;
      var acc := Get(id);
      if acc.None? {
        s := Returned(Outcome(NO_TOKEN, Some(Unknown)), None);
      } else if now < acc.value.expiresAt - FRESHNESS_MARGIN {
        s := Returned(Outcome(acc.value, None), None);
      } else if acc.value.refreshToken == "" {
        s := Expiring(acc.value);
      } else {
        s := Called(acc.value);
      }
      threads := threads[th := s];
      assert s.Returned? ==> Answers(old(View()), View(), th, s.outcome);
      assert s.Expiring? ==> FindsExpired(old(View()), View(), th, s.snapshot);
      assert s.Called? ==> Calls(old(View()), View(), th, s.snapshot);
      assert CallerSteps(old(View()), View(), th);
      CallerStepKeeps(old(View()), View(), th);
    }

    method MarkExpired(ghost th: nat, snapshot: Token, saved: bool) returns (o: Outcome)
      requires Valid() && th in threads && threads[th] == Expiring(snapshot)
      modifies this`threads, this`accounts
      ensures Valid() && MarksExpired(old(View()), View(), th, saved)
      ensures threads[th] == Returned(o, None) && o == Outcome(snapshot.(online := false), Some(Expired))
    {
      hide Inv;
      var acc := snapshot.(online := false);
      var found := WriteBack(acc, saved);
      o := Outcome(acc, Some(Expired));
      threads := threads[th := Returned(o, None)];
      assert MarksExpired(old(View()), View(), th, saved);
      assert CallerSteps(old(View()), View(), th);
      CallerStepKeeps(old(View()), View(), th);
    }

    method WriteBack(acc: Token, saved: bool) returns (found: bool)
      modifies this`accounts
      ensures accounts == if saved then Overwritten(old(accounts), acc) else old(accounts)
      ensures found <==> Stored(old(accounts), acc.id).Some?
      ensures found <==> exists a :: a in old(accounts) && a.id == acc.id
      ensures forall i: nat | FirstWith(old(accounts), acc.id, i) ::
                accounts == if saved then old(accounts)[i := acc] else old(accounts)
      ensures !found ==> accounts == old(accounts)
    {
      var i := Position(acc.id);
      found := i < |accounts|;
      if found {
        OverwrittenAt(accounts, acc, i);
        if saved {
          accounts := accounts[i := acc];
        }
      } else {
        NothingOverwritten(accounts, acc);
      }
    }

    /** The first critical section of a refresh. While the account rests the caller is told
        until when. If the stored copy is good for another thirty seconds, somebody has
        refreshed it. Otherwise the caller joins the flight for the account or takes off
        itself, with the stored copy if there is one. */
    method Enter(ghost th: nat, snapshot: Token, now: int) returns (s: Stage)
      requires Valid() && now == clock && th in threads && threads[th] == Called(snapshot)
      modifies this
      ensures Valid() && Enters(old(View()), View(), th, old(nextFlight)) && threads[th] == s
      ensures Entrance(old(View()), snapshot, old(nextFlight), s)
      ensures accounts == old(accounts)
      ensures backoff == if s.Returned? && s.outcome.err.Some? then old(backoff) else old(backoff) - {snapshot.id}
      ensures inflight == if s.Redeeming? then old(inflight)[snapshot.id := old(nextFlight)] else old(inflight)
      ensures flights == if s.Redeeming? then old(flights)[old(nextFlight) := Open] else old(flights)
    {
      hide Inv, Entrance;
      s := Decide(th, snapshot, now);
      EntranceIs(old(View()), th, snapshot, old(nextFlight), s);
      EntersKeeps(old(View()), View(), th, old(nextFlight));
    }

    method Decide(ghost th: nat, snapshot: Token, now: int) returns (s: Stage)
      requires now == clock && th in threads && threads[th] == Called(snapshot)
      requires forall f | f in flights :: f < nextFlight
      modifies this
      ensures View() == Entered(old(View()), th, snapshot, old(nextFlight)) && threads[th] == s
      ensures forall f | f in flights :: f < nextFlight
    {
      hide Stored;
      var id := snapshot.id;
      if id in backoff {
        if now < backoff[id] {
          s := Returned(Outcome(snapshot, Some(BackingOff(backoff[id]))), None);
          threads := threads[th := s];
          return;
        }
        backoff := backoff - {id};
      }
      var acc := snapshot;
      var i := Position(id);
      if i < |accounts| {
        acc := accounts[i];
      }
      if i < |accounts| && now < acc.expiresAt - FRESHNESS_MARGIN {
        s := Returned(Outcome(acc, None), None);
      } else if id in inflight {
        s := Waiting(inflight[id]);
      } else {
        s := Redeeming(acc, nextFlight);
        log := log + [Began(id, now, if i < |accounts| then Some(acc) else None)];
        inflight, flights, nextFlight := inflight[id := nextFlight], flights[nextFlight := Open], nextFlight + 1;
      }
      threads := threads[th := s];
    }

    method FailOnProxy(ghost th: nat, acc: Token, flight: nat) returns (o: Outcome)
      requires Valid() && th in threads && threads[th] == Redeeming(acc, flight)
      modifies this`threads, this`log
      ensures Valid() && LacksProxy(old(View()), View(), th) && threads[th] == Publishing(acc.id, flight, o)
      ensures o == Outcome(acc, Some(NoProxy))
    {
      hide Inv;
      o := Outcome(acc, Some(NoProxy));
      threads, log := threads[th := Publishing(acc.id, flight, o)], log + [Ended(acc.id, clock, false)];
      assert PilotSteps(old(View()), View(), th);
      PilotStepKeeps(old(View()), View(), th);
    }

    method RecordFailure(ghost th: nat, failing: Token, flight: nat, now: int, saved: bool) returns (o: Outcome)
      requires Valid() && now == clock && th in threads && threads[th] == Redeeming(failing, flight)
      modifies this`threads, this`log, this`backoff, this`accounts
      ensures Valid() && RedemptionFails(old(View()), View(), th, saved)
      ensures threads[th] == Publishing(failing.id, flight, o)
      ensures backoff == old(backoff)[failing.id := now + 300]
      ensures forall i: nat | FirstWith(old(accounts), failing.id, i) ::
                && o == Outcome(failing.(online := false), Some(Refused(saved)))
                && accounts == if saved then old(accounts)[i := failing.(online := false)] else old(accounts)
      ensures (forall a | a in old(accounts) :: a.id != failing.id) ==>
                o == Outcome(failing.(online := false), Some(Refused(true))) && accounts == old(accounts)
    {
      hide Inv, Stored;
      var acc := failing.(online := false);
      backoff := backoff[acc.id := now + REFRESH_BACKOFF];
      var found := WriteBack(acc, saved);
      o := Outcome(acc, Some(Refused(saved || !found)));
      threads, log := threads[th := Publishing(acc.id, flight, o)], log + [Ended(acc.id, now, true)];
      assert RedemptionFails(old(View()), View(), th, saved);
      PilotStepKeeps(old(View()), View(), th);
    }

    /** Files a token over the first account that matches, or as a new one. */
    method Upsert(acc: Token, saved: bool) returns (o: Outcome)
      modifies this`accounts
      ensures var filed := Upserted(old(accounts), acc);
              && accounts == (if saved then filed.0 else old(accounts))
              && o == (if saved then Outcome(filed.1, None) else Outcome(NO_TOKEN, Some(NotSaved)))
      ensures saved ==> FiledOver(old(accounts), acc, accounts, o.acc)
    {
      var i := 0;
      while i < |accounts| && !Matches(accounts[i], acc)
        invariant i <= |accounts| && forall j | 0 <= j < i :: !Matches(accounts[j], acc)
      {
        i := i + 1;
      }
      UpsertedAt(accounts, acc, i);
      UpsertFiles(accounts, acc);
      var stored := if i < |accounts| then Merged(accounts[i], acc) else acc;
      if !saved {
        return Outcome(NO_TOKEN, Some(NotSaved));
      }
      accounts := if i < |accounts| then accounts[i := stored] else accounts + [stored];
      return Outcome(stored, None);
    }

    method RecordGrant(ghost th: nat, acc: Token, flight: nat, granted: Token, spareID: string, saved: bool)
      returns (o: Outcome)
      requires Valid() && th in threads && threads[th] == Redeeming(acc, flight)
      modifies this`threads, this`log, this`accounts
      ensures Valid() && RedemptionSucceeds(old(View()), View(), th, granted, spareID, saved)
      ensures threads[th] == Clearing(acc.id, flight, o)
      ensures if saved then o.err == None && FiledOver(old(accounts), Completed(acc, granted, spareID), accounts, o.acc)
              else o == Outcome(NO_TOKEN, Some(NotSaved)) && accounts == old(accounts)
    {
      hide Inv;
      o := Upsert(Completed(acc, granted, spareID), saved);
      threads, log := threads[th := Clearing(acc.id, flight, o)], log + [Ended(acc.id, clock, false)];
      assert RedemptionSucceeds(old(View()), View(), th, granted, spareID, saved);
      PilotStepKeeps(old(View()), View(), th);
    }

    method ClearBackoff(ghost th: nat, id: string, flight: nat, o: Outcome)
      requires Valid() && th in threads && threads[th] == Clearing(id, flight, o)
      modifies this`threads, this`backoff
      ensures Valid() && ClearsBackoff(old(View()), View(), th) && backoff == old(backoff) - {id}
    {
      hide Inv;
      backoff := backoff - {id};
      threads := threads[th := Publishing(id, flight, o)];
      ClearsBackoffKeeps(old(View()), View(), th);
    }

    method Publish(ghost th: nat, ghost id: string, flight: nat, o: Outcome)
      requires Valid() && th in threads && threads[th] == Publishing(id, flight, o)
      modifies this`threads, this`flights
      ensures Valid() && Publishes(old(View()), View(), th) && flights == old(flights)[flight := Landed(o)]
    {
      assert flight in flights;
      flights := flights[flight := Landed(o)];
      threads := threads[th := Removing(id, flight, o)];
      PublishesKeeps(old(View()), View(), th);
    }

    method Remove(ghost th: nat, id: string, ghost flight: nat, ghost o: Outcome)
      requires Valid() && th in threads && threads[th] == Removing(id, flight, o)
      modifies this`threads, this`inflight
      ensures Valid() && Removes(old(View()), View(), th)
      ensures inflight == old(inflight) - {id} && threads[th] == Returned(o, Some(flight))
    {
      hide Inv;
      inflight := inflight - {id};
      threads := threads[th := Returned(o, Some(flight))];
      RemovesKeeps(old(View()), View(), th);
    }

    /** A waiter goes on once its flight has landed. */
    method Wake(ghost th: nat, flight: nat) returns (o: Outcome)
      requires Valid() && th in threads && threads[th] == Waiting(flight)
      requires flight in flights && flights[flight].Landed?
      modifies this`threads
      ensures Valid() && Wakes(old(View()), View(), th) && threads[th] == Returned(o, Some(flight))
      ensures flights[flight] == Landed(o)
    {
      hide Inv;
      o := flights[flight].outcome;
      threads := threads[th := Returned(o, Some(flight))];
      assert CallerSteps(old(View()), View(), th);
      CallerStepKeeps(old(View()), View(), th);
    }

    // ------------------------------------------------- what happens in between

    method Tick(ghost now: int)
      requires Valid() && now >= clock
      modifies this`clock
      ensures Valid() && Drifts(old(View()), View()) && clock == now
    {
      hide Inv;
      clock := now;
      DriftKeeps(old(View()), View());
    }

    /** A caller that has its answer goes away. */
    ghost method Leave(th: nat)
      requires Valid() && th in threads && threads[th].Returned?
      modifies this`threads
      ensures Valid() && Drifts(old(View()), View()) && threads == old(threads) - {th}
    {
      hide Inv;
      threads := threads - {th};
      DriftKeeps(old(View()), View());
    }

    /** A login files its token in the middle of whatever is under way. */
    method Login(acc: Token, saved: bool) returns (o: Outcome)
      requires Valid()
      modifies this`accounts
      ensures Valid() && Drifts(old(View()), View())
      ensures accounts == if saved then Upserted(old(accounts), acc).0 else old(accounts)
    {
      hide Inv, Upserted;
      o := Upsert(acc, saved);
      DriftKeeps(old(View()), View());
    }

    /** Removes every account with the id, unless the write fails. */
    method Delete(id: string, saved: bool)
      requires Valid()
      modifies this`accounts
      ensures Valid() && Drifts(old(View()), View())
      ensures accounts == if saved then Without(old(accounts), id) else old(accounts)
    {
      hide Inv, Stored;
      var next: seq<Token> := [];
      var i := 0;
      while i < |accounts|
        invariant i <= |accounts|
        invariant next == Without(accounts[..i], id)
      {
        assert accounts[..i + 1][..i] == accounts[..i];
        if accounts[i].id != id {
          next := next + [accounts[i]];
        }
        i := i + 1;
      }
      assert accounts[..i] == accounts;
      if saved {
        accounts := next;
      }
      DriftKeeps(old(View()), View());
    }
  }
}
