/**
 Single-flight refresh of one-time refresh tokens (section 6 of RFC 6749). Callers are
 threads with program counters; every critical section and every action between two
 sections is one step, and steps of different threads interleave freely.
 */
module TokenRefresh {
  import opened Chat

  const FRESHNESS_MARGIN := 30
  const REFRESH_BACKOFF := 5 * 60

  datatype Token = Token(
    id: string,
    oid: string,
    email: string,
    accessToken: string,
    refreshToken: string,
    expiresAt: int,
    online: bool,
    proxy: string)

  const NO_TOKEN := Token("", "", "", "", "", 0, false, "")

  datatype Failure = Unknown | Expired | BackingOff(until: int) | NoProxy | Refused(persisted: bool) | NotSaved

  datatype Outcome = Outcome(acc: Token, err: Option<Failure>)

  /** What a flight shares with those who joined it. */
  datatype Flight = Open | Landed(outcome: Outcome)

  /** Where a thread is between two steps. The last four stages before Returned belong
      to the thread that flies the flight. */
  datatype Stage =
    | Called(snapshot: Token)
    | Expiring(snapshot: Token)
    | Waiting(flight: nat)
    | Redeeming(acc: Token, flight: nat)
    | Clearing(id: string, flight: nat, outcome: Outcome)
    | Publishing(id: string, flight: nat, outcome: Outcome)
    | Removing(id: string, flight: nat, outcome: Outcome)
    | Returned(outcome: Outcome, joined: Option<nat>)

  /** The history of redemptions: the copy stored when one began, and how it ended. */
  datatype Event =
    | Began(id: string, at: int, stored: Option<Token>)
    | Ended(id: string, at: int, failed: bool)

  datatype World = World(
    accounts: seq<Token>,
    inflight: map<string, nat>,
    flights: map<nat, Flight>,
    backoff: map<string, int>,
    threads: map<nat, Stage>,
    clock: int,
    log: seq<Event>)

  predicate Pilot(s: Stage) {
    s.Redeeming? || s.Clearing? || s.Publishing? || s.Removing?
  }

  function FliesFor(s: Stage): string
    requires Pilot(s)
  {
    if s.Redeeming? then s.acc.id else s.id
  }

  // ------------------------------------------------------------------ the store

  predicate Fresh(acc: Token, now: int) {
    now < acc.expiresAt - FRESHNESS_MARGIN
  }

  function Stored(accounts: seq<Token>, id: string): (r: Option<Token>)
    ensures r.None? <==> forall i | 0 <= i < |accounts| :: accounts[i].id != id
    ensures r.Some? ==> r.value in accounts && r.value.id == id
  {
    if accounts == [] then None
    else if accounts[0].id == id then Some(accounts[0])
    else Stored(accounts[1..], id)
  }

  /** The first account with the token's id gets the token written over it. */
  function Overwritten(accounts: seq<Token>, acc: Token): (r: seq<Token>)
    ensures |r| == |accounts|
  {
    if accounts == [] then []
    else if accounts[0].id == acc.id then [acc] + accounts[1..]
    else [accounts[0]] + Overwritten(accounts[1..], acc)
  }

  predicate Matches(existing: Token, acc: Token) {
    existing.id == acc.id || (acc.email != "" && existing.email == acc.email)
  }

  function Merged(existing: Token, acc: Token): Token {
    acc.(refreshToken := if acc.refreshToken == "" then existing.refreshToken else acc.refreshToken,
         oid := if acc.oid == "" then existing.oid else acc.oid,
         proxy := if acc.proxy == "" then existing.proxy else acc.proxy)
  }

  /** A refreshed token replaces the first account with its id or its email, whose
      refresh token and proxy it keeps if it brings none, or else is added. */
  function Upserted(accounts: seq<Token>, acc: Token): (r: (seq<Token>, Token))
    ensures r.1 in r.0 && r.1.id == acc.id && r.1.expiresAt == acc.expiresAt && r.1.accessToken == acc.accessToken
  {
    if accounts == [] then ([acc], acc)
    else
      var existing := accounts[0];
      if Matches(existing, acc) then
        ([Merged(existing, acc)] + accounts[1..], Merged(existing, acc))
      else
        var rest := Upserted(accounts[1..], acc);
        ([existing] + rest.0, rest.1)
  }

  // ------------------------------------------------------------------ the steps

  function Put(w: World, th: nat, s: Stage): World {
    w.(threads := w.threads[th := s])
  }

  predicate At(w: World, th: nat) {
    th in w.threads
  }

  ghost predicate Calls(w: World, w': World, th: nat, snapshot: Token) {
    !At(w, th) && w' == Put(w, th, Called(snapshot))
  }

  /** A caller that needs no redemption: nothing stored, still fresh, or no token. */
  ghost predicate Answers(w: World, w': World, th: nat, o: Outcome) {
    !At(w, th) && w' == Put(w, th, Returned(o, None))
  }

  ghost predicate FindsExpired(w: World, w': World, th: nat, snapshot: Token) {
    !At(w, th) && w' == Put(w, th, Expiring(snapshot))
  }

  ghost predicate MarksExpired(w: World, w': World, th: nat, saved: bool) {
    && At(w, th) && w.threads[th].Expiring?
    && var acc := w.threads[th].snapshot.(online := false);
    w' == Put(w, th, Returned(Outcome(acc, Some(Expired)), None))
          .(accounts := if saved then Overwritten(w.accounts, acc) else w.accounts)
  }

  function WithoutElapsed(w: World, id: string): World {
    if id in w.backoff then w.(backoff := w.backoff - {id}) else w
  }

  /** The first critical section of a refresh. */
  function Entered(w: World, th: nat, snapshot: Token, flight: nat): World {
    var id := snapshot.id;
    if id in w.backoff && w.clock < w.backoff[id] then
      Put(w, th, Returned(Outcome(snapshot, Some(BackingOff(w.backoff[id]))), None))
    else
      var w1 := WithoutElapsed(w, id);
      var stored := Stored(w.accounts, id);
      if stored.Some? && Fresh(stored.value, w.clock) then
        Put(w1, th, Returned(Outcome(stored.value, None), None))
      else
        var acc := if stored.Some? then stored.value else snapshot;
        if id in w.inflight then
          Put(w1, th, Waiting(w.inflight[id]))
        else
          Put(w1, th, Redeeming(acc, flight))
          .(inflight := w.inflight[id := flight], flights := w.flights[flight := Open],
            log := w.log + [Began(id, w.clock, stored)])
  }

  ghost predicate Enters(w: World, w': World, th: nat, flight: nat) {
    && At(w, th) && w.threads[th].Called? && flight !in w.flights
    && w' == Entered(w, th, w.threads[th].snapshot, flight)
  }

  ghost predicate LacksProxy(w: World, w': World, th: nat) {
    && At(w, th) && w.threads[th].Redeeming?
    && var acc := w.threads[th].acc;
    w' == Put(w, th, Publishing(acc.id, w.threads[th].flight, Outcome(acc, Some(NoProxy))))
          .(log := w.log + [Ended(acc.id, w.clock, false)])
  }

  ghost predicate RedemptionFails(w: World, w': World, th: nat, saved: bool) {
    && At(w, th) && w.threads[th].Redeeming?
    && var acc := w.threads[th].acc.(online := false);
    var persisted := saved || Stored(w.accounts, acc.id).None?;
    w' == Put(w, th, Publishing(acc.id, w.threads[th].flight, Outcome(acc, Some(Refused(persisted)))))
          .(backoff := w.backoff[acc.id := w.clock + REFRESH_BACKOFF],
            accounts := if saved then Overwritten(w.accounts, acc) else w.accounts,
            log := w.log + [Ended(acc.id, w.clock, true)])
  }

  /** What is filed for a redeemed token: blanks are filled from the old copy, and an
      account without any identity gets a made-up one. */
  function Completed(acc: Token, granted: Token, spareID: string): Token {
    var email := if granted.email == "" then acc.email else granted.email;
    var home := if granted.oid != "" then granted.oid else if acc.oid != "" then acc.oid else acc.id;
    var id := if home != "" then home else if email != "" then email else spareID;
    granted.(id := id, oid := if home != "" then home else id, email := email, online := true, proxy := "")
  }

  ghost predicate RedemptionSucceeds(w: World, w': World, th: nat, granted: Token, spareID: string, saved: bool) {
    && At(w, th) && w.threads[th].Redeeming?
    && var acc := w.threads[th].acc;
    var filed := Upserted(w.accounts, Completed(acc, granted, spareID));
    var outcome := if saved then Outcome(filed.1, None) else Outcome(NO_TOKEN, Some(NotSaved));
    w' == Put(w, th, Clearing(acc.id, w.threads[th].flight, outcome))
          .(accounts := if saved then filed.0 else w.accounts, log := w.log + [Ended(acc.id, w.clock, false)])
  }

  ghost predicate ClearsBackoff(w: World, w': World, th: nat) {
    && At(w, th) && w.threads[th].Clearing?
    && var s := w.threads[th];
    w' == Put(w, th, Publishing(s.id, s.flight, s.outcome)).(backoff := w.backoff - {s.id})
  }

  ghost predicate Publishes(w: World, w': World, th: nat) {
    && At(w, th) && w.threads[th].Publishing?
    && var s := w.threads[th];
    w' == Put(w, th, Removing(s.id, s.flight, s.outcome)).(flights := w.flights[s.flight := Landed(s.outcome)])
  }

  ghost predicate Removes(w: World, w': World, th: nat) {
    && At(w, th) && w.threads[th].Removing?
    && var s := w.threads[th];
    w' == Put(w, th, Returned(s.outcome, Some(s.flight))).(inflight := w.inflight - {s.id})
  }

  ghost predicate Wakes(w: World, w': World, th: nat) {
    && At(w, th) && w.threads[th].Waiting?
    && var f := w.threads[th].flight;
    && f in w.flights && w.flights[f].Landed?
    && w' == Put(w, th, Returned(w.flights[f].outcome, Some(f)))
  }

  /** Time passes, logins, deletions and proxy changes rewrite accounts, and callers
      that have their answer leave. */
  ghost predicate Drifts(w: World, w': World) {
    && w.clock <= w'.clock
    && w' == w.(clock := w'.clock, accounts := w'.accounts, threads := w'.threads)
    && (forall th | th in w'.threads :: th in w.threads && w'.threads[th] == w.threads[th])
    && (forall th | th in w.threads && th !in w'.threads :: w.threads[th].Returned?)
  }

  /** The redemption ends. */
  ghost predicate Lands(w: World, w': World, th: nat) {
    || LacksProxy(w, w', th)
    || (exists saved :: RedemptionFails(w, w', th, saved))
    || (exists granted, spareID, saved :: RedemptionSucceeds(w, w', th, granted, spareID, saved))
  }

  /** The steps of a thread that redeems a token for everybody. */
  ghost predicate PilotSteps(w: World, w': World, th: nat) {
    Lands(w, w', th) || ClearsBackoff(w, w', th) || Publishes(w, w', th) || Removes(w, w', th)
  }

  /** The steps of a thread that leaves redemption to others. */
  ghost predicate CallerSteps(w: World, w': World, th: nat) {
    || (exists snapshot :: Calls(w, w', th, snapshot))
    || (exists o :: Answers(w, w', th, o))
    || (exists snapshot :: FindsExpired(w, w', th, snapshot))
    || (exists saved :: MarksExpired(w, w', th, saved))
    || Wakes(w, w', th)
  }

  ghost predicate Steps(w: World, w': World, th: nat) {
    CallerSteps(w, w', th) || (exists flight :: Enters(w, w', th, flight)) || PilotSteps(w, w', th)
  }

  ghost predicate Next(w: World, w': World) {
    Drifts(w, w') || exists th :: Steps(w, w', th)
  }

  // --------------------------------------------------------------- the invariant

  /** Every flight in the index has a pilot, and no two pilots fly for one account. */
  ghost predicate PilotsAgree(w: World) {
    && (forall th | th in w.threads && Pilot(w.threads[th]) ::
          var id := FliesFor(w.threads[th]); id in w.inflight && w.inflight[id] == w.threads[th].flight)
    && (forall t1, t2 | t1 in w.threads && t2 in w.threads && t1 != t2
                        && Pilot(w.threads[t1]) && Pilot(w.threads[t2]) ::
          FliesFor(w.threads[t1]) != FliesFor(w.threads[t2]) && w.threads[t1].flight != w.threads[t2].flight)
    && (forall id | id in w.inflight ::
          exists th :: th in w.threads && Pilot(w.threads[th]) && FliesFor(w.threads[th]) == id)
  }

  ghost predicate Aloft(w: World, f: nat, th: nat) {
    th in w.threads && Pilot(w.threads[th]) && !w.threads[th].Removing? && w.threads[th].flight == f
  }

  /** A flight is open exactly while its pilot has not published. */
  ghost predicate FlightsAgree(w: World) {
    && (forall f | f in w.flights :: w.flights[f].Open? <==> exists th :: Aloft(w, f, th))
    && (forall th | th in w.threads ::
          var s := w.threads[th];
          && (Pilot(s) || s.Waiting? ==> s.flight in w.flights)
          && (s.Removing? ==> w.flights[s.flight] == Landed(s.outcome))
          && (s.Returned? && s.joined.Some? ==>
                s.joined.value in w.flights && w.flights[s.joined.value] == Landed(s.outcome)))
  }

  /** A redemption has begun and not ended. */
  ghost predicate Ongoing(log: seq<Event>, id: string) {
    exists i :: 0 <= i < |log| && log[i].Began? && log[i].id == id
                && forall j | i < j < |log| :: !(log[j].Ended? && log[j].id == id)
  }

  ghost predicate LogAgrees(w: World) {
    && (forall id :: Ongoing(w.log, id) <==>
          exists th :: th in w.threads && w.threads[th].Redeeming? && w.threads[th].acc.id == id)
    && forall i | 0 <= i < |w.log| :: w.log[i].at <= w.clock
  }

  ghost predicate Rested(log: seq<Event>, id: string, now: int) {
    forall i | 0 <= i < |log| && log[i].Ended? && log[i].failed && log[i].id == id :: now >= log[i].at + REFRESH_BACKOFF
  }

  /** A failure blocks its account until it has rested, and whoever redeems or has
      just redeemed its token began after that rest. */
  ghost predicate BackoffAgrees(w: World) {
    && (forall id :: Rested(w.log, id, w.clock)
                     || (id in w.backoff && Rested(w.log, id, w.backoff[id])))
    && (forall th | th in w.threads && (w.threads[th].Redeeming? || w.threads[th].Clearing?) ::
          Rested(w.log, FliesFor(w.threads[th]), w.clock))
  }

  /** What a redemption history promises. */
  ghost predicate Orderly(log: seq<Event>) {
    && OneAtATime(log)
    && (forall i, j | 0 <= i < j < |log| && log[i].Ended? && log[i].failed && log[j].Began? && log[j].id == log[i].id ::
          log[j].at >= log[i].at + REFRESH_BACKOFF)
    && (forall i | 0 <= i < |log| && log[i].Began? :: log[i].stored.Some? ==>
          log[i].stored.value.id == log[i].id && log[i].at >= log[i].stored.value.expiresAt - FRESHNESS_MARGIN)
  }

  /** Between two redemptions for one account the first has ended. */
  ghost predicate OneAtATime(log: seq<Event>) {
    forall i, j | 0 <= i < j < |log| && log[i].Began? && log[j].Began? && log[i].id == log[j].id ::
      exists k :: i < k < j && log[k].Ended? && log[k].id == log[i].id
  }

  ghost predicate Inv(w: World) {
    PilotsAgree(w) && FlightsAgree(w) && LogAgrees(w) && BackoffAgrees(w) && Orderly(w.log)
  }

  lemma OngoingMore(log: seq<Event>, e: Event, id: string)
    ensures Ongoing(log + [e], id) <==>
            if e.id != id then Ongoing(log, id) else e.Began?
  {
    var more := log + [e];
    assert more[|log|] == e;
    if Ongoing(log, id) && e.id != id {
      var i :| 0 <= i < |log| && log[i].Began? && log[i].id == id
               && forall j | i < j < |log| :: !(log[j].Ended? && log[j].id == id);
      assert more[i] == log[i];
    }
    if Ongoing(more, id) && e.id != id {
      var i :| 0 <= i < |more| && more[i].Began? && more[i].id == id
               && forall j | i < j < |more| :: !(more[j].Ended? && more[j].id == id);
      assert log[i] == more[i];
      forall j | i < j < |log| ensures !(log[j].Ended? && log[j].id == id) {
        assert more[j] == log[j];
      }
    }
  }

  lemma RestedMore(log: seq<Event>, e: Event, id: string, now: int)
    ensures Rested(log + [e], id, now) <==>
            Rested(log, id, now) && (e.Ended? && e.failed && e.id == id ==> now >= e.at + REFRESH_BACKOFF)
  {
    var more := log + [e];
    assert more[|log|] == e;
    assert forall i | 0 <= i < |log| :: more[i] == log[i];
  }

  lemma EndedKeepsOrder(log: seq<Event>, e: Event)
    requires Orderly(log) && e.Ended?
    ensures Orderly(log + [e])
  {
    var more := log + [e];
    assert forall i | 0 <= i < |log| :: more[i] == log[i];
    assert OneAtATime(more) by {
      forall i, j | 0 <= i < j < |more| && more[i].Began? && more[j].Began? && more[i].id == more[j].id
        ensures exists k :: i < k < j && more[k].Ended? && more[k].id == more[i].id
      {
        var k :| i < k < j && log[k].Ended? && log[k].id == log[i].id;
        assert more[k] == log[k];
      }
    }
  }

  /** A redemption may begin when none is ongoing, after the rest, on a stale copy. */
  lemma BeganKeepsOrder(log: seq<Event>, e: Event)
    requires Orderly(log) && e.Began? && !Ongoing(log, e.id) && Rested(log, e.id, e.at)
    requires e.stored.Some? ==> e.stored.value.id == e.id && !Fresh(e.stored.value, e.at)
    ensures Orderly(log + [e])
  {
    var more := log + [e];
    assert forall i | 0 <= i < |log| :: more[i] == log[i];
    assert OneAtATime(more) by {
      forall i, j | 0 <= i < j < |more| && more[i].Began? && more[j].Began? && more[i].id == more[j].id
        ensures exists k :: i < k < j && more[k].Ended? && more[k].id == more[i].id
      {
        if j < |log| {
          var k :| i < k < j && log[k].Ended? && log[k].id == log[i].id;
          assert more[k] == log[k];
        } else {
          assert log[i].id == e.id;
          var k :| i < k < |log| && log[k].Ended? && log[k].id == e.id;
          assert more[k] == log[k];
        }
      }
    }
  }

  // ------------------------------------------------------- every step keeps it

  predicate Harmless(w: World, s: Stage) {
    && !Pilot(s)
    && (s.Waiting? ==> s.flight in w.flights)
    && (s.Returned? && s.joined.Some? ==>
          s.joined.value in w.flights && w.flights[s.joined.value] == Landed(s.outcome))
  }

  lemma BystanderPilots(w: World, w': World, th: nat, s: Stage)
    requires PilotsAgree(w) && !Pilot(s) && (th in w.threads ==> !Pilot(w.threads[th]))
    requires w'.threads == w.threads[th := s] && w'.inflight == w.inflight
    ensures PilotsAgree(w')
  {
    forall id | id in w'.inflight
      ensures exists t :: t in w'.threads && Pilot(w'.threads[t]) && FliesFor(w'.threads[t]) == id
    {
      var t :| t in w.threads && Pilot(w.threads[t]) && FliesFor(w.threads[t]) == id;
      assert w'.threads[t] == w.threads[t];
    }
  }

  lemma BystanderFlights(w: World, w': World, th: nat, s: Stage)
    requires FlightsAgree(w) && Harmless(w, s) && (th in w.threads ==> !Pilot(w.threads[th]))
    requires w'.threads == w.threads[th := s] && w'.flights == w.flights
    ensures FlightsAgree(w')
  {
    forall f | f in w'.flights ensures w'.flights[f].Open? <==> exists t :: Aloft(w', f, t) {
      if t :| Aloft(w, f, t) {
        assert Aloft(w', f, t);
      }
      if t :| Aloft(w', f, t) {
        assert Aloft(w, f, t);
      }
    }
  }

  /** Steps of threads that fly nothing; they may drop backoffs that have elapsed. */
  lemma BystanderKeeps(w: World, w': World, th: nat, s: Stage)
    requires Inv(w) && Harmless(w, s) && (th in w.threads ==> !Pilot(w.threads[th]))
    requires w' == w.(threads := w.threads[th := s], accounts := w'.accounts, backoff := w'.backoff)
    requires forall id | id in w.backoff && !(id in w'.backoff && w'.backoff[id] == w.backoff[id]) ::
               w.backoff[id] <= w.clock
    ensures Inv(w')
  {
    hide Orderly, PilotsAgree, FlightsAgree, LogAgrees, BackoffAgrees;
    BystanderPilots(w, w', th, s);
    BystanderFlights(w, w', th, s);
    SameRedeemers(w, w');
    ElapsedKeeps(w, w');
  }

  lemma SameRedeemers(w: World, w': World)
    requires LogAgrees(w) && w'.log == w.log && w.clock <= w'.clock
    requires forall t | t in w.threads && w.threads[t].Redeeming? :: t in w'.threads && w'.threads[t] == w.threads[t]
    requires forall t | t in w'.threads && w'.threads[t].Redeeming? :: t in w.threads && w'.threads[t] == w.threads[t]
    ensures LogAgrees(w')
  {
    hide Ongoing;
    forall id ensures Ongoing(w'.log, id) <==>
                      exists t :: t in w'.threads && w'.threads[t].Redeeming? && w'.threads[t].acc.id == id
    {
      if t :| t in w.threads && w.threads[t].Redeeming? && w.threads[t].acc.id == id {
        assert w'.threads[t] == w.threads[t];
      }
      if t :| t in w'.threads && w'.threads[t].Redeeming? && w'.threads[t].acc.id == id {
        assert w'.threads[t] == w.threads[t];
      }
    }
  }

  lemma RestedLater(log: seq<Event>, id: string, now: int, later: int)
    requires Rested(log, id, now) && now <= later
    ensures Rested(log, id, later)
  {
  }

  lemma ElapsedKeeps(w: World, w': World)
    requires BackoffAgrees(w) && w'.log == w.log && w.clock <= w'.clock
    requires forall id | id in w.backoff && !(id in w'.backoff && w'.backoff[id] == w.backoff[id]) ::
               w.backoff[id] <= w.clock || Rested(w.log, id, w.clock)
    requires forall t | t in w'.threads && (w'.threads[t].Redeeming? || w'.threads[t].Clearing?) ::
               t in w.threads && w'.threads[t] == w.threads[t]
    ensures BackoffAgrees(w')
  {
    hide Rested;
    forall id ensures Rested(w'.log, id, w'.clock) || (id in w'.backoff && Rested(w'.log, id, w'.backoff[id])) {
      if Rested(w.log, id, w.clock) {
        RestedLater(w.log, id, w.clock, w'.clock);
      } else if w.backoff[id] <= w.clock {
        RestedLater(w.log, id, w.backoff[id], w'.clock);
      }
    }
    forall t | t in w'.threads && (w'.threads[t].Redeeming? || w'.threads[t].Clearing?)
      ensures Rested(w'.log, FliesFor(w'.threads[t]), w'.clock)
    {
      RestedLater(w.log, FliesFor(w.threads[t]), w.clock, w'.clock);
    }
  }

  lemma DriftKeeps(w: World, w': World)
    requires Inv(w) && Drifts(w, w')
    ensures Inv(w')
  {
    hide Ongoing, Orderly, Rested;
    assert PilotsAgree(w') by {
      forall id | id in w'.inflight
        ensures exists t :: t in w'.threads && Pilot(w'.threads[t]) && FliesFor(w'.threads[t]) == id
      {
        var t :| t in w.threads && Pilot(w.threads[t]) && FliesFor(w.threads[t]) == id;
        assert w'.threads[t] == w.threads[t];
      }
    }
    assert FlightsAgree(w') by {
      forall f | f in w'.flights ensures w'.flights[f].Open? <==> exists t :: Aloft(w', f, t) {
        if t :| Aloft(w, f, t) {
          assert Aloft(w', f, t);
        }
        if t :| Aloft(w', f, t) {
          assert Aloft(w, f, t);
        }
      }
    }
    SameRedeemers(w, w');
    ElapsedKeeps(w, w');
  }

  /** A pilot goes on to its next stage without changing account or flight. */
  lemma PilotGoesOn(w: World, w': World, th: nat, s: Stage)
    requires PilotsAgree(w) && th in w.threads && Pilot(w.threads[th]) && Pilot(s)
    requires FliesFor(s) == FliesFor(w.threads[th]) && s.flight == w.threads[th].flight
    requires w'.threads == w.threads[th := s] && w'.inflight == w.inflight
    ensures PilotsAgree(w')
  {
    forall id | id in w'.inflight
      ensures exists t :: t in w'.threads && Pilot(w'.threads[t]) && FliesFor(w'.threads[t]) == id
    {
      var t :| t in w.threads && Pilot(w.threads[t]) && FliesFor(w.threads[t]) == id;
      assert t in w'.threads && Pilot(w'.threads[t]) && FliesFor(w'.threads[t]) == id;
    }
  }

  lemma StaysAloft(w: World, w': World, th: nat, s: Stage)
    requires FlightsAgree(w) && th in w.threads && Pilot(w.threads[th]) && !w.threads[th].Removing?
    requires Pilot(s) && !s.Removing? && s.flight == w.threads[th].flight
    requires w'.threads == w.threads[th := s] && w'.flights == w.flights
    ensures FlightsAgree(w')
  {
    forall f | f in w'.flights ensures w'.flights[f].Open? <==> exists t :: Aloft(w', f, t) {
      if t :| Aloft(w, f, t) {
        assert Aloft(w', f, t);
      }
      if t :| Aloft(w', f, t) {
        assert Aloft(w, f, t);
      }
    }
  }

  /** A redemption begins: nobody else flies for the account. */
  lemma TakeoffKeeps(w: World, w': World, th: nat, acc: Token, flight: nat, stored: Option<Token>)
    requires Inv(w) && th in w.threads && !Pilot(w.threads[th])
    requires acc.id !in w.inflight && flight !in w.flights
    requires acc.id in w.backoff ==> w.backoff[acc.id] <= w.clock
    requires stored.Some? ==> stored.value.id == acc.id && !Fresh(stored.value, w.clock)
    requires w' == w.(threads := w.threads[th := Redeeming(acc, flight)], backoff := w.backoff - {acc.id},
                      inflight := w.inflight[acc.id := flight], flights := w.flights[flight := Open],
                      log := w.log + [Began(acc.id, w.clock, stored)])
    ensures Inv(w')
  {
    hide Ongoing, Orderly, Fresh, PilotsAgree, FlightsAgree, LogAgrees, BackoffAgrees;
    var e := Began(acc.id, w.clock, stored);
    TakeoffPilots(w, w', th, acc, flight);
    TakeoffFlights(w, w', th, acc, flight);
    TakeoffLog(w, w', th, acc, flight, e);
    TakeoffBackoff(w, w', th, acc, flight, e);
    NotOngoing(w, acc.id);
    BeganKeepsOrder(w.log, e);
  }

  lemma TakeoffLog(w: World, w': World, th: nat, acc: Token, flight: nat, e: Event)
    requires LogAgrees(w) && th in w.threads && !Pilot(w.threads[th]) && e.Began? && e.id == acc.id && e.at == w.clock
    requires w'.threads == w.threads[th := Redeeming(acc, flight)] && w'.log == w.log + [e] && w'.clock == w.clock
    ensures LogAgrees(w')
  {
    hide Ongoing;
    forall id ensures Ongoing(w'.log, id) <==>
                      exists t :: t in w'.threads && w'.threads[t].Redeeming? && w'.threads[t].acc.id == id
    {
      OngoingMore(w.log, e, id);
      assert w'.threads[th] == Redeeming(acc, flight);
      if t :| t in w.threads && w.threads[t].Redeeming? && w.threads[t].acc.id == id {
        assert w'.threads[t] == w.threads[t];
      }
      if t :| t in w'.threads && w'.threads[t].Redeeming? && w'.threads[t].acc.id == id && t != th {
        assert w'.threads[t] == w.threads[t];
      }
    }
  }

  lemma TakeoffBackoff(w: World, w': World, th: nat, acc: Token, flight: nat, e: Event)
    requires BackoffAgrees(w) && th in w.threads && e.Began? && e.id == acc.id
    requires acc.id in w.backoff ==> w.backoff[acc.id] <= w.clock
    requires w'.threads == w.threads[th := Redeeming(acc, flight)] && w'.log == w.log + [e] && w'.clock == w.clock
    requires w'.backoff == w.backoff - {acc.id}
    ensures BackoffAgrees(w') && Rested(w.log, acc.id, w.clock)
  {
    hide Rested;
    if !Rested(w.log, acc.id, w.clock) {
      RestedLater(w.log, acc.id, w.backoff[acc.id], w.clock);
    }
    forall id ensures Rested(w'.log, id, w'.clock) || (id in w'.backoff && Rested(w'.log, id, w'.backoff[id])) {
      RestedMore(w.log, e, id, w.clock);
      if id in w.backoff {
        RestedMore(w.log, e, id, w.backoff[id]);
      }
    }
    forall t | t in w'.threads && (w'.threads[t].Redeeming? || w'.threads[t].Clearing?)
      ensures Rested(w'.log, FliesFor(w'.threads[t]), w'.clock)
    {
      RestedMore(w.log, e, FliesFor(w'.threads[t]), w.clock);
      if t != th {
        assert w'.threads[t] == w.threads[t];
      }
    }
  }

  lemma NotOngoing(w: World, id: string)
    requires PilotsAgree(w) && LogAgrees(w) && id !in w.inflight
    ensures !Ongoing(w.log, id)
  {
    hide Ongoing;
    assert forall t | t in w.threads && w.threads[t].Redeeming? :: FliesFor(w.threads[t]) in w.inflight;
  }

  lemma TakeoffPilots(w: World, w': World, th: nat, acc: Token, flight: nat)
    requires PilotsAgree(w) && FlightsAgree(w) && th in w.threads && !Pilot(w.threads[th])
    requires acc.id !in w.inflight && flight !in w.flights
    requires w'.threads == w.threads[th := Redeeming(acc, flight)] && w'.inflight == w.inflight[acc.id := flight]
    ensures PilotsAgree(w')
  {
    forall id | id in w'.inflight
      ensures exists t :: t in w'.threads && Pilot(w'.threads[t]) && FliesFor(w'.threads[t]) == id
    {
      if id == acc.id {
        assert FliesFor(w'.threads[th]) == id;
      } else {
        var t :| t in w.threads && Pilot(w.threads[t]) && FliesFor(w.threads[t]) == id;
        assert w'.threads[t] == w.threads[t];
      }
    }
  }

  lemma TakeoffFlights(w: World, w': World, th: nat, acc: Token, flight: nat)
    requires FlightsAgree(w) && th in w.threads && !Pilot(w.threads[th]) && flight !in w.flights
    requires w'.threads == w.threads[th := Redeeming(acc, flight)] && w'.flights == w.flights[flight := Open]
    ensures FlightsAgree(w')
  {
    forall f | f in w'.flights ensures w'.flights[f].Open? <==> exists t :: Aloft(w', f, t) {
      if f == flight {
        assert Aloft(w', f, th);
      } else {
        if t :| Aloft(w, f, t) {
          assert Aloft(w', f, t);
        }
        if t :| Aloft(w', f, t) {
          assert Aloft(w, f, t);
        }
      }
    }
  }

  /** A redemption ends, either way: its pilot is the only one of its account. */
  lemma LandingKeeps(w: World, w': World, th: nat, s: Stage, failed: bool)
    requires Inv(w) && th in w.threads && w.threads[th].Redeeming?
    requires s.Publishing? || (s.Clearing? && !failed)
    requires s.id == w.threads[th].acc.id && s.flight == w.threads[th].flight
    requires w' == w.(threads := w.threads[th := s], accounts := w'.accounts,
                      log := w.log + [Ended(s.id, w.clock, failed)],
                      backoff := if failed then w.backoff[s.id := w.clock + REFRESH_BACKOFF] else w.backoff)
    ensures Inv(w')
  {
    hide Ongoing, Orderly, PilotsAgree, FlightsAgree, LogAgrees, BackoffAgrees;
    PilotGoesOn(w, w', th, s);
    StaysAloft(w, w', th, s);
    EndedKeepsOrder(w.log, Ended(s.id, w.clock, failed));
    LandingLog(w, w', th, s, failed);
    LandingBackoff(w, w', th, s, failed);
  }

  lemma LandingLog(w: World, w': World, th: nat, s: Stage, failed: bool)
    requires PilotsAgree(w) && LogAgrees(w) && th in w.threads && w.threads[th].Redeeming?
    requires s.Publishing? || s.Clearing?
    requires s.id == w.threads[th].acc.id
    requires w'.threads == w.threads[th := s] && w'.clock == w.clock
    requires w'.log == w.log + [Ended(s.id, w.clock, failed)]
    ensures LogAgrees(w')
  {
    hide Ongoing;
    var e := Ended(s.id, w.clock, failed);
    forall id ensures Ongoing(w'.log, id) <==>
                      exists t :: t in w'.threads && w'.threads[t].Redeeming? && w'.threads[t].acc.id == id
    {
      OngoingMore(w.log, e, id);
      if id != s.id {
        if t :| t in w.threads && w.threads[t].Redeeming? && w.threads[t].acc.id == id {
          assert w'.threads[t] == w.threads[t];
        }
        if t :| t in w'.threads && w'.threads[t].Redeeming? && w'.threads[t].acc.id == id {
          assert w'.threads[t] == w.threads[t];
        }
      } else {
        forall t | t in w'.threads && w'.threads[t].Redeeming? ensures w'.threads[t].acc.id != id {
          assert FliesFor(w.threads[t]) != FliesFor(w.threads[th]);
        }
      }
    }
  }

  lemma LandingBackoff(w: World, w': World, th: nat, s: Stage, failed: bool)
    requires PilotsAgree(w) && LogAgrees(w) && BackoffAgrees(w) && th in w.threads && w.threads[th].Redeeming?
    requires s.Publishing? || (s.Clearing? && !failed)
    requires s.id == w.threads[th].acc.id && s.flight == w.threads[th].flight
    requires w'.threads == w.threads[th := s] && w'.clock == w.clock
    requires w'.log == w.log + [Ended(s.id, w.clock, failed)]
    requires w'.backoff == if failed then w.backoff[s.id := w.clock + REFRESH_BACKOFF] else w.backoff
    ensures BackoffAgrees(w')
  {
    hide Ongoing, Rested;
    var e := Ended(s.id, w.clock, failed);
    forall id ensures Rested(w'.log, id, w'.clock) || (id in w'.backoff && Rested(w'.log, id, w'.backoff[id])) {
      RestedMore(w.log, e, id, w.clock);
      if id in w'.backoff {
        RestedMore(w.log, e, id, w'.backoff[id]);
      }
      if id == s.id {
        assert FliesFor(w.threads[th]) == id;
        RestedLater(w.log, id, w.clock, w.clock + REFRESH_BACKOFF);
      }
    }
    forall t | t in w'.threads && (w'.threads[t].Redeeming? || w'.threads[t].Clearing?)
      ensures Rested(w'.log, FliesFor(w'.threads[t]), w'.clock)
    {
      RestedMore(w.log, e, FliesFor(w'.threads[t]), w.clock);
      if t != th {
        assert w'.threads[t] == w.threads[t] && FliesFor(w.threads[t]) != FliesFor(w.threads[th]);
      }
    }
  }

  lemma ClearingRested(w: World, th: nat)
    requires BackoffAgrees(w) && th in w.threads && w.threads[th].Clearing?
    ensures Rested(w.log, w.threads[th].id, w.clock)
  {
    hide Rested;
    assert FliesFor(w.threads[th]) == w.threads[th].id;
  }

  lemma ClearsBackoffKeeps(w: World, w': World, th: nat)
    requires Inv(w) && ClearsBackoff(w, w', th)
    ensures Inv(w')
  {
    hide Orderly, PilotsAgree, FlightsAgree, LogAgrees, BackoffAgrees;
    PilotGoesOn(w, w', th, w'.threads[th]);
    StaysAloft(w, w', th, w'.threads[th]);
    SameRedeemers(w, w');
    ClearingRested(w, th);
    ElapsedKeeps(w, w');
  }

  lemma PublishesFlights(w: World, w': World, th: nat)
    requires PilotsAgree(w) && FlightsAgree(w) && Publishes(w, w', th)
    ensures FlightsAgree(w')
  {
    var s := w.threads[th];
    assert Aloft(w, s.flight, th);
    forall f | f in w'.flights ensures w'.flights[f].Open? <==> exists t :: Aloft(w', f, t) {
      if f != s.flight {
        if t :| Aloft(w, f, t) {
          assert Aloft(w', f, t);
        }
        if t :| Aloft(w', f, t) {
          assert Aloft(w, f, t);
        }
      } else {
        forall t | t in w'.threads ensures !Aloft(w', f, t) {
          assert t != th ==> w'.threads[t] == w.threads[t];
        }
      }
    }
  }

  lemma PublishesKeeps(w: World, w': World, th: nat)
    requires Inv(w) && Publishes(w, w', th)
    ensures Inv(w')
  {
    hide Ongoing, Orderly, PilotsAgree, FlightsAgree, LogAgrees, BackoffAgrees;
    PilotGoesOn(w, w', th, w'.threads[th]);
    PublishesFlights(w, w', th);
    SameRedeemers(w, w');
    ElapsedKeeps(w, w');
  }

  lemma RemovesPilots(w: World, w': World, th: nat)
    requires PilotsAgree(w) && Removes(w, w', th)
    ensures PilotsAgree(w')
  {
    var s := w.threads[th];
    assert FliesFor(s) == s.id;
    forall t | t in w'.threads && Pilot(w'.threads[t])
      ensures var id := FliesFor(w'.threads[t]); id in w'.inflight && w'.inflight[id] == w'.threads[t].flight
    {
      assert t != th && w'.threads[t] == w.threads[t] && FliesFor(w.threads[t]) != s.id;
    }
    forall id | id in w'.inflight
      ensures exists t :: t in w'.threads && Pilot(w'.threads[t]) && FliesFor(w'.threads[t]) == id
    {
      var t :| t in w.threads && Pilot(w.threads[t]) && FliesFor(w.threads[t]) == id;
      assert w'.threads[t] == w.threads[t];
    }
  }

  lemma RemovesFlights(w: World, w': World, th: nat)
    requires FlightsAgree(w) && Removes(w, w', th)
    ensures FlightsAgree(w')
  {
    forall f | f in w'.flights ensures w'.flights[f].Open? <==> exists t :: Aloft(w', f, t) {
      if t :| Aloft(w, f, t) {
        assert Aloft(w', f, t);
      }
      if t :| Aloft(w', f, t) {
        assert Aloft(w, f, t);
      }
    }
  }

  lemma RemovesKeeps(w: World, w': World, th: nat)
    requires Inv(w) && Removes(w, w', th)
    ensures Inv(w')
  {
    hide Ongoing, Orderly, PilotsAgree, FlightsAgree, LogAgrees, BackoffAgrees;
    RemovesPilots(w, w', th);
    RemovesFlights(w, w', th);
    SameRedeemers(w, w');
    ElapsedKeeps(w, w');
  }

  lemma EntersKeeps(w: World, w': World, th: nat, flight: nat)
    requires Inv(w) && Enters(w, w', th, flight)
    ensures Inv(w')
  {
    hide Inv, Stored;
    var snapshot := w.threads[th].snapshot;
    var id := snapshot.id;
    var stored := Stored(w.accounts, id);
    if w'.threads[th].Redeeming? {
      assert w'.backoff == w.backoff - {id};
      TakeoffKeeps(w, w', th, if stored.Some? then stored.value else snapshot, flight, stored);
    } else {
      if w'.threads[th].Waiting? {
        WaitsForFlight(w, id);
      }
      BystanderKeeps(w, w', th, w'.threads[th]);
    }
  }

  lemma WaitsForFlight(w: World, id: string)
    requires Inv(w) && id in w.inflight
    ensures w.inflight[id] in w.flights
  {
    hide Orderly, LogAgrees, BackoffAgrees;
    var t :| t in w.threads && Pilot(w.threads[t]) && FliesFor(w.threads[t]) == id;
  }

  lemma LandsKeeps(w: World, w': World, th: nat)
    requires Inv(w) && Lands(w, w', th)
    ensures Inv(w')
  {
    hide Inv, Stored, Overwritten, Upserted, Completed;
    if LacksProxy(w, w', th) {
      LandingKeeps(w, w', th, w'.threads[th], false);
    } else if saved :| RedemptionFails(w, w', th, saved) {
      LandingKeeps(w, w', th, w'.threads[th], true);
    } else {
      LandingKeeps(w, w', th, w'.threads[th], false);
    }
  }

  lemma PilotStepKeeps(w: World, w': World, th: nat)
    requires Inv(w) && PilotSteps(w, w', th)
    ensures Inv(w')
  {
    hide Inv, Lands;
    if Lands(w, w', th) {
      LandsKeeps(w, w', th);
    } else if ClearsBackoff(w, w', th) {
      ClearsBackoffKeeps(w, w', th);
    } else if Publishes(w, w', th) {
      PublishesKeeps(w, w', th);
    } else {
      RemovesKeeps(w, w', th);
    }
  }

  lemma CallerStepKeeps(w: World, w': World, th: nat)
    requires Inv(w) && CallerSteps(w, w', th)
    ensures Inv(w')
  {
    hide Inv, Overwritten;
    if saved :| MarksExpired(w, w', th, saved) {
      BystanderKeeps(w, w', th, w'.threads[th]);
    } else if Wakes(w, w', th) {
      BystanderKeeps(w, w', th, w'.threads[th]);
    } else {
      BystanderKeeps(w, w', th, w'.threads[th]);
    }
  }

  /** Every step of every thread keeps the invariant. */
  lemma StepKeeps(w: World, w': World, th: nat)
    requires Inv(w) && Steps(w, w', th)
    ensures Inv(w')
  {
    hide Inv, Enters, CallerSteps, PilotSteps;
    if flight :| Enters(w, w', th, flight) {
      EntersKeeps(w, w', th, flight);
    } else if PilotSteps(w, w', th) {
      PilotStepKeeps(w, w', th);
    } else {
      CallerStepKeeps(w, w', th);
    }
  }

  lemma NextKeeps(w: World, w': World)
    requires Inv(w) && Next(w, w')
    ensures Inv(w')
  {
    hide Inv, Steps, Drifts;
    if Drifts(w, w') {
      DriftKeeps(w, w');
    } else {
      var th :| Steps(w, w', th);
      StepKeeps(w, w', th);
    }
  }

  // ------------------------------------------------------------- over whole runs

  predicate Initial(w: World) {
    w.inflight == map[] && w.flights == map[] && w.backoff == map[] && w.threads == map[] && w.log == []
  }

  ghost predicate IsRun(run: seq<World>) {
    run != [] && Initial(run[0]) && forall i | 0 <= i < |run| - 1 :: Next(run[i], run[i + 1])
  }

  lemma {:induction false} RunKeeps(run: seq<World>, i: nat)
    requires IsRun(run) && i < |run|
    ensures Inv(run[i])
  {
    hide Inv, Next;
    if i == 0 {
      InitialInv(run[0]);
    } else {
      RunKeeps(run, i - 1);
      NextKeeps(run[i - 1], run[i]);
    }
  }

  lemma InitialInv(w: World)
    requires Initial(w)
    ensures Inv(w)
  {
  }

  /** At no time are two redemptions for one account under way. */
  lemma SingleFlight(run: seq<World>, i: nat, t1: nat, t2: nat)
    requires IsRun(run) && i < |run|
    requires t1 in run[i].threads && run[i].threads[t1].Redeeming?
    requires t2 in run[i].threads && run[i].threads[t2].Redeeming?
    requires run[i].threads[t1].acc.id == run[i].threads[t2].acc.id
    ensures t1 == t2
  {
    RunKeeps(run, i);
    assert Pilot(run[i].threads[t1]) && Pilot(run[i].threads[t2]);
  }

  /** The history of redemptions is orderly: one at a time per account, none within the
      rest after a failure, and none while the stored copy is fresh. */
  lemma HistoryIsOrderly(run: seq<World>, i: nat)
    requires IsRun(run) && i < |run|
    ensures Orderly(run[i].log)
  {
    RunKeeps(run, i);
  }

  lemma {:induction false} OutcomeStays(run: seq<World>, i: nat, j: nat, f: nat)
    requires IsRun(run) && i <= j < |run| && f in run[i].flights && run[i].flights[f].Landed?
    ensures f in run[j].flights && run[j].flights[f] == run[i].flights[f]
    decreases j
  {
    hide Inv, Next;
    if i < j {
      OutcomeStays(run, i, j - 1, f);
      RunKeeps(run, j - 1);
      LandedStays(run[j - 1], run[j], f);
    }
  }

  lemma PilotFlights(w: World, w': World, th: nat)
    requires PilotSteps(w, w', th)
    ensures w'.flights == w.flights || Publishes(w, w', th)
  {
    hide Stored, Overwritten, Upserted, Completed;
  }

  lemma FlightsChange(w: World, w': World)
    requires Next(w, w')
    ensures || w'.flights == w.flights
            || (exists f: nat :: f !in w.flights && w'.flights == w.flights[f := Open])
            || (exists th :: Publishes(w, w', th))
  {
    hide Stored, Overwritten, PilotSteps, Publishes;
    if th :| PilotSteps(w, w', th) {
      PilotFlights(w, w', th);
    }
  }

  lemma LandedStays(w: World, w': World, f: nat)
    requires Inv(w) && Next(w, w') && f in w.flights && w.flights[f].Landed?
    ensures f in w'.flights && w'.flights[f] == w.flights[f]
  {
    hide Orderly, LogAgrees, BackoffAgrees, PilotsAgree, Next;
    FlightsChange(w, w');
    if th :| Publishes(w, w', th) {
      assert Aloft(w, w.threads[th].flight, th);
    }
  }

  /** Whoever flew or joined a flight returns what its pilot published, whenever it
      gets to return. */
  lemma JoinersAgree(run: seq<World>, i: nat, j: nat, t1: nat, t2: nat)
    requires IsRun(run) && i <= j < |run| && t1 in run[i].threads && t2 in run[j].threads
    requires run[i].threads[t1].Returned? && run[i].threads[t1].joined.Some?
    requires run[j].threads[t2].Returned? && run[j].threads[t2].joined == run[i].threads[t1].joined
    ensures run[i].threads[t1].outcome == run[j].threads[t2].outcome
  {
    hide Orderly, LogAgrees, BackoffAgrees, PilotsAgree, Next;
    RunKeeps(run, i);
    RunKeeps(run, j);
    OutcomeStays(run, i, j, run[i].threads[t1].joined.value);
  }

  /** Nobody waits for a flight that no one flies: the waiter can wake, or the pilot
      can take a step. */
  lemma NobodyStranded(run: seq<World>, i: nat, th: nat)
    requires IsRun(run) && i < |run| && th in run[i].threads && run[i].threads[th].Waiting?
    ensures (exists w' :: Wakes(run[i], w', th))
            || exists pilot, w' :: pilot in run[i].threads && Pilot(run[i].threads[pilot])
                                   && run[i].threads[pilot].flight == run[i].threads[th].flight
                                   && PilotSteps(run[i], w', pilot)
  {
    hide Orderly, LogAgrees, BackoffAgrees, PilotsAgree, Next;
    RunKeeps(run, i);
    var w := run[i];
    var f := w.threads[th].flight;
    if w.flights[f].Landed? {
      assert Wakes(w, Put(w, th, Returned(w.flights[f].outcome, Some(f))), th);
    } else {
      var pilot :| Aloft(w, f, pilot);
      PilotCanStep(w, pilot);
    }
  }

  lemma PilotCanStep(w: World, th: nat)
    requires th in w.threads && Pilot(w.threads[th])
    ensures exists w' :: PilotSteps(w, w', th)
  {
    hide RedemptionFails, RedemptionSucceeds;
    var s := w.threads[th];
    if s.Redeeming? {
      var w' := Put(w, th, Publishing(s.acc.id, s.flight, Outcome(s.acc, Some(NoProxy))))
                .(log := w.log + [Ended(s.acc.id, w.clock, false)]);
      assert LacksProxy(w, w', th) && PilotSteps(w, w', th);
    } else if s.Clearing? {
      var w' := Put(w, th, Publishing(s.id, s.flight, s.outcome)).(backoff := w.backoff - {s.id});
      assert ClearsBackoff(w, w', th) && PilotSteps(w, w', th);
    } else if s.Publishing? {
      var w' := Put(w, th, Removing(s.id, s.flight, s.outcome)).(flights := w.flights[s.flight := Landed(s.outcome)]);
      assert Publishes(w, w', th) && PilotSteps(w, w', th);
    } else {
      var w' := Put(w, th, Returned(s.outcome, Some(s.flight))).(inflight := w.inflight - {s.id});
      assert Removes(w, w', th) && PilotSteps(w, w', th);
    }
  }

  // -------------------------------------------------------- what is written back

  lemma {:induction false} StoredAt(accounts: seq<Token>, id: string, i: nat)
    requires i < |accounts| && accounts[i].id == id && forall j | 0 <= j < i :: accounts[j].id != id
    ensures Stored(accounts, id) == Some(accounts[i])
  {
    if i > 0 {
      StoredAt(accounts[1..], id, i - 1);
    }
  }

  lemma {:induction false} OverwrittenAt(accounts: seq<Token>, acc: Token, i: nat)
    requires i < |accounts| && accounts[i].id == acc.id && forall j | 0 <= j < i :: accounts[j].id != acc.id
    ensures Overwritten(accounts, acc) == accounts[i := acc]
  {
    if i > 0 {
      OverwrittenAt(accounts[1..], acc, i - 1);
    }
  }

  lemma {:induction false} NothingOverwritten(accounts: seq<Token>, acc: Token)
    requires forall j | 0 <= j < |accounts| :: accounts[j].id != acc.id
    ensures Overwritten(accounts, acc) == accounts
  {
    if accounts != [] {
      NothingOverwritten(accounts[1..], acc);
    }
  }

  lemma {:induction false} StoredOverwritten(accounts: seq<Token>, acc: Token)
    requires Stored(accounts, acc.id).Some?
    ensures Stored(Overwritten(accounts, acc), acc.id) == Some(acc)
  {
    if accounts[0].id != acc.id {
      StoredOverwritten(accounts[1..], acc);
    }
  }

  lemma {:induction false} OthersStored(accounts: seq<Token>, acc: Token, other: string)
    requires other != acc.id
    ensures Stored(Overwritten(accounts, acc), other) == Stored(accounts, other)
  {
    if accounts != [] && accounts[0].id != acc.id {
      OthersStored(accounts[1..], acc, other);
    }
  }

  lemma StoredOrNot(accounts: seq<Token>, acc: Token)
    ensures Stored(accounts, acc.id).None? ==> Overwritten(accounts, acc) == accounts
    ensures Stored(accounts, acc.id).Some? ==> Stored(Overwritten(accounts, acc), acc.id) == Some(acc)
  {
    if Stored(accounts, acc.id).Some? {
      StoredOverwritten(accounts, acc);
    } else {
      NothingOverwritten(accounts, acc);
    }
  }

  /** A thread that goes on redeeming does so with the token it began with. */
  lemma RedeemingStays(w: World, w': World, th: nat)
    requires Next(w, w') && th in w.threads && w.threads[th].Redeeming?
    requires th in w'.threads && w'.threads[th].Redeeming?
    ensures w'.threads[th] == w.threads[th]
  {
    hide Stored, Overwritten, Upserted, Completed, Entered, PilotSteps;
    if t :| PilotSteps(w, w', t) {
      PilotMovesOn(w, w', t);
    } else if t, flight :| Enters(w, w', t, flight) {
      EntersAlone(w, w', t, flight, th);
    }
  }

  lemma LandsMovesOn(w: World, w': World, t: nat)
    requires Lands(w, w', t)
    ensures t in w'.threads && !w'.threads[t].Redeeming? && w'.threads == w.threads[t := w'.threads[t]]
  {
    hide Stored, Overwritten, Upserted, Completed;
    if LacksProxy(w, w', t) {
    } else if saved :| RedemptionFails(w, w', t, saved) {
    } else {
    }
  }

  lemma PilotMovesOn(w: World, w': World, t: nat)
    requires PilotSteps(w, w', t)
    ensures t in w'.threads && !w'.threads[t].Redeeming? && w'.threads == w.threads[t := w'.threads[t]]
  {
    hide Lands;
    if Lands(w, w', t) {
      LandsMovesOn(w, w', t);
    }
  }

  lemma EntersAlone(w: World, w': World, t: nat, flight: nat, th: nat)
    requires Enters(w, w', t, flight) && th in w.threads && !w.threads[th].Called?
    ensures th in w'.threads && w'.threads[th] == w.threads[th]
  {
    hide Stored;
  }

  lemma {:induction false} RedeemingSince(run: seq<World>, i: nat, j: nat, th: nat)
    requires IsRun(run) && i <= j < |run|
    requires forall k | i <= k <= j :: th in run[k].threads && run[k].threads[th].Redeeming?
    ensures run[j].threads[th] == run[i].threads[th]
    decreases j
  {
    hide Next;
    if i < j {
      RedeemingSince(run, i, j - 1, th);
      RedeemingStays(run[j - 1], run[j], th);
    }
  }

  predicate SameCredentials(a: Token, b: Token) {
    a.(online := true) == b.(online := true)
  }

  /** The copy a redemption begins with: the stored one, or else its caller's. */
  function TakenOff(w: World, snapshot: Token): Token {
    var stored := Stored(w.accounts, snapshot.id);
    if stored.Some? then stored.value else snapshot
  }

  /** A redemption begins at step i and fails at step j. What is stored for its account
      then is the copy from step i, marked expired: so the credentials stored at step j
      survive exactly when they are those of step i, whoever wrote in between. An
      account that is gone by then stays gone, and others are left alone. */
  lemma FailureKeepsCredentialsIff(run: seq<World>, i: nat, j: nat, th: nat, flight: nat, saved: bool)
    requires IsRun(run) && i < j && j + 1 < |run|
    requires Enters(run[i], run[i + 1], th, flight)
    requires forall k | i < k <= j :: th in run[k].threads && run[k].threads[th].Redeeming?
    requires RedemptionFails(run[j], run[j + 1], th, saved)
    ensures var taken := TakenOff(run[i], run[i].threads[th].snapshot);
            var before, after := Stored(run[j].accounts, taken.id), Stored(run[j + 1].accounts, taken.id);
            && (!saved || before.None? ==> run[j + 1].accounts == run[j].accounts)
            && (saved && before.Some? ==>
                  && after == Some(taken.(online := false))
                  && (SameCredentials(before.value, after.value) <==> SameCredentials(before.value, taken)))
            && forall other | other != taken.id :: Stored(run[j + 1].accounts, other) == Stored(run[j].accounts, other)
  {
    hide Stored, Overwritten, Next;
    var taken := TakenOff(run[i], run[i].threads[th].snapshot);
    assert run[i + 1].threads[th].acc == taken;
    RedeemingSince(run, i + 1, j, th);
    var expired := taken.(online := false);
    StoredOrNot(run[j].accounts, expired);
    forall other | other != taken.id
      ensures Stored(run[j + 1].accounts, other) == Stored(run[j].accounts, other)
    {
      OthersStored(run[j].accounts, expired, other);
    }
  }

  /** A login that lands while an old token is failing is lost. */
  lemma LoginLost(stale: Token, login: Token)
    requires stale.id == login.id && Fresh(login, 0) && !Fresh(stale, 0)
    ensures exists run: seq<World> ::
              && IsRun(run) && |run| == 5 && run[0].accounts == [stale] && run[3].accounts == [login]
              && RedemptionFails(run[3], run[4], 0, true) && run[4].accounts == [stale.(online := false)]
  {
    hide Fresh;
    var id, expired := stale.id, stale.(online := false);
    var w0 := World([stale], map[], map[], map[], map[], 0, []);
    var w1 := Put(w0, 0, Called(stale));
    var w2 := World([stale], map[id := 0], map[0 := Open], map[], map[0 := Redeeming(stale, 0)], 0,
                    [Began(id, 0, Some(stale))]);
    var w3 := w2.(accounts := [login]);
    var w4 := Put(w3, 0, Publishing(id, 0, Outcome(expired, Some(Refused(true)))))
              .(backoff := map[id := REFRESH_BACKOFF], accounts := [expired], log := w3.log + [Ended(id, 0, true)]);
    assert Calls(w0, w1, 0, stale);
    StoredAt([stale], id, 0);
    assert w2.threads == w1.threads[0 := Redeeming(stale, 0)];
    assert Enters(w1, w2, 0, 0);
    assert Drifts(w2, w3);
    OverwrittenAt([login], expired, 0);
    assert RedemptionFails(w3, w4, 0, true);
    assert Steps(w0, w1, 0) && Steps(w1, w2, 0) && Steps(w3, w4, 0);
    var run := [w0, w1, w2, w3, w4];
    assert IsRun(run);
  }

  /** An upsert changes one account at most, and then the first that matches. */
  lemma {:induction false} UpsertedAt(accounts: seq<Token>, acc: Token, i: nat)
    requires i <= |accounts| && forall j | 0 <= j < i :: !Matches(accounts[j], acc)
    requires i < |accounts| ==> Matches(accounts[i], acc)
    ensures i < |accounts| ==>
              Upserted(accounts, acc) == (accounts[i := Merged(accounts[i], acc)], Merged(accounts[i], acc))
    ensures i == |accounts| ==> Upserted(accounts, acc) == (accounts + [acc], acc)
  {
    if i == 0 {
      if accounts != [] {
        assert accounts[0 := Merged(accounts[0], acc)] == [Merged(accounts[0], acc)] + accounts[1..];
      } else {
        assert accounts + [acc] == [acc];
      }
    } else {
      UpsertedAt(accounts[1..], acc, i - 1);
      assert !Matches(accounts[0], acc);
      if i < |accounts| {
        var merged := Merged(accounts[i], acc);
        assert accounts[i := merged] == [accounts[0]] + accounts[1..][i - 1 := merged];
      } else {
        assert accounts + [acc] == [accounts[0]] + (accounts[1..] + [acc]);
      }
    }
  }
}
