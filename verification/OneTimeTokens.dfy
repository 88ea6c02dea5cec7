/**
 How often a one-time refresh token (section 6 of RFC 6749) is redeemed: when the next
 redemption for an account takes the token of this one again.
 */
module OneTimeTokens {
  import opened Chat
  import opened TokenRefresh

  datatype Ending =
    | Unreachable
    | Failed(saved: bool)
    | Granted(token: Token, spareID: string, saved: bool)

  ghost predicate Ends(w: World, w': World, th: nat, e: Ending) {
    match e
    case Unreachable => LacksProxy(w, w', th)
    case Failed(saved) => RedemptionFails(w, w', th, saved)
    case Granted(token, spareID, saved) => RedemptionSucceeds(w, w', th, token, spareID, saved)
  }

  /** A new token is filed for the account itself. */
  predicate Renews(acc: Token, e: Ending) {
    e.Granted? && e.saved && Completed(acc, e.token, e.spareID).id == acc.id
  }

  function RefreshOf(accounts: seq<Token>, id: string): Option<string> {
    var stored := Stored(accounts, id);
    if stored.Some? then Some(stored.value.refreshToken) else None
  }

  /** From step i to step k the account stays stored, and nothing but the redemption that
      ends at step j writes its refresh token. */
  ghost predicate Undisturbed(run: seq<World>, id: string, i: nat, j: nat, k: nat)
    requires k < |run|
  {
    && (forall n | i <= n <= k :: Stored(run[n].accounts, id).Some?)
    && (forall n | i <= n < k && n != j :: RefreshOf(run[n + 1].accounts, id) == RefreshOf(run[n].accounts, id))
  }

  lemma {:induction false} RefreshStays(run: seq<World>, id: string, i: nat, j: nat)
    requires i <= j < |run|
    requires forall n | i <= n < j :: RefreshOf(run[n + 1].accounts, id) == RefreshOf(run[n].accounts, id)
    ensures RefreshOf(run[j].accounts, id) == RefreshOf(run[i].accounts, id)
    decreases j
  {
    hide RefreshOf;
    if i < j {
      RefreshStays(run, id, i, j - 1);
    }
  }

  predicate DistinctIds(accounts: seq<Token>) {
    forall a, b | 0 <= a < b < |accounts| :: accounts[a].id != accounts[b].id
  }

  /** Whichever account it is filed over, a new refresh token is what its id has then. */
  lemma {:induction false} UpsertedRefresh(accounts: seq<Token>, acc: Token)
    requires acc.refreshToken != ""
    ensures RefreshOf(Upserted(accounts, acc).0, acc.id) == Some(acc.refreshToken)
  {
    if accounts != [] && !Matches(accounts[0], acc) {
      UpsertedRefresh(accounts[1..], acc);
    }
  }

  /** Another id keeps what it has, unless its account was the one written over. */
  lemma {:induction false} OtherRefresh(accounts: seq<Token>, acc: Token, id: string)
    requires DistinctIds(accounts) && acc.id != id
    ensures var after := Stored(Upserted(accounts, acc).0, id); after.None? || after == Stored(accounts, id)
  {
    if accounts != [] {
      var rest := accounts[1..];
      assert forall i | 0 <= i < |rest| :: rest[i] == accounts[i + 1];
      if Matches(accounts[0], acc) {
        assert accounts[0].id == id ==> Stored(rest, id).None?;
      } else {
        OtherRefresh(rest, acc, id);
      }
    }
  }

  /** What the end of a redemption leaves as the account's refresh token. */
  lemma EndRefresh(w: World, w': World, th: nat, e: Ending)
    requires Ends(w, w', th, e) && DistinctIds(w.accounts)
    requires var acc := w.threads[th].acc;
             && RefreshOf(w.accounts, acc.id) == Some(acc.refreshToken) && Stored(w'.accounts, acc.id).Some?
             && (e.Granted? ==> e.token.refreshToken != "")
    ensures var acc := w.threads[th].acc;
            RefreshOf(w'.accounts, acc.id) == Some(if Renews(acc, e) then e.token.refreshToken else acc.refreshToken)
  {
    hide Stored, Overwritten, Upserted;
    var acc := w.threads[th].acc;
    match e
    case Unreachable =>
    case Failed(_) => StoredOrNot(w.accounts, acc.(online := false));
    case Granted(token, spareID, _) =>
      var filed := Completed(acc, token, spareID);
      if filed.id == acc.id {
        UpsertedRefresh(w.accounts, filed);
      } else {
        OtherRefresh(w.accounts, filed, acc.id);
      }
  }

  lemma EntersTaking(w: World, w': World, th: nat, flight: nat)
    requires Enters(w, w', th, flight) && w'.threads[th].Redeeming?
    ensures w'.threads[th].acc == TakenOff(w, w.threads[th].snapshot) && w'.accounts == w.accounts
    ensures TakenOff(w, w.threads[th].snapshot).id == w.threads[th].snapshot.id
  {
    hide Fresh;
  }

  /** A redemption begins at step i and ends at step j, and at step k the next one for the
      same account begins. If nobody else writes the account's refresh token, that one
      redeems the same token again exactly when this one has not filed a new one for the
      account: it failed, its grant could not be saved, or the grant names another account. */
  lemma RedeemedAgainIff(run: seq<World>, i: nat, j: nat, k: nat, first: nat, next: nat,
                         flight: nat, nextFlight: nat, e: Ending)
    requires IsRun(run) && i < j < k && k + 1 < |run|
    requires Enters(run[i], run[i + 1], first, flight)
    requires forall n | i < n <= j :: first in run[n].threads && run[n].threads[first].Redeeming?
    requires Ends(run[j], run[j + 1], first, e) && DistinctIds(run[j].accounts)
    requires Enters(run[k], run[k + 1], next, nextFlight) && run[k + 1].threads[next].Redeeming?
    requires var taken := run[i + 1].threads[first].acc;
             && run[k + 1].threads[next].acc.id == taken.id && Undisturbed(run, taken.id, i, j, k)
             && (e.Granted? ==> e.token.refreshToken !in {"", taken.refreshToken})
    ensures var taken, again := run[i + 1].threads[first].acc, run[k + 1].threads[next].acc;
            again.refreshToken == taken.refreshToken <==> !Renews(taken, e)
  {
    hide Stored, Next, Ends, Completed, DistinctIds, Enters;
    var taken := run[i + 1].threads[first].acc;
    EntersTaking(run[i], run[i + 1], first, flight);
    EntersTaking(run[k], run[k + 1], next, nextFlight);
    RedeemingSince(run, i + 1, j, first);
    RefreshStays(run, taken.id, i, j);
    EndRefresh(run[j], run[j + 1], first, e);
    RefreshStays(run, taken.id, j + 1, k);
  }

  /** The stages after a redemption: clearing, publishing and removing the flight. */
  lemma LastStages(w3: World, w4: World, w5: World, w6: World, id: string, o: Outcome)
    requires w3.threads == map[0 := Clearing(id, 0, o)] && w3.backoff == map[]
    requires w3.inflight == map[id := 0] && w3.flights == map[0 := Open]
    requires w4 == w3.(threads := map[0 := Publishing(id, 0, o)])
    requires w5 == w4.(threads := map[0 := Removing(id, 0, o)], flights := map[0 := Landed(o)])
    requires w6 == w5.(threads := map[0 := Returned(o, Some(0))], inflight := map[])
    ensures Steps(w3, w4, 0) && Steps(w4, w5, 0) && Steps(w5, w6, 0)
  {
    assert ClearsBackoff(w3, w4, 0) by {
      assert w4.threads == w3.threads[0 := Publishing(id, 0, o)] && w4.backoff == w3.backoff - {id};
    }
    assert Publishes(w4, w5, 0) by {
      assert w5.threads == w4.threads[0 := Removing(id, 0, o)] && w5.flights == w4.flights[0 := Landed(o)];
    }
    assert Removes(w5, w6, 0) by {
      assert w6.threads == w5.threads[0 := Returned(o, Some(0))] && w6.inflight == w5.inflight - {id};
    }
  }

  const LOST := Outcome(NO_TOKEN, Some(NotSaved))

  function History(stale: Token): seq<Event> {
    [Began(stale.id, 0, Some(stale)), Ended(stale.id, 0, false)]
  }

  /** A redemption whose grant is lost, and another caller. */
  function LostWorld(stale: Token, n: nat): World {
    var idle := World([stale], map[], map[], map[], map[], 0, []);
    var flying := idle.(inflight := map[stale.id := 0], flights := map[0 := Open], log := History(stale));
    var landed := idle.(flights := map[0 := Landed(LOST)], log := History(stale));
    match n
    case 0 => idle
    case 1 => idle.(threads := map[0 := Called(stale)])
    case 2 => flying.(threads := map[0 := Redeeming(stale, 0)], log := History(stale)[..1])
    case 3 => flying.(threads := map[0 := Clearing(stale.id, 0, LOST)])
    case 4 => flying.(threads := map[0 := Publishing(stale.id, 0, LOST)])
    case 5 => flying.(threads := map[0 := Removing(stale.id, 0, LOST)], flights := map[0 := Landed(LOST)])
    case 6 => landed.(threads := map[0 := Returned(LOST, Some(0))])
    case 7 => landed.(threads := map[0 := Returned(LOST, Some(0)), 1 := Called(stale)])
    case _ => Entered(landed.(threads := map[0 := Returned(LOST, Some(0)), 1 := Called(stale)]), 1, stale, 1)
  }

  lemma BeginsFirst(stale: Token)
    requires !Fresh(stale, 0)
    ensures Steps(LostWorld(stale, 0), LostWorld(stale, 1), 0)
    ensures Enters(LostWorld(stale, 1), LostWorld(stale, 2), 0, 0) && Steps(LostWorld(stale, 1), LostWorld(stale, 2), 0)
  {
    hide Fresh;
    var w0, w1, w2 := LostWorld(stale, 0), LostWorld(stale, 1), LostWorld(stale, 2);
    StoredAt([stale], stale.id, 0);
    assert w1.threads == w0.threads[0 := Called(stale)];
    assert Calls(w0, w1, 0, stale) && CallerSteps(w0, w1, 0);
    assert w2.threads == w1.threads[0 := Redeeming(stale, 0)] && w2.log == w1.log + [Began(stale.id, 0, Some(stale))];
    assert Enters(w1, w2, 0, 0);
  }

  lemma LosesGrant(stale: Token, granted: Token)
    ensures RedemptionSucceeds(LostWorld(stale, 2), LostWorld(stale, 3), 0, granted, "", false)
    ensures Steps(LostWorld(stale, 2), LostWorld(stale, 3), 0)
  {
    hide Completed, Upserted;
    var w2, w3 := LostWorld(stale, 2), LostWorld(stale, 3);
    assert w3.threads == w2.threads[0 := Clearing(stale.id, 0, LOST)];
    assert RedemptionSucceeds(w2, w3, 0, granted, "", false) && Lands(w2, w3, 0) && PilotSteps(w2, w3, 0);
  }

  lemma BeginsAgain(stale: Token)
    requires !Fresh(stale, 0)
    ensures Steps(LostWorld(stale, 6), LostWorld(stale, 7), 1)
    ensures Enters(LostWorld(stale, 7), LostWorld(stale, 8), 1, 1) && Steps(LostWorld(stale, 7), LostWorld(stale, 8), 1)
    ensures LostWorld(stale, 8).threads[1] == Redeeming(stale, 1) && LostWorld(stale, 8).clock == 0
  {
    hide Fresh;
    var w6, w7 := LostWorld(stale, 6), LostWorld(stale, 7);
    StoredAt([stale], stale.id, 0);
    assert w7.threads == w6.threads[1 := Called(stale)];
    assert Calls(w6, w7, 1, stale) && CallerSteps(w6, w7, 1);
    assert Enters(w7, LostWorld(stale, 8), 1, 1);
  }

  /** A token that has been redeemed is redeemed again at once when its grant cannot be
      saved: the account keeps it, and the grant has cleared the rest period. */
  lemma GrantLost(stale: Token, granted: Token)
    requires !Fresh(stale, 0)
    ensures exists run: seq<World> ::
              && IsRun(run) && |run| == 9 && run[8].clock == run[0].clock && run[0].accounts == [stale]
              && Enters(run[1], run[2], 0, 0) && run[2].threads[0] == Redeeming(stale, 0)
              && RedemptionSucceeds(run[2], run[3], 0, granted, "", false)
              && Enters(run[7], run[8], 1, 1) && run[8].threads[1] == Redeeming(stale, 1)
  {
    hide Fresh, Steps, Enters, RedemptionSucceeds, Entered, Drifts;
    BeginsFirst(stale);
    LosesGrant(stale, granted);
    LastStages(LostWorld(stale, 3), LostWorld(stale, 4), LostWorld(stale, 5), LostWorld(stale, 6), stale.id, LOST);
    BeginsAgain(stale);
    var run := seq(9, n requires 0 <= n < 9 => LostWorld(stale, n));
    forall n | 0 <= n < 8 ensures Next(run[n], run[n + 1]) {
      assert Steps(LostWorld(stale, n), LostWorld(stale, n + 1), if n < 6 then 0 else 1);
    }
    assert IsRun(run);
  }
}
