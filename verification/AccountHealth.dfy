/**
 Per-account health: timed cooldowns, transient rests and hard authentication
 marks. The object only keeps the latest deadlines and forgets expired ones; the
 proof ties it to the whole list of signals it ever received. Times are seconds.
 */
module AccountHealth {
  import Text

  const RATE_LIMIT_COOLDOWN := 120
  const QUOTA_COOLDOWN := 6 * 3600
  const TRANSIENT_COOLDOWN := 30
  const DISENGAGED_COOLDOWN := 12 * 60

  /** A signal with the time it arrived; an until of 0 means that none was given. */
  datatype Signal =
    | RateLimited(id: string, until: int, at: int)
    | QuotaExhausted(id: string, until: int, at: int)
    | Transient(id: string, at: int)
    | Disengaged(id: string, at: int)
    | AuthFailed(id: string, at: int)
    | Succeeded(id: string, at: int)
    | AuthCleared(id: string, at: int)

  /** The deadline a signal sets, if it sets one. */
  predicate IsTimed(s: Signal) {
    s.RateLimited? || s.QuotaExhausted? || s.Transient? || s.Disengaged?
  }

  function Deadline(s: Signal): int
    requires IsTimed(s)
  {
    match s
    case RateLimited(_, until, at) => if until == 0 then at + RATE_LIMIT_COOLDOWN else until
    case QuotaExhausted(_, until, at) => if until == 0 then at + QUOTA_COOLDOWN else until
    case Transient(_, at) => at + TRANSIENT_COOLDOWN
    case Disengaged(_, at) => at + DISENGAGED_COOLDOWN
  }

  /** Some signal for the account has a deadline that is still ahead. */
  ghost predicate Resting(log: seq<Signal>, id: string, now: int) {
    exists i :: 0 <= i < |log| && IsTimed(log[i]) && log[i].id == id && now < Deadline(log[i])
  }

  /** An authentication failure was signalled and not cleared since. */
  ghost predicate AuthOutstanding(log: seq<Signal>, id: string) {
    exists i :: 0 <= i < |log| && log[i].AuthFailed? && log[i].id == id
                && forall j | i < j < |log| :: !(log[j].AuthCleared? && log[j].id == id)
  }

  lemma RestingMore(log: seq<Signal>, s: Signal, id: string, now: int)
    ensures Resting(log + [s], id, now) <==>
            Resting(log, id, now) || (IsTimed(s) && s.id == id && now < Deadline(s))
  {
    var more := log + [s];
    if Resting(log, id, now) {
      var i :| 0 <= i < |log| && IsTimed(log[i]) && log[i].id == id && now < Deadline(log[i]);
      assert more[i] == log[i];
    }
    assert more[|log|] == s;
  }

  lemma AuthMore(log: seq<Signal>, s: Signal, id: string)
    ensures AuthOutstanding(log + [s], id) <==>
            if s.id != id then AuthOutstanding(log, id)
            else if s.AuthFailed? then true
            else if s.AuthCleared? then false
            else AuthOutstanding(log, id)
  {
    var more := log + [s];
    assert more[|log|] == s;
    if AuthOutstanding(log, id) && !(s.AuthCleared? && s.id == id) {
      var i :| 0 <= i < |log| && log[i].AuthFailed? && log[i].id == id
               && forall j | i < j < |log| :: !(log[j].AuthCleared? && log[j].id == id);
      assert more[i] == log[i];
    }
    if AuthOutstanding(more, id) {
      var i :| 0 <= i < |more| && more[i].AuthFailed? && more[i].id == id
               && forall j | i < j < |more| :: !(more[j].AuthCleared? && more[j].id == id);
      if i < |log| {
        assert log[i] == more[i];
        forall j | i < j < |log| ensures !(log[j].AuthCleared? && log[j].id == id) {
          assert more[j] == log[j];
        }
      }
    }
  }

  // ---------------------------------------------------------------- the state

  datatype Health = Health(cooldown: map<string, int>, transient: map<string, int>, authFail: map<string, bool>)

  predicate Ahead(deadlines: map<string, int>, id: string, now: int) {
    id in deadlines && now < deadlines[id]
  }

  predicate Marked(h: Health, id: string) {
    id in h.authFail && h.authFail[id]
  }

  predicate Selectable(h: Health, id: string, now: int) {
    !Marked(h, id) && !Ahead(h.cooldown, id, now) && !Ahead(h.transient, id, now)
  }

  /** From some time on the state says about an account what the signals say. */
  ghost predicate ExplainsAt(h: Health, log: seq<Signal>, clock: int, id: string) {
    && (Marked(h, id) <==> AuthOutstanding(log, id))
    && (forall t | t >= clock :: Ahead(h.cooldown, id, t) || Ahead(h.transient, id, t) <==> Resting(log, id, t))
  }

  ghost predicate Explains(h: Health, log: seq<Signal>, clock: int) {
    forall id :: ExplainsAt(h, log, clock, id)
  }

  function Later(deadlines: map<string, int>, id: string, until: int): map<string, int> {
    if id !in deadlines || until > deadlines[id] then deadlines[id := until] else deadlines
  }

  /** What one signal does to the state. */
  function Heard(h: Health, s: Signal): Health {
    match s
    case RateLimited(id, _, _) => h.(cooldown := Later(h.cooldown, id, Deadline(s)))
    case QuotaExhausted(id, _, _) => h.(cooldown := Later(h.cooldown, id, Deadline(s)))
    case Transient(id, _) => h.(transient := Later(h.transient, id, Deadline(s)))
    case Disengaged(id, _) => h.(transient := Later(h.transient, id, Deadline(s)))
    case AuthFailed(id, _) => h.(authFail := h.authFail[id := true])
    case AuthCleared(id, _) => h.(authFail := h.authFail - {id})
    case Succeeded(id, at) => h.(cooldown := Elapsed(h.cooldown, id, at), transient := Elapsed(h.transient, id, at))
  }

  /** A success forgets a deadline of its account only once it has passed. */
  function Elapsed(deadlines: map<string, int>, id: string, now: int): map<string, int> {
    if Ahead(deadlines, id, now) then deadlines else deadlines - {id}
  }

  function HeardAll(log: seq<Signal>): Health {
    if log == [] then Health(map[], map[], map[]) else Heard(HeardAll(log[..|log| - 1]), log[|log| - 1])
  }

  predicate InTime(log: seq<Signal>, now: int) {
    && (forall i, j | 0 <= i < j < |log| :: log[i].at <= log[j].at)
    && (forall i | 0 <= i < |log| :: log[i].at <= now)
  }

  lemma HeardExplains(h: Health, log: seq<Signal>, clock: int, s: Signal)
    requires Explains(h, log, clock) && s.at >= clock
    ensures Explains(Heard(h, s), log + [s], s.at)
  {
    hide Explains;
    if IsTimed(s) {
      TimedSignal(h, log, clock, s, Heard(h, s));
    } else {
      UntimedSignal(h, log, clock, s, Heard(h, s));
    }
  }

  lemma {:induction false} HeardAllExplains(log: seq<Signal>, now: int)
    requires InTime(log, now)
    ensures Explains(HeardAll(log), log, now)
  {
    hide Heard, ExplainsAt;
    if log == [] {
      forall id ensures ExplainsAt(HeardAll(log), log, now, id) {
        NothingHeard(id, now);
      }
    } else {
      var earlier, s := log[..|log| - 1], log[|log| - 1];
      assert earlier + [s] == log;
      HeardAllExplains(earlier, s.at);
      HeardExplains(HeardAll(earlier), earlier, s.at, s);
      StillExplains(HeardAll(log), log, s.at, now);
    }
  }

  lemma NothingHeard(id: string, now: int)
    ensures ExplainsAt(HeardAll([]), [], now, id)
  {
  }

  lemma StillExplains(h: Health, log: seq<Signal>, clock: int, later: int)
    requires Explains(h, log, clock) && clock <= later
    ensures Explains(h, log, later)
  {
    forall id ensures ExplainsAt(h, log, later, id) {
      assert ExplainsAt(h, log, clock, id);
    }
  }

  /** Whatever signals arrived in whatever order under a monotone clock: an account is
      selectable exactly when no authentication failure is outstanding and now is at or
      past every deadline that was ever signalled for it. */
  lemma SelectableIsJoin(log: seq<Signal>, id: string, now: int)
    requires InTime(log, now)
    ensures Selectable(HeardAll(log), id, now) <==>
            !AuthOutstanding(log, id)
            && forall i | 0 <= i < |log| && IsTimed(log[i]) && log[i].id == id :: Deadline(log[i]) <= now
  {
    hide AuthOutstanding;
    HeardAllExplains(log, now);
    assert ExplainsAt(HeardAll(log), log, now, id);
  }

  function Unexpired(deadlines: map<string, int>, now: int): map<string, int> {
    map id | id in deadlines && now < deadlines[id] :: deadlines[id]
  }

  function Persisted(h: Health, now: int): Health {
    Health(Unexpired(h.cooldown, now), Unexpired(h.transient, now), map id | id in h.authFail && h.authFail[id] :: true)
  }

  predicate Named(id: string) {
    Text.Trim(id) != ""
  }

  function Restored(h: Health, now: int): Health {
    Health(
      map id | id in h.cooldown && Named(id) && now < h.cooldown[id] :: h.cooldown[id],
      map id | id in h.transient && Named(id) && now < h.transient[id] :: h.transient[id],
      map id | id in h.authFail && Named(id) && h.authFail[id] :: true)
  }

  /** Saving and restoring leaves every named account exactly as selectable, from the
      restart on; the state of a blank id is forgotten. */
  lemma RestartKeepsHealth(h: Health, saved: int, restarted: int, id: string, now: int)
    requires saved <= restarted <= now
    ensures Selectable(Restored(Persisted(h, saved), restarted), id, now) <==> Selectable(h, id, now) || !Named(id)
  {
  }

  lemma RestartExplains(h: Health, log: seq<Signal>, clock: int, saved: int, restarted: int, id: string)
    requires ExplainsAt(h, log, clock, id) && clock <= saved <= restarted && Named(id)
    ensures ExplainsAt(Restored(Persisted(h, saved), restarted), log, restarted, id)
  {
    var r := Restored(Persisted(h, saved), restarted);
    forall t | t >= restarted ensures Ahead(r.cooldown, id, t) || Ahead(r.transient, id, t) <==> Resting(log, id, t) {
      assert Ahead(r.cooldown, id, t) <==> Ahead(h.cooldown, id, t);
      assert Ahead(r.transient, id, t) <==> Ahead(h.transient, id, t);
    }
  }

  // ------------------------------------------------- what a signal means from then on

  /** The account is out until then, and the others are as before. */
  ghost predicate RestsUntil(before: Health, after: Health, id: string, until: int, now: int) {
    forall k, t | t >= now :: Selectable(after, k, t) <==> Selectable(before, k, t) && (k == id ==> t >= until)
  }

  /** The account is out for good, and the others are as before. */
  ghost predicate IsOut(before: Health, after: Health, id: string, now: int) {
    forall k, t | t >= now :: Selectable(after, k, t) <==> Selectable(before, k, t) && k != id
  }

  /** Only the timed rests of the account count again, and the others are as before. */
  ghost predicate IsBack(before: Health, after: Health, id: string, now: int) {
    && (forall k, t | t >= now && k != id :: Selectable(after, k, t) <==> Selectable(before, k, t))
    && forall t | t >= now ::
         Selectable(after, id, t) <==> (id in before.cooldown ==> before.cooldown[id] <= t)
                                       && (id in before.transient ==> before.transient[id] <= t)
  }

  // ------------------------------------------------------------------ the class

  class AccountHealth {
    var cooldown: map<string, int>
    var transient: map<string, int>
    var authFail: map<string, bool>

    ghost var log: seq<Signal>
    ghost var clock: int

    function State(): Health
      reads this
    {
      Health(cooldown, transient, authFail)
    }

    ghost predicate Valid()
      reads this
    {
      Explains(State(), log, clock)
    }

    constructor ()
      ensures Valid() && log == [] && clock == 0
    {
      cooldown, transient, authFail := map[], map[], map[];
      log, clock := [], 0;
    }

    method Available(id: string, now: int) returns (b: bool)
      requires Valid() && now >= clock
      ensures b <==> Selectable(State(), id, now)
      ensures b <==> !AuthOutstanding(log, id)
                     && forall i | 0 <= i < |log| && IsTimed(log[i]) && log[i].id == id :: Deadline(log[i]) <= now
    {
      assert ExplainsAt(State(), log, clock, id);
      if id in authFail && authFail[id] {
        return false;
      }
      if id in cooldown && now < cooldown[id] {
        return false;
      }
      if id in transient && now < transient[id] {
        return false;
      }
      return true;
    }

    method MarkRateLimited(id: string, until: int, now: int)
      requires Valid() && now >= clock
      modifies this
      ensures Valid() && clock == now && log == old(log) + [RateLimited(id, until, now)]
      ensures State() == Heard(old(State()), RateLimited(id, until, now))
      ensures RestsUntil(old(State()), State(), id, if until == 0 then now + 120 else until, now)
    {
      HeardExplains(State(), log, clock, RateLimited(id, until, now));
      cooldown := Later(cooldown, id, if until == 0 then now + RATE_LIMIT_COOLDOWN else until);
      log, clock := log + [RateLimited(id, until, now)], now;
    }

    method MarkQuotaExhausted(id: string, until: int, now: int)
      requires Valid() && now >= clock
      modifies this
      ensures Valid() && clock == now && log == old(log) + [QuotaExhausted(id, until, now)]
      ensures State() == Heard(old(State()), QuotaExhausted(id, until, now))
      ensures RestsUntil(old(State()), State(), id, if until == 0 then now + 21600 else until, now)
    {
      HeardExplains(State(), log, clock, QuotaExhausted(id, until, now));
      cooldown := Later(cooldown, id, if until == 0 then now + QUOTA_COOLDOWN else until);
      log, clock := log + [QuotaExhausted(id, until, now)], now;
    }

    method MarkTransient(id: string, now: int)
      requires Valid() && now >= clock
      modifies this
      ensures Valid() && clock == now && log == old(log) + [Transient(id, now)]
      ensures State() == Heard(old(State()), Transient(id, now))
      ensures RestsUntil(old(State()), State(), id, now + 30, now)
    {
      HeardExplains(State(), log, clock, Transient(id, now));
      transient := Later(transient, id, now + TRANSIENT_COOLDOWN);
      log, clock := log + [Transient(id, now)], now;
    }

    method MarkDisengaged(id: string, now: int)
      requires Valid() && now >= clock
      modifies this
      ensures Valid() && clock == now && log == old(log) + [Disengaged(id, now)]
      ensures State() == Heard(old(State()), Disengaged(id, now))
      ensures RestsUntil(old(State()), State(), id, now + 720, now)
    {
      HeardExplains(State(), log, clock, Disengaged(id, now));
      transient := Later(transient, id, now + DISENGAGED_COOLDOWN);
      log, clock := log + [Disengaged(id, now)], now;
    }

    method MarkAuthFail(id: string, now: int)
      requires Valid() && now >= clock
      modifies this
      ensures Valid() && clock == now && log == old(log) + [AuthFailed(id, now)]
      ensures State() == Heard(old(State()), AuthFailed(id, now)) && IsOut(old(State()), State(), id, now)
    {
      HeardExplains(State(), log, clock, AuthFailed(id, now));
      authFail := authFail[id := true];
      log, clock := log + [AuthFailed(id, now)], now;
    }

    method ClearAuthFailure(id: string, now: int)
      requires Valid() && now >= clock
      modifies this
      ensures Valid() && clock == now && log == old(log) + [AuthCleared(id, now)]
      ensures State() == Heard(old(State()), AuthCleared(id, now)) && IsBack(old(State()), State(), id, now)
    {
      HeardExplains(State(), log, clock, AuthCleared(id, now));
      authFail := authFail - {id};
      log, clock := log + [AuthCleared(id, now)], now;
    }

    /** A success only forgets deadlines that have passed. */
    method MarkSuccess(id: string, now: int)
      requires Valid() && now >= clock
      modifies this
      ensures Valid() && clock == now && log == old(log) + [Succeeded(id, now)]
      ensures State() == Heard(old(State()), Succeeded(id, now))
      ensures authFail == old(authFail)
      ensures forall a, t | t >= now :: Selectable(State(), a, t) <==> Selectable(old(State()), a, t)
    {
      HeardExplains(State(), log, clock, Succeeded(id, now));
      if id !in cooldown || !(now < cooldown[id]) {
        cooldown := cooldown - {id};
      }
      if id !in transient || !(now < transient[id]) {
        transient := transient - {id};
      }
      log, clock := log + [Succeeded(id, now)], now;
    }

    method PersistedState(now: int) returns (h: Health)
      ensures h == Persisted(State(), now)
    {
      h := Health(Unexpired(cooldown, now), Unexpired(transient, now), map id | id in authFail && authFail[id] :: true);
    }

    /** A restart with saved state carries on as if it had received the signals that
        led to that state, provided the signals named their accounts. */
    constructor Restore(ghost h: Health, saved: Health, savedAt: int, now: int,
                        ghost history: seq<Signal>, ghost since: int)
      requires saved == Persisted(h, savedAt) && since <= savedAt <= now && Explains(h, history, since)
      requires forall i | 0 <= i < |history| :: Named(history[i].id)
      ensures Valid() && log == history && clock == now
      ensures forall id, t | Named(id) && t >= now :: Selectable(State(), id, t) <==> Selectable(h, id, t)
    {
      var restored := Restored(saved, now);
      cooldown, transient, authFail := restored.cooldown, restored.transient, restored.authFail;
      log, clock := history, now;
      new;
      forall id, t | Named(id) && t >= now ensures Selectable(State(), id, t) <==> Selectable(h, id, t) {
        RestartKeepsHealth(h, savedAt, now, id, t);
      }
      forall id ensures ExplainsAt(State(), log, clock, id) {
        if Named(id) {
          assert ExplainsAt(h, history, since, id);
          RestartExplains(h, history, since, savedAt, now, id);
        }
      }
    }
  }

  /** A timed signal raises one deadline of its account to the maximum. */
  lemma TimedSignal(h: Health, log: seq<Signal>, clock: int, s: Signal, after: Health)
    requires Explains(h, log, clock) && s.at >= clock && IsTimed(s) && after.authFail == h.authFail
    requires || (after.cooldown == Later(h.cooldown, s.id, Deadline(s)) && after.transient == h.transient)
             || (after.transient == Later(h.transient, s.id, Deadline(s)) && after.cooldown == h.cooldown)
    ensures Explains(after, log + [s], s.at)
  {
    forall id ensures ExplainsAt(after, log + [s], s.at, id) {
      assert ExplainsAt(h, log, clock, id);
      AuthMore(log, s, id);
      forall t | t >= s.at
        ensures Ahead(after.cooldown, id, t) || Ahead(after.transient, id, t) <==> Resting(log + [s], id, t)
      {
        RestingMore(log, s, id, t);
      }
    }
  }

  /** Any other signal leaves every deadline that is still ahead. */
  lemma UntimedSignal(h: Health, log: seq<Signal>, clock: int, s: Signal, after: Health)
    requires Explains(h, log, clock) && s.at >= clock && !IsTimed(s)
    requires forall id, t | t >= s.at :: Ahead(after.cooldown, id, t) == Ahead(h.cooldown, id, t)
    requires forall id, t | t >= s.at :: Ahead(after.transient, id, t) == Ahead(h.transient, id, t)
    requires after.authFail == if s.AuthFailed? then h.authFail[s.id := true]
                               else if s.AuthCleared? then h.authFail - {s.id} else h.authFail
    ensures Explains(after, log + [s], s.at)
  {
    forall id ensures ExplainsAt(after, log + [s], s.at, id) {
      assert ExplainsAt(h, log, clock, id);
      AuthMore(log, s, id);
      forall t | t >= s.at
        ensures Ahead(after.cooldown, id, t) || Ahead(after.transient, id, t) <==> Resting(log + [s], id, t)
      {
        RestingMore(log, s, id, t);
      }
    }
  }
}
