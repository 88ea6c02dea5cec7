/**
 A response in flight over the store: it reserves its source by a pin, commits under its
 target, and gives everything back at the end. Requests come and go in any order.
 */
module ResponseSession {
  import opened Chat
  import opened Forest
  import Portable
  import opened Pruning
  import opened SessionStore

  /** What a request holds until it ends. */
  datatype Reservation =
    | SameKey(existed: bool)
    | Reserved(pinned: bool, locked: bool)

  /** Every pin belongs to a request under way. */
  ghost predicate PinsAgree(pins: Pins, active: multiset<string>) {
    && (forall k | k in pins :: pins[k] == active[k] > 0)
    && (forall k | k in active :: k in pins)
  }

  class ResponseSession {
    const store: SessionStore

    /** The sources pinned by the requests under way. */
    ghost var active: multiset<string>

    ghost predicate Valid()
      reads this, store
    {
      store.Valid() && PinsAgree(store.pins, active)
    }

    constructor (store: SessionStore)
      requires store.Valid() && store.pins == map[]
      ensures Valid() && this.store == store && active == multiset{}
    {
      this.store, active := store, multiset{};
    }

    /** Reserves the source, unless its lock is taken or it is required and missing;
        a refusal leaves nothing behind. The key of a source is never empty. */
    method PrepareResponseTarget(source: string, target: string, requireSource: bool, lockGranted: bool)
      returns (r: Option<Reservation>)
      requires Valid() && source != ""
      modifies this, store`pins
      ensures Valid()
      ensures r.None? <==> target == "" || (source != target && ((!requireSource && !lockGranted)
                                                               || (requireSource && source !in store.data)))
      ensures r.None? || r.value.SameKey? ==> store.pins == old(store.pins) && active == old(active)
      ensures r.Some? ==> r.value == if source == target then SameKey(ValidKey(target) && target in store.data)
                                     else Reserved(source in store.data, !requireSource)
      ensures r.Some? && r.value.Reserved? ==>
                active == old(active) + (if r.value.pinned then multiset{source} else multiset{})
      ensures r.Some? && r.value.Reserved? && r.value.pinned ==>
                Chain(store.data, source, {}) <= Protected(store.data, store.pins)
    {
      hide Materialize, Portable.Bound, Sound, Chain, Protected;
      if target == "" {
        return None;
      }
      if source in store.data {
        SoundReads(store.env.wire, store.data, source);
      }
      if source == target {
        if source in store.data {
          SoundReads(store.env.wire, store.data, target);
        }
        var state := store.Get(target);
        return Some(SameKey(state.Some?));
      }
      if !requireSource && !lockGranted {
        return None;
      }
      var state := store.Pin(source);
      if state.None? && requireSource {
        return None;
      }
      if state.Some? {
        active := active + multiset{source};
        ProtectsChain(store.data, store.pins, source);
      }
      return Some(Reserved(state.Some?, !requireSource));
    }

    /** Ends a request: its pin is given back, and an uncommitted target is removed
        without changing what any other key reads. */
    method Release(source: string, target: string, r: Reservation, committed: bool, ok: bool)
      requires Valid() && source != "" && (r.Reserved? && r.pinned ==> source in active)
      modifies this, store`pins, store`data, store`disk
      ensures Valid()
      ensures active == old(active) - (if r.Reserved? && r.pinned then multiset{source} else multiset{})
      ensures committed || (r.SameKey? && r.existed) ==> store.data == old(store.data) && store.disk == old(store.disk)
      ensures !committed && !(r.SameKey? && r.existed) && ok ==> target !in store.data
      ensures !committed && !ok ==> store.data == old(store.data) && store.disk == old(store.disk)
      ensures forall k | k in store.data ::
                k in old(store.data) && Read(store.env.wire, store.data, k) == Read(store.env.wire, old(store.data), k)
    {
      hide Materialize, Portable.Bound, Sound, PinsAgree;
      if r.Reserved? && r.pinned {
        UnpinAgrees(store.pins, active, source);
        store.Unpin(source);
        active := active - multiset{source};
      }
      if !committed && !(r.SameKey? && r.existed) {
        var removed, err := store.Delete(target, ok);
      }
    }

    /** Commits the turn. A target that is bound to an account which is no longer the
        active one keeps its answer but does not move the stable head. */
    method CommitResponsePortableHistory(t: Turn, authoritative: bool, ok: bool) returns (err: Option<StoreError>)
      requires Valid()
      requires var e := Effective(store.data, t, authoritative);
               CommitRefusal(store.data, e).None? ==> Commits(store.env.wire, store.data, e)
      modifies store`data, store`disk
      ensures Valid()
      ensures err.Some? ==> store.data == old(store.data) && store.disk == old(store.disk)
      ensures err.None? ==> store.disk == store.data
      ensures var outdated := t.source != t.target && t.target in old(store.data)
                              && old(store.data)[t.target].accountID != "" && !authoritative;
              var turn := t.(advance := t.advance && !outdated);
              err.None? ==> CommitRefusal(old(store.data), turn).None?
                            && Settled(store.env, store.pins, Committed(store.env.wire, old(store.data), turn),
                                       store.data, t.now)
      ensures err.None? && t.target in store.data ==>
                Read(store.env.wire, store.data, t.target) ==
                History(CommittedHistory(store.env.wire, old(store.data), t))
      ensures err.None? && Outdated(old(store.data), t, authoritative) ==>
                forall k | k in store.data && k != t.target ::
                  Read(store.env.wire, store.data, k) == Read(store.env.wire, old(store.data), k)
      ensures err.None? && Advances(t) && !Outdated(old(store.data), t, authoritative) && t.source in store.data ==>
                Read(store.env.wire, store.data, t.source) ==
                History(CommittedHistory(store.env.wire, old(store.data), t))
    {
      hide Materialize, Portable.Bound, Sound, CommittedHistory, Tidy, Pruned, Committed, Settled;
      var advance := t.advance;
      if t.target in store.data {
        SoundReads(store.env.wire, store.data, t.target);
      }
      if advance && t.source != t.target {
        var state := store.Get(t.target);
        if state.Some? && state.value.accountID != "" && !authoritative {
          advance := false;
        }
      }
      assert t.(advance := advance) == Effective(store.data, t, authoritative);
      SameHistory(store.env.wire, store.data, t, advance);
      err := store.CommitResponse(t.(advance := advance), ok);
    }
  }

  /** The target is bound to an account that is not the active one. */
  predicate Outdated(data: Records, t: Turn, authoritative: bool) {
    && t.source != t.target && ValidKey(t.target) && t.target in data
    && data[t.target].accountID != "" && !authoritative
  }

  function Effective(data: Records, t: Turn, authoritative: bool): Turn {
    t.(advance := t.advance && !Outdated(data, t, authoritative))
  }

  lemma SameHistory(w: Portable.Wire, data: Records, t: Turn, advance: bool)
    ensures CommittedHistory(w, data, t.(advance := advance)) == CommittedHistory(w, data, t)
  {
  }

  /** Taking one pin back goes with ending one request. */
  lemma UnpinAgrees(pins: Pins, active: multiset<string>, source: string)
    requires PinsAgree(pins, active) && source in active
    ensures PinsAgree(if source !in pins || pins[source] <= 1 then pins - {source}
                      else pins[source := pins[source] - 1], active - multiset{source})
  {
  }

  lemma ProtectsChain(data: Records, pins: Pins, source: string)
    requires source in pins && pins[source] > 0
    ensures Chain(data, source, {}) <= Protected(data, pins)
  {
    forall k | k in Chain(data, source, {}) ensures k in Protected(data, pins) {
      assert source in pins && k in Chain(data, source, {}) + {source};
    }
  }
}
