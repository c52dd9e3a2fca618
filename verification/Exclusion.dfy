/** Who may hold a resource, and for how long. */
module Exclusion {
  import opened Tables
  import opened Protocol
  import opened Invariant

  /** Call `k` works on the lock of `resource`. */
  predicate LocksOn(k: Call, resource: Resource) {
    (k.op.Acquire? || k.op.Renew? || k.op.Release?) && k.op.resource == resource
  }

  /** The claim of a free resource. */
  predicate Claims(s: State, a: Action, resource: Resource, who: Identity) {
    && a.Proceed? && a.c in s.calls && LocksOn(s.calls[a.c], resource)
    && s.calls[a.c].pc.Insert? && s.calls[a.c].op.who == who
    && resource !in s.db.locks
  }

  /** The reclaim from another holder, whose stored lease had run out at the time that
      the reclaiming call sampled, which lies in the past. */
  predicate Reclaims(s: State, a: Action, resource: Resource, from: Identity, who: Identity) {
    && a.Proceed? && a.c in s.calls && LocksOn(s.calls[a.c], resource)
    && s.calls[a.c].pc.Takeover? && s.calls[a.c].op.who == who && s.calls[a.c].pc.seen.holder == from
    && s.calls[a.c].now.value <= s.clock
    && resource in s.db.locks && s.db.locks[resource].holder == from && from != who
    && Reclaimable(s.db.locks[resource], s.calls[a.c].now.value)
  }

  /** The release by the holder, or a forced one. */
  predicate Frees(s: State, a: Action, resource: Resource, from: Identity) {
    && a.Proceed? && a.c in s.calls && LocksOn(s.calls[a.c], resource)
    && s.calls[a.c].pc.Delete?
    && resource in s.db.locks && s.db.locks[resource].holder == from
    && (s.calls[a.c].op.who == from || s.calls[a.c].op.force)
  }

  /** A holder changes by a claim, a reclaim or a release and in no other way,
      and each of the three changes it. */
  lemma HolderChangesLegally(s: State, a: Action, resource: Resource)
    requires Inv(s)
    ensures var before, after := HolderAt(s.db, resource), HolderAt(Next(s, a).db, resource);
      && (forall who :: before == None && after == Some(who) <==> Claims(s, a, resource, who))
      && (forall from, who :: before == Some(from) && after == Some(who) && from != who
            <==> Reclaims(s, a, resource, from, who))
      && (forall from :: before == Some(from) && after == None <==> Frees(s, a, resource, from))
  {
    if a.Proceed? && a.c in s.calls {
      assert CallOk(s.db, s.clock, s.calls[a.c]);
    }
  }

  /** A step that lets a lease run: no write by the holder, no forced release and no
      re-acquiring UPDATE by another identity, which would hit a row it has not read. */
  predicate LeavesAlone(s: State, a: Action, resource: Resource, holder: Identity) {
    a.Proceed? && a.c in s.calls && LocksOn(s.calls[a.c], resource) ==>
      var k := s.calls[a.c];
      && !k.pc.Refresh?
      && (k.pc.RenewWrite? ==> k.op.who != holder)
      && (k.pc.Delete? ==> k.op.who != holder && !k.op.force)
  }

  predicate LeaseRuns(row: Row, clock: Millis) {
    row.leaseSeconds.None? || row.renewedAt.None? || clock < row.renewedAt.value + row.leaseSeconds.value * 1000
  }

  /** While a lease runs by the real clock, a step of anybody else leaves the whole row as
      it is. Sampled times are never ahead of the clock, so a stale one only spares the row. */
  lemma LeaseHoldsStep(s: State, a: Action, resource: Resource)
    requires Inv(s) && resource in s.db.locks
    requires LeavesAlone(s, a, resource, s.db.locks[resource].holder)
    requires LeaseRuns(s.db.locks[resource], Next(s, a).clock)
    ensures RowAt(Next(s, a).db, resource) == RowAt(s.db, resource)
  {
    if a.Proceed? && a.c in s.calls {
      assert CallOk(s.db, s.clock, s.calls[a.c]);
    }
  }

  lemma {:induction false} LeaseHolds(run: Run, i: nat, j: nat, resource: Resource)
    requires run.Valid() && i <= j < |run.states| && Inv(run.states[i])
    requires resource in run.states[i].db.locks
    requires forall m :: i <= m < j ==>
      LeavesAlone(run.states[m], run.actions[m], resource, run.states[i].db.locks[resource].holder)
    requires LeaseRuns(run.states[i].db.locks[resource], run.states[j].clock)
    ensures RowAt(run.states[j].db, resource) == RowAt(run.states[i].db, resource)
    decreases j
  {
    if i < j {
      assert run.Follows(j - 1);
      InvAlong(run, i, j - 1);
      InvNext(run.states[j - 1], run.actions[j - 1]);
      LeaseHolds(run, i, j - 1, resource);
      LeaseHoldsStep(run.states[j - 1], run.actions[j - 1], resource);
    }
  }

  /** Heartbeats keep a hold: while in each state the lease as it then stands runs by the real clock, and
      nobody deletes the row, its holder stays the same through renewals and re-acquires alike. */
  lemma {:induction false} HeartbeatsKeepHold(run: Run, i: nat, j: nat, resource: Resource, who: Identity)
    requires run.Valid() && i <= j < |run.states| && Inv(run.states[i])
    requires HolderAt(run.states[i].db, resource) == Some(who)
    requires forall m :: i <= m < j ==>
      && (resource in run.states[m].db.locks ==> LeaseRuns(run.states[m].db.locks[resource], run.states[m].clock))
      && !Frees(run.states[m], run.actions[m], resource, who)
    ensures HolderAt(run.states[j].db, resource) == Some(who)
    decreases j
  {
    if i < j {
      var s, a := run.states[j - 1], run.actions[j - 1];
      assert run.Follows(j - 1);
      InvAlong(run, i, j - 1);
      HeartbeatsKeepHold(run, i, j - 1, resource, who);
      HolderChangesLegally(s, a, resource);
      if resource in run.states[j].db.locks && run.states[j].db.locks[resource].holder != who {
        ReclaimsOnlyStale(s, a, resource, who, run.states[j].db.locks[resource].holder);
      }
    }
  }

  lemma ReclaimsOnlyStale(s: State, a: Action, resource: Resource, from: Identity, who: Identity)
    requires Reclaims(s, a, resource, from, who)
    ensures !LeaseRuns(s.db.locks[resource], s.clock)
  {
  }

  /** Call `c`, about to write its renewal, succeeds at this step. */
  predicate Renews(s: State, c: nat) {
    && c in s.calls && s.calls[c].pc.RenewWrite?
    && Next(s, Proceed(c)).calls[c].pc.Done? && Next(s, Proceed(c)).calls[c].pc.result.Renewed?
  }

  /** What a renewal does to the lease it finds. The lease left runs by the clock exactly when less
      than its length has gone by since the renewal sampled the time, whether or not the lease it
      found was still running; and it ends sooner than the one found exactly when that one had been
      stamped after the sample. */
  lemma RenewalLeaves(s: State, c: nat)
    requires Inv(s) && Renews(s, c)
    ensures var resource, now := s.calls[c].op.resource, s.calls[c].now.value;
      var s' := Next(s, Proceed(c));
      && HolderAt(s.db, resource) == HolderAt(s'.db, resource) == Some(s.calls[c].op.who)
      && var row, row' := s.db.locks[resource], s'.db.locks[resource];
         && row.leaseSeconds.Some? && row'.leaseSeconds == row.leaseSeconds && row'.renewedAt.Some?
         && (LeaseRuns(row', s.clock) <==> s.clock - now < row.leaseSeconds.value * 1000)
         && (row'.renewedAt.value < row.renewedAt.value <==> now < row.renewedAt.value)
         && (forall t :: LeaseRuns(row', t) && !LeaseRuns(row, t) ==> row.renewedAt.value < now)
  {
    assert CallOk(s.db, s.clock, s.calls[c]);
  }

  lemma RenewalSamples(s: State, c: nat)
    requires c in s.calls && s.calls[c].pc.RenewClock?
    ensures Next(s, Proceed(c)).calls[c].now == Some(s.clock)
  {
  }

  /** In a run: a renewal that samples the time at step `i` and succeeds at step `j` leaves a lease that
      runs by the clock exactly when it has stalled in between for less than the lease. */
  lemma RenewalIsInTime(run: Run, i: nat, j: nat, c: nat)
    requires run.Valid() && i < j < |run.actions| && Inv(run.states[i])
    requires c in run.states[i].calls && run.states[i].calls[c].pc.RenewClock?
    requires run.actions[i] == Proceed(c) == run.actions[j] && Renews(run.states[j], c)
    requires forall m :: i < m < j ==> run.actions[m] != Proceed(c)
    ensures var row := RowAt(run.states[j + 1].db, run.states[j].calls[c].op.resource);
      && row.Some? && row.value.leaseSeconds.Some?
      && (LeaseRuns(row.value, run.states[j + 1].clock)
          <==> run.states[j].clock - run.states[i].clock < row.value.leaseSeconds.value * 1000)
  {
    assert run.Follows(i) && run.Follows(j);
    InvAlong(run, i, j);
    RenewalSamples(run.states[i], c);
    Waits(run, i + 1, j, c);
    RenewalLeaves(run.states[j], c);
  }

  ghost predicate Gain(s: State, a: Action, resource: Resource, who: Identity) {
    Claims(s, a, resource, who) || exists from :: Reclaims(s, a, resource, from, who)
  }

  lemma NewHolderGains(s: State, a: Action, resource: Resource, who: Identity)
    requires Inv(s)
    requires HolderAt(s.db, resource) != Some(who) && HolderAt(Next(s, a).db, resource) == Some(who)
    ensures Gain(s, a, resource, who)
  {
    HolderChangesLegally(s, a, resource);
    if resource in s.db.locks {
      assert Reclaims(s, a, resource, s.db.locks[resource].holder, who);
    }
  }

  /** An identity that holds a resource later than a moment at which it does not
      has gained it in between. */
  lemma {:induction false} HoldingIsGained(run: Run, i: nat, j: nat, resource: Resource, who: Identity)
    requires run.Valid() && i <= j < |run.states| && Inv(run.states[i])
    requires HolderAt(run.states[i].db, resource) != Some(who)
    requires HolderAt(run.states[j].db, resource) == Some(who)
    ensures exists m :: i <= m < j && Gain(run.states[m], run.actions[m], resource, who)
    decreases j
  {
    assert i < j;
    var m := j - 1;
    if HolderAt(run.states[m].db, resource) == Some(who) {
      HoldingIsGained(run, i, m, resource, who);
    } else {
      assert run.Follows(m);
      InvAlong(run, i, m);
      NewHolderGains(run.states[m], run.actions[m], resource, who);
    }
  }

  /** Between two reclaims from the same identity it has gained the resource anew, so no
      expired hold is ever taken over twice. */
  lemma ReclaimsAlternate(run: Run, i: nat, j: nat, resource: Resource,
                          from: Identity, first: Identity, second: Identity)
    requires run.Valid() && i < j < |run.actions| && Inv(run.states[i])
    requires Reclaims(run.states[i], run.actions[i], resource, from, first)
    requires Reclaims(run.states[j], run.actions[j], resource, from, second)
    ensures exists m :: i < m < j && Gain(run.states[m], run.actions[m], resource, from)
  {
    assert run.Follows(i);
    HolderChangesLegally(run.states[i], run.actions[i], resource);
    assert HolderAt(run.states[i + 1].db, resource) == Some(first);
    InvNext(run.states[i], run.actions[i]);
    HoldingIsGained(run, i + 1, j, resource, from);
  }
}
