/** Runs that show where an obvious claim about interleaved calls is false. */
module Anomalies {
  import opened Tables
  import opened Protocol
  import opened Calls
  import opened Alone
  import opened History
  import opened Exclusion
  import opened LogOrder
  import opened Atomic

  /** A resource held by `q` under a lease of one second since time 0. */
  function Held(r: Resource, q: Identity): Db {
    EMPTY_DB.(locks := map[r := Row(q, "", 0, "", Some(1), Some(0))],
    events := [Event(r, AcquiredEvent, q, q, "", "", false)])
  }

  lemma HoldingRun(r: Resource, q: Identity) returns (run: Run)
    requires ValidResourceName(r)
    ensures run.Valid() && Initial(run.states[0])
    ensures run.Last().db == Held(r, q) && run.Last().clock == 0 && run.Last().calls.Keys == {0}
    ensures run.Last().calls[0].pc.Done?
  {
    run := Run([State(EMPTY_DB, 0, map[])], []);
    run := ExtendCall(run, 0, Acquire(r, q, "", "", 1), 0);
  }

  /** Runs `c` from invocation to the failed insert and the read after it. */
  lemma ContendingRun(run: Run, c: nat, r: Resource, who: Identity, lease: Int64) returns (run': Run)
    requires run.Valid() && c !in run.Last().calls && r in run.Last().db.locks && ValidResourceName(r) && lease >= 0
    ensures run'.Valid() && run'.states[0] == run.states[0]
    ensures var op := Acquire(r, who, "", "", lease);
      run'.Last() == Next(run.Last().(calls := run.Last().calls[c := RawCall(op, Some(run.Last().clock), Read(0))]), Proceed(c))
  {
    run' := Extend(run, Invoke(c, Acquire(r, who, "", "", lease)));
    run' := Extend(run', Proceed(c));
    run' := Extend(run', Proceed(c));
    run' := Extend(run', Proceed(c));
    assert run'.Last() == run.Last().(calls :=
      run.Last().calls[c := RawCall(Acquire(r, who, "", "", lease), Some(run.Last().clock), Read(0))]);
    run' := Extend(run', Proceed(c));
  }

  /** What call `c` of identity `who` has returned. */
  predicate Returned(s: State, c: nat, who: Identity, result: Result) {
    && c in s.calls && (s.calls[c].op.Acquire? || s.calls[c].op.Renew? || s.calls[c].op.Release?)
    && s.calls[c].op.who == who && s.calls[c].pc == Done(result)
  }

  /** From a lease of `q` that has run out: `q` is about to refresh its row, `p` to reclaim it. */
  lemma RacingRun(r: Resource, q: Identity, p: Identity) returns (run: Run)
    requires ValidResourceName(r) && q != p
    ensures run.Valid() && Initial(run.states[0])
    ensures var seen := Row(q, "", 0, "", Some(1), Some(0));
      run.Last() == State(Held(r, q), 1000, run.Last().calls)
      && run.Last().calls.Keys == {0, 1, 2}
      && run.Last().calls[1] == RawCall(Acquire(r, q, "", "", 0), Some(1000), Refresh(seen))
      && run.Last().calls[2] == RawCall(Acquire(r, p, "", "", 60), Some(1000), Takeover(0, seen))
  {
    run := HoldingRun(r, q);
    run := Extend(run, Tick(1000));
    run := ContendingRun(run, 1, r, q, 0);
    run := ContendingRun(run, 2, r, p, 60);
  }

  /** `p` has reclaimed the resource and returned; `q` is still about to refresh its row. */
  lemma ReclaimedRun(r: Resource, q: Identity, p: Identity) returns (run: Run)
    requires ValidResourceName(r) && q != p
    ensures run.Valid() && Initial(run.states[0])
    ensures run.Last().db.locks == map[r := Row(p, "", 1000, "", Some(60), Some(1000))] && run.Last().clock == 1000
    ensures forall e :: e in run.Last().db.events ==> !e.kind.ReleasedEvent?
    ensures 1 in run.Last().calls && run.Last().calls[1]
      == RawCall(Acquire(r, q, "", "", 0), Some(1000), Refresh(Row(q, "", 0, "", Some(1), Some(0))))
    ensures Returned(run.Last(), 2, p, Reclaimed(Row(p, "", 1000, "", Some(60), Some(1000))))
  {
    run := RacingRun(r, q, p);
    run := Extend(run, Proceed(2));
    run := Extend(run, Proceed(2));
    run := Extend(run, Proceed(2));
  }

  /** At step `m` the re-acquiring UPDATE of `q` meets the row of `p`, who has been told of that very hold, whose
      lease runs, and which nothing has released. `q` is then told that the hold is its own; it is still
      `p`'s, and has lost its lease. */
  ghost predicate BothHold(run: Run, m: nat, r: Resource, q: Identity, p: Identity) {
    && run.Valid() && Initial(run.states[0]) && m < |run.actions| && run.actions[m] == Proceed(1)
    && var s, s' := run.states[m], run.states[m + 1];
       && 1 in s.calls && s.calls[1].pc.Refresh? && s.calls[1].op.who == q && s.calls[1].op.resource == r
       && !RefreshIsSound(s.db, s.calls[1])
       && r in s.db.locks && s.db.locks[r].holder == p && LeaseRuns(s.db.locks[r], s.clock)
       && s.db.locks[r].leaseSeconds.Some?
       && Returned(s, 2, p, Reclaimed(s.db.locks[r]))
       && (forall e :: e in s.db.events ==> !e.kind.ReleasedEvent?)
       && Returned(s', 1, q, Reacquired(Row(q, "", 0, "", None, None)))
       && RowAt(s'.db, r) == Some(s.db.locks[r].(leaseSeconds := None, renewedAt := None))
  }

  /** A holder whose lease has run out re-acquires just as another identity reclaims: both are told
      that they hold the resource, nothing was released, and the reclaimer has lost its lease. */
  lemma StaleReacquireGivesTwoHolders(r: Resource, q: Identity, p: Identity)
    requires ValidResourceName(r) && q != p
    ensures exists run: Run, m :: BothHold(run, m, r, q, p)
  {
    var reclaimed := ReclaimedRun(r, q, p);
    var m := |reclaimed.actions|;
    var run := Extend(reclaimed, Proceed(1));
    assert run.states[m] == reclaimed.Last() && run.states[m + 1] == run.Last();
    assert BothHold(run, m, r, q, p);
  }

  /** At step `m` a renewal of `q` succeeds on a lease that has run out by the clock at that moment,
      and leaves one that has run out too. */
  ghost predicate LateRenewal(run: Run, m: nat, r: Resource, q: Identity) {
    && run.Valid() && Initial(run.states[0]) && m < |run.actions| && run.actions[m] == Proceed(1)
    && Renews(run.states[m], 1) && run.states[m].calls[1].op == Renew(r, q)
    && r in run.states[m].db.locks && Reclaimable(run.states[m].db.locks[r], run.states[m].clock)
    && r in run.states[m + 1].db.locks && Reclaimable(run.states[m + 1].db.locks[r], run.states[m + 1].clock)
  }

  /** `q` has sampled the time for a renewal, and is about to write it. */
  lemma RenewingRun(r: Resource, q: Identity) returns (run: Run)
    requires ValidResourceName(r)
    ensures run.Valid() && Initial(run.states[0])
    ensures run.Last() == State(Held(r, q), 0, run.Last().calls)
    ensures 1 in run.Last().calls && run.Last().calls.Keys == {0, 1}
    ensures run.Last().calls[1] == RawCall(Renew(r, q), Some(0), RenewWrite(Row(q, "", 0, "", Some(1), Some(0))))
  {
    run := HoldingRun(r, q);
    run := Extend(run, Invoke(1, Renew(r, q)));
    run := Extend(run, Proceed(1));
    run := Extend(run, Proceed(1));
  }

  /** A renewal that samples the time and then stalls succeeds after the lease has run out,
      and leaves a lease that has run out. */
  lemma StalledRenewalSucceedsLate(r: Resource, q: Identity)
    requires ValidResourceName(r)
    ensures exists run: Run, m :: LateRenewal(run, m, r, q)
  {
    var run := RenewingRun(r, q);
    run := Extend(run, Tick(5000));
    var late := Extend(run, Proceed(1));
    var m := |run.actions|;
    assert late.states[m] == run.Last() && late.states[m + 1] == late.Last();
    assert LateRenewal(late, m, r, q);
  }

  /** At step `m` a renewal of `q` succeeds and leaves its lease ending sooner than it found it. */
  ghost predicate ShortensLease(run: Run, m: nat, r: Resource, q: Identity) {
    && run.Valid() && Initial(run.states[0]) && m < |run.actions| && run.actions[m] == Proceed(1)
    && Renews(run.states[m], 1) && run.states[m].calls[1].op == Renew(r, q)
    && RowAt(run.states[m].db, r) == Some(Row(q, "", 0, "", Some(1), Some(500)))
    && RowAt(run.states[m + 1].db, r) == Some(Row(q, "", 0, "", Some(1), Some(0)))
  }

  /** Of two renewals by the holder, the one that sampled the time first may write last. */
  lemma RenewalMovesLeaseBack(r: Resource, q: Identity)
    requires ValidResourceName(r)
    ensures exists run: Run, m :: ShortensLease(run, m, r, q)
  {
    var run := RenewingRun(r, q);
    run := ExtendCall(run, 2, Renew(r, q), 500);
    var m := |run.actions|;
    var back := Extend(run, Proceed(1));
    assert back.states[m] == run.Last() && back.states[m + 1] == back.Last();
    assert ShortensLease(back, m, r, q);
  }

  /** A release has freed `r` and `p` has since been granted it; the release has yet to log. */
  lemma OvertakenReleaseRun(r: Resource, q: Identity, p: Identity) returns (run: Run)
    requires ValidResourceName(r)
    ensures run.Valid() && Initial(run.states[0])
    ensures run.Last().db == EMPTY_DB.(
      locks := map[r := Row(p, "", 0, "", None, None)],
      events := [Event(r, AcquiredEvent, q, q, "", "", false), Event(r, AcquiredEvent, p, p, "", "", false)])
    ensures 1 in run.Last().calls
      && run.Last().calls[1] == RawCall(Release(r, q, "", false), None, ReleaseEvent(Row(q, "", 0, "", Some(1), Some(0))))
    ensures forall c :: c in run.Last().calls && c != 1 ==> run.Last().calls[c].pc.Done?
  {
    run := HoldingRun(r, q);
    run := Extend(run, Invoke(1, Release(r, q, "", false)));
    run := Extend(run, Proceed(1));
    run := Extend(run, Proceed(1));
    assert run.Last().db.locks == map[];
    run := OvertakenGrant(run, 2, Acquire(r, p, "", "", 0));
  }

  lemma OvertakenGrant(run: Run, c: nat, op: Op) returns (run': Run)
    requires run.Valid() && c !in run.Last().calls && op.Acquire? && ValidResourceName(op.resource) && op.lease >= 0
    requires op.strategy == "" && op.resource !in run.Last().db.locks
    ensures run'.Valid() && run'.states[0] == run.states[0]
    ensures run'.Last().db == CallAlone(run.Last().db, op, run.Last().clock).0
    ensures run'.Last().calls.Keys == run.Last().calls.Keys + {c} && run'.Last().calls[c].pc.Done?
    ensures forall c' :: c' in run.Last().calls ==> run'.Last().calls[c'] == run.Last().calls[c']
  {
    run' := Extend(run, Invoke(c, op));
    run' := Extend(run', Proceed(c));
    run' := Extend(run', Proceed(c));
    run' := Extend(run', Proceed(c));
    run' := Extend(run', Proceed(c));
  }

  /** Every call has ended, `p` holds the resource and nobody has released it since, and the log says
      that it is free. */
  ghost predicate LogOutOfOrder(run: Run, r: Resource, q: Identity, p: Identity) {
    && run.Valid() && Initial(run.states[0])
    && (forall c :: c in run.Last().calls ==> run.Last().calls[c].pc.Done?)
    && run.Last().db.events == [
         Event(r, AcquiredEvent, q, q, "", "", false),
         Event(r, AcquiredEvent, p, p, "", "", false),
         Event(r, ReleasedEvent, q, q, "", "", false)]
    && HolderAt(run.Last().db, r) == Some(p)
    && HolderTold(run.Last().db.events, r) == None
  }

  /** Row changes and their events may be logged in opposite orders: when all is over the log says
      that the resource is free while it is held. */
  lemma InterleavedLogMisleads(r: Resource, q: Identity, p: Identity)
    requires ValidResourceName(r)
    ensures exists run: Run :: LogOutOfOrder(run, r, q, p)
  {
    var run := OvertakenReleaseRun(r, q, p);
    var events := run.Last().db.events;
    run := Extend(run, Proceed(1));
    var e := Event(r, ReleasedEvent, q, q, "", "", false);
    assert run.Last().db.events == events + [e];
    ToldSnoc(events, e, r);
    run := Extend(run, Proceed(1));
    assert LogOutOfOrder(run, r, q, p);
  }

  /** The one notification that `w` has got, sent by the release of `q`, shows the acquire of `p`. */
  ghost predicate Misdelivery(run: Run, r: Resource, q: Identity, p: Identity, w: Identity) {
    && run.Valid() && Initial(run.states[0])
    && run.Last().db.events == [
         Event(r, AcquiredEvent, q, q, "", "", false),
         Event(r, ReleasedEvent, q, q, "", "", false),
         Event(r, AcquiredEvent, p, p, "", "", false)]
    && run.Last().db.propagations == [Propagation(0, 2, w, false)]
    && 1 in run.Last().calls && run.Last().calls[1].op == Release(r, q, "", false)
    && run.Last().calls[1].pc == Done(Released)
  }

  lemma WatchedRun(r: Resource, q: Identity, w: Identity) returns (run: Run)
    requires ValidResourceName(r)
    ensures run.Valid() && Initial(run.states[0])
    ensures run.Last().db == Held(r, q).(interests := [Interest(w, r, Active, "")])
    ensures run.Last().calls.Keys == {0, 3} && run.Last().clock == 0
  {
    run := HoldingRun(r, q);
    run := ExtendCall(run, 3, Subscribe(r, w, ""), 0);
  }

  /** A release has freed `r` and logged it; the release has yet to notify `w`. */
  lemma UnnotifiedReleaseRun(r: Resource, q: Identity, w: Identity) returns (run: Run)
    requires ValidResourceName(r)
    ensures run.Valid() && Initial(run.states[0])
    ensures run.Last().db == Db(
      map[],
      [Event(r, AcquiredEvent, q, q, "", "", false), Event(r, ReleasedEvent, q, q, "", "", false)],
      [Interest(w, r, Active, "")], [], {})
    ensures run.Last().calls.Keys == {0, 1, 3}
    ensures run.Last().calls[1] == RawCall(Release(r, q, "", false), None, MatchInterests(1, Released))
  {
    run := WatchedRun(r, q, w);
    run := Extend(run, Invoke(1, Release(r, q, "", false)));
    run := Extend(run, Proceed(1));
    run := Extend(run, Proceed(1));
    run := Extend(run, Proceed(1));
    assert run.Last().db.locks == map[];
  }

  /** A release is delivered to a subscriber as the acquire of another identity that came between. */
  lemma ReleaseDeliveredAsAcquire(r: Resource, q: Identity, p: Identity, w: Identity)
    requires ValidResourceName(r)
    ensures exists run: Run :: Misdelivery(run, r, q, p, w)
  {
    var run := UnnotifiedReleaseRun(r, q, w);
    run := OvertakenGrant(run, 2, Acquire(r, p, "", "", 0));
    run := DeliverOnly(run, 1, w);
    assert Misdelivery(run, r, q, p, w);
  }

  /** Two denials, of `first` and of `second`, are logged, and `w` has been told twice of the second. */
  ghost predicate SecondDenialToldTwice(run: Run, r: Resource, q: Identity, first: Identity, second: Identity, w: Identity) {
    && run.Valid() && Initial(run.states[0])
    && run.Last().db.events == [
         Event(r, AcquiredEvent, q, q, "", "", false),
         Event(r, DeniedEvent, first, q, "", "", false),
         Event(r, DeniedEvent, second, q, "", "", false)]
    && run.Last().db.interests == [Interest(w, r, Active, "")]
    && run.Last().db.propagations == [Propagation(0, 2, w, false), Propagation(0, 2, w, false)]
    && Returned(run.Last(), 1, first, Denied(q, 0)) && Returned(run.Last(), 2, second, Denied(q, 0))
  }

  /** `first` and `second` have both been denied and have logged it, and have yet to notify `w`. */
  lemma UnnotifiedDenialsRun(r: Resource, q: Identity, first: Identity, second: Identity, w: Identity) returns (run: Run)
    requires ValidResourceName(r) && first != q && second != q
    ensures run.Valid() && Initial(run.states[0])
    ensures run.Last().db == Held(r, q).(
      interests := [Interest(w, r, Active, "")],
      events := [Event(r, AcquiredEvent, q, q, "", "", false), Event(r, DeniedEvent, first, q, "", "", false),
                 Event(r, DeniedEvent, second, q, "", "", false)])
    ensures run.Last().calls.Keys == {0, 1, 2, 3}
    ensures run.Last().calls[1] == RawCall(Acquire(r, first, "", "", 0), Some(0), MatchInterests(1, Denied(q, 0)))
    ensures run.Last().calls[2] == RawCall(Acquire(r, second, "", "", 0), Some(0), MatchInterests(2, Denied(q, 0)))
  {
    run := WatchedRun(r, q, w);
    run := ContendingRun(run, 1, r, first, 0);
    run := ContendingRun(run, 2, r, second, 0);
    run := Extend(run, Proceed(1));
    run := Extend(run, Proceed(2));
  }

  /** Of two interleaved denials the subscriber may be told twice of the second and never of the first. */
  lemma InterleavedDenialsToldAsOne(r: Resource, q: Identity, first: Identity, second: Identity, w: Identity)
    requires ValidResourceName(r) && first != q && second != q
    ensures exists run: Run :: SecondDenialToldTwice(run, r, q, first, second, w)
  {
    var run := UnnotifiedDenialsRun(r, q, first, second, w);
    run := DeliverOnly(run, 1, w);
    run := DeliverOnly(run, 2, w);
    assert SecondDenialToldTwice(run, r, q, first, second, w);
  }

  lemma DeliverOnly(run: Run, c: nat, w: Identity) returns (run': Run)
    requires run.Valid() && c in run.Last().calls && run.Last().calls[c].pc.MatchInterests?
    requires var r := run.Last().calls[c].op.resource;
      && run.Last().db.interests == [Interest(w, r, Active, "")]
      && LastEvent(run.Last().db.events, r).Some?
    ensures run'.Valid() && run'.states[0] == run.states[0]
    ensures var db := run.Last().db; var e := LastEvent(db.events, run.Last().calls[c].op.resource).value;
      run'.Last().db == db.(propagations := db.propagations + [Propagation(0, e, w, false)])
    ensures c in run'.Last().calls && run'.Last().calls[c].op == run.Last().calls[c].op
    ensures run'.Last().calls[c].pc == Done(run.Last().calls[c].pc.reply)
    ensures forall d :: d in run.Last().calls && d != c ==> d in run'.Last().calls && run'.Last().calls[d] == run.Last().calls[d]
  {
    var s := run.Last();
    var k := s.calls[c];
    NotifyOnly(s.db, w, k.op.resource);
    var n := StepsOfMatch(s.db, s.clock, k);
    run' := ExtendSteps(run, c, n);
  }

  /** How many steps a call takes that is alone to notify. */
  lemma StepsOfMatch(db: Db, clock: Millis, k: Call) returns (n: nat)
    requires k.pc.MatchInterests? && LastEvent(db.events, k.op.resource).Some?
    ensures Steps(db, clock, k, n).0 == Notify(db, k.op.resource)
    ensures Steps(db, clock, k, n).1.op == k.op && Steps(db, clock, k, n).1.pc == Done(k.pc.reply)
  {
    MatchesAlone(db, clock, k);
    var k' :| Leads(db, clock, k, Notify(db, k.op.resource), k') && k'.pc == Done(k.pc.reply);
    n :| Steps(db, clock, k, n) == (Notify(db, k.op.resource), k');
    StepsKeepOp(db, clock, k, n);
  }

  lemma NotifyOnly(db: Db, w: Identity, r: Resource)
    requires db.interests == [Interest(w, r, Active, "")] && LastEvent(db.events, r).Some?
    ensures Notify(db, r)
         == db.(propagations := db.propagations + [Propagation(0, LastEvent(db.events, r).value, w, false)])
  {
    assert Subscribed(db.interests, 0, r) && db.interests[..0] == [];
    assert ActiveOn(db.interests, r) == [Subscriber(0, w)];
  }

  /** At step `m` a forced release of `admin` removes the hold of `p`; the event it then logs names `q`, and
      is marked as forced only if `q` is not `admin`. */
  ghost predicate WrongHolderNamed(run: Run, m: nat, r: Resource, q: Identity, p: Identity, admin: Identity) {
    && run.Valid() && Initial(run.states[0])
    && m + 2 == |run.actions| && run.actions[m] == Proceed(1) == run.actions[m + 1]
    && 1 in run.states[m].calls && run.states[m].calls[1].op == Release(r, admin, "", true)
    && HolderAt(run.states[m].db, r) == Some(p) && HolderAt(run.states[m + 1].db, r) == None
    && run.states[m + 2].db.events == run.states[m].db.events + [Event(r, ReleasedEvent, admin, q, "", "", q != admin)]
  }

  /** A forced release of `admin` has read that `q` holds the resource, and `q` does still. */
  lemma AboutToForceRun(r: Resource, q: Identity, admin: Identity) returns (run: Run)
    requires ValidResourceName(r)
    ensures run.Valid() && Initial(run.states[0])
    ensures run.Last().db == Held(r, q) && run.Last().clock == 0 && run.Last().calls.Keys == {0, 1}
    ensures run.Last().calls[1] == RawCall(Release(r, admin, "", true), None, Delete(Row(q, "", 0, "", Some(1), Some(0))))
  {
    run := HoldingRun(r, q);
    run := Extend(run, Invoke(1, Release(r, admin, "", true)));
    run := Extend(run, Proceed(1));
  }

  /** `p` holds the resource, while a forced release of `admin` has read that `q` does. */
  lemma ForcedRun(r: Resource, q: Identity, p: Identity, admin: Identity) returns (run: Run)
    requires ValidResourceName(r)
    ensures run.Valid() && Initial(run.states[0])
    ensures HolderAt(run.Last().db, r) == Some(p)
    ensures 1 in run.Last().calls && run.Last().calls[1]
      == RawCall(Release(r, admin, "", true), None, Delete(Row(q, "", 0, "", Some(1), Some(0))))
  {
    run := AboutToForceRun(r, q, admin);
    run := ExtendCall(run, 2, Release(r, q, "", false), 0);
    run := OvertakenGrant(run, 3, Acquire(r, p, "", "", 0));
  }

  /** A forced release removes whoever holds the resource by then, and logs whoever held it before. */
  lemma ForcedReleaseNamesFormerHolder(r: Resource, q: Identity, p: Identity, admin: Identity)
    requires ValidResourceName(r)
    ensures exists run: Run, m :: WrongHolderNamed(run, m, r, q, p, admin)
  {
    var read := ForcedRun(r, q, p, admin);
    var m := |read.actions|;
    var freed := Extend(read, Proceed(1));
    var run := Extend(freed, Proceed(1));
    assert run.states[m] == read.Last() && run.states[m + 1] == freed.Last() && run.states[m + 2] == run.Last();
    assert WrongHolderNamed(run, m, r, q, p, admin);
  }

  /** So `q`, forcing the release of what it read as its own, takes the hold of `p` away, and the log
      shows an ordinary release by its holder. */
  lemma TakenByForceLooksOrdinary(r: Resource, q: Identity, p: Identity)
    requires ValidResourceName(r) && p != q
    ensures exists run: Run, m :: WrongHolderNamed(run, m, r, q, p, q) && !run.Last().db.events[|run.Last().db.events| - 1].forced
  {
    ForcedReleaseNamesFormerHolder(r, q, p, q);
    var run, m :| WrongHolderNamed(run, m, r, q, p, q);
    assert run.Last() == run.states[m + 2];
  }

  ghost predicate TwiceSubscribed(run: Run, r: Resource, w: Identity) {
    && run.Valid() && Initial(run.states[0])
    && Actives(run.Last().db.interests, w, r) == 2
    && forall c :: c in run.Last().calls ==> run.Last().calls[c].op.Subscribe?
  }

  lemma TwoActives(x: Interest)
    requires x.status == Active
    ensures Actives([x, x], x.who, x.resource) == 2
  {
    assert [x][..0] == [];
    assert Actives([x], x.who, x.resource) == 1;
    assert [x, x][..1] == [x];
  }

  /** Two interleaved creations of the same interest both make one. */
  lemma ConcurrentCreatesBothInsert(r: Resource, w: Identity)
    requires ValidResourceName(r)
    ensures exists run: Run :: TwiceSubscribed(run, r, w)
  {
    var run := Run([State(EMPTY_DB, 0, map[])], []);
    run := Extend(run, Invoke(0, Subscribe(r, w, "")));
    run := Extend(run, Invoke(1, Subscribe(r, w, "")));
    run := Extend(run, Proceed(0));
    run := Extend(run, Proceed(1));
    run := Extend(run, Proceed(0));
    run := Extend(run, Proceed(1));
    var x := Interest(w, r, Active, "");
    assert run.Last().db.interests == [x, x];
    TwoActives(x);
    assert TwiceSubscribed(run, r, w);
  }

  /** One after another: pausing, creating again and resuming makes two active interests. */
  lemma ResumeMakesTwoActive(r: Resource, w: Identity)
    requires ValidResourceName(r)
    ensures var create := CallAt(Subscribe(r, w, ""), 0);
      var h := [create, CallAt(SetStatus(0, Paused), 0), create, CallAt(SetStatus(0, Active), 0)];
      Actives(After(h).interests, w, r) == 2
  {
    var create := CallAt(Subscribe(r, w, ""), 0);
    var h := [create, CallAt(SetStatus(0, Paused), 0), create, CallAt(SetStatus(0, Active), 0)];
    var active, paused := Interest(w, r, Active, ""), Interest(w, r, Paused, "");
    assert h[..1] == [create] && h[..2][..1] == [create] && h[..3][..2] == h[..2];
    assert After(h[..1]).interests == [active];
    assert After(h[..2]).interests == [paused];
    assert FirstActive([paused], w, r).None?;
    assert After(h[..3]).interests == [paused, active];
    assert After(h).interests == [active, active];
    TwoActives(active);
  }
}
