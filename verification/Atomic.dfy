/** The lock store as a service whose calls take effect at one instant, and the proof
    that the interleaved calls behave like it. */
module Atomic {
  import opened Tables
  import opened Protocol
  import opened Invariant
  import opened Exclusion

  /** What a call has decided about the lock. */
  datatype Verdict =
    | WasGranted
    | WasReacquired
    | WasReclaimed
    | WasDenied(holder: Identity)
    | WasRenewed
    | NotRenewed
    | WasReleased
    | NotReleased
    | GaveUp
    | WasRefused

  predicate OnLock(op: Op) {
    op.Acquire? || op.Renew? || op.Release?
  }

  /** A whole call as one instant: what it decides on a row at a time, and the row it leaves.
      Staleness is the plain comparison of unbounded integers. */
  function Instant(op: Op, now: Millis, row: Option<Row>): (Verdict, Option<Row>)
    requires OnLock(op)
  {
    match op
    case Acquire(_, who, note, strategy, lease) =>
      if row.None? then (WasGranted, Some(NewRow(op, now)))
      else if row.value.holder == who then (WasReacquired, Some(Refreshed(row.value, op, now)))
      else if Reclaimable(row.value, now) then (WasReclaimed, Some(NewRow(op, now)))
      else (WasDenied(row.value.holder), row)
    case Renew(_, who) =>
      if row.Some? && row.value.holder == who && Renewable(row.value, now)
      then (WasRenewed, Some(row.value.(renewedAt := Some(now))))
      else (NotRenewed, row)
    case Release(_, who, _, force) =>
      if row.Some? && (row.value.holder == who || force) then (WasReleased, None) else (NotReleased, row)
  }

  /** The decision that a call has taken, or will report, once it can no longer change. */
  function ResultVerdict(op: Op, result: Result): Verdict
    requires OnLock(op)
  {
    match result
    case Granted(_) => WasGranted
    case Reacquired(_) => WasReacquired
    case Reclaimed(_) => WasReclaimed
    case Denied(holder, _) => WasDenied(holder)
    case Contention => GaveUp
    case Renewed(_) => WasRenewed
    case Released => WasReleased
    case Refused(_) => WasRefused
    case _ => if op.Renew? then NotRenewed else if op.Release? then NotReleased else WasRefused
  }

  function Decided(k: Call): Option<Verdict> {
    if !OnLock(k.op) then None
    else
      match k.pc
      case GrantEvent => Some(WasGranted)
      case TakeoverEvent(_) => Some(WasReclaimed)
      case DenyEvent(seen) => Some(WasDenied(seen.holder))
      case ReleaseEvent(_) => Some(WasReleased)
      case Recheck => Some(NotReleased)
      case MatchInterests(_, reply) => Some(ResultVerdict(k.op, reply))
      case MatchEvent(_, _, reply) => Some(ResultVerdict(k.op, reply))
      case MatchInsert(_, _, _, reply) => Some(ResultVerdict(k.op, reply))
      case Done(result) => Some(ResultVerdict(k.op, result))
      case _ => None
  }

  /** The row that a decided call reports, or will report; none if it reports no hold. */
  function Reported(k: Call): Option<Row> {
    match k.pc
    case GrantEvent => Some(NewRow(k.op, k.now.value))
    case TakeoverEvent(_) => Some(NewRow(k.op, k.now.value))
    case MatchInterests(_, reply) => RowOf(reply)
    case MatchEvent(_, _, reply) => RowOf(reply)
    case MatchInsert(_, _, _, reply) => RowOf(reply)
    case Done(result) => RowOf(result)
    case _ => None
  }

  function RowOf(result: Result): Option<Row> {
    match result
    case Granted(row) => Some(row)
    case Reacquired(row) => Some(row)
    case Reclaimed(row) => Some(row)
    case Renewed(row) => Some(row)
    case _ => None
  }

  /** The re-acquiring UPDATE finds the row still held by its caller. */
  predicate RefreshIsSound(db: Db, k: Call) {
    k.pc.Refresh? ==> HolderAt(db, k.op.resource) == Some(k.op.who)
  }

  /** A renewal reads a lease whose length fits 64-bit milliseconds. */
  predicate LeaseFits(k: Call) {
    k.pc.RenewClock? ==> k.pc.seen.leaseSeconds.Some? && k.pc.seen.leaseSeconds.value <= MAX_LEASE
  }

  /** The row that a call is to re-acquire or renew still is as it read it, as far as its report goes. */
  predicate SnapshotIsCurrent(db: Db, k: Call) {
    match k.pc
    case Refresh(seen) =>
      k.op.resource in db.locks && db.locks[k.op.resource].acquiredAt == seen.acquiredAt
    case RenewWrite(seen) =>
      k.op.resource in db.locks && db.locks[k.op.resource].(renewedAt := seen.renewedAt) == seen
    case _ => true
  }

  /** The whole call, by the time it has sampled, makes `row'` of `row` and decides `verdict`. A call that
      has sampled no time does so at every time. */
  predicate AtOnce(op: Op, now: Option<Millis>, row: Option<Row>, verdict: Verdict, row': Option<Row>)
    requires OnLock(op)
  {
    forall t: Millis :: now.None? || now.value == t ==> Instant(op, t, row) == (verdict, row')
  }

  /** The step at which a call decides: it has its effect on the row, all of it and no other. */
  predicate DecidesAt(db: Db, db': Db, op: Op, now: Option<Millis>, verdict: Verdict)
    requires OnLock(op)
  {
    && AtOnce(op, now, RowAt(db, op.resource), verdict, RowAt(db', op.resource))
    && db'.locks - {op.resource} == db.locks - {op.resource}
  }

  /** Verdicts that say nothing about the lock: refused arguments, or too many lost races. */
  predicate Void(v: Verdict) {
    v.GaveUp? || v.WasRefused?
  }

  /** One step of a call, seen from outside: nothing, or reading the clock once; a decision that says
      nothing about the lock; a renewal refused because the row it read has expired by the clock;
      or the whole call in one instant. */
  predicate StepIsAtomic(db: Db, db': Db, clock: Millis, k: Call, k': Call)
    requires OnLock(k.op)
  {
    && k'.op == k.op
    && if Decided(k) == Decided(k') then
         && db'.locks == db.locks
         && (k'.now == k.now || (k.now.None? && Decided(k).None? && k'.now == Some(clock)))
       else if k.pc.RenewClock? then
         && db'.locks == db.locks && k'.now == Some(clock)
         && Decided(k') == Some(NotRenewed) && Expired(k.pc.seen, clock)
       else
         && Decided(k).None? && k'.now == k.now
         && if Void(Decided(k').value) then db'.locks == db.locks
            else DecidesAt(db, db', k.op, k.now, Decided(k').value)
  }

  lemma MatchStepDecides(db: Db, clock: Millis, k: Call)
    requires CallOk(db, clock, k) && Matching(k)
    ensures StepIsAtomic(db, StepCall(db, clock, k).0, clock, k, StepCall(db, clock, k).1)
  {
  }

  predicate Racing(k: Call) {
    k.pc.Read? || k.pc.Takeover? || k.pc.Refresh?
  }

  lemma RaceStepDecides(db: Db, clock: Millis, k: Call)
    requires DbOk(db) && CallOk(db, clock, k) && Racing(k)
    requires RefreshIsSound(db, k)
    ensures StepIsAtomic(db, StepCall(db, clock, k).0, clock, k, StepCall(db, clock, k).1)
  {
    if k.pc.Read? && k.op.resource in db.locks && Reclaimable(db.locks[k.op.resource], k.now.value) {
      ReclaimableReadsExpired(db.locks[k.op.resource], k.now.value);
    }
  }

  lemma AcquireStepDecides(db: Db, clock: Millis, k: Call)
    requires DbOk(db) && CallOk(db, clock, k) && k.op.Acquire? && !Matching(k) && !Racing(k)
    ensures StepIsAtomic(db, StepCall(db, clock, k).0, clock, k, StepCall(db, clock, k).1)
  {
  }

  lemma RenewStepDecides(db: Db, clock: Millis, k: Call)
    requires DbOk(db) && CallOk(db, clock, k) && k.op.Renew?
    ensures StepIsAtomic(db, StepCall(db, clock, k).0, clock, k, StepCall(db, clock, k).1)
  {
  }

  lemma ReleaseStepDecides(db: Db, clock: Millis, k: Call)
    requires DbOk(db) && CallOk(db, clock, k) && k.op.Release? && !Matching(k)
    ensures StepIsAtomic(db, StepCall(db, clock, k).0, clock, k, StepCall(db, clock, k).1)
  {
  }

  lemma StepDecides(db: Db, clock: Millis, k: Call)
    requires DbOk(db) && CallOk(db, clock, k) && OnLock(k.op)
    requires RefreshIsSound(db, k)
    ensures StepIsAtomic(db, StepCall(db, clock, k).0, clock, k, StepCall(db, clock, k).1)
  {
    if Matching(k) {
      MatchStepDecides(db, clock, k);
    } else if Racing(k) {
      RaceStepDecides(db, clock, k);
    } else if k.op.Acquire? {
      AcquireStepDecides(db, clock, k);
    } else if k.op.Renew? {
      RenewStepDecides(db, clock, k);
    } else {
      ReleaseStepDecides(db, clock, k);
    }
  }

  /** Exactly when a re-acquire is one instant: its row must not have changed hands. */
  lemma RefreshDecides(db: Db, clock: Millis, k: Call)
    requires DbOk(db) && CallOk(db, clock, k) && k.pc.Refresh?
    ensures DecidesAt(db, StepCall(db, clock, k).0, k.op, k.now, WasReacquired)
      <==> HolderAt(db, k.op.resource) == Some(k.op.who)
  {
    var db' := StepCall(db, clock, k).0;
    assert HolderAt(db, k.op.resource) != Some(k.op.who) ==>
      Instant(k.op, k.now.value, RowAt(db, k.op.resource)) != (WasReacquired, RowAt(db', k.op.resource));
  }

  /** The step that decides a call also settles what row it reports: the one it leaves, exactly when
      its snapshot is current. */
  predicate SettlesReport(db: Db, db': Db, k: Call, k': Call)
    requires OnLock(k.op)
  {
    if Decided(k).Some? then Reported(k') == Reported(k)
    else Reported(k').Some? ==>
      Decided(k').Some? && (Reported(k') == RowAt(db', k.op.resource) <==> SnapshotIsCurrent(db, k))
  }

  lemma DecidedStepReports(db: Db, clock: Millis, k: Call)
    requires DbOk(db) && CallOk(db, clock, k) && OnLock(k.op) && Decided(k).Some?
    ensures SettlesReport(db, StepCall(db, clock, k).0, k, StepCall(db, clock, k).1)
  {
  }

  lemma AcquireReports(db: Db, clock: Millis, k: Call)
    requires DbOk(db) && CallOk(db, clock, k) && k.op.Acquire? && Decided(k).None? && RefreshIsSound(db, k)
    ensures SettlesReport(db, StepCall(db, clock, k).0, k, StepCall(db, clock, k).1)
  {
  }

  lemma StepReports(db: Db, clock: Millis, k: Call)
    requires DbOk(db) && CallOk(db, clock, k) && OnLock(k.op) && RefreshIsSound(db, k)
    ensures SettlesReport(db, StepCall(db, clock, k).0, k, StepCall(db, clock, k).1)
  {
    if Decided(k).Some? {
      DecidedStepReports(db, clock, k);
    } else if k.op.Acquire? {
      AcquireReports(db, clock, k);
    }
  }

  /** An acquire that is told of a hold at the step that decides it is then the holder if and only if that step
      is not a re-acquiring UPDATE that has met another's row, or none. */
  lemma ReportedHoldIsHeld(db: Db, clock: Millis, k: Call)
    requires DbOk(db) && CallOk(db, clock, k) && k.op.Acquire? && Decided(k).None?
    requires Reported(StepCall(db, clock, k).1).Some?
    ensures HolderAt(StepCall(db, clock, k).0, k.op.resource) == Some(k.op.who) <==> RefreshIsSound(db, k)
  {
  }

  /** The step at `m` decides an acquire of `resource` by `who`, soundly, and reports a hold. */
  ghost predicate GivesHold(run: Run, m: nat, resource: Resource, who: Identity)
    requires run.Valid()
  {
    && m < |run.actions| && run.actions[m].Proceed?
    && var s, c := run.states[m], run.actions[m].c;
       && c in s.calls && s.calls[c].op.Acquire? && s.calls[c].op.resource == resource && s.calls[c].op.who == who
       && Decided(s.calls[c]).None? && RefreshIsSound(s.db, s.calls[c])
       && c in run.states[m + 1].calls && Reported(run.states[m + 1].calls[c]).Some?
  }

  /** The step at `m` ends the hold of `who` on `resource`: a release, by it or by force, or a
      reclaim of a lease that had run out by the clock. */
  ghost predicate EndsHold(run: Run, m: nat, resource: Resource, who: Identity)
    requires run.Valid() && m < |run.actions|
  {
    var s, a := run.states[m], run.actions[m];
    || Frees(s, a, resource, who)
    || (exists taker :: Reclaims(s, a, resource, who, taker) && !LeaseRuns(s.db.locks[resource], s.clock))
  }

  lemma HolderAfterGiving(run: Run, m: nat, resource: Resource, who: Identity)
    requires run.Valid() && m < |run.actions| && Inv(run.states[m]) && GivesHold(run, m, resource, who)
    ensures HolderAt(run.states[m + 1].db, resource) == Some(who)
  {
    assert run.Follows(m);
    var s, c := run.states[m], run.actions[m].c;
    assert CallOk(s.db, s.clock, s.calls[c]);
    ReportedHoldIsHeld(s.db, s.clock, s.calls[c]);
  }

  lemma {:induction false} HoldEnds(run: Run, i: nat, j: nat, resource: Resource, who: Identity)
    requires run.Valid() && i <= j < |run.states| && Inv(run.states[i])
    requires HolderAt(run.states[i].db, resource) == Some(who) != HolderAt(run.states[j].db, resource)
    ensures exists m :: i <= m < j && EndsHold(run, m, resource, who)
    decreases j
  {
    assert i < j;
    var m := j - 1;
    if HolderAt(run.states[m].db, resource) != Some(who) {
      HoldEnds(run, i, m, resource, who);
    } else {
      assert run.Follows(m);
      InvAlong(run, i, m);
      HolderChangesLegally(run.states[m], run.actions[m], resource);
      if resource in run.states[j].db.locks {
        ReclaimsOnlyStale(run.states[m], run.actions[m], resource, who, run.states[j].db.locks[resource].holder);
      }
      assert EndsHold(run, m, resource, who);
    }
  }

  /** Mutual exclusion of what is reported: if one identity is told of a hold and then another is, the first hold
      has ended in between, or by the very step that gave the second. */
  lemma HoldsAreApart(run: Run, i: nat, j: nat, resource: Resource, first: Identity, second: Identity)
    requires run.Valid() && i < j < |run.actions| && Inv(run.states[i]) && first != second
    requires GivesHold(run, i, resource, first) && GivesHold(run, j, resource, second)
    ensures exists m :: i < m <= j && EndsHold(run, m, resource, first)
  {
    InvAlong(run, i, i + 1);
    InvAlong(run, i, j);
    HolderAfterGiving(run, i, resource, first);
    HolderAfterGiving(run, j, resource, second);
    HoldEnds(run, i + 1, j + 1, resource, first);
  }

  /** The step at `i` is one of call `c`, in which the whole call takes the decision that it shows at `k`,
      by the time it has sampled there; and it leaves the row reported exactly if its snapshot is current. */
  ghost predicate EffectAt(run: Run, i: nat, c: nat, k: Call)
    requires OnLock(k.op) && Decided(k).Some? && |run.states| == |run.actions| + 1
  {
    && i < |run.actions| && run.actions[i] == Proceed(c) && c in run.states[i].calls
    && var before, after := RowAt(run.states[i].db, k.op.resource), RowAt(run.states[i + 1].db, k.op.resource);
       && AtOnce(k.op, k.now, before, Decided(k).value, after)
       && (Reported(k).Some? ==> (Reported(k) == after <==> SnapshotIsCurrent(run.states[i].db, run.states[i].calls[c])))
  }

  /** At step `i` call `c` reads the clock. */
  ghost predicate SampledAt(run: Run, i: nat, c: nat, now: Millis)
    requires |run.states| == |run.actions| + 1
  {
    i < |run.actions| && run.actions[i] == Proceed(c) && run.states[i].clock == now
  }

  /** At step `i` call `c` reads `seen` for its renewal. */
  ghost predicate SeenAt(run: Run, i: nat, c: nat, resource: Resource, seen: Row)
    requires |run.states| == |run.actions| + 1
  {
    && i < |run.actions| && run.actions[i] == Proceed(c) && c in run.states[i].calls
    && RowAt(run.states[i].db, resource) == Some(seen) == RowAt(run.states[i + 1].db, resource)
  }

  /** Every step that call `c` takes from `i` to `j` finds its own row, if it re-acquires,
      and a lease that fits, if it renews. */
  ghost predicate RunsClean(run: Run, i: nat, j: nat, c: nat)
    requires run.Valid() && j < |run.states|
  {
    forall m :: i <= m < j && run.actions[m] == Proceed(c) && c in run.states[m].calls ==>
      RefreshIsSound(run.states[m].db, run.states[m].calls[c]) && LeaseFits(run.states[m].calls[c])
  }

  /** What the steps from `i` to `j` show of call `c`, now at `k`: its time has been read, a decision has
      had its instant, and a snapshot read for a renewal was the row at some instant. */
  ghost predicate Explained(run: Run, i: nat, j: nat, c: nat, k: Call)
    requires OnLock(k.op) && |run.states| == |run.actions| + 1
  {
    && (k.now.Some? ==> exists m :: i <= m < j && SampledAt(run, m, c, k.now.value))
    && (k.pc.RenewClock? ==> exists m :: i <= m < j && SeenAt(run, m, c, k.op.resource, k.pc.seen))
    && (Decided(k).Some? && !Void(Decided(k).value) ==> exists m :: i <= m < j && EffectAt(run, m, c, k))
  }

  /** The snapshot of a renewal is the row it reads. */
  predicate RenewalReads(db: Db, db': Db, k: Call, k': Call) {
    k'.pc.RenewClock? ==>
      && db' == db && OnLock(k'.op) && RowAt(db, k'.op.resource) == Some(k'.pc.seen)
      && k.now.None? && k'.now.None? && !k.pc.RenewClock?
  }

  lemma StepReads(db: Db, clock: Millis, k: Call)
    requires OnLock(k.op) && CallOk(db, clock, k)
    ensures RenewalReads(db, StepCall(db, clock, k).0, k, StepCall(db, clock, k).1)
  {
  }

  /** A snapshot whose lease fits and which reads as expired is one that a renewal fails on. */
  lemma ExpiredIsNotRenewed(k: Call, clock: Millis)
    requires OnLock(k.op) && k.op.Renew? && k.pc.RenewClock? && RowOk(k.pc.seen) && LeaseFits(k)
    requires Expired(k.pc.seen, clock)
    ensures AtOnce(k.op, Some(clock), Some(k.pc.seen), NotRenewed, Some(k.pc.seen))
  {
    ExpiryTestsAgree(k.pc.seen, clock);
  }

  /** What a step of call `c` from state `j` makes of it. */
  ghost predicate StepOf(run: Run, j: nat, c: nat, k: Call, k': Call)
    requires |run.states| == |run.actions| + 1 && j < |run.actions|
  {
    && run.actions[j] == Proceed(c) && c in run.states[j].calls && run.states[j].calls[c] == k
    && DbOk(run.states[j].db) && CallOk(run.states[j].db, run.states[j].clock, k)
    && StepCall(run.states[j].db, run.states[j].clock, k) == (run.states[j + 1].db, k')
  }

  lemma ExplainedStep(run: Run, i: nat, j: nat, c: nat, k: Call, k': Call)
    requires |run.states| == |run.actions| + 1 && i <= j < |run.actions| && StepOf(run, j, c, k, k')
    requires OnLock(k.op) && RefreshIsSound(run.states[j].db, k) && LeaseFits(k)
    requires Explained(run, i, j, c, k)
    ensures k'.op == k.op && Explained(run, i, j + 1, c, k')
  {
    var s := run.states[j];
    StepDecides(s.db, s.clock, k);
    StepReports(s.db, s.clock, k);
    StepReads(s.db, s.clock, k);
    if k'.now != k.now {
      assert SampledAt(run, j, c, k'.now.value);
    }
    if k'.pc.RenewClock? {
      assert SeenAt(run, j, c, k.op.resource, k'.pc.seen);
    } else if Decided(k').Some? && !Void(Decided(k').value) {
      ExplainedDecision(run, i, j, c, k, k');
    }
  }

  lemma ExplainedDecision(run: Run, i: nat, j: nat, c: nat, k: Call, k': Call)
    requires |run.states| == |run.actions| + 1 && i <= j < |run.actions| && StepOf(run, j, c, k, k')
    requires OnLock(k.op) && RefreshIsSound(run.states[j].db, k) && LeaseFits(k)
    requires Explained(run, i, j, c, k)
    requires StepIsAtomic(run.states[j].db, run.states[j + 1].db, run.states[j].clock, k, k')
    requires Decided(k').Some? && !Void(Decided(k').value)
    requires SettlesReport(run.states[j].db, run.states[j + 1].db, k, k')
    ensures exists m :: i <= m < j + 1 && EffectAt(run, m, c, k')
  {
    if Decided(k).Some? {
      var m: nat :| i <= m < j && EffectAt(run, m, c, k);
      assert EffectAt(run, m, c, k');
    } else if k.pc.RenewClock? {
      var m: nat :| i <= m < j && SeenAt(run, m, c, k.op.resource, k.pc.seen);
      ExpiredIsNotRenewed(k, run.states[j].clock);
      assert EffectAt(run, m, c, k');
    } else {
      assert EffectAt(run, j, c, k');
    }
  }

  lemma {:induction false} ExplainedAlong(run: Run, i: nat, j: nat, c: nat)
    requires run.Valid() && i <= j < |run.states| && Inv(run.states[i])
    requires c in run.states[i].calls && run.states[i].calls[c].pc.Begin? && OnLock(run.states[i].calls[c].op)
    requires RunsClean(run, i, j, c)
    ensures c in run.states[j].calls && run.states[j].calls[c].op == run.states[i].calls[c].op
    ensures Explained(run, i, j, c, run.states[j].calls[c])
    decreases j
  {
    InvAlong(run, i, i);
    if i < j {
      ExplainedAlong(run, i, j - 1, c);
      InvAlong(run, i, j - 1);
      assert run.Follows(j - 1);
      var t := run.states[j - 1];
      if run.actions[j - 1] == Proceed(c) {
        ExplainedStep(run, i, j - 1, c, t.calls[c], run.states[j].calls[c]);
      } else {
        assert run.states[j].calls[c] == t.calls[c];
      }
    }
  }

  /** Each call that grants, reclaims, re-acquires, denies, renews or releases, or fails to
      renew or release, has a step within its own time at which the one-instant call, going
      by the time that the call has read in between, decides what it reports and leaves the row it
      leaves; and the row it reports is the one it left exactly if its snapshot was still current then. */
  lemma CallsTakeEffectAtOnce(run: Run, i: nat, j: nat, c: nat)
    requires run.Valid() && i <= j < |run.states| && Inv(run.states[i])
    requires c in run.states[i].calls && run.states[i].calls[c].pc.Begin? && OnLock(run.states[i].calls[c].op)
    requires RunsClean(run, i, j, c)
    ensures c in run.states[j].calls
    ensures var k := run.states[j].calls[c];
      && k.op == run.states[i].calls[c].op
      && (k.now.Some? ==> exists m :: i <= m < j && SampledAt(run, m, c, k.now.value))
      && (Decided(k).Some? && !Void(Decided(k).value) ==> exists m :: i <= m < j && EffectAt(run, m, c, k))
  {
    ExplainedAlong(run, i, j, c);
  }

  lemma DecidedStays(db: Db, clock: Millis, k: Call)
    requires DbOk(db) && CallOk(db, clock, k) && Decided(k).Some?
    ensures Decided(StepCall(db, clock, k).1) == Decided(k) && Reported(StepCall(db, clock, k).1) == Reported(k)
  {
    StepDecides(db, clock, k);
    StepReports(db, clock, k);
  }

  /** A verdict, once taken, stands, and so does the row reported; so the instant of a call is its only one. */
  lemma {:induction false} VerdictsStand(run: Run, i: nat, j: nat, c: nat)
    requires run.Valid() && i <= j < |run.states| && Inv(run.states[i])
    requires c in run.states[i].calls && Decided(run.states[i].calls[c]).Some?
    ensures c in run.states[j].calls
    ensures Decided(run.states[j].calls[c]) == Decided(run.states[i].calls[c])
    ensures Reported(run.states[j].calls[c]) == Reported(run.states[i].calls[c])
    decreases j
  {
    if i < j {
      VerdictsStand(run, i, j - 1, c);
      InvAlong(run, i, j - 1);
      assert run.Follows(j - 1);
      var t := run.states[j - 1];
      if run.actions[j - 1] == Proceed(c) {
        DecidedStays(t.db, t.clock, t.calls[c]);
      }
    }
  }

  /** A call as the service knows it: its arguments, the time it has sampled, the row it has looked at
      for a renewal, and its verdict. */
  datatype Visit = Visit(op: Op, now: Option<Millis>, looked: Option<Row>, verdict: Option<Verdict>)

  /** The lock service without interleaving: a clock, the locks, and the calls made on it. */
  datatype Service = Service(clock: Millis, locks: map<Resource, Row>, calls: map<nat, Visit>)

  function Looked(k: Call): Option<Row> {
    if k.pc.RenewClock? then Some(k.pc.seen) else None
  }

  function ViewCall(k: Call): Visit {
    Visit(k.op, k.now, Looked(k), Decided(k))
  }

  function View(s: State): Service {
    Service(s.clock, s.db.locks, map c | c in s.calls && OnLock(s.calls[c].op) :: ViewCall(s.calls[c]))
  }

  ghost predicate Passes(v: Service, v': Service) {
    v.clock <= v'.clock && v' == v.(clock := v'.clock)
  }

  ghost predicate Arrives(v: Service, v': Service, c: nat, op: Op) {
    c !in v.calls && OnLock(op) && v' == v.(calls := v.calls[c := Visit(op, None, None, None)])
  }

  predicate Undecided(v: Service, c: nat) {
    c in v.calls && OnLock(v.calls[c].op) && v.calls[c].verdict.None?
  }

  /** Call `c` reads the clock, once and for all. */
  ghost predicate Samples(v: Service, v': Service, c: nat) {
    && Undecided(v, c) && v.calls[c].now.None?
    && v' == v.(calls := v.calls[c := v.calls[c].(now := Some(v.clock), looked := None)])
  }

  /** Call `c` looks at the row it is to renew. */
  ghost predicate Looks(v: Service, v': Service, c: nat) {
    && Undecided(v, c) && v.calls[c].op.Renew? && v.calls[c].now.None? && v.calls[c].op.resource in v.locks
    && v' == v.(calls := v.calls[c := v.calls[c].(looked := Some(v.locks[v.calls[c].op.resource]))])
  }

  /** Call `c` finds that the row it has looked at reads as expired by the clock. */
  ghost predicate Refuses(v: Service, v': Service, c: nat) {
    && Undecided(v, c) && v.calls[c].op.Renew? && v.calls[c].looked.Some? && Expired(v.calls[c].looked.value, v.clock)
    && v' == v.(calls := v.calls[c := Visit(v.calls[c].op, Some(v.clock), None, Some(NotRenewed))])
  }

  /** Call `c` ends without a decision about the lock. */
  ghost predicate Ends(v: Service, v': Service, c: nat, verdict: Verdict) {
    && Undecided(v, c) && Void(verdict)
    && v' == v.(calls := v.calls[c := v.calls[c].(looked := None, verdict := Some(verdict))])
  }

  /** Call `c` decides by the time it has sampled, and has its whole effect, all at once. */
  ghost predicate Decides(v: Service, v': Service, c: nat, verdict: Verdict) {
    && Undecided(v, c)
    && v'.clock == v.clock
    && v'.calls == v.calls[c := v.calls[c].(looked := None, verdict := Some(verdict))]
    && var op := v.calls[c].op;
       && AtOnce(op, v.calls[c].now, At(v.locks, op.resource), verdict, At(v'.locks, op.resource))
       && v'.locks - {op.resource} == v.locks - {op.resource}
  }

  function At(locks: map<Resource, Row>, resource: Resource): Option<Row> {
    if resource in locks then Some(locks[resource]) else None
  }

  ghost predicate ServiceNext(v: Service, v': Service) {
    || v' == v
    || Passes(v, v')
    || (exists c, op :: Arrives(v, v', c, op))
    || (exists c :: Samples(v, v', c))
    || (exists c :: Looks(v, v', c))
    || (exists c :: Refuses(v, v', c))
    || (exists c, verdict :: Ends(v, v', c, verdict))
    || (exists c, verdict :: Decides(v, v', c, verdict))
  }

  ghost predicate ServiceStart(v: Service) {
    v.locks == map[] && v.calls == map[]
  }

  ghost predicate ServiceRun(vs: seq<Service>) {
    vs != [] && ServiceStart(vs[0]) && forall j :: 0 <= j < |vs| - 1 ==> ServiceStep(vs, j)
  }

  ghost predicate ServiceStep(vs: seq<Service>, j: nat)
    requires j < |vs| - 1
  {
    ServiceNext(vs[j], vs[j + 1])
  }

  /** No call goes by a time that is still to come. */
  predicate PastSamples(v: Service) {
    forall c :: c in v.calls && v.calls[c].now.Some? ==> v.calls[c].now.value <= v.clock
  }

  lemma {:induction false} ServiceSamplesArePast(vs: seq<Service>, j: nat)
    requires ServiceRun(vs) && j < |vs|
    ensures PastSamples(vs[j])
  {
    if j > 0 {
      ServiceSamplesArePast(vs, j - 1);
      assert ServiceStep(vs, j - 1);
    }
  }

  /** Call `c` may free the lock that it is about. */
  predicate MayFree(v: Service, c: nat, resource: Resource)
    requires resource in v.locks
  {
    && Undecided(v, c) && v.calls[c].op.Release? && v.calls[c].op.resource == resource
    && (v.calls[c].op.who == v.locks[resource].holder || v.calls[c].op.force)
  }

  /** Call `c` may take over the lock that it is about: its lease has run out by the time that the
      call has read, if it has read one, and by the clock. */
  predicate MayReclaim(v: Service, c: nat, resource: Resource, who: Identity)
    requires resource in v.locks
  {
    && Undecided(v, c) && v.calls[c].op.Acquire? && v.calls[c].op.resource == resource && v.calls[c].op.who == who
    && (v.calls[c].now.Some? ==> Reclaimable(v.locks[resource], v.calls[c].now.value))
    && Reclaimable(v.locks[resource], v.clock)
  }

  /** A lock that passes to another identity is taken over by a call that may, and one that becomes free is
      freed by a call that may. */
  ghost predicate PassesLegally(v: Service, v': Service, resource: Resource)
    requires resource in v.locks
  {
    if resource !in v'.locks then exists c :: MayFree(v, c, resource)
    else
      var holder := v'.locks[resource].holder;
      holder != v.locks[resource].holder ==> exists c :: MayReclaim(v, c, resource, holder)
  }

  lemma ServiceStepIsExclusive(v: Service, v': Service, resource: Resource)
    requires PastSamples(v) && ServiceNext(v, v') && resource in v.locks
    ensures PassesLegally(v, v', resource)
  {
    if v'.locks != v.locks {
      var c, verdict :| Decides(v, v', c, verdict);
      var op, now := v.calls[c].op, v.calls[c].now;
      LocksAgree(v.locks, v'.locks, op.resource);
      assert At(v.locks, resource).Some?;
      if op.resource == resource {
        var t := if now.Some? then now.value else v.clock;
        assert Instant(op, t, At(v.locks, resource)) == (verdict, At(v'.locks, resource));
        assert resource !in v'.locks ==> MayFree(v, c, resource);
        assert resource in v'.locks && v'.locks[resource].holder != v.locks[resource].holder ==>
          MayReclaim(v, c, resource, v'.locks[resource].holder);
      } else {
        assert At(v.locks, resource) == At(v'.locks, resource);
      }
    }
  }

  /** In every run of the service, a lock that is held passes to another identity only by its acquire, when
      its lease has run out by the clock, and becomes free only by its holder's release or a forced one. */
  lemma ServiceIsExclusive(vs: seq<Service>, j: nat, resource: Resource)
    requires ServiceRun(vs) && j < |vs| - 1 && resource in vs[j].locks
    ensures PassesLegally(vs[j], vs[j + 1], resource)
  {
    ServiceSamplesArePast(vs, j);
    assert ServiceStep(vs, j);
    ServiceStepIsExclusive(vs[j], vs[j + 1], resource);
  }

  lemma InvokeRefinesService(s: State, c: nat, op: Op)
    requires c !in s.calls
    ensures ServiceNext(View(s), View(Next(s, Invoke(c, op))))
  {
    var v, v' := View(s), View(Next(s, Invoke(c, op)));
    if OnLock(op) {
      assert Arrives(v, v', c, op);
    } else {
      assert v'.calls == v.calls;
    }
  }

  /** The step is not a re-acquiring UPDATE that finds the lock in other hands, or in nobody's. */
  predicate SoundStep(s: State, a: Action) {
    a.Proceed? && a.c in s.calls ==> RefreshIsSound(s.db, s.calls[a.c])
  }

  /** A re-acquire that meets no row of its caller's decides as no call of the service can. */
  lemma UnsoundStepIsNoService(s: State, c: nat)
    requires Inv(s) && c in s.calls && !RefreshIsSound(s.db, s.calls[c])
    ensures !ServiceNext(View(s), View(Next(s, Proceed(c))))
  {
    var k := s.calls[c];
    assert CallOk(s.db, s.clock, k);
    NoCallReacquires(View(s), View(Next(s, Proceed(c))), c, k.op, k.now.value);
  }

  lemma NoCallReacquires(v: Service, v': Service, c: nat, op: Op, now: Millis)
    requires op.Acquire? && c in v.calls && v.calls[c] == Visit(op, Some(now), None, None)
    requires At(v.locks, op.resource).Some? ==> v.locks[op.resource].holder != op.who
    requires c in v'.calls && v'.calls[c] == Visit(op, Some(now), None, Some(WasReacquired))
    ensures !ServiceNext(v, v')
  {
    assert Instant(op, now, At(v.locks, op.resource)).0 != WasReacquired;
    forall d ensures !Samples(v, v', d) && !Looks(v, v', d) && !Refuses(v, v', d) {}
    forall d, x ensures !Arrives(v, v', d, x) {}
    forall d, verdict ensures !Ends(v, v', d, verdict) {}
    forall d, verdict ensures !Decides(v, v', d, verdict) {}
  }

  /** A step of the interleaved store is a step of the service, or none, if and only if it is
      not a re-acquiring UPDATE that finds the lock in other hands. */
  lemma StepRefinesService(s: State, a: Action)
    requires Inv(s)
    ensures ServiceNext(View(s), View(Next(s, a))) <==> SoundStep(s, a)
  {
    if SoundStep(s, a) {
      SoundStepRefinesService(s, a);
    } else {
      UnsoundStepIsNoService(s, a.c);
    }
  }

  lemma SoundStepRefinesService(s: State, a: Action)
    requires Inv(s) && SoundStep(s, a)
    ensures ServiceNext(View(s), View(Next(s, a)))
  {
    match a
    case Tick(_) => assert Passes(View(s), View(Next(s, a)));
    case AddStrategy(_) => assert View(Next(s, a)) == View(s);
    case Invoke(c, op) =>
      if c in s.calls {
        assert Next(s, a) == s;
      } else {
        InvokeRefinesService(s, c, op);
      }
    case Proceed(c) =>
      if c !in s.calls {
        assert Next(s, a) == s;
      } else if OnLock(s.calls[c].op) {
        ProceedRefinesService(s, c);
      } else {
        OtherStepsLeaveLocks(s.db, s.clock, s.calls[c]);
        assert View(Next(s, a)).calls == View(s).calls;
      }
  }

  lemma ProceedRefinesService(s: State, c: nat)
    requires Inv(s) && c in s.calls && OnLock(s.calls[c].op) && RefreshIsSound(s.db, s.calls[c])
    ensures ServiceNext(View(s), View(Next(s, Proceed(c))))
  {
    var k := s.calls[c];
    var (db', k') := StepCall(s.db, s.clock, k);
    assert CallOk(s.db, s.clock, k);
    StepDecides(s.db, s.clock, k);
    StepReads(s.db, s.clock, k);
    if k.pc.RenewClock? {
      StepSamples(s.db, s.clock, k);
    }
    var v, v' := View(s), View(Next(s, Proceed(c)));
    assert v' == Service(s.clock, db'.locks, v.calls[c := ViewCall(k')]);
    if Decided(k) == Decided(k') {
      QuietStepServes(v, v', c, k, k');
    } else {
      DecidingStepServes(v, v', s.db, db', c, k, k');
    }
  }

  lemma DecidingStepServes(v: Service, v': Service, db: Db, db': Db, c: nat, k: Call, k': Call)
    requires c in v.calls && v.calls[c] == ViewCall(k) && OnLock(k.op) && Decided(k) != Decided(k')
    requires v.locks == db.locks && v' == Service(v.clock, db'.locks, v.calls[c := ViewCall(k')])
    requires StepIsAtomic(db, db', v.clock, k, k')
    requires k.pc.RenewClock? ==> k.op.Renew?
    ensures ServiceNext(v, v')
  {
    if k.pc.RenewClock? {
      assert Refuses(v, v', c);
    } else if Void(Decided(k').value) {
      assert Ends(v, v', c, Decided(k').value);
    } else {
      assert Decides(v, v', c, Decided(k').value);
    }
  }

  lemma QuietStepServes(v: Service, v': Service, c: nat, k: Call, k': Call)
    requires c in v.calls && v.calls[c] == ViewCall(k) && OnLock(k.op) && k'.op == k.op
    requires v' == v.(calls := v.calls[c := ViewCall(k')]) && Decided(k) == Decided(k')
    requires k'.now == k.now || (k.now.None? && Decided(k).None? && k'.now == Some(v.clock))
    requires k'.pc.RenewClock? ==> At(v.locks, k.op.resource) == Some(k'.pc.seen) && k.now.None? && k'.now.None?
    requires k.pc.RenewClock? ==> k'.now.Some? && k.now.None?
    ensures ServiceNext(v, v')
  {
    if k'.pc.RenewClock? {
      assert Looks(v, v', c);
    } else if k'.now != k.now {
      assert Samples(v, v', c);
    } else {
      assert ViewCall(k') == ViewCall(k);
      assert v'.calls == v.calls;
    }
  }

  /** A renewal that has looked at its row reads the clock next. */
  lemma StepSamples(db: Db, clock: Millis, k: Call)
    requires CallOk(db, clock, k) && k.pc.RenewClock?
    ensures k.now.None? && StepCall(db, clock, k).1.now == Some(clock)
  {
  }

  lemma LocksAgree(locks: map<Resource, Row>, locks': map<Resource, Row>, resource: Resource)
    requires locks - {resource} == locks' - {resource}
    ensures forall r :: r != resource ==> At(locks, r) == At(locks', r)
  {
    forall r | r != resource ensures At(locks, r) == At(locks', r) {
      assert r in locks - {resource} <==> r in locks;
      assert r in locks' - {resource} <==> r in locks';
    }
  }

  lemma OtherStepsLeaveLocks(db: Db, clock: Millis, k: Call)
    requires !OnLock(k.op)
    ensures StepCall(db, clock, k).0.locks == db.locks && StepCall(db, clock, k).1.op == k.op
  {
  }

  /** The service as it is seen through the states of a run. */
  function Views(states: seq<State>): (vs: seq<Service>)
    ensures |vs| == |states| && forall j :: 0 <= j < |vs| ==> vs[j] == View(states[j])
  {
    seq(|states|, j requires 0 <= j < |states| => View(states[j]))
  }

  /** A run from the empty store is a run of the service if and only if every re-acquire in it is sound. */
  lemma RunRefinesService(run: Run)
    requires run.Valid() && Initial(run.states[0])
    ensures ServiceRun(Views(run.states)) <==>
      forall j :: 0 <= j < |run.actions| ==> SoundStep(run.states[j], run.actions[j])
  {
    InitialInv(run.states[0]);
    var vs := Views(run.states);
    forall j | 0 <= j < |vs| - 1 ensures ServiceStep(vs, j) <==> SoundStep(run.states[j], run.actions[j]) {
      InvAlong(run, 0, j);
      assert run.Follows(j);
      StepRefinesService(run.states[j], run.actions[j]);
    }
  }
}
