/** A call whose steps nobody interleaves with is the whole call, and a history of such calls is a run. */
module Alone {
  import opened Tables
  import opened Protocol
  import opened Calls

  /** `n` steps of one call with nothing in between. */
  function Steps(db: Db, clock: Millis, k: Call, n: nat): (Db, Call)
    decreases n
  {
    if n == 0 then (db, k)
    else
      var (db', k') := StepCall(db, clock, k);
      Steps(db', clock, k', n - 1)
  }

  ghost predicate Leads(db: Db, clock: Millis, k: Call, db': Db, k': Call) {
    exists n :: Steps(db, clock, k, n) == (db', k')
  }

  lemma LeadsNowhere(db: Db, clock: Millis, k: Call)
    ensures Leads(db, clock, k, db, k)
  {
    assert Steps(db, clock, k, 0) == (db, k);
  }

  lemma LeadsBy(db: Db, clock: Millis, k: Call, db': Db, k': Call)
    requires Leads(StepCall(db, clock, k).0, clock, StepCall(db, clock, k).1, db', k')
    ensures Leads(db, clock, k, db', k')
  {
    var (db1, k1) := StepCall(db, clock, k);
    var n: nat :| Steps(db1, clock, k1, n) == (db', k');
    assert Steps(db, clock, k, n + 1) == (db', k');
  }

  ghost predicate Finishes(db: Db, clock: Millis, k: Call, db': Db, result: Result) {
    exists k' :: Leads(db, clock, k, db', k') && k'.pc == Done(result)
  }

  lemma FinishesBy(db: Db, clock: Millis, k: Call, db': Db, result: Result)
    requires Finishes(StepCall(db, clock, k).0, clock, StepCall(db, clock, k).1, db', result)
    ensures Finishes(db, clock, k, db', result)
  {
    var k' :| Leads(StepCall(db, clock, k).0, clock, StepCall(db, clock, k).1, db', k') && k'.pc == Done(result);
    LeadsBy(db, clock, k, db', k');
  }

  lemma FinishesDone(db: Db, clock: Millis, k: Call, result: Result)
    requires k.pc == Done(result)
    ensures Finishes(db, clock, k, db, result)
  {
    LeadsNowhere(db, clock, k);
  }

  lemma {:induction false} InsertsAlone(db: Db, clock: Millis, k: Call)
    requires k.pc.MatchInsert? && k.pc.subs != []
    ensures Finishes(db, clock, k,
                     db.(propagations := db.propagations + Deliveries(k.pc.subs, k.pc.event)), k.pc.reply)
    decreases |k.pc.subs|
  {
    var subs, e := k.pc.subs, k.pc.event;
    var (db', k') := StepCall(db, clock, k);
    assert Deliveries(subs, e) == [Propagation(subs[0].interest, e, subs[0].who, false)] + Deliveries(subs[1..], e);
    assert db'.propagations + Deliveries(subs[1..], e) == db.propagations + Deliveries(subs, e);
    if |subs| == 1 {
      assert db'.propagations + Deliveries(subs[1..], e) == db'.propagations;
      FinishesDone(db', clock, k', k.pc.reply);
    } else {
      InsertsAlone(db', clock, k');
    }
    FinishesBy(db, clock, k, db.(propagations := db.propagations + Deliveries(subs, e)), k.pc.reply);
  }

  lemma MatchesAlone(db: Db, clock: Millis, k: Call)
    requires k.pc.MatchInterests? && LastEvent(db.events, k.op.resource).Some?
    ensures Finishes(db, clock, k, Notify(db, k.op.resource), k.pc.reply)
  {
    var (db1, k1) := StepCall(db, clock, k);
    var subs := ActiveOn(db.interests, k.op.resource);
    var e := LastEvent(db.events, k.op.resource).value;
    if subs == [] {
      assert db.propagations + Deliveries(subs, e) == db.propagations;
      FinishesDone(db1, clock, k1, k.pc.reply);
    } else {
      var (db2, k2) := StepCall(db1, clock, k1);
      InsertsAlone(db2, clock, k2);
      FinishesBy(db1, clock, k1, Notify(db, k.op.resource), k.pc.reply);
    }
    FinishesBy(db, clock, k, Notify(db, k.op.resource), k.pc.reply);
  }

  /** Logging an event and notifying, as done after a denial, a reclaim and a release. */
  lemma LogsAlone(db: Db, clock: Millis, k: Call, e: Event, reply: Result)
    requires k.pc.DenyEvent? || k.pc.TakeoverEvent? || k.pc.ReleaseEvent?
    requires var (db', k') := StepCall(db, clock, k);
      db' == Log(db, e) && e.resource == k.op.resource && k'.op == k.op && k'.pc == MatchInterests(|db.events|, reply)
    ensures Finishes(db, clock, k, Notify(Log(db, e), k.op.resource), reply)
  {
    var (db', k') := StepCall(db, clock, k);
    NewestEvent(db.events, e);
    MatchesAlone(db', clock, k');
    FinishesBy(db, clock, k, Notify(Log(db, e), k.op.resource), reply);
  }

  /** From its first claim on, an acquire that is alone. */
  lemma {:induction false} ClaimsAlone(db: Db, clock: Millis, k: Call, attempt: nat)
    requires k.op.Acquire? && k.now == Some(clock) && k.pc == Insert(attempt) && attempt < MAX_ATTEMPTS && RowsOk(db)
    requires ValidResourceName(k.op.resource) && k.op.lease >= 0
    requires k.op.strategy == "" || k.op.strategy in db.strategies
    ensures var (db', result) := CallAlone(db, k.op, clock); Finishes(db, clock, k, db', result)
    decreases MAX_ATTEMPTS - attempt
  {
    var (db', result) := CallAlone(db, k.op, clock);
    var (db1, k1) := StepCall(db, clock, k);
    if k.op.resource !in db.locks {
      var (db2, k2) := StepCall(db1, clock, k1);
      FinishesDone(db2, clock, k2, result);
      FinishesBy(db1, clock, k1, db', result);
    } else {
      ReadsAlone(db1, clock, k1, attempt);
    }
    FinishesBy(db, clock, k, db', result);
  }

  lemma ReadsAlone(db: Db, clock: Millis, k: Call, attempt: nat)
    requires k.op.Acquire? && k.now == Some(clock) && k.pc == Read(attempt) && attempt < MAX_ATTEMPTS && RowsOk(db)
    requires ValidResourceName(k.op.resource) && k.op.lease >= 0
    requires k.op.strategy == "" || k.op.strategy in db.strategies
    requires k.op.resource in db.locks
    ensures var (db', result) := CallAlone(db, k.op, clock); Finishes(db, clock, k, db', result)
    decreases MAX_ATTEMPTS - attempt, 0
  {
    var (db', result) := CallAlone(db, k.op, clock);
    var seen := db.locks[k.op.resource];
    var (db1, k1) := StepCall(db, clock, k);
    var (db2, k2) := StepCall(db1, clock, k1);
    if Reclaimable(seen, clock) {
      ReclaimableReadsExpired(seen, clock);
    }
    if seen.holder == k.op.who {
      FinishesDone(db2, clock, k2, result);
      FinishesBy(db1, clock, k1, db', result);
    } else if Reclaimable(seen, clock) {
      LogsAlone(db2, clock, k2,
                Event(k.op.resource, ReclaimedEvent, k.op.who, seen.holder, k.op.note, k.op.strategy, false), result);
      FinishesBy(db1, clock, k1, db', result);
    } else if Expired(seen, clock) {
      if attempt + 1 < MAX_ATTEMPTS {
        ClaimsAlone(db2, clock, k2, attempt + 1);
      } else {
        FinishesDone(db2, clock, k2, Contention);
      }
      FinishesBy(db1, clock, k1, db', result);
    } else {
      LogsAlone(db1, clock, k1,
                Event(k.op.resource, DeniedEvent, k.op.who, seen.holder, k.op.note, seen.strategy, false), result);
    }
    FinishesBy(db, clock, k, db', result);
  }

  lemma AcquiresAlone(db: Db, clock: Millis, k: Call)
    requires k.op.Acquire? && k.pc.Begin? && k.now.None? && RowsOk(db)
    ensures var (db', result) := CallAlone(db, k.op, clock); Finishes(db, clock, k, db', result)
  {
    var (db', result) := CallAlone(db, k.op, clock);
    var (db1, k1) := StepCall(db, clock, k);
    if k1.pc.Done? {
      FinishesDone(db1, clock, k1, result);
    } else {
      var (db2, k2) := StepCall(db1, clock, k1);
      ClaimsAlone(db2, clock, k2, 0);
      FinishesBy(db1, clock, k1, db', result);
    }
    FinishesBy(db, clock, k, db', result);
  }

  lemma RenewsAlone(db: Db, clock: Millis, k: Call)
    requires k.op.Renew? && k.pc.Begin? && k.now.None? && RowsOk(db)
    ensures var (db', result) := CallAlone(db, k.op, clock); Finishes(db, clock, k, db', result)
  {
    var (db', result) := CallAlone(db, k.op, clock);
    var (db1, k1) := StepCall(db, clock, k);
    if k1.pc.Done? {
      FinishesDone(db1, clock, k1, result);
    } else {
      var seen := db.locks[k.op.resource];
      var (db2, k2) := StepCall(db1, clock, k1);
      ExpiryTestsAgree(seen, clock);
      if k2.pc.Done? {
        FinishesDone(db2, clock, k2, result);
      } else {
        if Reclaimable(seen, clock) {
          ReclaimableReadsExpired(seen, clock);
        }
        var (db3, k3) := StepCall(db2, clock, k2);
        FinishesDone(db3, clock, k3, result);
        FinishesBy(db2, clock, k2, db', result);
      }
      FinishesBy(db1, clock, k1, db', result);
    }
    FinishesBy(db, clock, k, db', result);
  }

  lemma ReleasesAlone(db: Db, clock: Millis, k: Call)
    requires k.op.Release? && k.pc.Begin?
    ensures var (db', result) := CallAlone(db, k.op, clock); Finishes(db, clock, k, db', result)
  {
    var (db', result) := CallAlone(db, k.op, clock);
    var (db1, k1) := StepCall(db, clock, k);
    if k1.pc.Done? {
      FinishesDone(db1, clock, k1, result);
    } else {
      var seen := db.locks[k.op.resource];
      var (db2, k2) := StepCall(db1, clock, k1);
      LogsAlone(db2, clock, k2,
                Event(k.op.resource, ReleasedEvent, k.op.who, seen.holder, k.op.note, seen.strategy,
                      seen.holder != k.op.who), result);
      FinishesBy(db1, clock, k1, db', result);
    }
    FinishesBy(db, clock, k, db', result);
  }

  lemma OthersAlone(db: Db, clock: Millis, k: Call)
    requires (k.op.Subscribe? || k.op.SetStatus? || k.op.Acknowledge?) && k.pc.Begin?
    ensures var (db', result) := CallAlone(db, k.op, clock); Finishes(db, clock, k, db', result)
  {
    var (db', result) := CallAlone(db, k.op, clock);
    var (db1, k1) := StepCall(db, clock, k);
    if k1.pc.Done? {
      FinishesDone(db1, clock, k1, result);
    } else {
      var (db2, k2) := StepCall(db1, clock, k1);
      if k.op.Acknowledge? && k.op.id < |db.propagations| {
        assert db.propagations == db.propagations[k.op.id := db.propagations[k.op.id].(acknowledged := true)];
      }
      FinishesDone(db2, clock, k2, result);
      FinishesBy(db1, clock, k1, db', result);
    }
    FinishesBy(db, clock, k, db', result);
  }

  /** A call that is alone runs to its end, and does and returns what the whole call does. */
  lemma RunsAlone(db: Db, clock: Millis, op: Op)
    requires RowsOk(db)
    ensures var (db', result) := CallAlone(db, op, clock);
      Finishes(db, clock, RawCall(op, None, Begin), db', result)
  {
    var k: Call := RawCall(op, None, Begin);
    if op.Acquire? {
      AcquiresAlone(db, clock, k);
    } else if op.Renew? {
      RenewsAlone(db, clock, k);
    } else if op.Release? {
      ReleasesAlone(db, clock, k);
    } else {
      OthersAlone(db, clock, k);
    }
  }
}
