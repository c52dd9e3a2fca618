/** Whole calls on the store, made one at a time. */
module Calls {
  import opened Tables
  import opened Protocol

  /** One propagation per subscriber, all of event `e`. */
  function Deliveries(subs: seq<Subscriber>, e: nat): seq<Propagation> {
    seq(|subs|, i requires 0 <= i < |subs| => Propagation(subs[i].interest, e, subs[i].who, false))
  }

  /** The newest event on `resource`, delivered to the interests active on it. */
  function Notify(db: Db, resource: Resource): Db {
    var last := LastEvent(db.events, resource);
    if last.None? then db
    else db.(propagations := db.propagations + Deliveries(ActiveOn(db.interests, resource), last.value))
  }

  function AcquireAlone(db: Db, op: Op, now: Millis): (Db, Result)
    requires op.Acquire?
  {
    if !ValidResourceName(op.resource) then (db, Refused(BadResourceName))
    else if op.lease < 0 then (db, Refused(NegativeLease))
    else if op.strategy != "" && op.strategy !in db.strategies then (db, Refused(UnknownStrategy))
    else
      var row := NewRow(op, now);
      if op.resource !in db.locks then
        (Log(Put(db, op.resource, row),
             Event(op.resource, AcquiredEvent, op.who, op.who, op.note, op.strategy, false)),
         Granted(row))
      else
        var held := db.locks[op.resource];
        if held.holder == op.who then
          (Put(db, op.resource, Refreshed(held, op, now)), Reacquired(Refreshed(held, op, now)))
        else if Reclaimable(held, now) then
          (Notify(Log(Put(db, op.resource, row),
                      Event(op.resource, ReclaimedEvent, op.who, held.holder, op.note, op.strategy, false)), op.resource),
           Reclaimed(row))
        else if Expired(held, now) then (db, Contention)
        else
          (Notify(Log(db, Event(op.resource, DeniedEvent, op.who, held.holder, op.note, held.strategy, false)), op.resource),
           Denied(held.holder, held.acquiredAt))
  }

  function RenewAlone(db: Db, op: Op, now: Millis): (Db, Result)
    requires op.Renew?
  {
    if op.resource !in db.locks then (db, NotLocked)
    else
      var held := db.locks[op.resource];
      if held.holder != op.who then (db, HeldBy(held.holder))
      else if held.leaseSeconds.None? then (db, NoLease)
      else if Expired(held, now) then (db, LeaseExpired)
      else
        var row := held.(renewedAt := Some(now));
        (Put(db, op.resource, row), Renewed(row))
  }

  function ReleaseAlone(db: Db, op: Op): (Db, Result)
    requires op.Release?
  {
    if op.resource !in db.locks then (db, NotLocked)
    else
      var held := db.locks[op.resource];
      if held.holder != op.who && !op.force then (db, HeldBy(held.holder))
      else
        (Notify(Log(Remove(db, op.resource),
                    Event(op.resource, ReleasedEvent, op.who, held.holder, op.note, held.strategy, held.holder != op.who)), op.resource),
         Released)
  }

  function SubscribeAlone(db: Db, op: Op): (Db, Result)
    requires op.Subscribe?
  {
    if !ValidResourceName(op.resource) then (db, Refused(BadResourceName))
    else
      var existing := FirstActive(db.interests, op.who, op.resource);
      if existing.Some? then (db, SubscribedAs(existing.value))
      else
        (db.(interests := db.interests + [Interest(op.who, op.resource, Active, op.tag)]),
         SubscribedAs(|db.interests|))
  }

  function SetStatusAlone(db: Db, id: nat, status: Status): (Db, Result) {
    if id < |db.interests| then
      (db.(interests := db.interests[id := db.interests[id].(status := status)]), StatusSet)
    else (db, NotFound)
  }

  function AcknowledgeAlone(db: Db, id: nat): (Db, Result) {
    if id < |db.propagations| then
      (db.(propagations := db.propagations[id := db.propagations[id].(acknowledged := true)]), Acknowledged)
    else (db, NotFound)
  }

  /** The store after a call that nobody interleaves with, and what the call returns. */
  function CallAlone(db: Db, op: Op, now: Millis): (Db, Result) {
    match op
    case Acquire(_, _, _, _, _) => AcquireAlone(db, op, now)
    case Renew(_, _) => RenewAlone(db, op, now)
    case Release(_, _, _, _) => ReleaseAlone(db, op)
    case Subscribe(_, _, _) => SubscribeAlone(db, op)
    case SetStatus(id, status) => SetStatusAlone(db, id, status)
    case Acknowledge(id) => AcknowledgeAlone(db, id)
  }

  lemma NewestEvent(events: seq<Event>, e: Event)
    ensures LastEvent(events + [e], e.resource) == Some(|events|)
  {
  }

  predicate RowsOk(db: Db) {
    forall r :: r in db.locks ==> RowOk(db.locks[r])
  }

  /** A lone acquire ends in the contention error exactly when the lock is another's and its lease
      is so long that its milliseconds wrap below the time it has run. */
  lemma LoneContention(db: Db, op: Op, now: Millis)
    requires op.Acquire? && RowsOk(db)
    requires ValidResourceName(op.resource) && op.lease >= 0 && (op.strategy == "" || op.strategy in db.strategies)
    ensures AcquireAlone(db, op, now).1 == Contention <==>
      && op.resource in db.locks
      && db.locks[op.resource].holder != op.who
      && db.locks[op.resource].leaseSeconds.Some?
      && db.locks[op.resource].leaseSeconds.value > MAX_LEASE
      && Wrap64(db.locks[op.resource].leaseSeconds.value * 1000) <= now - db.locks[op.resource].renewedAt.value
  {
    if op.resource in db.locks && db.locks[op.resource].leaseSeconds.Some? {
      ExpiryTestsAgree(db.locks[op.resource], now);
      if Reclaimable(db.locks[op.resource], now) {
        ReclaimableReadsExpired(db.locks[op.resource], now);
      }
    }
  }

  predicate Holds(result: Result, row: Row) {
    result == Granted(row) || result == Reacquired(row) || result == Reclaimed(row)
  }

  /** A lone acquire reports a hold exactly when it leaves its caller the holder, and then reports the
      very row it leaves, whose lease, if it has one, is not yet stale; otherwise it touches no lock. A hold that
      was the caller's keeps its beginning, and one of another's passes on only if it had gone stale. */
  lemma AcquireMeansHolding(db: Db, op: Op, now: Millis)
    requires op.Acquire? && RowsOk(db) && !AcquireAlone(db, op, now).1.Refused?
    ensures var (db', result) := AcquireAlone(db, op, now);
      && ((exists row :: Holds(result, row)) <==> HolderAt(db', op.resource) == Some(op.who))
      && (forall row :: Holds(result, row) ==> RowAt(db', op.resource) == Some(row) && !Reclaimable(row, now))
      && (HolderAt(db', op.resource) != Some(op.who) ==> db'.locks == db.locks)
      && (HolderAt(db, op.resource) == Some(op.who) ==>
            db'.locks[op.resource].acquiredAt == db.locks[op.resource].acquiredAt)
      && (op.resource in db.locks && db.locks[op.resource].holder != op.who ==>
            (HolderAt(db', op.resource) == Some(op.who) <==> Reclaimable(db.locks[op.resource], now)))
  {
    var (db', result) := AcquireAlone(db, op, now);
    if HolderAt(db', op.resource) == Some(op.who) {
      assert Holds(result, db'.locks[op.resource]);
    }
  }
}
