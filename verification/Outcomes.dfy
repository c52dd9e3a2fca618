/** What each whole call answers and leaves, field by field, in terms of what was asked and what was there. */
module Outcomes {
  import opened Tables
  import opened Protocol
  import opened Calls

  /** The row that a hold taken or refreshed at `now` has, begun at `since`: everything as the caller asked. */
  predicate AsAsked(row: Row, op: Op, now: Millis, since: Millis)
    requires op.Acquire?
  {
    && row.holder == op.who && row.note == op.note && row.strategy == op.strategy && row.acquiredAt == since
    && row.leaseSeconds == (if op.lease > 0 then Some(op.lease) else None)
    && row.renewedAt == (if op.lease > 0 then Some(now) else None)
  }

  /** A lease that has run for its whole length. */
  predicate RunOut(row: Row, now: Millis) {
    row.leaseSeconds.Some? && row.renewedAt.Some? && now - row.renewedAt.value >= 1000 * row.leaseSeconds.value
  }

  predicate HasNewline(resource: Resource) {
    exists i :: 0 <= i < |resource| && (resource[i] == '\n' || resource[i] == '\r')
  }

  /** When an acquire is refused for its arguments, in the order in which they are looked at. */
  lemma AcquireRefusals(db: Db, op: Op, now: Millis)
    requires op.Acquire?
    ensures var result := CallAlone(db, op, now).1;
      && (result == Refused(BadResourceName) <==> HasNewline(op.resource))
      && (result == Refused(NegativeLease) <==> !HasNewline(op.resource) && op.lease < 0)
      && (result == Refused(UnknownStrategy) <==>
            !HasNewline(op.resource) && op.lease >= 0 && op.strategy != "" && op.strategy !in db.strategies)
      && (result.Refused? ==> CallAlone(db, op, now).0 == db)
  {
    NewlinesAreInvalid(op.resource);
  }

  lemma NewlinesAreInvalid(resource: Resource)
    ensures HasNewline(resource) <==> !ValidResourceName(resource)
  {
    if '\n' in resource {
      var i :| 0 <= i < |resource| && resource[i] == '\n';
    } else if '\r' in resource {
      var i :| 0 <= i < |resource| && resource[i] == '\r';
    }
  }

  /** What a lone acquire answers, and the row it leaves: granted if the resource is free; re-acquired, with its
      beginning kept, if the caller holds it; reclaimed if another's lease has run out; and otherwise denied
      in the name of the holder, with nothing changed, or given up where the lease is beyond 64 bits. */
  lemma AcquireOutcome(db: Db, op: Op, now: Millis)
    requires op.Acquire? && RowsOk(db) && !CallAlone(db, op, now).1.Refused?
    ensures var (db', result) := CallAlone(db, op, now);
      match RowAt(db, op.resource)
      case None =>
        result.Granted? && AsAsked(result.row, op, now, now) && RowAt(db', op.resource) == Some(result.row)
      case Some(row) =>
        if row.holder == op.who then
          result.Reacquired? && AsAsked(result.row, op, now, row.acquiredAt) && RowAt(db', op.resource) == Some(result.row)
        else if RunOut(row, now) then
          result.Reclaimed? && AsAsked(result.row, op, now, now) && RowAt(db', op.resource) == Some(result.row)
        else
          && db'.locks == db.locks
          && (result == Denied(row.holder, row.acquiredAt) || result == Contention)
          && (row.leaseSeconds.None? || row.leaseSeconds.value <= 9223372036854775 ==> !result.Contention?)
    ensures forall r :: r != op.resource ==> RowAt(CallAlone(db, op, now).0, r) == RowAt(db, r)
  {
    if op.resource in db.locks {
      var row := db.locks[op.resource];
      if row.leaseSeconds.Some? {
        ExpiryTestsAgree(row, now);
        if Reclaimable(row, now) {
          ReclaimableReadsExpired(row, now);
        }
      }
    }
  }

  /** Restamped and otherwise as it was. */
  predicate Restamped(row: Row, row': Row, now: Millis) {
    && row'.holder == row.holder && row'.note == row.note && row'.strategy == row.strategy
    && row'.acquiredAt == row.acquiredAt && row'.leaseSeconds == row.leaseSeconds && row'.renewedAt == Some(now)
  }

  /** What a lone renewal answers, with the reason of each failure, and the row it leaves. */
  lemma RenewOutcome(db: Db, op: Op, now: Millis)
    requires op.Renew? && RowsOk(db)
    ensures var (db', result) := CallAlone(db, op, now);
      match RowAt(db, op.resource)
      case None => result == NotLocked && db' == db
      case Some(row) =>
        if row.holder != op.who then result == HeldBy(row.holder) && db' == db
        else if row.leaseSeconds.None? then result == NoLease && db' == db
        else
          && (result == LeaseExpired || result.Renewed?)
          && (result == LeaseExpired ==> db' == db)
          && (result.Renewed? ==> Restamped(row, result.row, now) && RowAt(db', op.resource) == Some(result.row))
          && (RunOut(row, now) ==> result == LeaseExpired)
          && (!RunOut(row, now) && row.leaseSeconds.value <= 9223372036854775 ==> result.Renewed?)
    ensures forall r :: r != op.resource ==> RowAt(CallAlone(db, op, now).0, r) == RowAt(db, r)
  {
    if op.resource in db.locks && db.locks[op.resource].leaseSeconds.Some? {
      var row := db.locks[op.resource];
      ExpiryTestsAgree(row, now);
      if Reclaimable(row, now) {
        ReclaimableReadsExpired(row, now);
      }
    }
  }

  /** What a lone release answers: it frees the resource for its holder or by force, and says else why not. */
  lemma ReleaseOutcome(db: Db, op: Op, now: Millis)
    requires op.Release?
    ensures var (db', result) := CallAlone(db, op, now);
      match RowAt(db, op.resource)
      case None => result == NotLocked && db' == db
      case Some(row) =>
        if row.holder == op.who || op.force then result == Released && RowAt(db', op.resource) == None
        else result == HeldBy(row.holder) && db' == db
    ensures forall r :: r != op.resource ==> RowAt(CallAlone(db, op, now).0, r) == RowAt(db, r)
  {
  }

  /** The event that a lone call logs tells of its own identity, resource and note, and of what it answers. */
  lemma EventIsOwn(db: Db, op: Op, now: Millis)
    ensures var events := CallAlone(db, op, now).0.events;
      || events == db.events
      || (&& events == db.events + [events[|events| - 1]]
          && (op.Acquire? || op.Release?)
          && events[|events| - 1].resource == op.resource && events[|events| - 1].who == op.who
          && events[|events| - 1].note == op.note
          && match events[|events| - 1].kind
             case AcquiredEvent => CallAlone(db, op, now).1.Granted?
             case DeniedEvent => CallAlone(db, op, now).1.Denied?
             case ReclaimedEvent => CallAlone(db, op, now).1.Reclaimed?
             case ReleasedEvent => CallAlone(db, op, now).1.Released?)
    ensures var result := CallAlone(db, op, now).1;
      |CallAlone(db, op, now).0.events| > |db.events| <==>
        result.Granted? || result.Denied? || result.Reclaimed? || result.Released?
  {
  }

  /** How long a hold lasts: after `q` has been given it at `now` with a lease, another's acquire at `t` takes
      it over if and only if the lease asked for has run its length; `q`'s renewal succeeds if and only if it
      has not, and there is one; and without a lease nothing but a release ends it. */
  lemma LeaseLasts(db: Db, op: Op, now: Millis, other: Op, t: Millis)
    requires op.Acquire? && RowsOk(db) && op.lease <= 9223372036854775
    requires var result := CallAlone(db, op, now).1; result.Granted? || result.Reacquired? || result.Reclaimed?
    requires other.Acquire? && other.resource == op.resource && other.who != op.who
    requires !CallAlone(CallAlone(db, op, now).0, other, t).1.Refused?
    ensures var db' := CallAlone(db, op, now).0;
      && (CallAlone(db', other, t).1.Reclaimed? <==> op.lease > 0 && t - now >= 1000 * op.lease)
      && (CallAlone(db', other, t).1.Denied? <==> !(op.lease > 0 && t - now >= 1000 * op.lease))
      && (CallAlone(db', Renew(op.resource, op.who), t).1.Renewed? <==> op.lease > 0 && t - now < 1000 * op.lease)
      && CallAlone(db', Release(op.resource, op.who, "", false), t).1.Released?
  {
    AcquireOutcome(db, op, now);
    var db' := CallAlone(db, op, now).0;
    AcquireKeepsRowsOk(db, op, now);
    AcquireOutcome(db', other, t);
    RenewOutcome(db', Renew(op.resource, op.who), t);
    ReleaseOutcome(db', Release(op.resource, op.who, "", false), t);
  }

  lemma AcquireKeepsRowsOk(db: Db, op: Op, now: Millis)
    requires op.Acquire? && RowsOk(db)
    ensures RowsOk(CallAlone(db, op, now).0)
  {
  }

  /** Acknowledging marks the one propagation, whether or not it was marked, and fails only if there is none. */
  lemma AcknowledgeOutcome(db: Db, id: nat, now: Millis)
    ensures var (db', result) := CallAlone(db, Acknowledge(id), now);
      && db'.locks == db.locks && db'.events == db.events && db'.interests == db.interests && db'.strategies == db.strategies
      && |db'.propagations| == |db.propagations|
      && (result == if id < |db.propagations| then Acknowledged else NotFound)
      && forall j :: 0 <= j < |db.propagations| ==>
           && db'.propagations[j].acknowledged == (j == id || db.propagations[j].acknowledged)
           && db'.propagations[j].interest == db.propagations[j].interest
           && db'.propagations[j].event == db.propagations[j].event
           && db'.propagations[j].who == db.propagations[j].who
  {
  }

  /** A status change sets that of one interest, and fails only if there is none. */
  lemma StatusOutcome(db: Db, id: nat, status: Status, now: Millis)
    ensures var (db', result) := CallAlone(db, SetStatus(id, status), now);
      && db'.locks == db.locks && db'.events == db.events && db'.propagations == db.propagations && db'.strategies == db.strategies
      && |db'.interests| == |db.interests|
      && (result == if id < |db.interests| then StatusSet else NotFound)
      && forall j :: 0 <= j < |db.interests| ==>
           && db'.interests[j].status == (if j == id then status else db.interests[j].status)
           && db'.interests[j].who == db.interests[j].who && db'.interests[j].resource == db.interests[j].resource
           && db'.interests[j].tag == db.interests[j].tag
  {
  }

  predicate HasActive(interests: seq<Interest>, who: Identity, resource: Resource) {
    exists i :: 0 <= i < |interests| && IsActive(interests[i], who, resource)
  }

  predicate IsActive(x: Interest, who: Identity, resource: Resource) {
    x.who == who && x.resource == resource && x.status == Active
  }

  /** A creation is refused for a newline in the name alone; it gives back an active interest of the caller on the
      resource if there is one, and otherwise adds one with what was asked. */
  lemma SubscribeOutcome(db: Db, resource: Resource, who: Identity, tag: string, now: Millis)
    ensures var (db', result) := CallAlone(db, Subscribe(resource, who, tag), now);
      if HasNewline(resource) then result == Refused(BadResourceName) && db' == db
      else
        && result.SubscribedAs? && result.id < |db'.interests|
        && IsActive(db'.interests[result.id], who, resource)
        && (HasActive(db.interests, who, resource) ==> db' == db)
        && (!HasActive(db.interests, who, resource) ==>
              && result.id == |db.interests| && db' == db.(interests := db'.interests)
              && db'.interests == db.interests + [db'.interests[result.id]] && db'.interests[result.id].tag == tag)
  {
    NewlinesAreInvalid(resource);
    if HasActive(db.interests, who, resource) {
      var i: nat :| i < |db.interests| && IsActive(db.interests[i], who, resource);
      assert Subscribed(db.interests, i, resource);
    }
  }
}
