/** The store as the object that its callers use, statement by statement. */
module StoreObject {
  import opened Tables
  import opened Protocol
  import opened Calls
  import opened Cursor

  class Store {
    var locks: map<Resource, Row>
    var events: seq<Event>
    var interests: seq<Interest>
    var propagations: seq<Propagation>
    var strategies: set<string>

    constructor ()
      ensures Valid() && Content() == EMPTY_DB
    {
      locks, events, interests, propagations, strategies := map[], [], [], [], {};
    }

    function Content(): Db
      reads this
    {
      Db(locks, events, interests, propagations, strategies)
    }

    /** Every stored row has both of its lease columns or neither. */
    ghost predicate Valid()
      reads this
    {
      RowsOk(Content())
    }

    method GetLock(resource: Resource) returns (row: Option<Row>)
      ensures row == RowAt(Content(), resource)
    {
      row := if resource in locks then Some(locks[resource]) else None;
    }

    method RecordLockEvent(resource: Resource, kind: EventKind, who: Identity, holder: Identity,
                           note: string, strategy: string, forced: bool)
      modifies this`events
      ensures events == old(events) + [Event(resource, kind, who, holder, note, strategy, forced)]
    {
      events := events + [Event(resource, kind, who, holder, note, strategy, forced)];
    }

    /** Every interest active on `resource` gets one propagation, of the newest event on it. */
    method MatchAndPropagate(resource: Resource)
      modifies this`propagations
      ensures Content() == Notify(old(Content()), resource)
    {
      var subs := ActiveOn(interests, resource);
      if |subs| == 0 {
        assert propagations == propagations + Deliveries(subs, 0);
        return;
      }
      var last := LastEvent(events, resource);
      if last.None? {
        return;
      }
      for i := 0 to |subs|
        invariant propagations == old(propagations) + Deliveries(subs[..i], last.value)
      {
        propagations := propagations + [Propagation(subs[i].interest, last.value, subs[i].who, false)];
        assert Deliveries(subs[..i + 1], last.value)
            == Deliveries(subs[..i], last.value) + [Propagation(subs[i].interest, last.value, subs[i].who, false)];
      }
      assert subs[..|subs|] == subs;
    }

    /** Claims `resource`: by an insert that conflicts or not, else by refreshing one's own row,
        else by reclaiming a stale one, else is denied; at most three times over. */
    method AcquireLock(resource: Resource, who: Identity, note: string, strategy: string, lease: Int64, now: Millis)
      returns (result: Result)
      requires Valid()
      modifies this
      ensures Valid()
      ensures (Content(), result) == CallAlone(old(Content()), Acquire(resource, who, note, strategy, lease), now)
    {
      if !ValidResourceName(resource) {
        return Refused(BadResourceName);
      }
      if lease < 0 {
        return Refused(NegativeLease);
      }
      if strategy != "" {
        if strategy !in strategies {
          return Refused(UnknownStrategy);
        }
      }
      var leaseArg, renewedArg := LeaseColumn(lease), RenewedColumn(lease, now);
      for attempt := 0 to MAX_ATTEMPTS
        invariant Content() == old(Content())
        invariant attempt > 0 ==>
          && resource in locks && locks[resource].holder != who
          && Expired(locks[resource], now) && !Reclaimable(locks[resource], now)
      {
        if resource !in locks {
          locks := locks[resource := Row(who, note, now, strategy, leaseArg, renewedArg)];
          RecordLockEvent(resource, AcquiredEvent, who, who, note, strategy, false);
          return Granted(Row(who, note, now, strategy, leaseArg, renewedArg));
        }
        var existing := GetLock(resource);
        if existing.None? {
          continue;
        }
        var seen := existing.value;
        if seen.holder == who {
          locks := locks[resource := locks[resource].(note := note, strategy := strategy,
                                                      leaseSeconds := leaseArg, renewedAt := renewedArg)];
          return Reacquired(Row(who, note, seen.acquiredAt, strategy, leaseArg, renewedArg));
        }
        if Expired(seen, now) {
          var claimed := ReclaimExpiredLock(resource, who, note, strategy, seen, now, leaseArg, renewedArg);
          if claimed.Some? {
            return Reclaimed(claimed.value);
          }
          continue;
        }
        if Reclaimable(seen, now) {
          ReclaimableReadsExpired(seen, now);
        }
        RecordLockEvent(resource, DeniedEvent, who, seen.holder, note, seen.strategy, false);
        MatchAndPropagate(resource);
        return Denied(seen.holder, seen.acquiredAt);
      }
      return Contention;
    }

    /** Takes `resource` over from the holder of `prior`, if the row still is that holder's and stale. */
    method ReclaimExpiredLock(resource: Resource, who: Identity, note: string, strategy: string, prior: Row,
                              now: Millis, leaseArg: Option<Int64>, renewedArg: Option<Millis>)
      returns (claimed: Option<Row>)
      requires Valid() && RowOk(Row(who, note, now, strategy, leaseArg, renewedArg))
      modifies this
      ensures Valid()
      ensures claimed.Some? <==>
        && resource in old(locks) && old(locks)[resource].holder == prior.holder
        && Reclaimable(old(locks)[resource], now)
      ensures claimed.None? ==> Content() == old(Content())
      ensures claimed.Some? ==>
        && claimed.value == Row(who, note, now, strategy, leaseArg, renewedArg)
        && Content() == Notify(Log(Put(old(Content()), resource, claimed.value),
                                   Event(resource, ReclaimedEvent, who, prior.holder, note, strategy, false)), resource)
    {
      if resource !in locks || locks[resource].holder != prior.holder || !Reclaimable(locks[resource], now) {
        return None;
      }
      var row := Row(who, note, now, strategy, leaseArg, renewedArg);
      locks := locks[resource := row];
      RecordLockEvent(resource, ReclaimedEvent, who, prior.holder, note, strategy, false);
      MatchAndPropagate(resource);
      return Some(row);
    }

    /** Restamps the holder's lease, unless there is none or it has run out. */
    method RenewLock(resource: Resource, who: Identity, now: Millis) returns (result: Result)
      requires Valid()
      modifies this`locks
      ensures Valid()
      ensures (Content(), result) == CallAlone(old(Content()), Renew(resource, who), now)
    {
      var existing := GetLock(resource);
      if existing.None? {
        return NotLocked;
      }
      var seen := existing.value;
      if seen.holder != who {
        return HeldBy(seen.holder);
      }
      if seen.leaseSeconds.None? || seen.leaseSeconds.value <= 0 {
        return NoLease;
      }
      if Expired(seen, now) {
        return LeaseExpired;
      }
      ExpiryTestsAgree(seen, now);
      if Reclaimable(seen, now) {
        ReclaimableReadsExpired(seen, now);
      }
      if resource in locks && locks[resource].holder == who && Renewable(locks[resource], now) {
        locks := locks[resource := locks[resource].(renewedAt := Some(now))];
        return Renewed(seen.(renewedAt := Some(now)));
      }
      return RenewLost;
    }

    /** Frees `resource` for its holder, or by force, and tells its subscribers. */
    method ReleaseLock(resource: Resource, who: Identity, note: string, force: bool) returns (result: Result)
      requires Valid()
      modifies this
      ensures Valid()
      ensures (Content(), result) == CallAlone(old(Content()), Release(resource, who, note, force), 0)
    {
      var existing := GetLock(resource);
      if existing.None? {
        return NotLocked;
      }
      var seen := existing.value;
      if seen.holder != who && !force {
        return HeldBy(seen.holder);
      }
      if resource !in locks || !(force || locks[resource].holder == who) {
        if force {
          return AlreadyFree;
        }
        return ReleaseLost(HolderAt(Content(), resource));
      }
      locks := locks - {resource};
      RecordLockEvent(resource, ReleasedEvent, who, seen.holder, note, seen.strategy, seen.holder != who);
      MatchAndPropagate(resource);
      return Released;
    }

    /** Returns the caller's active interest on `resource`, made if there is none. */
    method CreateInterest(who: Identity, resource: Resource, tag: string) returns (result: Result)
      modifies this`interests
      ensures (Content(), result) == CallAlone(old(Content()), Subscribe(resource, who, tag), 0)
    {
      if !ValidResourceName(resource) {
        return Refused(BadResourceName);
      }
      var existing := FirstActive(interests, who, resource);
      if existing.Some? {
        return SubscribedAs(existing.value);
      }
      var id := |interests|;
      interests := interests + [Interest(who, resource, Active, tag)];
      return SubscribedAs(id);
    }

    method SetInterestStatus(id: nat, status: Status) returns (result: Result)
      modifies this`interests
      ensures (Content(), result) == CallAlone(old(Content()), SetStatus(id, status), 0)
    {
      if id >= |interests| {
        return NotFound;
      }
      interests := interests[id := interests[id].(status := status)];
      return StatusSet;
    }

    method AcknowledgePropagation(id: nat) returns (result: Result)
      modifies this`propagations
      ensures (Content(), result) == CallAlone(old(Content()), Acknowledge(id), 0)
    {
      if id < |propagations| && !propagations[id].acknowledged {
        propagations := propagations[id := propagations[id].(acknowledged := true)];
        return Acknowledged;
      }
      if id < |propagations| {
        assert propagations == propagations[id := propagations[id].(acknowledged := true)];
        return Acknowledged;
      }
      return NotFound;
    }

    /** What has been delivered to `who` behind a cursor, oldest first and at most `limit` rows,
        with the cursor moved to the last of them. */
    method RecentPropagations(who: Identity, lastRowID: int, limit: int) returns (out: seq<Delivered>, maxRowID: int)
      ensures out == Page(Content(), who, lastRowID, limit)
      ensures maxRowID == Advanced(lastRowID, out)
    {
      var bound := if limit < 0 then 0 else limit;
      var rows := Page(Content(), who, lastRowID, bound);
      RowsAscend(Content(), who, lastRowID, |propagations|);
      out, maxRowID := [], lastRowID;
      for i := 0 to |rows|
        invariant out == rows[..i]
        invariant maxRowID == Advanced(lastRowID, out)
      {
        out := out + [rows[i]];
        if rows[i].rowid > maxRowID {
          maxRowID := rows[i].rowid;
        }
      }
    }
  }

  const PAGE_LIMIT := 50

  /** One subscriber's live stream: its cursor, and what it has been sent. */
  class Stream {
    const who: Identity
    var lastRowID: int
    var sent: seq<Delivered>

    constructor (who: Identity)
      ensures this.who == who && lastRowID == 0 && sent == []
    {
      this.who := who;
      lastRowID, sent := 0, [];
    }

    /** One tick of the handler's loop: a page behind the cursor is sent, event by event. */
    method Tick(store: Store)
      modifies this
      ensures var page := Page(store.Content(), who, old(lastRowID), 50);
        sent == old(sent) + page && lastRowID == Advanced(old(lastRowID), page)
    {
      var deliveries, newRowID := store.RecentPropagations(who, lastRowID, PAGE_LIMIT);
      for i := 0 to |deliveries|
        invariant sent == old(sent) + deliveries[..i]
        invariant lastRowID == old(lastRowID)
      {
        sent := sent + [deliveries[i]];
      }
      lastRowID := newRowID;
    }

    /** `n` ticks of the handler's loop with nothing written in between: a stream that begins here has then
        sent every delivery, once and in order, exactly if there are at most fifty times `n`. */
    method Serve(store: Store, n: nat)
      requires lastRowID == 0 && sent == []
      modifies this
      ensures var all := Rows(store.Content(), who, 0, |store.propagations|);
        && Said(sent) == Said(Take(all, n * 50))
        && (Said(sent) == Said(all) <==> |all| <= n * 50)
    {
      ghost var db := store.Content();
      for i := 0 to n
        invariant store.Content() == db
        invariant (lastRowID, sent) == Sent(who, Repeated(Poll(db, 50), i))
      {
        OnePollMore(db, who, 50, i + 1);
        Tick(store);
      }
      PollsDrain(db, who, 50, n);
    }
  }
}
