/** The event log accounts for every hold, in every interleaving. */
module Conservation {
  import opened Tables
  import opened Protocol

  /** How many events of `kind` the log has on `resource`. */
  function Count(events: seq<Event>, resource: Resource, kind: EventKind): nat {
    if events == [] then 0
    else
      var last := events[|events| - 1];
      Count(events[..|events| - 1], resource, kind)
      + if last.resource == resource && last.kind == kind then 1 else 0
  }

  lemma CountSnoc(events: seq<Event>, e: Event, resource: Resource, kind: EventKind)
    ensures Count(events + [e], resource, kind)
         == Count(events, resource, kind) + if e.resource == resource && e.kind == kind then 1 else 0
  {
    assert (events + [e])[..|events|] == events;
  }

  /** The call has claimed `resource` and not yet logged it. */
  predicate OwesGrant(k: Call, resource: Resource) {
    k.pc.GrantEvent? && k.op.resource == resource
  }

  /** The call has freed `resource` and not yet logged it. */
  predicate OwesRelease(k: Call, resource: Resource) {
    k.pc.ReleaseEvent? && k.op.resource == resource
  }

  function GrantsOwed(calls: map<nat, Call>, resource: Resource): set<nat> {
    set c | c in calls && OwesGrant(calls[c], resource)
  }

  function ReleasesOwed(calls: map<nat, Call>, resource: Resource): set<nat> {
    set c | c in calls && OwesRelease(calls[c], resource)
  }

  /** Logged and owed grants are as many as logged and owed releases, plus one when
      the resource is held. */
  predicate Balanced(s: State, resource: Resource) {
    Count(s.db.events, resource, AcquiredEvent) + |GrantsOwed(s.calls, resource)|
    == Count(s.db.events, resource, ReleasedEvent) + |ReleasesOwed(s.calls, resource)|
       + if resource in s.db.locks then 1 else 0
  }

  lemma Moves(before: set<nat>, after: set<nat>, c: nat)
    requires before - {c} == after - {c}
    ensures |after| == |before| - (if c in before then 1 else 0) + (if c in after then 1 else 0)
  {
    var rest := before - {c};
    assert before == if c in before then rest + {c} else rest;
    assert after == if c in after then rest + {c} else rest;
  }

  lemma CallMoves(calls: map<nat, Call>, c: nat, k: Call, resource: Resource)
    requires c in calls
    ensures |GrantsOwed(calls[c := k], resource)| == |GrantsOwed(calls, resource)|
      - (if OwesGrant(calls[c], resource) then 1 else 0) + (if OwesGrant(k, resource) then 1 else 0)
    ensures |ReleasesOwed(calls[c := k], resource)| == |ReleasesOwed(calls, resource)|
      - (if OwesRelease(calls[c], resource) then 1 else 0) + (if OwesRelease(k, resource) then 1 else 0)
  {
    Moves(GrantsOwed(calls, resource), GrantsOwed(calls[c := k], resource), c);
    Moves(ReleasesOwed(calls, resource), ReleasesOwed(calls[c := k], resource), c);
  }

  /** What a call at its logging statement has to log; nothing elsewhere. */
  function ToLog(k: Call): seq<Event> {
    match k.pc
    case GrantEvent => [Event(k.op.resource, AcquiredEvent, k.op.who, k.op.who, k.op.note, k.op.strategy, false)]
    case TakeoverEvent(seen) =>
      [Event(k.op.resource, ReclaimedEvent, k.op.who, seen.holder, k.op.note, k.op.strategy, false)]
    case DenyEvent(seen) =>
      [Event(k.op.resource, DeniedEvent, k.op.who, seen.holder, k.op.note, seen.strategy, false)]
    case ReleaseEvent(seen) =>
      [Event(k.op.resource, ReleasedEvent, k.op.who, seen.holder, k.op.note, seen.strategy, seen.holder != k.op.who)]
    case _ => []
  }

  lemma StepEvents(db: Db, clock: Millis, k: Call)
    ensures StepCall(db, clock, k).0.events == db.events + ToLog(k)
  {
    assert db.events + [] == db.events;
  }

  /** A step logs at most one event, of the kind and resource that its call owes. */
  lemma StepLogs(db: Db, clock: Millis, k: Call, resource: Resource)
    ensures var events := StepCall(db, clock, k).0.events;
      && Count(events, resource, AcquiredEvent)
         == Count(db.events, resource, AcquiredEvent) + (if OwesGrant(k, resource) then 1 else 0)
      && Count(events, resource, ReleasedEvent)
         == Count(db.events, resource, ReleasedEvent) + (if OwesRelease(k, resource) then 1 else 0)
  {
    StepEvents(db, clock, k);
    LogCounts(db.events, k, resource);
  }

  lemma LogCounts(events: seq<Event>, k: Call, resource: Resource)
    ensures Count(events + ToLog(k), resource, AcquiredEvent)
         == Count(events, resource, AcquiredEvent) + (if OwesGrant(k, resource) then 1 else 0)
    ensures Count(events + ToLog(k), resource, ReleasedEvent)
         == Count(events, resource, ReleasedEvent) + (if OwesRelease(k, resource) then 1 else 0)
  {
    if ToLog(k) == [] {
      assert events + ToLog(k) == events;
    } else {
      CountSnoc(events, ToLog(k)[0], resource, AcquiredEvent);
      CountSnoc(events, ToLog(k)[0], resource, ReleasedEvent);
    }
  }

  predicate OwesWhatItDid(db: Db, db': Db, k': Call, resource: Resource) {
    && (OwesGrant(k', resource) <==> resource !in db.locks && resource in db'.locks)
    && (OwesRelease(k', resource) <==> resource in db.locks && resource !in db'.locks)
  }

  lemma AcquireOwes(db: Db, clock: Millis, k: Call, resource: Resource)
    requires k.op.Acquire?
    ensures OwesWhatItDid(db, StepCall(db, clock, k).0, StepCall(db, clock, k).1, resource)
  {
  }

  /** A step that comes to owe a grant has taken a free resource, and one that comes to owe a
      release has freed a held one; no other step makes or unmakes a hold. */
  lemma StepOwes(db: Db, clock: Millis, k: Call, resource: Resource)
    ensures OwesWhatItDid(db, StepCall(db, clock, k).0, StepCall(db, clock, k).1, resource)
  {
    if k.op.Acquire? {
      AcquireOwes(db, clock, k, resource);
    }
  }

  lemma BalancedNext(s: State, a: Action, resource: Resource)
    requires Balanced(s, resource)
    ensures Balanced(Next(s, a), resource)
  {
    var s' := Next(s, a);
    if a.Proceed? && a.c in s.calls {
      StepLogs(s.db, s.clock, s.calls[a.c], resource);
      StepOwes(s.db, s.clock, s.calls[a.c], resource);
      CallMoves(s.calls, a.c, s'.calls[a.c], resource);
    } else if a.Invoke? && a.c !in s.calls {
      assert GrantsOwed(s'.calls, resource) == GrantsOwed(s.calls, resource);
      assert ReleasesOwed(s'.calls, resource) == ReleasesOwed(s.calls, resource);
    }
  }

  /** Every run from the empty store keeps the balance of every resource, wherever its
      calls interleave and wherever they crash. */
  lemma {:induction false} HoldsAreAccounted(run: Run, j: nat, resource: Resource)
    requires run.Valid() && j < |run.states| && Initial(run.states[0])
    ensures Balanced(run.states[j], resource)
  {
    if j == 0 {
      assert GrantsOwed(run.states[0].calls, resource) == {} && ReleasesOwed(run.states[0].calls, resource) == {};
    } else {
      assert run.Follows(j - 1);
      HoldsAreAccounted(run, j - 1, resource);
      BalancedNext(run.states[j - 1], run.actions[j - 1], resource);
    }
  }
}
