/** What holds in every state of every run, crashes and interleavings included. */
module Invariant {
  import opened Tables
  import opened Protocol

  /** `e` is the event that a call like `op` records before it notifies and replies. */
  predicate OwnEvent(e: Event, op: Op, reply: Result)
    requires op.Acquire? || op.Release?
  {
    && e.resource == op.resource
    && e.who == op.who
    && match reply
       case Denied(_, _) => op.Acquire? && e.kind.DeniedEvent?
       case Reclaimed(_) => op.Acquire? && e.kind.ReclaimedEvent?
       case Released => op.Release? && e.kind.ReleasedEvent?
       case _ => false
  }

  /** A propagation joins an interest and an event of the same resource. */
  predicate PropagationOk(db: Db, p: Propagation) {
    && p.interest < |db.interests|
    && p.event < |db.events|
    && p.who == db.interests[p.interest].who
    && db.events[p.event].resource == db.interests[p.interest].resource
  }

  predicate SubscriberOk(db: Db, sub: Subscriber, resource: Resource) {
    && sub.interest < |db.interests|
    && db.interests[sub.interest].who == sub.who
    && db.interests[sub.interest].resource == resource
  }

  predicate MatchOk(db: Db, k: Call, own: nat, reply: Result) {
    && (k.op.Acquire? || k.op.Release?)
    && own < |db.events| && OwnEvent(db.events[own], k.op, reply)
  }

  /** A call that has passed the checks of an acquire. */
  predicate AcquireOk(k: Call) {
    k.op.Acquire? && k.op.lease >= 0
  }

  /** What a call knows at each of its statements. */
  predicate CallOk(db: Db, clock: Millis, k: Call) {
    && (k.now.Some? ==> k.now.value <= clock)
    && match k.pc
       case Begin => k.now.None?
       case AcquireClock => AcquireOk(k) && k.now.None?
       case Insert(attempt) => AcquireOk(k) && attempt < MAX_ATTEMPTS
       case GrantEvent => AcquireOk(k)
       case Read(attempt) => AcquireOk(k) && attempt < MAX_ATTEMPTS
       case Refresh(seen) => AcquireOk(k) && RowOk(seen) && seen.holder == k.op.who
       case Takeover(attempt, seen) =>
         && AcquireOk(k) && attempt < MAX_ATTEMPTS && RowOk(seen)
         && seen.holder != k.op.who && Expired(seen, k.now.value)
       case TakeoverEvent(seen) => AcquireOk(k) && seen.holder != k.op.who
       case DenyEvent(seen) =>
         AcquireOk(k) && RowOk(seen) && seen.holder != k.op.who && !Expired(seen, k.now.value)
       case RenewClock(seen) => k.now.None? && RowOk(seen) && seen.holder == k.op.who && seen.leaseSeconds.Some?
       case RenewWrite(seen) =>
         && RowOk(seen) && seen.holder == k.op.who && seen.leaseSeconds.Some? && !Expired(seen, k.now.value)
       case Delete(seen) => k.op.force || seen.holder == k.op.who
       case ReleaseEvent(seen) => k.op.force || seen.holder == k.op.who
       case Recheck => !k.op.force
       case MatchInterests(own, reply) => MatchOk(db, k, own, reply)
       case MatchEvent(own, subs, reply) =>
         MatchOk(db, k, own, reply) && subs != [] && forall sub :: sub in subs ==> SubscriberOk(db, sub, k.op.resource)
       case MatchInsert(own, event, subs, reply) =>
         && MatchOk(db, k, own, reply) && subs != []
         && own <= event < |db.events| && db.events[event].resource == k.op.resource
         && forall sub :: sub in subs ==> SubscriberOk(db, sub, k.op.resource)
       case InterestInsert => true
       case AcknowledgeCheck => true
       case Done(result) => result != NoEvent
  }

  predicate DbOk(db: Db) {
    && (forall r :: r in db.locks ==> RowOk(db.locks[r]))
    && (forall j :: 0 <= j < |db.propagations| ==> PropagationOk(db, db.propagations[j]))
  }

  predicate Inv(s: State) {
    && DbOk(s.db)
    && forall c :: c in s.calls ==> CallOk(s.db, s.clock, s.calls[c])
  }

  /** Events are only appended; interests keep their owner and resource. */
  predicate Grows(db: Db, db': Db) {
    && db.events <= db'.events
    && |db.interests| <= |db'.interests|
    && (forall i :: 0 <= i < |db.interests| ==>
      db.interests[i].who == db'.interests[i].who && db.interests[i].resource == db'.interests[i].resource)
  }

  lemma GrowsKeepsCall(db: Db, db': Db, clock: Millis, clock': Millis, k: Call)
    requires Grows(db, db') && clock <= clock' && CallOk(db, clock, k)
    ensures CallOk(db', clock', k)
  {
    match k.pc
    case MatchEvent(own, subs, _) =>
      forall sub | sub in subs ensures SubscriberOk(db', sub, k.op.resource) { assert SubscriberOk(db, sub, k.op.resource); }
    case MatchInsert(own, event, subs, _) =>
      forall sub | sub in subs ensures SubscriberOk(db', sub, k.op.resource) { assert SubscriberOk(db, sub, k.op.resource); }
    case _ =>
  }

  lemma GrowsKeepsPropagation(db: Db, db': Db, p: Propagation)
    requires Grows(db, db') && PropagationOk(db, p)
    ensures PropagationOk(db', p)
  {
  }

  lemma StepGrows(db: Db, clock: Millis, k: Call)
    ensures Grows(db, StepCall(db, clock, k).0)
  {
  }

  predicate Matching(k: Call) {
    k.pc.MatchInterests? || k.pc.MatchEvent? || k.pc.MatchInsert?
  }

  lemma MatchKeepsCall(db: Db, clock: Millis, k: Call)
    requires Matching(k) && CallOk(db, clock, k)
    ensures CallOk(StepMatch(db, k).0, clock, StepMatch(db, k).1)
  {
    match k.pc
    case MatchInterests(own, reply) =>
      var subs := ActiveOn(db.interests, k.op.resource);
      forall sub | sub in subs ensures SubscriberOk(db, sub, k.op.resource) {}
    case MatchEvent(own, subs, reply) =>
      var last := LastEvent(db.events, k.op.resource);
      assert db.events[own].resource == k.op.resource;
      assert last.Some? && own <= last.value;
    case MatchInsert(own, event, subs, reply) =>
      var db' := StepMatch(db, k).0;
      forall sub | sub in subs[1..] ensures SubscriberOk(db', sub, k.op.resource) {
        assert SubscriberOk(db, sub, k.op.resource);
      }
  }

  lemma AcquireKeepsCall(db: Db, clock: Millis, k: Call)
    requires DbOk(db) && CallOk(db, clock, k) && k.op.Acquire? && !Matching(k)
    ensures CallOk(StepCall(db, clock, k).0, clock, StepCall(db, clock, k).1)
  {
  }

  lemma ReleaseKeepsCall(db: Db, clock: Millis, k: Call)
    requires DbOk(db) && CallOk(db, clock, k) && k.op.Release? && !Matching(k)
    ensures CallOk(StepCall(db, clock, k).0, clock, StepCall(db, clock, k).1)
  {
  }

  lemma OtherKeepsCall(db: Db, clock: Millis, k: Call)
    requires DbOk(db) && CallOk(db, clock, k) && !k.op.Acquire? && !k.op.Release?
    ensures CallOk(StepCall(db, clock, k).0, clock, StepCall(db, clock, k).1)
  {
  }

  lemma StepKeepsCall(db: Db, clock: Millis, k: Call)
    requires DbOk(db) && CallOk(db, clock, k)
    ensures CallOk(StepCall(db, clock, k).0, clock, StepCall(db, clock, k).1)
  {
    if Matching(k) {
      MatchKeepsCall(db, clock, k);
    } else if k.op.Acquire? {
      AcquireKeepsCall(db, clock, k);
    } else if k.op.Release? {
      ReleaseKeepsCall(db, clock, k);
    } else {
      OtherKeepsCall(db, clock, k);
    }
  }

  lemma StepKeepsRows(db: Db, clock: Millis, k: Call)
    requires DbOk(db)
    ensures forall r :: r in StepCall(db, clock, k).0.locks ==> RowOk(StepCall(db, clock, k).0.locks[r])
  {
  }

  /** A step adds a propagation only from an insert, and then the one it is about to write. */
  lemma StepPropagations(db: Db, clock: Millis, k: Call)
    ensures var ps := StepCall(db, clock, k).0.propagations;
      if k.pc.MatchInsert? && k.pc.subs != [] then
        ps == db.propagations + [Propagation(k.pc.subs[0].interest, k.pc.event, k.pc.subs[0].who, false)]
      else
        |ps| == |db.propagations|
        && forall j :: 0 <= j < |ps| ==> ps[j].(acknowledged := false) == db.propagations[j].(acknowledged := false)
  {
  }

  lemma StepKeepsDb(db: Db, clock: Millis, k: Call)
    requires DbOk(db) && CallOk(db, clock, k)
    ensures DbOk(StepCall(db, clock, k).0)
  {
    var db' := StepCall(db, clock, k).0;
    StepGrows(db, clock, k);
    StepKeepsRows(db, clock, k);
    StepPropagations(db, clock, k);
    forall j | 0 <= j < |db'.propagations| ensures PropagationOk(db', db'.propagations[j]) {
      if j < |db.propagations| {
        GrowsKeepsPropagation(db, db', db.propagations[j]);
      } else {
        assert SubscriberOk(db, k.pc.subs[0], k.op.resource);
      }
    }
  }

  lemma InvNext(s: State, a: Action)
    requires Inv(s)
    ensures Inv(Next(s, a)) && Grows(s.db, Next(s, a).db) && s.clock <= Next(s, a).clock
  {
    var s' := Next(s, a);
    if a.Proceed? && a.c in s.calls {
      StepGrows(s.db, s.clock, s.calls[a.c]);
      StepKeepsCall(s.db, s.clock, s.calls[a.c]);
      StepKeepsDb(s.db, s.clock, s.calls[a.c]);
    }
    forall c | c in s'.calls ensures CallOk(s'.db, s'.clock, s'.calls[c]) {
      if !(a.Proceed? && a.c == c) && c in s.calls {
        GrowsKeepsCall(s.db, s'.db, s.clock, s'.clock, s.calls[c]);
      }
    }
    forall j | 0 <= j < |s'.db.propagations| && !a.Proceed? ensures PropagationOk(s'.db, s'.db.propagations[j]) {
      GrowsKeepsPropagation(s.db, s'.db, s.db.propagations[j]);
    }
  }

  lemma {:induction false} InvAlong(run: Run, i: nat, j: nat)
    requires run.Valid() && i <= j < |run.states| && Inv(run.states[i])
    ensures Inv(run.states[j]) && Grows(run.states[i].db, run.states[j].db)
    ensures run.states[i].clock <= run.states[j].clock
    decreases j
  {
    if i < j {
      assert run.Follows(j - 1);
      InvAlong(run, i, j - 1);
      InvNext(run.states[j - 1], run.actions[j - 1]);
    }
  }

  /** A call that takes no step stays where it is. */
  lemma {:induction false} Waits(run: Run, i: nat, j: nat, c: nat)
    requires run.Valid() && i <= j < |run.states| && c in run.states[i].calls
    requires forall m :: i <= m < j ==> run.actions[m] != Proceed(c)
    ensures c in run.states[j].calls && run.states[j].calls[c] == run.states[i].calls[c]
    decreases j
  {
    if i < j {
      assert run.Follows(j - 1);
      Waits(run, i, j - 1, c);
    }
  }

  lemma InitialInv(s: State)
    requires Initial(s)
    ensures Inv(s)
  {
  }
}
