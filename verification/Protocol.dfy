/** Calls on the lock store as interleaved steps. Every SQL statement, and every
    reading of the clock, is one step of one call; between two steps of a call any
    other call may take steps. A call that never proceeds again has crashed. */
module Protocol {
  import opened Tables

  const MAX_ATTEMPTS := 3

  datatype Op =
    | Acquire(resource: Resource, who: Identity, note: string, strategy: string, lease: Int64)
    | Renew(resource: Resource, who: Identity)
    | Release(resource: Resource, who: Identity, note: string, force: bool)
    | Subscribe(resource: Resource, who: Identity, tag: string)
    | SetStatus(id: nat, status: Status)
    | Acknowledge(id: nat)

  datatype Refusal = BadResourceName | NegativeLease | UnknownStrategy

  /** What a call returns. */
  datatype Result =
    | Granted(row: Row)
    | Reacquired(row: Row)
    | Reclaimed(row: Row)
    | Denied(holder: Identity, since: Millis)
    | Contention
    | Refused(why: Refusal)
    | Renewed(row: Row)
    | NotLocked
    | HeldBy(holder: Identity)
    | NoLease
    | LeaseExpired
    | RenewLost
    | Released
    | AlreadyFree
    | ReleaseLost(now: Option<Identity>)
    | SubscribedAs(id: nat)
    | StatusSet
    | Acknowledged
    | NotFound
    | NoEvent

  /** Where a call stands, with the rows it has read so far. */
  datatype Pc =
    | Begin
    | AcquireClock
    | Insert(attempt: nat)
    | GrantEvent
    | Read(attempt: nat)
    | Refresh(seen: Row)
    | Takeover(attempt: nat, seen: Row)
    | TakeoverEvent(seen: Row)
    | DenyEvent(seen: Row)
    | RenewClock(seen: Row)
    | RenewWrite(seen: Row)
    | Delete(seen: Row)
    | ReleaseEvent(seen: Row)
    | Recheck
    | MatchInterests(own: nat, reply: Result)
    | MatchEvent(own: nat, subs: seq<Subscriber>, reply: Result)
    | MatchInsert(own: nat, event: nat, subs: seq<Subscriber>, reply: Result)
    | InterestInsert
    | AcknowledgeCheck
    | Done(result: Result)

  /** A call in flight: its arguments, the time it has sampled, and where it stands. */
  datatype RawCall = RawCall(op: Op, now: Option<Millis>, pc: Pc)

  predicate WellTyped(k: RawCall) {
    match k.pc
    case Begin => true
    case AcquireClock => k.op.Acquire?
    case Insert(_) => k.op.Acquire? && k.now.Some?
    case GrantEvent => k.op.Acquire? && k.now.Some?
    case Read(_) => k.op.Acquire? && k.now.Some?
    case Refresh(_) => k.op.Acquire? && k.now.Some?
    case Takeover(_, _) => k.op.Acquire? && k.now.Some?
    case TakeoverEvent(_) => k.op.Acquire? && k.now.Some?
    case DenyEvent(_) => k.op.Acquire? && k.now.Some?
    case RenewClock(_) => k.op.Renew?
    case RenewWrite(_) => k.op.Renew? && k.now.Some?
    case Delete(_) => k.op.Release?
    case ReleaseEvent(_) => k.op.Release?
    case Recheck => k.op.Release?
    case MatchInterests(_, _) => k.op.Acquire? || k.op.Release?
    case MatchEvent(_, _, _) => k.op.Acquire? || k.op.Release?
    case MatchInsert(_, _, _, _) => k.op.Acquire? || k.op.Release?
    case InterestInsert => k.op.Subscribe?
    case AcknowledgeCheck => k.op.Acknowledge?
    case Done(_) => true
  }

  type Call = k: RawCall | WellTyped(k) witness RawCall(Renew("", ""), None, Begin)

  /** The row an acquiring call writes into a free or reclaimed resource. */
  function NewRow(op: Op, now: Millis): Row
    requires op.Acquire?
  {
    Row(op.who, op.note, now, op.strategy, LeaseColumn(op.lease), RenewedColumn(op.lease, now))
  }

  /** What the UPDATE of a re-acquire leaves of `row`. */
  function Refreshed(row: Row, op: Op, now: Millis): Row
    requires op.Acquire?
  {
    row.(note := op.note, strategy := op.strategy,
    leaseSeconds := LeaseColumn(op.lease), renewedAt := RenewedColumn(op.lease, now))
  }

  function Put(db: Db, resource: Resource, row: Row): Db {
    db.(locks := db.locks[resource := row])
  }

  function Remove(db: Db, resource: Resource): Db {
    db.(locks := db.locks - {resource})
  }

  function Log(db: Db, e: Event): Db {
    db.(events := db.events + [e])
  }

  function Goto(k: Call, pc: Pc): Call
    requires WellTyped(k.(pc := pc))
  {
    k.(pc := pc)
  }

  function Retry(k: Call, attempt: nat): Call
    requires k.op.Acquire? && k.now.Some?
  {
    if attempt + 1 < MAX_ATTEMPTS then Goto(k, Insert(attempt + 1)) else Goto(k, Done(Contention))
  }

  /** The first statement of a call, with the checks that come before it. */
  function StepBegin(db: Db, k: Call): (Db, Call)
    requires k.pc.Begin?
  {
    match k.op
    case Acquire(resource, who, note, strategy, lease) =>
      if !ValidResourceName(resource) then (db, Goto(k, Done(Refused(BadResourceName))))
      else if lease < 0 then (db, Goto(k, Done(Refused(NegativeLease))))
      else if strategy != "" && strategy !in db.strategies then (db, Goto(k, Done(Refused(UnknownStrategy))))
      else (db, Goto(k, AcquireClock))
    case Renew(resource, who) =>
      if resource !in db.locks then (db, Goto(k, Done(NotLocked)))
      else
        var seen := db.locks[resource];
        if seen.holder != who then (db, Goto(k, Done(HeldBy(seen.holder))))
        else if seen.leaseSeconds.None? || seen.leaseSeconds.value <= 0 then (db, Goto(k, Done(NoLease)))
        else (db, Goto(k, RenewClock(seen)))
    case Release(resource, who, note, force) =>
      if resource !in db.locks then (db, Goto(k, Done(NotLocked)))
      else
        var seen := db.locks[resource];
        if seen.holder != who && !force then (db, Goto(k, Done(HeldBy(seen.holder))))
        else (db, Goto(k, Delete(seen)))
    case Subscribe(resource, who, tag) =>
      if !ValidResourceName(resource) then (db, Goto(k, Done(Refused(BadResourceName))))
      else
        var existing := FirstActive(db.interests, who, resource);
        if existing.Some? then (db, Goto(k, Done(SubscribedAs(existing.value))))
        else (db, Goto(k, InterestInsert))
    case SetStatus(id, status) =>
      if id < |db.interests| then
        (db.(interests := db.interests[id := db.interests[id].(status := status)]), Goto(k, Done(StatusSet)))
      else (db, Goto(k, Done(NotFound)))
    case Acknowledge(id) =>
      if id < |db.propagations| && !db.propagations[id].acknowledged then
        (db.(propagations := db.propagations[id := db.propagations[id].(acknowledged := true)]),
         Goto(k, Done(Acknowledged)))
      else (db, Goto(k, AcknowledgeCheck))
  }

  function StepAcquire(db: Db, clock: Millis, k: Call): (Db, Call)
    requires k.op.Acquire? && !k.pc.Begin?
  {
    var op := k.op;
    match k.pc
    case AcquireClock => (db, RawCall(op, Some(clock), Insert(0)))
    case Insert(attempt) =>
      if op.resource in db.locks then (db, Goto(k, Read(attempt)))
      else (Put(db, op.resource, NewRow(op, k.now.value)), Goto(k, GrantEvent))
    case GrantEvent =>
      (Log(db, Event(op.resource, AcquiredEvent, op.who, op.who, op.note, op.strategy, false)),
       Goto(k, Done(Granted(NewRow(op, k.now.value)))))
    case Read(attempt) =>
      if op.resource !in db.locks then (db, Retry(k, attempt))
      else
        var seen := db.locks[op.resource];
        if seen.holder == op.who then (db, Goto(k, Refresh(seen)))
        else if Expired(seen, k.now.value) then (db, Goto(k, Takeover(attempt, seen)))
        else (db, Goto(k, DenyEvent(seen)))
    case Refresh(seen) =>
      var db' := if op.resource in db.locks
        then Put(db, op.resource, Refreshed(db.locks[op.resource], op, k.now.value)) else db;
      (db', Goto(k, Done(Reacquired(NewRow(op, k.now.value).(acquiredAt := seen.acquiredAt)))))
    case Takeover(attempt, seen) =>
      if && op.resource in db.locks
         && db.locks[op.resource].holder == seen.holder
         && Reclaimable(db.locks[op.resource], k.now.value)
      then (Put(db, op.resource, NewRow(op, k.now.value)), Goto(k, TakeoverEvent(seen)))
      else (db, Retry(k, attempt))
    case TakeoverEvent(seen) =>
      (Log(db, Event(op.resource, ReclaimedEvent, op.who, seen.holder, op.note, op.strategy, false)),
       Goto(k, MatchInterests(|db.events|, Reclaimed(NewRow(op, k.now.value)))))
    case DenyEvent(seen) =>
      (Log(db, Event(op.resource, DeniedEvent, op.who, seen.holder, op.note, seen.strategy, false)),
       Goto(k, MatchInterests(|db.events|, Denied(seen.holder, seen.acquiredAt))))
    case _ => StepMatch(db, k)
  }

  function StepRenew(db: Db, clock: Millis, k: Call): (Db, Call)
    requires k.op.Renew? && !k.pc.Begin?
  {
    var op := k.op;
    match k.pc
    case RenewClock(seen) =>
      if Expired(seen, clock) then (db, RawCall(op, Some(clock), Done(LeaseExpired)))
      else (db, RawCall(op, Some(clock), RenewWrite(seen)))
    case RenewWrite(seen) =>
      var now := k.now.value;
      if && op.resource in db.locks
         && db.locks[op.resource].holder == op.who
         && Renewable(db.locks[op.resource], now)
      then
        (Put(db, op.resource, db.locks[op.resource].(renewedAt := Some(now))),
         Goto(k, Done(Renewed(seen.(renewedAt := Some(now))))))
      else (db, Goto(k, Done(RenewLost)))
    case Done(_) => (db, k)
  }

  function StepRelease(db: Db, k: Call): (Db, Call)
    requires k.op.Release? && !k.pc.Begin?
  {
    var op := k.op;
    match k.pc
    case Delete(seen) =>
      if op.resource in db.locks && (op.force || db.locks[op.resource].holder == op.who) then
        (Remove(db, op.resource), Goto(k, ReleaseEvent(seen)))
      else if op.force then (db, Goto(k, Done(AlreadyFree)))
      else (db, Goto(k, Recheck))
    case Recheck => (db, Goto(k, Done(ReleaseLost(HolderAt(db, op.resource)))))
    case ReleaseEvent(seen) =>
      (Log(db, Event(op.resource, ReleasedEvent, op.who, seen.holder, op.note, seen.strategy, seen.holder != op.who)),
       Goto(k, MatchInterests(|db.events|, Released)))
    case _ => StepMatch(db, k)
  }

  /** Matching the newest event on the resource against its active interests. */
  function StepMatch(db: Db, k: Call): (Db, Call)
    requires k.op.Acquire? || k.op.Release?
  {
    match k.pc
    case MatchInterests(own, reply) =>
      var subs := ActiveOn(db.interests, k.op.resource);
      if subs == [] then (db, Goto(k, Done(reply))) else (db, Goto(k, MatchEvent(own, subs, reply)))
    case MatchEvent(own, subs, reply) =>
      var last := LastEvent(db.events, k.op.resource);
      if last.None? then (db, Goto(k, Done(NoEvent))) else (db, Goto(k, MatchInsert(own, last.value, subs, reply)))
    case MatchInsert(own, event, subs, reply) =>
      if subs == [] then (db, Goto(k, Done(reply)))
      else
        (db.(propagations := db.propagations + [Propagation(subs[0].interest, event, subs[0].who, false)]),
         Goto(k, if |subs| == 1 then Done(reply) else MatchInsert(own, event, subs[1..], reply)))
    case _ => (db, k)
  }

  /** The next step of one call. */
  function StepCall(db: Db, clock: Millis, k: Call): (Db, Call) {
    if k.pc.Begin? then StepBegin(db, k)
    else
      match k.op
      case Acquire(_, _, _, _, _) => StepAcquire(db, clock, k)
      case Renew(_, _) => StepRenew(db, clock, k)
      case Release(_, _, _, _) => StepRelease(db, k)
      case Subscribe(resource, who, tag) =>
        if k.pc.InterestInsert? then
          (db.(interests := db.interests + [Interest(who, resource, Active, tag)]),
           Goto(k, Done(SubscribedAs(|db.interests|))))
        else (db, k)
      case SetStatus(_, _) => (db, k)
      case Acknowledge(id) =>
        if k.pc.AcknowledgeCheck? then
          (db, Goto(k, Done(if id < |db.propagations| then Acknowledged else NotFound)))
        else (db, k)
  }

  datatype State = State(db: Db, clock: Millis, calls: map<nat, Call>)

  datatype Action =
    | Tick(to: Millis)
    | Invoke(c: nat, op: Op)
    | Proceed(c: nat)
    | AddStrategy(id: string)

  /** One step of the whole system; an action that is not possible changes nothing. */
  function Next(s: State, a: Action): State {
    match a
    case Tick(to) => if s.clock <= to then s.(clock := to) else s
    case Invoke(c, op) =>
      if c in s.calls then s else s.(calls := s.calls[c := RawCall(op, None, Begin)])
    case Proceed(c) =>
      if c !in s.calls then s
      else
        var (db, k) := StepCall(s.db, s.clock, s.calls[c]);
        State(db, s.clock, s.calls[c := k])
    case AddStrategy(id) => s.(db := s.db.(strategies := s.db.strategies + {id}))
  }

  predicate Initial(s: State) {
    s.db == EMPTY_DB && s.calls == map[]
  }

  /** A run: the states it passes through and the actions between them. */
  datatype Run = Run(states: seq<State>, actions: seq<Action>) {
    ghost predicate Valid() {
      && |states| == |actions| + 1
      && forall i :: 0 <= i < |actions| ==> Follows(i)
    }

    predicate Follows(i: nat)
      requires i < |actions| && |states| == |actions| + 1
    {
      states[i + 1] == Next(states[i], actions[i])
    }

    function Last(): State
      requires |states| > 0
    {
      states[|states| - 1]
    }
  }
}
