/** Why a call has answered what it has, in any run: what it met, and what it left, at its own steps. */
module Reasons {
  import opened Tables
  import opened Protocol
  import opened Invariant
  import opened Outcomes
  import opened Atomic

  /** What a call has met at its steps: the store when it first looked, and when it last read its row; the time
      that it read; the store before and after it last wrote its row, or tried to; the store before and after the
      step that settled its answer, and whether that was in the third attempt. */
  datatype Ledger = Ledger(
    first: Db, read: Db, clock: Option<Millis>, met: Db, left: Db, last: Db, end: Db, third: bool)

  const NO_LEDGER := Ledger(EMPTY_DB, EMPTY_DB, None, EMPTY_DB, EMPTY_DB, EMPTY_DB, EMPTY_DB, false)

  predicate Writes(pc: Pc) {
    pc.Insert? || pc.Refresh? || pc.Takeover? || pc.RenewWrite? || pc.Delete?
  }

  predicate Rests(pc: Pc) {
    pc.MatchInterests? || pc.MatchEvent? || pc.MatchInsert? || pc.Done?
  }

  /** The ledger after a step at `pc`. */
  function Noted(l: Ledger, db: Db, db': Db, clock: Millis, pc: Pc): Ledger {
    Ledger(if pc.Begin? then db else l.first,
           if pc.Begin? || pc.Read? then db else l.read,
           if pc.AcquireClock? || pc.RenewClock? then Some(clock) else l.clock,
           if Writes(pc) then db else l.met,
           if Writes(pc) then db' else l.left,
           if Rests(pc) then l.last else db,
           if Rests(pc) then l.end else db',
           if Rests(pc) then l.third else (pc.Read? && pc.attempt == 2) || (pc.Takeover? && pc.attempt == 2))
  }

  function LedgerOf(run: Run, j: nat, c: nat): Ledger
    requires j < |run.states| == |run.actions| + 1
  {
    if j == 0 then NO_LEDGER
    else
      var l, s := LedgerOf(run, j - 1, c), run.states[j - 1];
      if run.actions[j - 1] != Proceed(c) || c !in s.calls then l
      else Noted(l, s.db, run.states[j].db, s.clock, s.calls[c].pc)
  }

  /** The row of the caller with a lease that has not run out. */
  predicate RunsFor(row: Option<Row>, who: Identity, now: Millis) {
    && row.Some? && row.value.holder == who
    && row.value.leaseSeconds.Some? && row.value.renewedAt.Some?
    && now - row.value.renewedAt.value < 1000 * row.value.leaseSeconds.value
  }

  /** A free resource has got the row that was asked for. */
  predicate Inserted(l: Ledger, op: Op, now: Millis)
    requires op.Acquire?
  {
    && RowAt(l.met, op.resource) == None
    && RowAt(l.left, op.resource).Some? && AsAsked(RowAt(l.left, op.resource).value, op, now, now)
  }

  /** The row of `from`, whose lease had run out, has become the one that was asked for. */
  predicate TookOver(l: Ledger, op: Op, now: Millis, from: Identity)
    requires op.Acquire?
  {
    && from != op.who && HolderAt(l.met, op.resource) == Some(from) && RunOut(RowAt(l.met, op.resource).value, now)
    && RowAt(l.left, op.resource).Some? && AsAsked(RowAt(l.left, op.resource).value, op, now, now)
  }

  /** The UPDATE of a re-acquire has written what was asked over whatever row it met, and left its holder and beginning. */
  predicate Overwritten(row: Option<Row>, row': Option<Row>, op: Op, now: Millis)
    requires op.Acquire?
  {
    if row.None? then row'.None?
    else row'.Some? && AsAsked(row'.value.(holder := op.who), op, now, row.value.acquiredAt) && row'.value.holder == row.value.holder
  }

  /** What an acquire's answers mean. */
  predicate AcquireMeans(l: Ledger, op: Op, result: Result)
    requires op.Acquire?
  {
    match result
    case Refused(why) =>
      (match why
       case BadResourceName => HasNewline(op.resource)
       case NegativeLease => !HasNewline(op.resource) && op.lease < 0
       case UnknownStrategy =>
         !HasNewline(op.resource) && op.lease >= 0 && op.strategy != "" && op.strategy !in l.first.strategies)
    case Granted(row) =>
      l.clock.Some? && Inserted(l, op, l.clock.value) && RowAt(l.left, op.resource) == Some(row)
    case Reacquired(row) =>
      && l.clock.Some? && HolderAt(l.read, op.resource) == Some(op.who)
      && AsAsked(row, op, l.clock.value, RowAt(l.read, op.resource).value.acquiredAt)
      && Overwritten(RowAt(l.met, op.resource), RowAt(l.left, op.resource), op, l.clock.value)
    case Reclaimed(row) =>
      && l.clock.Some? && RowAt(l.met, op.resource).Some?
      && TookOver(l, op, l.clock.value, RowAt(l.met, op.resource).value.holder) && RowAt(l.left, op.resource) == Some(row)
    case Denied(holder, since) =>
      && l.clock.Some? && holder != op.who && HolderAt(l.read, op.resource) == Some(holder)
      && RowAt(l.read, op.resource).value.acquiredAt == since
      && !Expired(RowAt(l.read, op.resource).value, l.clock.value)
    case Contention => l.clock.Some? && l.third
    case _ => false
  }

  /** What a renewal's answers mean: the row it first reads, then its lease by the time it samples, and then the row
      that its UPDATE meets decide. */
  predicate RenewMeans(l: Ledger, op: Op, result: Result)
    requires op.Renew?
  {
    match RowAt(l.first, op.resource)
    case None => result == NotLocked
    case Some(seen) =>
      if seen.holder != op.who then result == HeldBy(seen.holder)
      else if seen.leaseSeconds.None? then result == NoLease
      else
        && l.clock.Some?
        && if Expired(seen, l.clock.value) then result == LeaseExpired
           else if RunsFor(RowAt(l.met, op.resource), op.who, l.clock.value) then
             && result.Renewed? && Restamped(seen, result.row, l.clock.value)
             && RowAt(l.left, op.resource).Some?
             && Restamped(RowAt(l.met, op.resource).value, RowAt(l.left, op.resource).value, l.clock.value)
           else result == RenewLost && l.left == l.met
  }

  /** What a release's answers mean: the row it first reads, and then the row that its DELETE meets decide. */
  predicate ReleaseMeans(l: Ledger, op: Op, result: Result)
    requires op.Release?
  {
    match RowAt(l.first, op.resource)
    case None => result == NotLocked
    case Some(seen) =>
      if seen.holder != op.who && !op.force then result == HeldBy(seen.holder)
      else
        match RowAt(l.met, op.resource)
        case None =>
          l.left == l.met && result == if op.force then AlreadyFree else ReleaseLost(HolderAt(l.last, op.resource))
        case Some(row) =>
          if op.force || row.holder == op.who then result == Released && RowAt(l.left, op.resource) == None
          else l.left == l.met && result == ReleaseLost(HolderAt(l.last, op.resource))
  }

  /** What the answers about interests and propagations mean. */
  predicate OtherMeans(l: Ledger, op: Op, result: Result)
    requires !op.Acquire? && !op.Renew? && !op.Release?
  {
    match op
    case Subscribe(resource, who, _) =>
      if HasNewline(resource) then result == Refused(BadResourceName)
      else result.SubscribedAs? && result.id < |l.end.interests| && IsActive(l.end.interests[result.id], who, resource)
    case SetStatus(id, status) =>
      if id < |l.last.interests| then
        && result == StatusSet
        && l.end.interests == l.last.interests[id := l.last.interests[id].(status := status)]
      else result == NotFound
    case Acknowledge(id) =>
      if id < |l.end.propagations| then
        result == Acknowledged && (id < |l.first.propagations| ==> l.end.propagations[id].acknowledged)
      else result == NotFound
  }

  /** What an answer says of what the call has met. */
  predicate Means(l: Ledger, op: Op, result: Result) {
    match op
    case Acquire(_, _, _, _, _) => AcquireMeans(l, op, result)
    case Renew(_, _) => RenewMeans(l, op, result)
    case Release(_, _, _, _) => ReleaseMeans(l, op, result)
    case _ => OtherMeans(l, op, result)
  }

  function Reply(k: Call): Result
    requires Matching(k)
  {
    match k.pc
    case MatchInterests(_, reply) => reply
    case MatchEvent(_, _, reply) => reply
    case MatchInsert(_, _, _, reply) => reply
  }

  predicate AcquireTale(l: Ledger, k: Call)
    requires k.op.Acquire?
  {
    match k.pc
    case Refresh(seen) => RowAt(l.read, k.op.resource) == Some(seen)
    case Takeover(_, seen) => RowAt(l.read, k.op.resource) == Some(seen)
    case DenyEvent(seen) => RowAt(l.read, k.op.resource) == Some(seen)
    case GrantEvent => Inserted(l, k.op, k.now.value)
    case TakeoverEvent(seen) => TookOver(l, k.op, k.now.value, seen.holder)
    case MatchInterests(_, reply) => AcquireMeans(l, k.op, reply)
    case MatchEvent(_, _, reply) => AcquireMeans(l, k.op, reply)
    case MatchInsert(_, _, _, reply) => AcquireMeans(l, k.op, reply)
    case Done(result) => AcquireMeans(l, k.op, result)
    case _ => true
  }

  predicate RenewTale(l: Ledger, k: Call)
    requires k.op.Renew?
  {
    match k.pc
    case RenewClock(seen) => RowAt(l.first, k.op.resource) == Some(seen) && seen.leaseSeconds.Some?
    case RenewWrite(seen) => RowAt(l.first, k.op.resource) == Some(seen) && seen.leaseSeconds.Some?
    case Done(result) => RenewMeans(l, k.op, result)
    case _ => true
  }

  predicate ReleaseTale(l: Ledger, k: Call)
    requires k.op.Release?
  {
    match k.pc
    case Delete(seen) => RowAt(l.first, k.op.resource) == Some(seen) && (k.op.force || seen.holder == k.op.who)
    case ReleaseEvent(seen) =>
      RowAt(l.first, k.op.resource) == Some(seen) && ReleaseMeans(l, k.op, Released)
    case Recheck =>
      && !k.op.force && HolderAt(l.first, k.op.resource) == Some(k.op.who) && l.left == l.met
      && HolderAt(l.met, k.op.resource) != Some(k.op.who)
    case MatchInterests(_, reply) => reply == Released && ReleaseMeans(l, k.op, Released)
    case MatchEvent(_, _, reply) => reply == Released && ReleaseMeans(l, k.op, Released)
    case MatchInsert(_, _, _, reply) => reply == Released && ReleaseMeans(l, k.op, Released)
    case Done(result) => ReleaseMeans(l, k.op, result)
    case _ => true
  }

  predicate Marked(db: Db, id: nat) {
    id < |db.propagations| && db.propagations[id].acknowledged
  }

  predicate OtherTale(l: Ledger, k: Call)
    requires !k.op.Acquire? && !k.op.Renew? && !k.op.Release?
  {
    match k.pc
    case InterestInsert => !HasNewline(k.op.resource)
    case AcknowledgeCheck => k.op.id < |l.first.propagations| ==> Marked(l.first, k.op.id)
    case Done(result) => OtherMeans(l, k.op, result)
    case _ => true
  }

  /** What call `k` has met so far. */
  predicate Story(l: Ledger, k: Call) {
    && (k.now.Some? ==> l.clock == k.now)
    && match k.op
       case Acquire(_, _, _, _, _) => AcquireTale(l, k)
       case Renew(_, _) => RenewTale(l, k)
       case Release(_, _, _, _) => ReleaseTale(l, k)
       case _ => OtherTale(l, k)
  }

  /** The story after the next step of the call. */
  predicate GoesOn(db: Db, clock: Millis, l: Ledger, k: Call) {
    var (db', k') := StepCall(db, clock, k);
    Story(Noted(l, db, db', clock, k.pc), k')
  }

  lemma BeginLockStory(db: Db, clock: Millis, l: Ledger, k: Call)
    requires k.pc.Begin? && k.now.None? && (k.op.Renew? || k.op.Release?)
    requires k.op.resource in db.locks ==> RowOk(db.locks[k.op.resource])
    ensures GoesOn(db, clock, l, k)
  {
  }

  lemma BeginAcquireStory(db: Db, clock: Millis, l: Ledger, k: Call)
    requires k.pc.Begin? && k.now.None? && k.op.Acquire?
    ensures GoesOn(db, clock, l, k)
  {
    NewlinesAreInvalid(k.op.resource);
  }

  lemma BeginStory(db: Db, clock: Millis, l: Ledger, k: Call)
    requires k.pc.Begin? && k.now.None? && !k.op.Renew? && !k.op.Release?
    ensures GoesOn(db, clock, l, k)
  {
    if k.op.Acquire? {
      BeginAcquireStory(db, clock, l, k);
    } else if k.op.Subscribe? {
      NewlinesAreInvalid(k.op.resource);
    }
  }

  lemma ClaimStory(db: Db, clock: Millis, l: Ledger, k: Call)
    requires DbOk(db) && CallOk(db, clock, k) && (k.pc.AcquireClock? || k.pc.Insert? || k.pc.GrantEvent? || k.pc.Read?)
    requires Story(l, k)
    ensures GoesOn(db, clock, l, k)
  {
  }

  lemma TakeStory(db: Db, clock: Millis, l: Ledger, k: Call)
    requires DbOk(db) && CallOk(db, clock, k) && (k.pc.Refresh? || k.pc.Takeover?)
    requires Story(l, k)
    ensures GoesOn(db, clock, l, k)
  {
  }

  lemma LogStory(db: Db, clock: Millis, l: Ledger, k: Call)
    requires CallOk(db, clock, k) && (k.pc.TakeoverEvent? || k.pc.DenyEvent?)
    requires Story(l, k)
    ensures GoesOn(db, clock, l, k)
  {
  }

  lemma MatchLeadsOn(db: Db, clock: Millis, k: Call)
    requires CallOk(db, clock, k) && Matching(k)
    ensures var k' := StepCall(db, clock, k).1;
      && k'.op == k.op && k'.now == k.now
      && ((Matching(k') && Reply(k') == Reply(k)) || k'.pc == Done(Reply(k)))
  {
    if k.pc.MatchEvent? {
      assert db.events[k.pc.own].resource == k.op.resource;
    }
  }

  lemma MatchStory(db: Db, clock: Millis, l: Ledger, k: Call)
    requires CallOk(db, clock, k) && Matching(k) && Story(l, k)
    ensures GoesOn(db, clock, l, k)
  {
    MatchLeadsOn(db, clock, k);
    var (db', k') := StepCall(db, clock, k);
    assert Noted(l, db, db', clock, k.pc) == l;
    if k.op.Acquire? {
      assert AcquireMeans(l, k.op, Reply(k));
    }
  }

  lemma RenewStory(db: Db, clock: Millis, l: Ledger, k: Call)
    requires CallOk(db, clock, k) && k.op.Renew? && !k.pc.Begin? && Story(l, k)
    ensures GoesOn(db, clock, l, k)
  {
  }

  lemma ReleaseStory(db: Db, clock: Millis, l: Ledger, k: Call)
    requires CallOk(db, clock, k) && k.op.Release? && !k.pc.Begin? && !Matching(k) && Story(l, k)
    ensures GoesOn(db, clock, l, k)
  {
  }

  lemma OtherStory(db: Db, clock: Millis, l: Ledger, k: Call)
    requires !k.op.Acquire? && !k.op.Renew? && !k.op.Release? && !k.pc.Begin? && Story(l, k)
    requires k.pc.AcknowledgeCheck? && Marked(l.first, k.op.id) ==> Marked(db, k.op.id)
    ensures GoesOn(db, clock, l, k)
  {
  }

  lemma ActiveStory(db: Db, clock: Millis, l: Ledger, k: Call)
    requires DbOk(db) && CallOk(db, clock, k) && k.op.Acquire? && !k.pc.Begin? && !Matching(k) && !k.pc.Done?
    requires Story(l, k)
    ensures GoesOn(db, clock, l, k)
  {
    if k.pc.Refresh? || k.pc.Takeover? {
      TakeStory(db, clock, l, k);
    } else if k.pc.TakeoverEvent? || k.pc.DenyEvent? {
      LogStory(db, clock, l, k);
    } else {
      ClaimStory(db, clock, l, k);
    }
  }

  lemma BegunStory(db: Db, clock: Millis, l: Ledger, k: Call)
    requires DbOk(db) && CallOk(db, clock, k) && !k.pc.Begin? && !k.pc.Done? && Story(l, k)
    requires k.pc.AcknowledgeCheck? && Marked(l.first, k.op.id) ==> Marked(db, k.op.id)
    ensures GoesOn(db, clock, l, k)
  {
    if Matching(k) {
      MatchStory(db, clock, l, k);
    } else if k.op.Acquire? {
      ActiveStory(db, clock, l, k);
    } else if k.op.Renew? {
      RenewStory(db, clock, l, k);
    } else if k.op.Release? {
      ReleaseStory(db, clock, l, k);
    } else {
      OtherStory(db, clock, l, k);
    }
  }

  lemma OwnStory(db: Db, clock: Millis, l: Ledger, k: Call)
    requires DbOk(db) && CallOk(db, clock, k) && Story(l, k)
    requires k.pc.AcknowledgeCheck? && Marked(l.first, k.op.id) ==> Marked(db, k.op.id)
    ensures GoesOn(db, clock, l, k)
  {
    if k.pc.Done? {
      assert StepCall(db, clock, k) == (db, k);
      assert Noted(l, db, db, clock, k.pc) == l;
    } else if !k.pc.Begin? {
      BegunStory(db, clock, l, k);
    } else if k.op.Renew? || k.op.Release? {
      BeginLockStory(db, clock, l, k);
    } else {
      BeginStory(db, clock, l, k);
    }
  }

  // ---- Acknowledgements ----

  lemma StepMarks(db: Db, clock: Millis, k: Call, id: nat)
    ensures Marked(StepCall(db, clock, k).0, id) <==>
      Marked(db, id) || (k.op == Acknowledge(id) && k.pc.Begin? && id < |db.propagations|)
  {
    StepPropagations(db, clock, k);
  }

  /** The first step of an acknowledgement of propagation `id`. */
  predicate Acknowledges(run: Run, m: nat, id: nat)
    requires |run.states| == |run.actions| + 1
  {
    && m < |run.actions| && run.actions[m].Proceed? && run.actions[m].c in run.states[m].calls
    && run.states[m].calls[run.actions[m].c].op == Acknowledge(id) && run.states[m].calls[run.actions[m].c].pc.Begin?
    && id < |run.states[m].db.propagations|
  }

  /** In every run a propagation once acknowledged stays so, and it is acknowledged just from an acknowledgement
      of it on. */
  lemma {:induction false} MarksStay(run: Run, i: nat, j: nat, id: nat)
    requires run.Valid() && i <= j < |run.states|
    ensures Marked(run.states[j].db, id) <==>
      Marked(run.states[i].db, id) || exists m :: i <= m < j && Acknowledges(run, m, id)
    decreases j
  {
    if i < j {
      MarksStay(run, i, j - 1, id);
      assert run.Follows(j - 1);
      var s, a := run.states[j - 1], run.actions[j - 1];
      if a.Proceed? && a.c in s.calls {
        StepMarks(s.db, s.clock, s.calls[a.c], id);
      }
      assert Marked(run.states[j].db, id) <==> Marked(s.db, id) || Acknowledges(run, j - 1, id);
    }
  }

  // ---- Along runs ----

  /** Step `m`, before state `j`, is the first of call `c`. */
  predicate BeginsAt(run: Run, m: nat, j: nat, c: nat)
    requires j < |run.states| == |run.actions| + 1
  {
    m < j && run.actions[m] == Proceed(c) && c in run.states[m].calls && run.states[m].calls[c].pc.Begin?
  }

  lemma OtherStep(s: State, a: Action, c: nat)
    requires a == Proceed(c) ==> c !in s.calls
    ensures var s' := Next(s, a);
      && (c in s.calls ==> c in s'.calls && s'.calls[c] == s.calls[c])
      && (c !in s.calls && c in s'.calls ==> s'.calls[c].pc.Begin? && s'.calls[c].now.None?)
  {
  }

  lemma LeavesBegin(db: Db, clock: Millis, k: Call)
    ensures !StepCall(db, clock, k).1.pc.Begin? && StepCall(db, clock, k).1.op == k.op
  {
  }

  /** A call that has begun has one first step, and its ledger holds the store that it then looked at. */
  lemma {:induction false} FirstLook(run: Run, j: nat, c: nat) returns (m: nat)
    requires run.Valid() && Initial(run.states[0]) && j < |run.states|
    requires c in run.states[j].calls && !run.states[j].calls[c].pc.Begin?
    ensures BeginsAt(run, m, j, c) && LedgerOf(run, j, c).first == run.states[m].db
    ensures run.states[m].calls[c].op == run.states[j].calls[c].op
  {
    var i := j - 1;
    assert run.Follows(i);
    var s := run.states[i];
    if run.actions[i] == Proceed(c) && c in s.calls {
      LeavesBegin(s.db, s.clock, s.calls[c]);
    } else {
      OtherStep(s, run.actions[i], c);
    }
    if run.actions[i] == Proceed(c) && s.calls[c].pc.Begin? {
      m := i;
    } else {
      m := FirstLook(run, i, c);
    }
  }

  lemma {:induction false} StoryAlong(run: Run, j: nat, c: nat)
    requires run.Valid() && Initial(run.states[0]) && j < |run.states|
    requires c in run.states[j].calls
    ensures Story(LedgerOf(run, j, c), run.states[j].calls[c])
  {
    if j > 0 {
      var i := j - 1;
      assert run.Follows(i);
      if run.actions[i] == Proceed(c) && c in run.states[i].calls {
        StoryAlong(run, i, c);
        StoryGoesOn(run, i, c);
      } else {
        OtherStep(run.states[i], run.actions[i], c);
        if c in run.states[i].calls {
          StoryAlong(run, i, c);
        }
      }
    }
  }

  lemma StoryGoesOn(run: Run, j: nat, c: nat)
    requires run.Valid() && Initial(run.states[0]) && j < |run.actions|
    requires run.actions[j] == Proceed(c) && c in run.states[j].calls
    requires Story(LedgerOf(run, j, c), run.states[j].calls[c])
    ensures c in run.states[j + 1].calls && Story(LedgerOf(run, j + 1, c), run.states[j + 1].calls[c])
  {
    InitialInv(run.states[0]);
    InvAlong(run, 0, j);
    assert run.Follows(j);
    var s := run.states[j];
    var k := s.calls[c];
    assert CallOk(s.db, s.clock, k);
    if k.pc.AcknowledgeCheck? {
      var m := FirstLook(run, j, c);
      MarksStay(run, m, j, k.op.id);
    }
    OwnStory(s.db, s.clock, LedgerOf(run, j, c), k);
  }

  /** In every run, what a call has answered is what the rows that it met at its own steps demand, by the time that
      it read from the clock on its way. */
  lemma AnswersMean(run: Run, j: nat, c: nat)
    requires run.Valid() && Initial(run.states[0]) && j < |run.states|
    requires c in run.states[j].calls && run.states[j].calls[c].pc.Done?
    ensures var k := run.states[j].calls[c]; Means(LedgerOf(run, j, c), k.op, k.pc.result)
  {
    StoryAlong(run, j, c);
  }

  /** What an event says is what its call has asked for and has met. */
  predicate EventMeans(l: Ledger, k: Call, e: Event) {
    && (k.op.Acquire? || k.op.Release?)
    && e.resource == k.op.resource && e.who == k.op.who && e.note == k.op.note
    && match e.kind
       case AcquiredEvent =>
         && k.op.Acquire? && k.now.Some? && e.holder == k.op.who && e.strategy == k.op.strategy && !e.forced
         && Inserted(l, k.op, k.now.value)
       case ReclaimedEvent =>
         && k.op.Acquire? && k.now.Some? && e.strategy == k.op.strategy && !e.forced
         && TookOver(l, k.op, k.now.value, e.holder)
       case DeniedEvent =>
         && k.op.Acquire? && e.holder != k.op.who && !e.forced
         && HolderAt(l.read, k.op.resource) == Some(e.holder) && RowAt(l.read, k.op.resource).value.strategy == e.strategy
       case ReleasedEvent =>
         && k.op.Release? && HolderAt(l.first, k.op.resource) == Some(e.holder)
         && RowAt(l.first, k.op.resource).value.strategy == e.strategy && (e.forced <==> e.holder != k.op.who)
         && RowAt(l.met, k.op.resource).Some? && RowAt(l.left, k.op.resource) == None
  }

  lemma LoggedMeans(db: Db, clock: Millis, l: Ledger, k: Call)
    requires CallOk(db, clock, k) && Story(l, k)
    ensures var events := StepCall(db, clock, k).0.events;
      events == db.events || (|events| == |db.events| + 1 && EventMeans(l, k, events[|db.events|]))
  {
  }

  /** In every run, every event in the log has been logged at some step by a call whose words and meeting it tells. */
  lemma {:induction false} EventsMean(run: Run, j: nat, e: nat) returns (m: nat)
    requires run.Valid() && Initial(run.states[0]) && j < |run.states| && e < |run.states[j].db.events|
    ensures m < j && run.actions[m].Proceed? && run.actions[m].c in run.states[m].calls
    ensures |run.states[m].db.events| == e
    ensures EventMeans(LedgerOf(run, m, run.actions[m].c), run.states[m].calls[run.actions[m].c], run.states[j].db.events[e])
    decreases j
  {
    var i := j - 1;
    InitialInv(run.states[0]);
    InvAlong(run, 0, i);
    InvAlong(run, i, j);
    var s := run.states[i];
    if e < |s.db.events| {
      m := EventsMean(run, i, e);
    } else {
      m := i;
      EventIsNew(run, i, e);
    }
  }

  lemma EventIsNew(run: Run, m: nat, e: nat)
    requires run.Valid() && Initial(run.states[0]) && m < |run.actions| && Inv(run.states[m])
    requires |run.states[m].db.events| <= e < |run.states[m + 1].db.events|
    ensures run.actions[m].Proceed? && run.actions[m].c in run.states[m].calls && |run.states[m].db.events| == e
    ensures EventMeans(LedgerOf(run, m, run.actions[m].c), run.states[m].calls[run.actions[m].c], run.states[m + 1].db.events[e])
  {
    assert run.Follows(m);
    var s, a := run.states[m], run.actions[m];
    if a.Proceed? && a.c in s.calls {
      StoryAlong(run, m, a.c);
      LoggedMeans(s.db, s.clock, LedgerOf(run, m, a.c), s.calls[a.c]);
    }
  }

  /** Every step of a run that soundly gives a hold leaves a row that is as was asked, field by field, and that may be
      reclaimed exactly from the end of the lease asked for on. */
  lemma GivenAsAsked(run: Run, m: nat, resource: Resource, who: Identity)
    requires run.Valid() && m < |run.actions| && Inv(run.states[m]) && GivesHold(run, m, resource, who)
    ensures var k := run.states[m].calls[run.actions[m].c];
      && k.op.Acquire? && k.now.Some?
      && RowAt(run.states[m + 1].db, resource).Some?
      && var row := RowAt(run.states[m + 1].db, resource).value;
         && AsAsked(row, k.op, k.now.value, row.acquiredAt)
         && (if resource in run.states[m].db.locks && run.states[m].db.locks[resource].holder == who
             then row.acquiredAt == run.states[m].db.locks[resource].acquiredAt else row.acquiredAt == k.now.value)
         && forall t: Millis :: Reclaimable(row, t) <==> k.op.lease > 0 && t - k.now.value >= 1000 * k.op.lease
  {
    assert run.Follows(m);
    var s := run.states[m];
    var k := s.calls[run.actions[m].c];
    assert CallOk(s.db, s.clock, k);
    LeavesAsAsked(s.db, s.clock, k);
  }

  lemma LeavesAsAsked(db: Db, clock: Millis, k: Call)
    requires DbOk(db) && CallOk(db, clock, k) && k.op.Acquire? && Decided(k).None? && RefreshIsSound(db, k)
    requires Reported(StepCall(db, clock, k).1).Some?
    ensures var after := RowAt(StepCall(db, clock, k).0, k.op.resource);
      && k.now.Some? && after.Some?
      && AsAsked(after.value, k.op, k.now.value,
                 if HolderAt(db, k.op.resource) == Some(k.op.who) then RowAt(db, k.op.resource).value.acquiredAt
                 else k.now.value)
  {
  }

  /** Which renewals and releases fail at once, and how, is decided exactly by the row that the call first reads. */
  lemma FirstReadDecides(run: Run, j: nat, c: nat)
    requires run.Valid() && Initial(run.states[0]) && j < |run.states|
    requires c in run.states[j].calls && run.states[j].calls[c].pc.Done?
    requires run.states[j].calls[c].op.Renew? || run.states[j].calls[c].op.Release?
    ensures exists m: nat :: (
      BeginsAt(run, m, j, c)
      && FailsAtOnce(run.states[m].db, run.states[j].calls[c].op, run.states[j].calls[c].pc.result))
  {
    var m := FirstLook(run, j, c);
    AnswersMean(run, j, c);
    assert FailsAtOnce(run.states[m].db, run.states[j].calls[c].op, run.states[j].calls[c].pc.result);
  }

  predicate FailsAtOnce(db: Db, op: Op, result: Result)
    requires op.Renew? || op.Release?
  {
    var row := RowAt(db, op.resource);
    && (result == NotLocked <==> row == None)
    && (result.HeldBy? <==> row.Some? && row.value.holder != op.who && (op.Release? ==> !op.force))
    && (result.HeldBy? ==> result.holder == row.value.holder)
    && (result == NoLease <==> op.Renew? && row.Some? && row.value.holder == op.who && row.value.leaseSeconds == None)
  }
}
