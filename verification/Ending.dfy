/** Every call ends within a bounded number of its own steps, whatever the others do. */
module Ending {
  import opened Tables
  import opened Protocol
  import opened Invariant

  /** At most how many steps a call has still to take, if it notifies at most `n` subscribers. */
  function Rank(k: Call, n: nat): int {
    match k.pc
    case Done(_) => 0
    case MatchInsert(_, _, subs, _) => |subs|
    case MatchEvent(_, subs, _) => |subs| + 1
    case MatchInterests(_, _) => n + 2
    case GrantEvent => 1
    case TakeoverEvent(_) => n + 3
    case DenyEvent(_) => n + 3
    case ReleaseEvent(_) => n + 3
    case Recheck => 1
    case Delete(_) => n + 4
    case Refresh(_) => 1
    case Takeover(attempt, _) => n + 4 + 3 * (MAX_ATTEMPTS - 1 - attempt)
    case Read(attempt) => n + 5 + 3 * (MAX_ATTEMPTS - 1 - attempt)
    case Insert(attempt) => n + 6 + 3 * (MAX_ATTEMPTS - 1 - attempt)
    case AcquireClock => n + 13
    case RenewWrite(_) => 1
    case RenewClock(_) => 2
    case InterestInsert => 1
    case AcknowledgeCheck => 1
    case Begin => n + 14
  }

  lemma {:induction false} FewSubscribers(interests: seq<Interest>, resource: Resource)
    ensures |ActiveOn(interests, resource)| <= |interests|
    decreases |interests|
  {
    if interests != [] {
      FewSubscribers(interests[..|interests| - 1], resource);
    }
  }

  lemma MatchDescends(db: Db, clock: Millis, k: Call, n: nat)
    requires CallOk(db, clock, k) && Matching(k) && |db.interests| <= n
    ensures 0 <= Rank(StepCall(db, clock, k).1, n) < Rank(k, n)
  {
    assert StepCall(db, clock, k) == StepMatch(db, k);
    match k.pc
    case MatchInterests(_, _) => FewSubscribers(db.interests, k.op.resource);
    case MatchEvent(_, subs, _) => assert Rank(StepMatch(db, k).1, n) in {0, |subs|};
    case MatchInsert(_, _, subs, _) => assert Rank(StepMatch(db, k).1, n) == |subs| - 1;
  }

  lemma AcquireDescends(db: Db, clock: Millis, k: Call, n: nat)
    requires CallOk(db, clock, k) && k.op.Acquire? && !Matching(k) && !k.pc.Done?
    ensures 0 <= Rank(StepCall(db, clock, k).1, n) < Rank(k, n)
  {
  }

  lemma OtherDescends(db: Db, clock: Millis, k: Call, n: nat)
    requires CallOk(db, clock, k) && !k.op.Acquire? && !Matching(k) && !k.pc.Done?
    ensures 0 <= Rank(StepCall(db, clock, k).1, n) < Rank(k, n)
  {
  }

  /** Each own step of a call that has not ended brings it nearer to its end. */
  lemma StepDescends(db: Db, clock: Millis, k: Call, n: nat)
    requires CallOk(db, clock, k) && !k.pc.Done? && |db.interests| <= n
    ensures 0 <= Rank(StepCall(db, clock, k).1, n) < Rank(k, n)
  {
    if Matching(k) {
      MatchDescends(db, clock, k, n);
    } else if k.op.Acquire? {
      AcquireDescends(db, clock, k, n);
    } else {
      OtherDescends(db, clock, k, n);
    }
  }

  /** How many of the steps from `i` to `j` are taken by call `c`. */
  function OwnSteps(run: Run, i: nat, j: nat, c: nat): nat
    requires i <= j <= |run.actions|
    decreases j
  {
    if i == j then 0 else OwnSteps(run, i, j - 1, c) + if run.actions[j - 1] == Proceed(c) then 1 else 0
  }

  lemma {:induction false} DescendsAlong(run: Run, i: nat, j: nat, c: nat, n: nat)
    requires run.Valid() && i <= j < |run.states| && Inv(run.states[i]) && c in run.states[i].calls
    requires |run.states[j].db.interests| <= n && 0 <= Rank(run.states[i].calls[c], n)
    ensures c in run.states[j].calls && 0 <= Rank(run.states[j].calls[c], n)
    ensures run.states[j].calls[c].pc.Done?
      || OwnSteps(run, i, j, c) + Rank(run.states[j].calls[c], n) <= Rank(run.states[i].calls[c], n)
    decreases j
  {
    if i < j {
      InvAlong(run, i, j - 1);
      InvAlong(run, j - 1, j);
      DescendsAlong(run, i, j - 1, c, n);
      DescendsNext(run, j - 1, c, n);
    }
  }

  lemma DescendsNext(run: Run, j: nat, c: nat, n: nat)
    requires run.Valid() && j < |run.actions| && Inv(run.states[j]) && c in run.states[j].calls
    requires |run.states[j].db.interests| <= n && 0 <= Rank(run.states[j].calls[c], n)
    ensures c in run.states[j + 1].calls
    ensures var before, after := Rank(run.states[j].calls[c], n), Rank(run.states[j + 1].calls[c], n);
      && 0 <= after
      && (run.states[j].calls[c].pc.Done? ==> run.states[j + 1].calls[c].pc.Done?)
      && (!run.states[j].calls[c].pc.Done? ==> after <= before - if run.actions[j] == Proceed(c) then 1 else 0)
  {
    assert run.Follows(j);
    var s := run.states[j];
    if run.actions[j] == Proceed(c) {
      if !s.calls[c].pc.Done? {
        assert CallOk(s.db, s.clock, s.calls[c]);
        StepDescends(s.db, s.clock, s.calls[c], n);
      }
    } else {
      assert run.states[j + 1].calls[c] == s.calls[c];
    }
  }

  /** In every run, a call that has taken fourteen steps and one for each interest there is has ended,
      wherever the steps of others have come between. */
  lemma EveryCallEnds(run: Run, i: nat, j: nat, c: nat)
    requires run.Valid() && i <= j < |run.states| && Inv(run.states[i])
    requires c in run.states[i].calls && run.states[i].calls[c].pc.Begin?
    requires OwnSteps(run, i, j, c) >= |run.states[j].db.interests| + 14
    ensures c in run.states[j].calls && run.states[j].calls[c].pc.Done?
  {
    var n := |run.states[j].db.interests|;
    DescendsAlong(run, i, j, c, n);
    InvAlong(run, i, j);
    assert CallOk(run.states[j].db, run.states[j].clock, run.states[j].calls[c]);
    if !run.states[j].calls[c].pc.Done? {
      NotDoneMeansPositive(run.states[j].db, run.states[j].clock, run.states[j].calls[c], n);
    }
  }

  lemma NotDoneMeansPositive(db: Db, clock: Millis, k: Call, n: nat)
    requires CallOk(db, clock, k) && !k.pc.Done?
    ensures Rank(k, n) > 0
  {
  }
}
