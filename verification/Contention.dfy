/** Every retry of an acquire is paid for by a write of another call. */
module Contention {
  import opened Tables
  import opened Protocol
  import opened Invariant

  /** The step from state `m` writes the lock of `resource` and belongs to another call than `c`. */
  predicate ForeignWrite(run: Run, m: nat, resource: Resource, c: nat)
    requires |run.states| == |run.actions| + 1 && m < |run.actions|
  {
    && run.actions[m].Proceed? && run.actions[m].c != c
    && RowAt(run.states[m].db, resource) != RowAt(run.states[m + 1].db, resource)
  }

  /** How many steps from `i` to `j` are foreign writes. */
  function ForeignWrites(run: Run, i: nat, j: nat, resource: Resource, c: nat): nat
    requires |run.states| == |run.actions| + 1 && i <= j <= |run.actions|
    decreases j
  {
    if i == j then 0
    else ForeignWrites(run, i, j - 1, resource, c) + if ForeignWrite(run, j - 1, resource, c) then 1 else 0
  }

  predicate LeaseInRange(row: Row) {
    row.leaseSeconds.Some? ==> row.leaseSeconds.value <= MAX_LEASE
  }

  /** All leases that are stored or asked for fit 64-bit milliseconds. */
  predicate LeasesInRange(s: State) {
    && (forall r :: r in s.db.locks ==> LeaseInRange(s.db.locks[r]))
    && (forall c :: c in s.calls && s.calls[c].op.Acquire? ==> s.calls[c].op.lease <= MAX_LEASE)
  }

  /** No acquire invoked between `i` and `j` asks for a longer lease. */
  predicate AsksInRange(run: Run, i: nat, j: nat)
    requires j <= |run.actions|
  {
    forall m :: i <= m < j && run.actions[m].Invoke? ==> run.actions[m].op.Acquire? ==> run.actions[m].op.lease <= MAX_LEASE
  }

  lemma LeasesStayInRange(s: State, a: Action)
    requires LeasesInRange(s) && (a.Invoke? && a.op.Acquire? ==> a.op.lease <= MAX_LEASE)
    ensures LeasesInRange(Next(s, a))
  {
  }

  /** What a call that has made `attempt` retries since state `i` has seen of others by state `j`. */
  predicate Charged(s: State, k: Call, writes: nat)
    requires k.op.Acquire?
  {
    var row := RowAt(s.db, k.op.resource);
    match k.pc
    case Insert(attempt) => writes >= attempt
    case Read(attempt) => writes >= attempt + if row.Some? then 0 else 1
    case Takeover(attempt, seen) =>
      Reclaimable(seen, k.now.value) && writes >= attempt + if row == Some(seen) then 0 else 1
    case Done(result) => result.Contention? ==> writes >= MAX_ATTEMPTS
    case Begin => false
    case AcquireClock => false
    case _ => true
  }

  lemma ChargedOwnStep(s: State, c: nat, writes: nat)
    requires Inv(s) && LeasesInRange(s) && c in s.calls && s.calls[c].op.Acquire?
    requires Charged(s, s.calls[c], writes)
    ensures var s' := Next(s, Proceed(c));
      s'.calls[c].op == s.calls[c].op && Charged(s', s'.calls[c], writes)
  {
    var k := s.calls[c];
    assert CallOk(s.db, s.clock, k);
    if k.pc.Read? && k.op.resource in s.db.locks {
      var seen := s.db.locks[k.op.resource];
      if Expired(seen, k.now.value) {
        ExpiryTestsAgree(seen, k.now.value);
      }
    }
  }

  lemma ChargedForeignStep(s: State, a: Action, c: nat, writes: nat)
    requires c in s.calls && s.calls[c].op.Acquire? && a != Proceed(c)
    requires Charged(s, s.calls[c], writes)
    ensures var s' := Next(s, a);
      var row, row' := RowAt(s.db, s.calls[c].op.resource), RowAt(s'.db, s.calls[c].op.resource);
      && c in s'.calls && s'.calls[c] == s.calls[c]
      && Charged(s', s'.calls[c], writes + if row == row' then 0 else 1)
      && (row != row' ==> a.Proceed?)
  {
  }

  lemma {:induction false} ChargedAlong(run: Run, i: nat, j: nat, c: nat)
    requires run.Valid() && i <= j < |run.states|
    requires Inv(run.states[i]) && LeasesInRange(run.states[i])
    requires AsksInRange(run, i, j)
    requires c in run.states[i].calls && run.states[i].calls[c].pc == Insert(0)
    ensures LeasesInRange(run.states[j])
    ensures c in run.states[j].calls && run.states[j].calls[c].op == run.states[i].calls[c].op
    ensures Charged(run.states[j], run.states[j].calls[c],
                    ForeignWrites(run, i, j, run.states[i].calls[c].op.resource, c))
    decreases j
  {
    if i < j {
      ChargedAlong(run, i, j - 1, c);
      InvAlong(run, i, j - 1);
      assert run.Follows(j - 1);
      var s, a := run.states[j - 1], run.actions[j - 1];
      LeasesStayInRange(s, a);
      var resource := run.states[i].calls[c].op.resource;
      if a == Proceed(c) {
        ChargedOwnStep(s, c, ForeignWrites(run, i, j - 1, resource, c));
      } else {
        ChargedForeignStep(s, a, c, ForeignWrites(run, i, j - 1, resource, c));
      }
    }
  }

  /** With all leases in range, an acquire that is at its n-th retry has seen at least n writes
      of other calls on its resource since it began, and one that gives up at least three. */
  lemma RetriesArePaidFor(run: Run, i: nat, j: nat, c: nat)
    requires run.Valid() && i <= j < |run.states|
    requires Inv(run.states[i]) && LeasesInRange(run.states[i])
    requires AsksInRange(run, i, j)
    requires c in run.states[i].calls && run.states[i].calls[c].pc == Insert(0)
    ensures c in run.states[j].calls
    ensures var pc, writes := run.states[j].calls[c].pc,
                              ForeignWrites(run, i, j, run.states[i].calls[c].op.resource, c);
      && (pc.Insert? ==> pc.attempt <= writes)
      && (pc == Done(Contention) ==> 3 <= writes)
  {
    ChargedAlong(run, i, j, c);
  }

  /** An acquire that nobody interferes with never retries. */
  lemma QuietAcquireNeverRetries(run: Run, i: nat, j: nat, c: nat)
    requires run.Valid() && i <= j < |run.states|
    requires Inv(run.states[i]) && LeasesInRange(run.states[i])
    requires AsksInRange(run, i, j)
    requires c in run.states[i].calls && run.states[i].calls[c].pc == Insert(0)
    requires forall m :: i <= m < j ==> !ForeignWrite(run, m, run.states[i].calls[c].op.resource, c)
    ensures c in run.states[j].calls
    ensures run.states[j].calls[c].pc.Insert? ==> run.states[j].calls[c].pc.attempt == 0
    ensures run.states[j].calls[c].pc != Done(Contention)
  {
    ChargedAlong(run, i, j, c);
    NoForeignWrites(run, i, j, run.states[i].calls[c].op.resource, c);
  }

  lemma {:induction false} NoForeignWrites(run: Run, i: nat, j: nat, resource: Resource, c: nat)
    requires |run.states| == |run.actions| + 1 && i <= j <= |run.actions|
    requires forall m :: i <= m < j ==> !ForeignWrite(run, m, resource, c)
    ensures ForeignWrites(run, i, j, resource, c) == 0
    decreases j
  {
    if i < j {
      NoForeignWrites(run, i, j - 1, resource, c);
    }
  }
}
