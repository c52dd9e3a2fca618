/** Notifications reach the right subscribers with an event of the right resource. */
module Delivery {
  import opened Tables
  import opened Protocol
  import opened Invariant

  /** The step from state `m` is an insert of propagation number `j` by a call that has recorded
      event `own` for its own denial, release or reclaim of the same resource. */
  ghost predicate InsertedAt(run: Run, m: nat, j: nat, own: nat)
    requires run.Valid()
  {
    && m < |run.actions| && run.actions[m].Proceed?
    && var s, c := run.states[m], run.actions[m].c;
       && c in s.calls && s.calls[c].pc.MatchInsert? && s.calls[c].pc.own == own
       && |s.db.propagations| == j < |run.states[m + 1].db.propagations|
       && own < |s.db.events| && OwnEvent(s.db.events[own], s.calls[c].op, s.calls[c].pc.reply)
  }

  /** What a propagation says, apart from its acknowledgement. */
  function Content(p: Propagation): Propagation {
    p.(acknowledged := false)
  }

  /** A propagation number `j` in the state at `i`: it was inserted on behalf of some event `own` of
      the same resource, and the event it shows is `own` or a later one. */
  ghost predicate Caused(run: Run, i: nat, j: nat, m: nat, own: nat)
    requires run.Valid() && i < |run.states| && j < |run.states[i].db.propagations|
  {
    && m < i && InsertedAt(run, m, j, own)
    && var db := run.states[i].db; var p := db.propagations[j];
       && own <= p.event < |db.events|
       && db.events[own].resource == db.events[p.event].resource
       && !db.events[own].kind.AcquiredEvent?
  }

  /** A step keeps what propagations say, and adds one only as an insert. */
  lemma StepInserts(run: Run, m: nat)
    requires run.Valid() && m < |run.actions| && Inv(run.states[m])
    ensures var ps, ps' := run.states[m].db.propagations, run.states[m + 1].db.propagations;
      && |ps| <= |ps'| <= |ps| + 1
      && (forall j :: 0 <= j < |ps| ==> Content(ps'[j]) == Content(ps[j]))
      && (|ps| < |ps'| ==> exists own :: InsertedAt(run, m, |ps|, own) && Caused(run, m + 1, |ps|, m, own))
  {
    assert run.Follows(m);
    var s, a := run.states[m], run.actions[m];
    InvNext(s, a);
    if a.Proceed? && a.c in s.calls {
      var k := s.calls[a.c];
      StepPropagations(s.db, s.clock, k);
      assert CallOk(s.db, s.clock, k);
      if k.pc.MatchInsert? && k.pc.subs != [] {
        assert InsertedAt(run, m, |s.db.propagations|, k.pc.own);
        assert Caused(run, m + 1, |s.db.propagations|, m, k.pc.own);
      }
    }
  }

  /** In every run, every propagation joins an existing interest of its identity with an existing
      event of the interest's resource; and it was inserted for a denial, release or reclaim of
      that resource, whose own event is that event or an earlier one. */
  lemma {:induction false} PropagationsAreCaused(run: Run, i: nat, j: nat)
    requires run.Valid() && Initial(run.states[0]) && i < |run.states|
    requires j < |run.states[i].db.propagations|
    ensures PropagationOk(run.states[i].db, run.states[i].db.propagations[j])
    ensures exists m, own :: Caused(run, i, j, m, own)
  {
    InitialInv(run.states[0]);
    InvAlong(run, 0, i);
    assert i > 0;
    InvAlong(run, 0, i - 1);
    StepInserts(run, i - 1);
    if j < |run.states[i - 1].db.propagations| {
      PropagationsAreCaused(run, i - 1, j);
      var m, own :| Caused(run, i - 1, j, m, own);
      InvAlong(run, i - 1, i);
      assert Caused(run, i, j, m, own);
    }
  }

  /** The event a call attaches is its own exactly when nobody has logged another event on the
      resource since. */
  lemma AttachesOwnEvent(db: Db, clock: Millis, k: Call)
    requires CallOk(db, clock, k) && k.pc.MatchEvent?
    ensures var k' := StepCall(db, clock, k).1;
      k'.pc.MatchInsert? &&
      (k'.pc.event == k.pc.own <==>
         forall e :: k.pc.own < e < |db.events| ==> db.events[e].resource != k.op.resource)
  {
    assert db.events[k.pc.own].resource == k.op.resource;
  }
}
