/** What the log tells of the locks when calls interleave. A change of a row and its event are two
    statements, so events may be logged in another order than the changes they tell of. */
module LogOrder {
  import opened Tables
  import opened Protocol
  import opened Invariant
  import opened Conservation
  import opened History

  /** The call has changed the holder of `resource` and not yet logged it. */
  predicate Owes(k: Call, resource: Resource) {
    HasChanged(k) && k.op.resource == resource
  }

  predicate HasChanged(k: Call) {
    k.pc.GrantEvent? || k.pc.TakeoverEvent? || k.pc.ReleaseEvent?
  }

  function Owing(s: State, resource: Resource): set<nat> {
    set c | c in s.calls && Owes(s.calls[c], resource)
  }

  /** The holder that the event owed will tell of. */
  function ToTell(k: Call): Option<Identity>
    requires HasChanged(k)
  {
    if k.pc.ReleaseEvent? then None else Some(k.op.who)
  }

  /** The holder of `resource` that a log tells of. */
  function HolderTold(events: seq<Event>, resource: Resource): Option<Identity> {
    var holders := Replay(events);
    if resource in holders then Some(holders[resource]) else None
  }

  /** The log tells who holds `resource`. */
  predicate Tells(s: State, resource: Resource) {
    HolderTold(s.db.events, resource) == HolderAt(s.db, resource)
  }

  lemma ToldSnoc(events: seq<Event>, e: Event, resource: Resource)
    ensures HolderTold(events + [e], resource) ==
      if e.resource != resource || e.kind.DeniedEvent? then HolderTold(events, resource)
      else if e.kind.ReleasedEvent? then None else Some(e.who)
  {
    assert (events + [e])[..|events|] == events;
  }

  /** A step of a call that owes an event for `resource` logs it, and then the log tells of that change;
      any other step leaves what the log tells of `resource`. */
  lemma StepTells(db: Db, clock: Millis, k: Call, resource: Resource)
    ensures HolderTold(StepCall(db, clock, k).0.events, resource) ==
      if Owes(k, resource) then ToTell(k) else HolderTold(db.events, resource)
  {
    StepEvents(db, clock, k);
    if ToLog(k) == [] {
      assert db.events + ToLog(k) == db.events;
    } else {
      ToldSnoc(db.events, ToLog(k)[0], resource);
    }
  }

  /** A call comes to owe an event exactly by changing the holder, and the event will tell the new one;
      logging it leaves the locks alone. */
  predicate ComesToOwe(db: Db, db': Db, k: Call, k': Call, resource: Resource) {
    && k'.op == k.op
    && (Owes(k', resource) <==> HolderAt(db', resource) != HolderAt(db, resource))
    && (Owes(k', resource) ==> ToTell(k') == HolderAt(db', resource) && !Owes(k, resource))
    && (Owes(k, resource) ==> db'.locks == db.locks)
  }

  lemma AcquireComesToOwe(db: Db, clock: Millis, k: Call, resource: Resource)
    requires DbOk(db) && CallOk(db, clock, k) && k.op.Acquire?
    ensures ComesToOwe(db, StepCall(db, clock, k).0, k, StepCall(db, clock, k).1, resource)
  {
  }

  lemma StepComesToOwe(db: Db, clock: Millis, k: Call, resource: Resource)
    requires DbOk(db) && CallOk(db, clock, k)
    ensures ComesToOwe(db, StepCall(db, clock, k).0, k, StepCall(db, clock, k).1, resource)
  {
    if k.op.Acquire? {
      AcquireComesToOwe(db, clock, k, resource);
    }
  }

  // ---- Runs in which no change overtakes an event ----

  /** The step leaves the holder of `resource` as it is, or every earlier change has been logged. */
  ghost predicate Orderly(s: State, a: Action, resource: Resource) {
    HolderAt(Next(s, a).db, resource) != HolderAt(s.db, resource) ==> Owing(s, resource) == {}
  }

  /** The log, with the one event that may still be owed, tells who holds `resource`. */
  ghost predicate InOrder(s: State, resource: Resource) {
    && (Owing(s, resource) == {} ==> Tells(s, resource))
    && (forall c :: c in Owing(s, resource) ==>
          Owing(s, resource) == {c} && ToTell(s.calls[c]) == HolderAt(s.db, resource))
  }

  lemma InOrderNext(s: State, a: Action, resource: Resource)
    requires Inv(s) && InOrder(s, resource) && Orderly(s, a, resource)
    ensures InOrder(Next(s, a), resource)
  {
    if a.Proceed? && a.c in s.calls {
      var k := s.calls[a.c];
      assert CallOk(s.db, s.clock, k);
      StepTells(s.db, s.clock, k, resource);
      StepComesToOwe(s.db, s.clock, k, resource);
      InOrderStep(s, a.c, Next(s, a).db, Next(s, a).calls[a.c], resource);
    } else {
      assert Owing(Next(s, a), resource) == Owing(s, resource);
    }
  }

  lemma InOrderStep(s: State, c: nat, db': Db, k': Call, resource: Resource)
    requires InOrder(s, resource) && c in s.calls
    requires HolderAt(db', resource) != HolderAt(s.db, resource) ==> Owing(s, resource) == {}
    requires HolderTold(db'.events, resource)
      == if Owes(s.calls[c], resource) then ToTell(s.calls[c]) else HolderTold(s.db.events, resource)
    requires Owes(k', resource) <==> HolderAt(db', resource) != HolderAt(s.db, resource)
    requires Owes(k', resource) ==> ToTell(k') == HolderAt(db', resource)
    ensures InOrder(State(db', s.clock, s.calls[c := k']), resource)
  {
    var s' := State(db', s.clock, s.calls[c := k']);
    assert Owes(s.calls[c], resource) <==> c in Owing(s, resource);
    assert Owing(s', resource) == if Owes(k', resource) then Owing(s, resource) + {c} else Owing(s, resource) - {c};
  }

  /** In every run in which no change of holder overtakes the logging of an earlier one, the log tells the
      holder at every moment, up to the one event that may still be owed; calls that crash before
      they log are included. */
  lemma {:induction false} OrderlyLogTells(run: Run, j: nat, resource: Resource)
    requires run.Valid() && j < |run.states| && Initial(run.states[0])
    requires forall m :: 0 <= m < j ==> Orderly(run.states[m], run.actions[m], resource)
    ensures InOrder(run.states[j], resource)
    decreases j
  {
    InitialInv(run.states[0]);
    if j == 0 {
      assert Owing(run.states[0], resource) == {};
    } else {
      assert run.Follows(j - 1);
      InvAlong(run, 0, j - 1);
      OrderlyLogTells(run, j - 1, resource);
      InOrderNext(run.states[j - 1], run.actions[j - 1], resource);
    }
  }

  // ---- What the calls that still owe events may make of the log ----

  /** The store after the calls of `order` have each taken a step, one after the other. */
  function Logged(s: State, order: seq<nat>): State {
    if order == [] then s else Next(Logged(s, order[..|order| - 1]), Proceed(order[|order| - 1]))
  }

  /** An order in which the calls that owe events for `resource` may log them. */
  ghost predicate IsOrder(s: State, order: seq<nat>, resource: Resource) {
    && (forall i, j :: 0 <= i < j < |order| ==> order[i] != order[j])
    && (forall c :: c in order <==> c in Owing(s, resource))
  }

  /** Whatever the order in which the calls log that owe events, the log then tells the holder. */
  ghost predicate SafelyLogged(s: State, resource: Resource) {
    forall order :: IsOrder(s, order, resource) ==> Tells(Logged(s, order), resource)
  }

  lemma {:induction false} LoggedOnly(s: State, order: seq<nat>, resource: Resource)
    requires forall i :: 0 <= i < |order| ==> order[i] in Owing(s, resource)
    requires forall i, j :: 0 <= i < j < |order| ==> order[i] != order[j]
    ensures var s' := Logged(s, order);
      && s'.db.locks == s.db.locks
      && (if order == [] then s' == s
          else
            && order[|order| - 1] in Owing(s, resource)
            && HolderTold(s'.db.events, resource) == ToTell(s.calls[order[|order| - 1]]))
      && forall c :: c in s.calls && c !in order ==> c in s'.calls && s'.calls[c] == s.calls[c]
    decreases |order|
  {
    if order != [] {
      var n := |order| - 1;
      LoggedOnly(s, order[..n], resource);
      assert order[n] !in order[..n];
      LogsNext(s, Logged(s, order[..n]), order[n], resource);
    }
  }

  lemma LogsNext(s: State, t: State, c: nat, resource: Resource)
    requires c in Owing(s, resource) && c in t.calls && t.calls[c] == s.calls[c]
    ensures var s' := Next(t, Proceed(c));
      && s'.db.locks == t.db.locks
      && HolderTold(s'.db.events, resource) == ToTell(s.calls[c])
      && forall d :: d in t.calls && d != c ==> d in s'.calls && s'.calls[d] == t.calls[d]
  {
    StepTells(t.db, t.clock, t.calls[c], resource);
  }

  lemma {:induction false} AnOrder(calls: set<nat>) returns (order: seq<nat>)
    ensures forall i, j :: 0 <= i < j < |order| ==> order[i] != order[j]
    ensures forall c :: c in order <==> c in calls
    decreases calls
  {
    order := [];
    if calls != {} {
      var c :| c in calls;
      order := AnOrder(calls - {c});
      order := order + [c];
    }
  }

  /** Exactly when the log is bound to come out right: if nothing is owed it must tell the holder now,
      and otherwise each event owed must tell of the holder there is, since any may be logged last. */
  lemma SafelyLoggedIff(s: State, resource: Resource)
    ensures SafelyLogged(s, resource) <==>
      if Owing(s, resource) == {} then Tells(s, resource)
      else forall c :: c in Owing(s, resource) ==> ToTell(s.calls[c]) == HolderAt(s.db, resource)
  {
    forall order | IsOrder(s, order, resource)
      ensures if order == [] then Owing(s, resource) == {} && Logged(s, order) == s
              else order[|order| - 1] in Owing(s, resource)
                   && HolderTold(Logged(s, order).db.events, resource) == ToTell(s.calls[order[|order| - 1]])
                   && HolderAt(Logged(s, order).db, resource) == HolderAt(s.db, resource)
    {
      OrderEnds(s, order, resource);
      LoggedOnly(s, order, resource);
    }
    if Owing(s, resource) == {} {
      assert IsOrder(s, [], resource);
    } else {
      forall c | c in Owing(s, resource) && SafelyLogged(s, resource)
        ensures ToTell(s.calls[c]) == HolderAt(s.db, resource)
      {
        var order := AnOrder(Owing(s, resource) - {c});
        assert IsOrder(s, order + [c], resource);
      }
    }
  }

  lemma OrderEnds(s: State, order: seq<nat>, resource: Resource)
    requires IsOrder(s, order, resource)
    ensures if order == [] then Owing(s, resource) == {} else order[|order| - 1] in Owing(s, resource)
  {
    assert order == [] ==> forall c :: c in Owing(s, resource) ==> c in order;
    assert order != [] ==> order[|order| - 1] in order;
  }

  /** While the log is in order, a change of holder leaves it bound to come out right if and only if it
      overtakes no event: the condition of the runs above cannot be dispensed with at any step. */
  lemma OvertakingIsUnsafe(s: State, a: Action, resource: Resource)
    requires Inv(s) && InOrder(s, resource)
    requires HolderAt(Next(s, a).db, resource) != HolderAt(s.db, resource)
    ensures SafelyLogged(Next(s, a), resource) <==> Owing(s, resource) == {}
  {
    var s' := Next(s, a);
    SafelyLoggedIff(s', resource);
    StepComesToOwe(s.db, s.clock, s.calls[a.c], resource);
    assert a.c in Owing(s', resource);
    if Owing(s, resource) == {} {
      InOrderNext(s, a, resource);
    } else {
      var c :| c in Owing(s, resource);
      assert c in Owing(s', resource) && ToTell(s'.calls[c]) == HolderAt(s.db, resource);
    }
  }

  // ---- What a release logs ----

  /** The delete of a release removes a row; the event that the call then owes. */
  predicate Removes(db: Db, k: Call) {
    k.pc.Delete? && k.op.resource in db.locks && (k.op.force || db.locks[k.op.resource].holder == k.op.who)
  }

  /** The event of a release names the holder removed if and only if the release is not forced or nobody
      has taken over since it read the row; and it is marked as forced, just when it took another's
      hold, if and only if the release is not forced or the holder read and the one removed
      are alike in being the caller or not. */
  lemma ReleaseNamesHolder(db: Db, clock: Millis, k: Call)
    requires CallOk(db, clock, k) && Removes(db, k)
    ensures var k' := StepCall(db, clock, k).1;
      && k'.pc.ReleaseEvent? && |ToLog(k')| == 1
      && var e, removed := ToLog(k')[0], db.locks[k.op.resource].holder;
         && (e.holder == removed <==> !k.op.force || removed == k.pc.seen.holder)
         && ((e.forced <==> removed != e.who)
             <==> !k.op.force || (removed == k.op.who <==> k.pc.seen.holder == k.op.who))
  {
  }

  /** The same in a run, of the event as it is logged: the call deletes at step `i` and logs at step `j`. */
  lemma LoggedReleaseNamesHolder(run: Run, i: nat, j: nat, c: nat)
    requires run.Valid() && i < j < |run.actions| && Inv(run.states[i])
    requires run.actions[i] == Proceed(c) == run.actions[j]
    requires c in run.states[i].calls && Removes(run.states[i].db, run.states[i].calls[c])
    requires forall m :: i < m < j ==> run.actions[m] != Proceed(c)
    ensures var k, before, after := run.states[i].calls[c], run.states[j].db.events, run.states[j + 1].db.events;
      && |after| == |before| + 1
      && after[|before|].kind.ReleasedEvent? && after[|before|].resource == k.op.resource
      && after[|before|].who == k.op.who
      && (Some(after[|before|].holder) == HolderAt(run.states[i].db, k.op.resource)
          <==> !k.op.force || HolderAt(run.states[i].db, k.op.resource) == Some(k.pc.seen.holder))
      && ((after[|before|].forced <==> HolderAt(run.states[i].db, k.op.resource) != Some(k.op.who))
          <==> !k.op.force
               || (HolderAt(run.states[i].db, k.op.resource) == Some(k.op.who) <==> k.pc.seen.holder == k.op.who))
  {
    assert run.Follows(i) && run.Follows(j);
    var s, t := run.states[i], run.states[j];
    assert CallOk(s.db, s.clock, s.calls[c]);
    ReleaseNamesHolder(s.db, s.clock, s.calls[c]);
    Waits(run, i + 1, j, c);
    StepEvents(t.db, t.clock, t.calls[c]);
  }
}
