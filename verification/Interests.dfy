/** How many active interests an identity has on a resource when calls interleave. A creation looks for
    an active interest and inserts one in two statements. */
module Interests {
  import opened Tables
  import opened Protocol
  import opened Calls
  import opened History

  predicate ForPair(x: Interest, who: Identity, resource: Resource) {
    x.who == who && x.resource == resource
  }

  /** The call is about to insert an interest of the pair. */
  predicate Pending(k: Call, who: Identity, resource: Resource) {
    k.pc.InterestInsert? && k.op.who == who && k.op.resource == resource
  }

  /** The call's next step wakes a paused interest of the pair. */
  predicate Wakes(db: Db, k: Call, who: Identity, resource: Resource) {
    && k.op.SetStatus? && k.pc.Begin? && k.op.status == Active
    && k.op.id < |db.interests| && ForPair(db.interests[k.op.id], who, resource)
    && db.interests[k.op.id].status == Paused
  }

  /** The call's next step pauses an active interest of the pair. */
  predicate Pauses(db: Db, k: Call, who: Identity, resource: Resource) {
    && k.op.SetStatus? && k.pc.Begin? && k.op.status == Paused
    && k.op.id < |db.interests| && ForPair(db.interests[k.op.id], who, resource)
    && db.interests[k.op.id].status == Active
  }

  /** A step adds an active interest to the pair exactly by inserting or waking one, and takes one away
      exactly by pausing it. */
  lemma StepActives(db: Db, clock: Millis, k: Call, who: Identity, resource: Resource)
    ensures Actives(StepCall(db, clock, k).0.interests, who, resource)
         == Actives(db.interests, who, resource)
            + (if Pending(k, who, resource) || Wakes(db, k, who, resource) then 1 else 0)
            - (if Pauses(db, k, who, resource) then 1 else 0)
  {
    if k.pc.InterestInsert? {
      ActivesSnoc(db.interests, Interest(k.op.who, k.op.resource, Active, k.op.tag), who, resource);
    } else if k.pc.Begin? && k.op.SetStatus? && k.op.id < |db.interests| {
      ActivesSet(db.interests, k.op.id, db.interests[k.op.id].(status := k.op.status), who, resource);
    }
  }

  /** Creating looks again: a call comes to be pending on the pair only where there is no active interest. */
  lemma PendingMeansNone(db: Db, clock: Millis, k: Call, who: Identity, resource: Resource)
    requires Pending(StepCall(db, clock, k).1, who, resource)
    ensures k.op.Subscribe? && k.pc.Begin?
    ensures Actives(db.interests, who, resource) == 0 && StepCall(db, clock, k).0 == db
  {
    NoActives(db.interests, who, resource);
  }

  /** An insert leaves the pair with more than one active interest if and only if it had one by then. */
  lemma InsertDoubles(db: Db, clock: Millis, k: Call)
    requires k.pc.InterestInsert?
    ensures var after := Actives(StepCall(db, clock, k).0.interests, k.op.who, k.op.resource);
      && (after > 1 <==> FirstActive(db.interests, k.op.who, k.op.resource).Some?)
      && after >= 1
  {
    StepActives(db, clock, k, k.op.who, k.op.resource);
    NoActives(db.interests, k.op.who, k.op.resource);
  }

  function PendingOn(s: State, who: Identity, resource: Resource): set<nat> {
    set c | c in s.calls && Pending(s.calls[c], who, resource)
  }

  /** No step wakes a paused interest of the pair. */
  predicate LeavesAsleep(s: State, a: Action, who: Identity, resource: Resource) {
    a.Proceed? && a.c in s.calls ==> !Wakes(s.db, s.calls[a.c], who, resource)
  }

  /** At most one creation of the pair stands between its look and its insert. */
  predicate OneAtATime(s: State, who: Identity, resource: Resource) {
    forall c, d :: c in PendingOn(s, who, resource) && d in PendingOn(s, who, resource) ==> c == d
  }

  /** The pair has at most one active interest, and none while a creation is about to insert one. */
  predicate AtMostOne(s: State, who: Identity, resource: Resource) {
    && Actives(s.db.interests, who, resource) <= 1
    && (PendingOn(s, who, resource) != {} ==> Actives(s.db.interests, who, resource) == 0)
  }

  lemma AtMostOneNext(s: State, a: Action, who: Identity, resource: Resource)
    requires AtMostOne(s, who, resource) && OneAtATime(s, who, resource)
    requires LeavesAsleep(s, a, who, resource)
    ensures AtMostOne(Next(s, a), who, resource)
  {
    var s' := Next(s, a);
    if a.Proceed? && a.c in s.calls {
      var k := s.calls[a.c];
      StepActives(s.db, s.clock, k, who, resource);
      assert Pending(k, who, resource) ==> a.c in PendingOn(s, who, resource);
      if c :| c in PendingOn(s', who, resource) {
        if c == a.c {
          PendingMeansNone(s.db, s.clock, k, who, resource);
        } else {
          assert c in PendingOn(s, who, resource);
        }
      }
    } else if c :| c in PendingOn(s', who, resource) {
      assert c in PendingOn(s, who, resource);
    }
  }

  /** In every run in which nothing paused is woken and no two creations of a pair stand between look and
      insert at once, the pair never has more than one active interest. */
  lemma {:induction false} OneActiveAlong(run: Run, j: nat, who: Identity, resource: Resource)
    requires run.Valid() && j < |run.states| && Initial(run.states[0])
    requires forall m :: 0 <= m < j ==>
      OneAtATime(run.states[m], who, resource) && LeavesAsleep(run.states[m], run.actions[m], who, resource)
    ensures AtMostOne(run.states[j], who, resource)
  {
    if j == 0 {
      assert PendingOn(run.states[0], who, resource) == {};
    } else {
      assert run.Follows(j - 1);
      OneActiveAlong(run, j - 1, who, resource);
      AtMostOneNext(run.states[j - 1], run.actions[j - 1], who, resource);
    }
  }

  /** Neither condition can be spared. Two creations that stand between look and insert at once need only
      take their next steps for the pair to have two active interests more than it had. */
  lemma TwoPendingBothInsert(s: State, c: nat, d: nat, who: Identity, resource: Resource)
    requires c in PendingOn(s, who, resource) && d in PendingOn(s, who, resource) && c != d
    ensures Actives(Next(Next(s, Proceed(c)), Proceed(d)).db.interests, who, resource)
         == Actives(s.db.interests, who, resource) + 2
  {
    var t := Next(s, Proceed(c));
    StepActives(s.db, s.clock, s.calls[c], who, resource);
    StepActives(t.db, t.clock, t.calls[d], who, resource);
  }

  /** A step takes a pair beyond one active interest exactly when it had one already and the step inserts
      or wakes another. */
  lemma StepDoubles(db: Db, clock: Millis, k: Call, who: Identity, resource: Resource)
    ensures var before, after := Actives(db.interests, who, resource),
                                 Actives(StepCall(db, clock, k).0.interests, who, resource);
      (after > 1 && after > before) <==>
        FirstActive(db.interests, who, resource).Some? && (Pending(k, who, resource) || Wakes(db, k, who, resource))
  {
    StepActives(db, clock, k, who, resource);
    NoActives(db.interests, who, resource);
  }

  /** Creating again, whatever the tag, gives back the same interest and changes nothing, for as long as
      nothing else is done about interests in between. */
  lemma CreatingAgainChangesNothing(db: Db, who: Identity, resource: Resource, tag: string, tag': string)
    ensures var (db', result) := SubscribeAlone(db, Subscribe(resource, who, tag));
      && SubscribeAlone(db', Subscribe(resource, who, tag')) == (db', result)
      && (result.SubscribedAs? <==> ValidResourceName(resource))
      && (result.SubscribedAs? ==>
            && Subscribed(db'.interests, result.id, resource) && db'.interests[result.id].who == who
            && db.interests <= db'.interests
            && (db'.interests == db.interests <==> FirstActive(db.interests, who, resource).Some?))
  {
    var x := Interest(who, resource, Active, tag);
    assert (db.interests + [x])[..|db.interests|] == db.interests;
  }
}
