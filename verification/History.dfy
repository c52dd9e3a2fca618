/** Histories of whole calls made one after another: what the log, the notifications and
    the interests then amount to. */
module History {
  import opened Tables
  import opened Protocol
  import opened Calls
  import opened Alone

  datatype Entry =
    | CallAt(op: Op, at: Millis)
    | StrategyMade(id: string)

  function Apply(db: Db, e: Entry): Db {
    match e
    case CallAt(op, at) => CallAlone(db, op, at).0
    case StrategyMade(id) => db.(strategies := db.strategies + {id})
  }

  /** The store after a history that begins with an empty one. */
  function After(h: seq<Entry>): Db {
    if h == [] then EMPTY_DB else Apply(After(h[..|h| - 1]), h[|h| - 1])
  }

  lemma AcquireKeepsRows(db: Db, op: Op, at: Millis)
    requires RowsOk(db) && op.Acquire?
    ensures RowsOk(AcquireAlone(db, op, at).0)
  {
  }

  lemma ApplyKeepsRows(db: Db, e: Entry)
    requires RowsOk(db)
    ensures RowsOk(Apply(db, e))
  {
    if e.CallAt? && e.op.Acquire? {
      AcquireKeepsRows(db, e.op, e.at);
    }
  }

  lemma {:induction false} RowsStayOk(h: seq<Entry>)
    ensures RowsOk(After(h))
  {
    if h != [] {
      RowsStayOk(h[..|h| - 1]);
      ApplyKeepsRows(After(h[..|h| - 1]), h[|h| - 1]);
    }
  }

  // ---- The log replayed ----

  /** What one event makes of the holders before it. */
  function ReplayOne(before: map<Resource, Identity>, e: Event): map<Resource, Identity> {
    match e.kind
    case AcquiredEvent => before[e.resource := e.who]
    case ReclaimedEvent => before[e.resource := e.who]
    case ReleasedEvent => before - {e.resource}
    case DeniedEvent => before
  }

  /** The holders that a log tells of. */
  function Replay(events: seq<Event>): map<Resource, Identity> {
    if events == [] then map[] else ReplayOne(Replay(events[..|events| - 1]), events[|events| - 1])
  }

  function Holders(locks: map<Resource, Row>): map<Resource, Identity> {
    map r | r in locks :: locks[r].holder
  }

  /** An event says of the resource what the log before it says. */
  predicate EventFits(before: map<Resource, Identity>, e: Event) {
    match e.kind
    case AcquiredEvent => e.resource !in before && e.holder == e.who && !e.forced
    case DeniedEvent => e.resource in before && before[e.resource] == e.holder != e.who && !e.forced
    case ReclaimedEvent => e.resource in before && before[e.resource] == e.holder != e.who && !e.forced
    case ReleasedEvent => e.resource in before && before[e.resource] == e.holder && (e.forced <==> e.holder != e.who)
  }

  ghost predicate LogFits(events: seq<Event>) {
    forall i :: 0 <= i < |events| ==> EventFits(Replay(events[..i]), events[i])
  }

  /** An event carries the strategy of the hold it tells of: the new one for a grant or a reclaim, the
      standing one for a denial or a release. */
  predicate StrategyFits(locks: map<Resource, Row>, locks': map<Resource, Row>, e: Event) {
    match e.kind
    case AcquiredEvent => e.resource in locks' && locks'[e.resource].strategy == e.strategy
    case ReclaimedEvent => e.resource in locks' && locks'[e.resource].strategy == e.strategy
    case DeniedEvent => e.resource in locks && locks[e.resource].strategy == e.strategy
    case ReleasedEvent => e.resource in locks && locks[e.resource].strategy == e.strategy
  }

  /** At most one event is logged. If none is, no holder changes; if one is, it says what the
      holders before it say, carries the strategy of its hold, and turns the holders into those after it. */
  predicate LogsItsEffect(db: Db, db': Db) {
    || (db'.events == db.events && Holders(db'.locks) == Holders(db.locks))
    || (&& |db'.events| == |db.events| + 1
        && var e := db'.events[|db.events|];
           && db'.events == db.events + [e]
           && EventFits(Holders(db.locks), e)
           && StrategyFits(db.locks, db'.locks, e)
           && Holders(db'.locks) == ReplayOne(Holders(db.locks), e))
  }

  lemma AcquireLogsItsEffect(db: Db, op: Op, at: Millis)
    requires RowsOk(db) && op.Acquire?
    ensures LogsItsEffect(db, AcquireAlone(db, op, at).0)
  {
    if op.resource in db.locks && Reclaimable(db.locks[op.resource], at) {
      ReclaimableReadsExpired(db.locks[op.resource], at);
    }
  }

  lemma CallLogsItsEffect(db: Db, op: Op, at: Millis)
    requires RowsOk(db)
    ensures LogsItsEffect(db, CallAlone(db, op, at).0)
  {
    if op.Acquire? {
      AcquireLogsItsEffect(db, op, at);
    }
  }

  lemma LogFitsSnoc(events: seq<Event>, e: Event)
    requires LogFits(events) && EventFits(Replay(events), e)
    ensures LogFits(events + [e])
  {
    forall i | 0 <= i < |events| + 1 ensures EventFits(Replay((events + [e])[..i]), (events + [e])[i]) {
      assert (events + [e])[..i] == events[..i];
      assert events[..|events|] == events;
    }
  }

  /** The log of a history replays to the holders of its locks, and each of its events tells the
      holder and the force that the replay up to it gives. */
  lemma {:induction false} LogReplaysToHolders(h: seq<Entry>)
    ensures Replay(After(h).events) == Holders(After(h).locks)
    ensures LogFits(After(h).events)
  {
    if h != [] {
      var init := h[..|h| - 1];
      var db, db' := After(init), After(h);
      LogReplaysToHolders(init);
      RowsStayOk(init);
      if h[|h| - 1].CallAt? {
        CallLogsItsEffect(db, h[|h| - 1].op, h[|h| - 1].at);
        if |db'.events| > |db.events| {
          var e := db'.events[|db.events|];
          assert db'.events == db.events + [e];
          assert db'.events[..|db'.events| - 1] == db.events;
          LogFitsSnoc(db.events, e);
        } else {
          assert db'.events == db.events;
        }
      }
    }
  }

  /** The strategies that a log tells of, for the holds that it tells of. */
  function ReplayStrategies(events: seq<Event>): map<Resource, string> {
    if events == [] then map[]
    else
      var before, e := ReplayStrategies(events[..|events| - 1]), events[|events| - 1];
      match e.kind
      case AcquiredEvent => before[e.resource := e.strategy]
      case ReclaimedEvent => before[e.resource := e.strategy]
      case ReleasedEvent => before - {e.resource}
      case DeniedEvent => before
  }

  function StrategyTold(events: seq<Event>, resource: Resource): Option<string> {
    var strategies := ReplayStrategies(events);
    if resource in strategies then Some(strategies[resource]) else None
  }

  function StrategyStored(db: Db, resource: Resource): Option<string> {
    if resource in db.locks then Some(db.locks[resource].strategy) else None
  }

  lemma StrategyToldSnoc(events: seq<Event>, e: Event, resource: Resource)
    ensures StrategyTold(events + [e], resource) ==
      if e.resource != resource || e.kind.DeniedEvent? then StrategyTold(events, resource)
      else if e.kind.ReleasedEvent? then None else Some(e.strategy)
  {
    assert (events + [e])[..|events|] == events;
  }

  predicate About(op: Op, resource: Resource) {
    (op.Acquire? || op.Release?) && op.resource == resource
  }

  /** What a whole call makes of the strategy of a hold on `resource`: the stored one follows claims, reclaims,
      re-acquires and releases; the log knows nothing of re-acquires. */
  predicate MovesStrategy(db: Db, db': Db, op: Op, result: Result, resource: Resource) {
    && StrategyStored(db', resource) ==
         (if About(op, resource) && op.Acquire? && (result.Granted? || result.Reclaimed? || result.Reacquired?)
          then Some(op.strategy)
          else if About(op, resource) && result.Released? then None else StrategyStored(db, resource))
    && StrategyTold(db'.events, resource) ==
         (if About(op, resource) && op.Acquire? && (result.Granted? || result.Reclaimed?) then Some(op.strategy)
          else if About(op, resource) && result.Released? then None else StrategyTold(db.events, resource))
  }

  lemma AcquireMovesStrategy(db: Db, op: Op, at: Millis, resource: Resource)
    requires op.Acquire?
    ensures MovesStrategy(db, AcquireAlone(db, op, at).0, op, AcquireAlone(db, op, at).1, resource)
  {
    var db' := AcquireAlone(db, op, at).0;
    if |db'.events| > |db.events| {
      var e := db'.events[|db.events|];
      assert db'.events == db.events + [e];
      StrategyToldSnoc(db.events, e, resource);
    } else {
      assert db'.events == db.events;
    }
  }

  lemma ReleaseMovesStrategy(db: Db, op: Op, resource: Resource)
    requires op.Release?
    ensures MovesStrategy(db, ReleaseAlone(db, op).0, op, ReleaseAlone(db, op).1, resource)
  {
    var db' := ReleaseAlone(db, op).0;
    if |db'.events| > |db.events| {
      var e := db'.events[|db.events|];
      assert db'.events == db.events + [e];
      StrategyToldSnoc(db.events, e, resource);
    }
  }

  lemma CallMovesStrategy(db: Db, op: Op, at: Millis, resource: Resource)
    ensures MovesStrategy(db, CallAlone(db, op, at).0, op, CallAlone(db, op, at).1, resource)
  {
    if op.Acquire? {
      AcquireMovesStrategy(db, op, at, resource);
    } else if op.Release? {
      ReleaseMovesStrategy(db, op, resource);
    }
  }

  /** The strategy that the holder of `resource` has given by re-acquiring it, last, since the hold began. */
  function LastRefresh(h: seq<Entry>, resource: Resource): Option<string> {
    if h == [] then None
    else
      var n := |h| - 1;
      var before := LastRefresh(h[..n], resource);
      if h[n].CallAt? && About(h[n].op, resource) then
        match CallAlone(After(h[..n]), h[n].op, h[n].at).1
        case Reacquired(_) => if h[n].op.Acquire? then Some(h[n].op.strategy) else before
        case Granted(_) => None
        case Reclaimed(_) => None
        case Released => None
        case _ => before
      else before
  }

  /** After any history the log tells of a strategy exactly for the resources held; and it is the stored one
      exactly if the holder has not re-acquired since the hold began, or has last done so with that strategy. */
  lemma {:induction false} LogReplaysToStrategies(h: seq<Entry>, resource: Resource)
    ensures StrategyTold(After(h).events, resource).Some? <==> resource in After(h).locks
    ensures StrategyStored(After(h), resource)
         == if LastRefresh(h, resource).Some? then LastRefresh(h, resource) else StrategyTold(After(h).events, resource)
    ensures StrategyStored(After(h), resource) == StrategyTold(After(h).events, resource) <==>
      LastRefresh(h, resource).None? || LastRefresh(h, resource) == StrategyTold(After(h).events, resource)
    decreases |h|
  {
    if h != [] {
      var n := |h| - 1;
      LogReplaysToStrategies(h[..n], resource);
      if h[n].CallAt? {
        CallMovesStrategy(After(h[..n]), h[n].op, h[n].at, resource);
        OwnHoldIsTold(After(h[..n]), h[n].op, h[n].at);
      }
    }
  }

  lemma OwnHoldIsTold(db: Db, op: Op, at: Millis)
    ensures op.Acquire? && CallAlone(db, op, at).1.Reacquired? ==> op.resource in db.locks
  {
  }

  // ---- Notifications ----

  /** A lone call notifies exactly of what it logs: a denial, release or reclaim goes, as that very
      event, to each interest then active on the resource; anything else goes to nobody. */
  lemma NotifiesExactly(db: Db, op: Op, at: Millis)
    requires RowsOk(db)
    ensures var db' := CallAlone(db, op, at).0;
      var n := |db.events|;
      if |db'.events| > n && !db'.events[n].kind.AcquiredEvent? then
        && db'.propagations == db.propagations + Deliveries(ActiveOn(db.interests, db'.events[n].resource), n)
        && (CallAlone(db, op, at).1.Denied? || CallAlone(db, op, at).1.Released? || CallAlone(db, op, at).1.Reclaimed?)
      else
        && |db'.propagations| == |db.propagations|
        && !CallAlone(db, op, at).1.Denied? && !CallAlone(db, op, at).1.Released? && !CallAlone(db, op, at).1.Reclaimed?
        && forall j :: 0 <= j < |db.propagations| ==>
             db'.propagations[j].(acknowledged := false) == db.propagations[j].(acknowledged := false)
  {
    var db' := CallAlone(db, op, at).0;
    if |db'.events| > |db.events| {
      NewestEvent(db.events, db'.events[|db.events|]);
    }
  }

  /** How many propagations tell `interest` of event `e`. */
  function Told(ps: seq<Propagation>, interest: nat, e: nat): nat {
    if ps == [] then 0
    else
      Told(ps[..|ps| - 1], interest, e)
      + if ps[|ps| - 1].interest == interest && ps[|ps| - 1].event == e then 1 else 0
  }

  lemma {:induction false} ToldConcat(a: seq<Propagation>, b: seq<Propagation>, interest: nat, e: nat)
    ensures Told(a + b, interest, e) == Told(a, interest, e) + Told(b, interest, e)
    decreases |b|
  {
    if b == [] {
      assert a + b == a;
    } else {
      ToldConcat(a, b[..|b| - 1], interest, e);
      assert (a + b)[..|a + b| - 1] == a + b[..|b| - 1];
    }
  }

  lemma {:induction false} ToldKept(a: seq<Propagation>, b: seq<Propagation>, interest: nat, e: nat)
    requires |a| == |b|
    requires forall j :: 0 <= j < |a| ==> b[j].(acknowledged := false) == a[j].(acknowledged := false)
    ensures Told(a, interest, e) == Told(b, interest, e)
    decreases |a|
  {
    if a != [] {
      ToldKept(a[..|a| - 1], b[..|b| - 1], interest, e);
      assert b[|b| - 1].(acknowledged := false) == a[|a| - 1].(acknowledged := false);
    }
  }

  /** Of a batch of deliveries an interest gets one if it is among the subscribers, else none. */
  lemma {:induction false} ToldOnce(subs: seq<Subscriber>, e: nat, interest: nat, e': nat)
    requires forall j, k :: 0 <= j < k < |subs| ==> subs[j].interest < subs[k].interest
    ensures Told(Deliveries(subs, e), interest, e')
         == if e' == e && (exists k :: 0 <= k < |subs| && subs[k].interest == interest) then 1 else 0
    decreases |subs|
  {
    if subs != [] {
      var init := subs[..|subs| - 1];
      ToldOnce(init, e, interest, e');
      assert Deliveries(subs, e)[..|subs| - 1] == Deliveries(init, e);
      if exists k :: 0 <= k < |init| && init[k].interest == interest {
        var k :| 0 <= k < |init| && init[k].interest == interest;
        assert subs[k].interest == interest && subs[k].interest < subs[|subs| - 1].interest;
      }
    }
  }

  /** Between `db` and `db'` event `e` is logged, and `interest` is to hear of it. */
  predicate Hears(db: Db, db': Db, interest: nat, e: nat) {
    && |db.events| == e < |db'.events|
    && !db'.events[e].kind.AcquiredEvent?
    && Subscribed(db.interests, interest, db'.events[e].resource)
  }

  /** Whether event `e`, logged by the call `h[i]`, is one that `interest` is to hear of. */
  ghost predicate ToHear(h: seq<Entry>, i: nat, interest: nat, e: nat)
    requires i < |h|
  {
    Hears(After(h[..i]), After(h[..i + 1]), interest, e)
  }

  ghost predicate Heard(h: seq<Entry>, interest: nat, e: nat) {
    exists i :: 0 <= i < |h| && ToHear(h, i, interest, e)
  }

  lemma ToHearStays(h: seq<Entry>, x: Entry, i: nat, interest: nat, e: nat)
    requires i < |h|
    ensures ToHear(h + [x], i, interest, e) == ToHear(h, i, interest, e)
  {
    assert (h + [x])[..i] == h[..i] && (h + [x])[..i + 1] == h[..i + 1];
  }

  lemma HeardSnoc(h: seq<Entry>, x: Entry, interest: nat, e: nat)
    ensures Heard(h + [x], interest, e) <==> Heard(h, interest, e) || Hears(After(h), After(h + [x]), interest, e)
  {
    var h' := h + [x];
    assert h'[..|h|] == h && h'[..|h| + 1] == h';
    forall i | 0 <= i < |h| ensures ToHear(h', i, interest, e) == ToHear(h, i, interest, e) {
      ToHearStays(h, x, i, interest, e);
    }
    if Hears(After(h), After(h'), interest, e) {
      assert ToHear(h', |h|, interest, e);
    }
  }

  lemma {:induction false} HeardIsLogged(h: seq<Entry>, interest: nat, e: nat)
    requires Heard(h, interest, e)
    ensures e < |After(h).events|
    decreases |h|
  {
    var n := |h| - 1;
    var init := h[..n];
    assert h == init + [h[n]];
    HeardSnoc(init, h[n], interest, e);
    RowsStayOk(init);
    if h[n].CallAt? {
      CallLogsItsEffect(After(init), h[n].op, h[n].at);
    }
    if Heard(init, interest, e) {
      HeardIsLogged(init, interest, e);
    }
  }

  /** At every moment of a history each interest has been told once of each denial, release and
      reclaim that happened on its resource while it was active, and of nothing else. */
  lemma {:induction false} ToldOfEachEventOnce(h: seq<Entry>, interest: nat, e: nat)
    ensures Told(After(h).propagations, interest, e) == if Heard(h, interest, e) then 1 else 0
    decreases |h|
  {
    if h != [] {
      var n := |h| - 1;
      var init := h[..n];
      assert h == init + [h[n]] && h[..n + 1] == h;
      var db, db' := After(init), After(h);
      ToldOfEachEventOnce(init, interest, e);
      HeardSnoc(init, h[n], interest, e);
      RowsStayOk(init);
      if Heard(init, interest, e) {
        HeardIsLogged(init, interest, e);
      }
      if h[n].CallAt? {
        ToldByCall(db, h[n].op, h[n].at, interest, e);
      }
    }
  }

  lemma ToldByCall(db: Db, op: Op, at: Millis, interest: nat, e: nat)
    requires RowsOk(db)
    ensures var db' := CallAlone(db, op, at).0;
      Told(db'.propagations, interest, e) == Told(db.propagations, interest, e)
      + if Hears(db, db', interest, e) then 1 else 0
  {
    var db' := CallAlone(db, op, at).0;
    var n := |db.events|;
    NotifiesExactly(db, op, at);
    if |db'.events| > n && !db'.events[n].kind.AcquiredEvent? {
      var subs := ActiveOn(db.interests, db'.events[n].resource);
      ToldConcat(db.propagations, Deliveries(subs, n), interest, e);
      ToldOnce(subs, n, interest, e);
      if Subscribed(db.interests, interest, db'.events[n].resource) {
        var k :| 0 <= k < |subs| && subs[k] == Subscriber(interest, db.interests[interest].who);
        assert subs[k].interest == interest;
      }
    } else {
      ToldKept(db.propagations, db'.propagations, interest, e);
      CallLogsItsEffect(db, op, at);
    }
  }

  // ---- Interests ----

  /** How many active interests `who` has on `resource`. */
  function Actives(interests: seq<Interest>, who: Identity, resource: Resource): nat {
    if interests == [] then 0
    else
      var last := interests[|interests| - 1];
      Actives(interests[..|interests| - 1], who, resource)
      + if last.who == who && last.resource == resource && last.status == Active then 1 else 0
  }

  lemma {:induction false} ActivesSet(interests: seq<Interest>, i: nat, x: Interest, who: Identity, resource: Resource)
    requires i < |interests|
    ensures Actives(interests[i := x], who, resource) == Actives(interests, who, resource)
      - (if interests[i].who == who && interests[i].resource == resource && interests[i].status == Active then 1 else 0)
      + (if x.who == who && x.resource == resource && x.status == Active then 1 else 0)
    decreases |interests|
  {
    var n := |interests| - 1;
    if i == n {
      assert interests[i := x][..n] == interests[..n];
    } else {
      ActivesSet(interests[..n], i, x, who, resource);
      assert interests[i := x][..n] == interests[..n][i := x];
    }
  }

  lemma {:induction false} NoActives(interests: seq<Interest>, who: Identity, resource: Resource)
    ensures Actives(interests, who, resource) == 0 <==> FirstActive(interests, who, resource).None?
    decreases |interests|
  {
    if interests != [] {
      NoActives(interests[..|interests| - 1], who, resource);
    }
  }

  /** Creating an interest again gives back one that is active; the pair ends with one active
      interest if it had none, and otherwise with those it had. Setting a status adds an active
      interest exactly when it wakes one that was paused. */
  lemma ActivesAfterCall(db: Db, op: Op, at: Millis, who: Identity, resource: Resource)
    ensures var (db', result) := CallAlone(db, op, at);
      var before, after := Actives(db.interests, who, resource), Actives(db'.interests, who, resource);
      match op
      case Subscribe(r, w, _) =>
        && (result.SubscribedAs? ==> Subscribed(db'.interests, result.id, r) && db'.interests[result.id].who == w)
        && after == if r == resource && w == who && result.SubscribedAs? && before == 0 then 1 else before
      case SetStatus(id, Active) =>
        after == before + if id < |db.interests| && db.interests[id].who == who && db.interests[id].resource == resource
          && db.interests[id].status == Paused then 1 else 0
      case _ => after <= before
  {
    match op
    case Subscribe(r, w, tag) =>
      NoActives(db.interests, w, r);
      ActivesSnoc(db.interests, Interest(w, r, Active, tag), who, resource);
    case SetStatus(id, status) =>
      if id < |db.interests| {
        ActivesSet(db.interests, id, db.interests[id].(status := status), who, resource);
      }
    case Acquire(_, _, _, _, _) => LockCallsLeaveInterests(db, op, at);
    case Renew(_, _) => LockCallsLeaveInterests(db, op, at);
    case Release(_, _, _, _) => LockCallsLeaveInterests(db, op, at);
    case _ =>
  }

  lemma ActivesSnoc(interests: seq<Interest>, x: Interest, who: Identity, resource: Resource)
    ensures Actives(interests + [x], who, resource) == Actives(interests, who, resource)
      + if x.who == who && x.resource == resource && x.status == Active then 1 else 0
  {
    assert (interests + [x])[..|interests|] == interests;
  }

  lemma LockCallsLeaveInterests(db: Db, op: Op, at: Millis)
    requires op.Acquire? || op.Renew? || op.Release?
    ensures CallAlone(db, op, at).0.interests == db.interests
  {
  }

  predicate Resumes(e: Entry) {
    e.CallAt? && e.op.SetStatus? && e.op.status == Active
  }

  /** In a history without resuming, no identity ever has two active interests on a resource. */
  lemma {:induction false} OneActiveInterest(h: seq<Entry>, who: Identity, resource: Resource)
    requires forall i :: 0 <= i < |h| ==> !Resumes(h[i])
    ensures Actives(After(h).interests, who, resource) <= 1
    decreases |h|
  {
    if h != [] {
      var n := |h| - 1;
      OneActiveInterest(h[..n], who, resource);
      if h[n].CallAt? {
        ActivesAfterCall(After(h[..n]), h[n].op, h[n].at, who, resource);
      }
    }
  }

  // ---- Histories are runs ----

  ghost predicate Chronological(h: seq<Entry>) {
    forall i, j :: 0 <= i < j < |h| && h[i].CallAt? && h[j].CallAt? ==> h[i].at <= h[j].at
  }

  /** `run'` is `run` with more steps. */
  ghost predicate Continues(run: Run, run': Run) {
    run.states <= run'.states && run.actions <= run'.actions
  }

  lemma Extend(run: Run, a: Action) returns (run': Run)
    requires run.Valid()
    ensures run'.Valid() && Continues(run, run')
    ensures run'.Last() == Next(run.Last(), a)
    ensures run'.states == run.states + [run'.Last()] && run'.actions == run.actions + [a]
  {
    run' := Run(run.states + [Next(run.Last(), a)], run.actions + [a]);
    forall i | 0 <= i < |run'.actions| ensures run'.Follows(i) {
      if i < |run.actions| {
        assert run.Follows(i);
      }
    }
  }

  /** From state `i` to state `j` only call `c` takes steps, and the clock stands at `at`. */
  ghost predicate Uninterrupted(run: Run, i: nat, j: nat, c: nat, at: Millis)
    requires i <= j < |run.states| == |run.actions| + 1
  {
    && (forall m :: i <= m < j ==> run.actions[m] == Proceed(c))
    && (forall m :: i <= m <= j ==> run.states[m].clock == at)
  }

  /** `n` steps of call `c` alone, as a run. */
  lemma {:induction false} ExtendSteps(run: Run, c: nat, n: nat) returns (run': Run)
    requires run.Valid() && c in run.Last().calls
    ensures run'.Valid() && Continues(run, run')
    ensures Uninterrupted(run', |run.actions|, |run'.actions|, c, run.Last().clock)
    ensures run'.Last().db == Steps(run.Last().db, run.Last().clock, run.Last().calls[c], n).0
    ensures run'.Last().calls
         == run.Last().calls[c := Steps(run.Last().db, run.Last().clock, run.Last().calls[c], n).1]
    decreases n
  {
    run' := run;
    if n > 0 {
      var next := Extend(run, Proceed(c));
      run' := ExtendSteps(next, c, n - 1);
      assert forall m :: |next.actions| <= m < |run'.actions| ==> run'.actions[m] == Proceed(c);
      assert run'.actions[|run.actions|] == Proceed(c);
    }
  }

  lemma {:induction false} StepsKeepOp(db: Db, clock: Millis, k: Call, n: nat)
    ensures Steps(db, clock, k, n).1.op == k.op
    decreases n
  {
    if n > 0 {
      var (db', k') := StepCall(db, clock, k);
      assert k'.op == k.op;
      StepsKeepOp(db', clock, k', n - 1);
    }
  }

  /** Actions from `i` to `j` are call `c` from its invocation to its end, at one moment. */
  ghost predicate WholeCall(run: Run, i: nat, j: nat, c: nat, op: Op, at: Millis)
    requires i <= j < |run.states| == |run.actions| + 1
  {
    && i + 2 <= j
    && run.actions[i] == Tick(at) && run.actions[i + 1] == Invoke(c, op)
    && Uninterrupted(run, i + 2, j, c, at)
    && c !in run.states[i].calls && c in run.states[j].calls
    && run.states[j].calls[c].op == op
    && run.states[j].calls[c].pc == Done(CallAlone(run.states[i].db, op, at).1)
    && run.states[j].db == CallAlone(run.states[i].db, op, at).0
  }

  /** How many steps a call that is alone takes. */
  lemma StepsOfCall(db: Db, clock: Millis, op: Op) returns (n: nat)
    requires RowsOk(db)
    ensures var (db', k') := Steps(db, clock, RawCall(op, None, Begin), n);
      && db' == CallAlone(db, op, clock).0
      && k'.op == op && k'.pc == Done(CallAlone(db, op, clock).1)
  {
    var (db', result) := CallAlone(db, op, clock);
    var k: Call := RawCall(op, None, Begin);
    RunsAlone(db, clock, op);
    var k' :| Leads(db, clock, k, db', k') && k'.pc == Done(result);
    n :| Steps(db, clock, k, n) == (db', k');
    StepsKeepOp(db, clock, k, n);
  }

  lemma ExtendCall(run: Run, c: nat, op: Op, at: Millis) returns (run': Run)
    requires run.Valid() && c !in run.Last().calls && run.Last().clock <= at && RowsOk(run.Last().db)
    ensures run'.Valid() && Continues(run, run')
    ensures WholeCall(run', |run.actions|, |run'.actions|, c, op, at)
    ensures run'.Last().db == CallAlone(run.Last().db, op, at).0
    ensures run'.Last().clock == at && run'.Last().calls.Keys == run.Last().calls.Keys + {c}
    ensures run'.Last().calls[c].op == op && run'.Last().calls[c].pc == Done(CallAlone(run.Last().db, op, at).1)
    ensures forall c' :: c' in run.Last().calls ==> run'.Last().calls[c'] == run.Last().calls[c']
  {
    var n := StepsOfCall(run.Last().db, at, op);
    var ticked := Extend(run, Tick(at));
    var invoked := Extend(ticked, Invoke(c, op));
    run' := ExtendSteps(invoked, c, n);
    var i := |run.actions|;
    assert run'.actions[i] == ticked.actions[i] && run'.actions[i + 1] == invoked.actions[i + 1];
    assert run'.states[i] == run.Last() && run'.states[|run'.actions|] == run'.Last();
  }

  /** The part of a run from `i` to `j` is the `n`-th entry of `h`, whole and alone. */
  ghost predicate BlockOf(run: Run, i: nat, j: nat, h: seq<Entry>, n: nat)
    requires i <= j < |run.states| == |run.actions| + 1 && n < |h|
  {
    && run.states[i].db == After(h[..n])
    && run.states[j].db == After(h[..n + 1])
    && match h[n]
       case CallAt(op, at) => WholeCall(run, i, j, n, op, at)
       case StrategyMade(id) => j == i + 1 && run.actions[i] == AddStrategy(id)
  }

  /** The entries of `h` one after another, from the run's beginning to its end. */
  ghost predicate InBlocks(run: Run, h: seq<Entry>, cuts: seq<nat>)
    requires |run.states| == |run.actions| + 1
  {
    && |cuts| == |h| + 1 && cuts[0] == 0 && cuts[|h|] == |run.actions|
    && forall n :: 0 <= n < |h| ==> InBlock(run, h, cuts, n)
  }

  ghost predicate InBlock(run: Run, h: seq<Entry>, cuts: seq<nat>, n: nat)
    requires |run.states| == |run.actions| + 1 && |cuts| == |h| + 1 && n < |h|
  {
    cuts[n] <= cuts[n + 1] <= |run.actions| && BlockOf(run, cuts[n], cuts[n + 1], h, n)
  }

  ghost predicate Outcome(s: State, h: seq<Entry>, c: nat) {
    && c < |h| && h[c].CallAt? && c in s.calls
    && s.calls[c].op == h[c].op && s.calls[c].pc == Done(CallAlone(After(h[..c]), h[c].op, h[c].at).1)
  }

  /** The calls of the history, all done, and no others. */
  ghost predicate AllDone(s: State, h: seq<Entry>) {
    && (forall c :: c in s.calls ==> Outcome(s, h, c))
    && (forall c :: 0 <= c < |h| && h[c].CallAt? ==> c in s.calls)
  }

  /** The run is the entries of `h`, one after another: each call invoked with its arguments at its time
      and run to its end before anything else happens, with the result of the whole call on the store
      that the entries before it have left. */
  ghost predicate RunOf(run: Run, h: seq<Entry>, cuts: seq<nat>) {
    && run.Valid() && Initial(run.states[0]) && InBlocks(run, h, cuts)
    && run.Last().db == After(h) && AllDone(run.Last(), h)
  }

  /** A block stays one in a longer run of a longer history. */
  lemma BlockStays(run: Run, run': Run, i: nat, j: nat, h: seq<Entry>, x: Entry, n: nat)
    requires run.Valid() && run'.Valid() && Continues(run, run')
    requires i <= j < |run.states| && n < |h| && BlockOf(run, i, j, h, n)
    ensures BlockOf(run', i, j, h + [x], n)
  {
    assert (h + [x])[..n] == h[..n] && (h + [x])[..n + 1] == h[..n + 1];
    assert forall m :: 0 <= m < |run.states| ==> run'.states[m] == run.states[m];
    assert forall m :: 0 <= m < |run.actions| ==> run'.actions[m] == run.actions[m];
  }

  lemma BlocksSnoc(run: Run, run': Run, h: seq<Entry>, cuts: seq<nat>, x: Entry)
    requires run.Valid() && run'.Valid() && Continues(run, run') && InBlocks(run, h, cuts)
    requires BlockOf(run', |run.actions|, |run'.actions|, h + [x], |h|)
    ensures InBlocks(run', h + [x], cuts + [|run'.actions|])
  {
    var cuts' := cuts + [|run'.actions|];
    forall n | 0 <= n < |h| ensures InBlock(run', h + [x], cuts', n) {
      assert InBlock(run, h, cuts, n);
      BlockStays(run, run', cuts[n], cuts[n + 1], h, x, n);
    }
  }

  lemma OutcomeStays(s: State, s': State, h: seq<Entry>, x: Entry, c: nat)
    requires Outcome(s, h, c) && c in s'.calls && s'.calls[c] == s.calls[c]
    ensures Outcome(s', h + [x], c)
  {
    assert (h + [x])[..c] == h[..c] && (h + [x])[c] == h[c];
  }

  /** The state after the entry `x`: the calls before it as they were, and its own, if it is one, done. */
  ghost predicate EntryDone(s: State, s': State, h: seq<Entry>, x: Entry) {
    && (forall c :: c in s.calls ==> c in s'.calls && s'.calls[c] == s.calls[c])
    && s'.calls.Keys == (if x.CallAt? then s.calls.Keys + {|h|} else s.calls.Keys)
    && (x.CallAt? ==> Outcome(s', h + [x], |h|))
  }

  lemma OutcomesStay(s: State, s': State, h: seq<Entry>, x: Entry)
    requires EntryDone(s, s', h, x) && AllDone(s, h)
    ensures AllDone(s', h + [x])
  {
    forall c | c in s'.calls ensures Outcome(s', h + [x], c) {
      if c in s.calls {
        OutcomeStays(s, s', h, x, c);
      }
    }
    forall c | 0 <= c < |h| + 1 && (h + [x])[c].CallAt? ensures c in s'.calls {
      if c < |h| {
        assert h[c].CallAt? && c in s.calls;
      }
    }
  }

  lemma ExtendEntry(run: Run, h: seq<Entry>, cuts: seq<nat>, x: Entry) returns (run': Run)
    requires RunOf(run, h, cuts) && (x.CallAt? ==> run.Last().clock <= x.at)
    ensures RunOf(run', h + [x], cuts + [|run'.actions|])
    ensures run'.Last().clock == if x.CallAt? then x.at else run.Last().clock
  {
    var n, h' := |h|, h + [x];
    assert h'[..n] == h && h'[..n + 1] == h';
    if x.CallAt? {
      RowsStayOk(h);
      assert n !in run.Last().calls by {
        assert !Outcome(run.Last(), h, n);
      }
      run' := ExtendCall(run, n, x.op, x.at);
    } else {
      run' := Extend(run, AddStrategy(x.id));
    }
    assert run'.states[|run.actions|] == run.Last() && run'.states[|run'.actions|] == run'.Last();
    BlocksSnoc(run, run', h, cuts, x);
    OutcomesStay(run.Last(), run'.Last(), h, x);
  }

  lemma {:induction false} BuildRun(h: seq<Entry>, now: Millis) returns (run: Run, cuts: seq<nat>)
    requires Chronological(h)
    requires forall i :: 0 <= i < |h| && h[i].CallAt? ==> h[i].at <= now
    ensures RunOf(run, h, cuts) && run.Last().clock <= now
    decreases |h|
  {
    if h == [] {
      run, cuts := Run([State(EMPTY_DB, 0, map[])], []), [0];
    } else {
      var n := |h| - 1;
      assert h[..n] + [h[n]] == h;
      var init, initCuts := BuildRun(h[..n], if h[n].CallAt? then h[n].at else now);
      run := ExtendEntry(init, h[..n], initCuts, h[n]);
      cuts := initCuts + [|run.actions|];
    }
  }

  /** Every chronological history is a run of the interleaved store in which its calls follow each
      other uninterrupted, each with the effect and the result of the whole call. */
  lemma HistoriesAreRuns(h: seq<Entry>)
    requires Chronological(h)
    ensures exists run: Run, cuts :: RunOf(run, h, cuts)
  {
    var run, cuts := BuildRun(h, MAX_INT64);
  }
}
