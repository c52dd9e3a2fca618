/** Who is told of what, and how often, when calls interleave. */
module Telling {
  import opened Tables
  import opened Protocol
  import opened Invariant
  import opened Calls
  import opened History
  import opened Delivery
  import opened Conservation

  /** The propagations that a step adds. */
  function Added(db: Db, db': Db): seq<Propagation> {
    if |db.propagations| <= |db'.propagations| then db'.propagations[|db.propagations|..] else []
  }

  /** The propagations that call `c` has inserted by state `j`. */
  function InsertsBy(run: Run, j: nat, c: nat): seq<Propagation>
    requires j < |run.states| == |run.actions| + 1
  {
    if j == 0 then []
    else
      InsertsBy(run, j - 1, c)
      + if run.actions[j - 1] == Proceed(c) then Added(run.states[j - 1].db, run.states[j].db) else []
  }

  /** The results that are notified. */
  predicate Notified(result: Result) {
    result.Denied? || result.Released? || result.Reclaimed?
  }

  predicate Logging(k: Call) {
    k.pc.DenyEvent? || k.pc.TakeoverEvent? || k.pc.ReleaseEvent?
  }

  function ResourceOf(k: Call): Resource {
    if k.op.SetStatus? || k.op.Acknowledge? then "" else k.op.resource
  }

  /** The steps at which a call has logged its event, read its subscribers and chosen the event to show. */
  datatype Trail = Trail(logged: nat, read: nat, chosen: nat)

  function TrailOf(run: Run, j: nat, c: nat): Trail
    requires j < |run.states| == |run.actions| + 1
  {
    if j == 0 then Trail(0, 0, 0)
    else
      var t, s := TrailOf(run, j - 1, c), run.states[j - 1];
      if run.actions[j - 1] != Proceed(c) || c !in s.calls then t
      else if Logging(s.calls[c]) then t.(logged := j - 1)
      else if s.calls[c].pc.MatchInterests? then t.(read := j - 1)
      else if s.calls[c].pc.MatchEvent? then t.(chosen := j - 1)
      else t
  }

  /** At step `m` call `c` logs event `own`. */
  ghost predicate LogsAt(run: Run, m: nat, c: nat, own: nat)
    requires |run.states| == |run.actions| + 1
  {
    m < |run.actions| && run.actions[m] == Proceed(c) && |run.states[m].db.events| == own < |run.states[m + 1].db.events|
  }

  /** At step `m` call `c` reads that `subs` are the interests active on `resource`. */
  ghost predicate ReadsAt(run: Run, m: nat, c: nat, resource: Resource, subs: seq<Subscriber>)
    requires |run.states| == |run.actions| + 1
  {
    && m < |run.actions| && run.actions[m] == Proceed(c)
    && c in run.states[m].calls && run.states[m].calls[c].pc.MatchInterests?
    && subs == ActiveOn(run.states[m].db.interests, resource)
  }

  /** At step `m` call `c` chooses event `e`, then the newest on `resource`. */
  ghost predicate ChoosesAt(run: Run, m: nat, c: nat, resource: Resource, e: nat)
    requires |run.states| == |run.actions| + 1
  {
    && m < |run.actions| && run.actions[m] == Proceed(c)
    && c in run.states[m].calls && run.states[m].calls[c].pc.MatchEvent?
    && LastEvent(run.states[m].db.events, resource) == Some(e)
  }

  /** By state `j` call `c` has logged event `own`, then read `subs`, and then told the first `told` of them, each
      once and in order, of one event that is its own or a later one. */
  ghost predicate HasTold(run: Run, j: nat, c: nat, resource: Resource, own: nat, subs: seq<Subscriber>, e: nat, told: nat)
    requires j < |run.states| == |run.actions| + 1
  {
    var t := TrailOf(run, j, c);
    && t.logged < t.read < j && LogsAt(run, t.logged, c, own) && ReadsAt(run, t.read, c, resource, subs)
    && told <= |subs| && InsertsBy(run, j, c) == Deliveries(subs[..told], e)
    && (told > 0 ==> t.read < t.chosen < j && own <= e && ChoosesAt(run, t.chosen, c, resource, e))
  }

  /** Call `c`, now at `k`, has told nobody before it has logged and looked for subscribers, and from then on
      the first of those that it found. */
  ghost predicate Tells(run: Run, j: nat, c: nat, k: Call)
    requires j < |run.states| == |run.actions| + 1
  {
    var t := TrailOf(run, j, c);
    match k.pc
    case MatchInterests(own, reply) =>
      InsertsBy(run, j, c) == [] && Notified(reply) && t.logged < j && LogsAt(run, t.logged, c, own)
    case MatchEvent(own, subs, reply) => Notified(reply) && HasTold(run, j, c, ResourceOf(k), own, subs, 0, 0)
    case MatchInsert(own, e, rest, reply) =>
      && Notified(reply) && own <= e && t.read < t.chosen < j && ChoosesAt(run, t.chosen, c, ResourceOf(k), e)
      && t.read < |run.actions|
      && var subs := ActiveOn(run.states[t.read].db.interests, ResourceOf(k));
         && |rest| <= |subs| && rest == subs[|subs| - |rest|..]
         && HasTold(run, j, c, ResourceOf(k), own, subs, e, |subs| - |rest|)
    case Done(result) =>
      if Notified(result) then exists own, e :: HasToldAll(run, j, c, ResourceOf(k), own, e)
      else InsertsBy(run, j, c) == []
    case _ => InsertsBy(run, j, c) == []
  }

  /** By state `j` call `c` has told every interest that it found active, each once, of one event. */
  ghost predicate HasToldAll(run: Run, j: nat, c: nat, resource: Resource, own: nat, e: nat)
    requires j < |run.states| == |run.actions| + 1
  {
    var m := TrailOf(run, j, c).read;
    && m < |run.actions|
    && var subs := ActiveOn(run.states[m].db.interests, resource);
       HasTold(run, j, c, resource, own, subs, e, |subs|)
  }

  lemma StepAdds(db: Db, clock: Millis, k: Call)
    ensures Added(db, StepCall(db, clock, k).0) ==
      if k.pc.MatchInsert? && k.pc.subs != [] then [Propagation(k.pc.subs[0].interest, k.pc.event, k.pc.subs[0].who, false)]
      else []
  {
    StepPropagations(db, clock, k);
  }

  /** A step of another call, or of nobody, changes nothing of what `c` has done. */
  lemma TellsStays(run: Run, j: nat, c: nat, k: Call)
    requires run.Valid() && j < |run.actions| && run.actions[j] != Proceed(c)
    requires Tells(run, j, c, k)
    ensures Tells(run, j + 1, c, k)
  {
    assert TrailOf(run, j + 1, c) == TrailOf(run, j, c);
    assert InsertsBy(run, j + 1, c) == InsertsBy(run, j, c);
    if k.pc.Done? && Notified(k.pc.result) {
      var own: nat, e: nat :| HasToldAll(run, j, c, ResourceOf(k), own, e);
      assert HasToldAll(run, j + 1, c, ResourceOf(k), own, e);
    }
  }

  /** The step of call `c` from state `j`. */
  ghost predicate StepsFrom(run: Run, j: nat, c: nat, k: Call, k': Call)
    requires |run.states| == |run.actions| + 1 && j < |run.actions|
  {
    && run.actions[j] == Proceed(c) && c in run.states[j].calls && run.states[j].calls[c] == k
    && CallOk(run.states[j].db, run.states[j].clock, k)
    && StepCall(run.states[j].db, run.states[j].clock, k) == (run.states[j + 1].db, k')
  }

  /** Outside matching, a call comes to match, and to a result that is notified, only by logging. */
  lemma QuietStep(db: Db, clock: Millis, k: Call)
    requires CallOk(db, clock, k) && !Matching(k) && !k.pc.Done?
    ensures var (db', k') := StepCall(db, clock, k);
      if Logging(k) then
        && k'.pc.MatchInterests? && k'.pc.own == |db.events| < |db'.events| && Notified(k'.pc.reply)
      else !Matching(k') && (k'.pc.Done? ==> !Notified(k'.pc.result))
  {
  }

  /** Call `c`, at `k`, takes the step from state `j`, which adds the propagations `added`. */
  ghost predicate Takes(run: Run, j: nat, c: nat, k: Call, added: seq<Propagation>)
    requires |run.states| == |run.actions| + 1 && j < |run.actions|
  {
    && run.actions[j] == Proceed(c) && c in run.states[j].calls && run.states[j].calls[c] == k
    && Added(run.states[j].db, run.states[j + 1].db) == added
  }

  lemma QuietStepTells(run: Run, j: nat, c: nat, k: Call, k': Call)
    requires |run.states| == |run.actions| + 1 && j < |run.actions| && StepsFrom(run, j, c, k, k')
    requires InsertsBy(run, j, c) == [] && !Matching(k) && !k.pc.Done?
    ensures Tells(run, j + 1, c, k')
  {
    QuietStep(run.states[j].db, run.states[j].clock, k);
    StepAdds(run.states[j].db, run.states[j].clock, k);
    assert InsertsBy(run, j + 1, c) == [];
    if Logging(k) {
      assert TrailOf(run, j + 1, c).logged == j && LogsAt(run, j, c, k'.pc.own);
    }
  }

  lemma DoneStepTells(run: Run, j: nat, c: nat, k: Call, k': Call)
    requires |run.states| == |run.actions| + 1 && j < |run.actions| && StepsFrom(run, j, c, k, k')
    requires Tells(run, j, c, k) && k.pc.Done?
    ensures Tells(run, j + 1, c, k')
  {
    StepAdds(run.states[j].db, run.states[j].clock, k);
    assert k' == k;
    assert InsertsBy(run, j + 1, c) == InsertsBy(run, j, c);
    assert TrailOf(run, j + 1, c) == TrailOf(run, j, c);
    if Notified(k.pc.result) {
      var own: nat, e: nat :| HasToldAll(run, j, c, ResourceOf(k), own, e);
      assert HasToldAll(run, j + 1, c, ResourceOf(k), own, e);
    }
  }

  lemma ReadLeadsOn(db: Db, clock: Millis, k: Call)
    requires k.pc.MatchInterests?
    ensures var k', subs := StepCall(db, clock, k).1, ActiveOn(db.interests, ResourceOf(k));
      && ResourceOf(k') == ResourceOf(k)
      && k'.pc == if subs == [] then Done(k.pc.reply) else MatchEvent(k.pc.own, subs, k.pc.reply)
  {
  }

  lemma ReadStepTells(run: Run, j: nat, c: nat, k: Call, k': Call)
    requires |run.states| == |run.actions| + 1 && j < |run.actions| && Takes(run, j, c, k, [])
    requires Tells(run, j, c, k) && k.pc.MatchInterests?
    requires var subs := ActiveOn(run.states[j].db.interests, ResourceOf(k));
      && ResourceOf(k') == ResourceOf(k)
      && k'.pc == if subs == [] then Done(k.pc.reply) else MatchEvent(k.pc.own, subs, k.pc.reply)
    ensures Tells(run, j + 1, c, k')
  {
    assert InsertsBy(run, j + 1, c) == [];
    var subs := ActiveOn(run.states[j].db.interests, ResourceOf(k));
    assert TrailOf(run, j + 1, c).read == j;
    assert Deliveries(subs[..0], 0) == [];
    assert HasTold(run, j + 1, c, ResourceOf(k), k.pc.own, subs, 0, 0);
    if subs == [] {
      AllTold(run, j + 1, c, k', k.pc.own, 0, subs);
    }
  }

  lemma ChooseLeadsOn(db: Db, clock: Millis, k: Call)
    requires CallOk(db, clock, k) && k.pc.MatchEvent?
    ensures var k' := StepCall(db, clock, k).1;
      && ResourceOf(k') == ResourceOf(k)
      && k'.pc.MatchInsert? && LastEvent(db.events, ResourceOf(k)) == Some(k'.pc.event)
      && k.pc.own <= k'.pc.event && k'.pc == MatchInsert(k.pc.own, k'.pc.event, k.pc.subs, k.pc.reply)
  {
    assert db.events[k.pc.own].resource == k.op.resource;
  }

  lemma ChooseStepTells(run: Run, j: nat, c: nat, k: Call, k': Call)
    requires |run.states| == |run.actions| + 1 && j < |run.actions| && Takes(run, j, c, k, [])
    requires Tells(run, j, c, k) && k.pc.MatchEvent? && ResourceOf(k') == ResourceOf(k)
    requires k'.pc.MatchInsert? && LastEvent(run.states[j].db.events, ResourceOf(k)) == Some(k'.pc.event)
    requires k.pc.own <= k'.pc.event && k'.pc == MatchInsert(k.pc.own, k'.pc.event, k.pc.subs, k.pc.reply)
    ensures Tells(run, j + 1, c, k')
  {
    var t := TrailOf(run, j, c);
    assert InsertsBy(run, j + 1, c) == [];
    assert TrailOf(run, j + 1, c) == t.(chosen := j);
    var subs, e := k.pc.subs, k'.pc.event;
    assert Deliveries(subs[..0], e) == [] == Deliveries(subs[..0], 0);
    RestTells(run, j + 1, c, k', k.pc.own, e, subs, 0);
  }

  /** The rest of a batch of subscribers is still to be told. */
  lemma RestTells(run: Run, j: nat, c: nat, k: Call, own: nat, e: nat, subs: seq<Subscriber>, told: nat)
    requires j < |run.states| == |run.actions| + 1
    requires k.pc.MatchInsert? && k.pc.own == own && k.pc.event == e && Notified(k.pc.reply)
    requires HasTold(run, j, c, ResourceOf(k), own, subs, e, told) && k.pc.subs == subs[told..]
    requires var t := TrailOf(run, j, c);
      own <= e && t.read < t.chosen < j && ChoosesAt(run, t.chosen, c, ResourceOf(k), e)
    ensures Tells(run, j, c, k)
  {
    assert |subs| - |k.pc.subs| == told;
  }

  /** The whole batch has been told. */
  lemma AllTold(run: Run, j: nat, c: nat, k: Call, own: nat, e: nat, subs: seq<Subscriber>)
    requires j < |run.states| == |run.actions| + 1
    requires k.pc.Done? && Notified(k.pc.result) && HasTold(run, j, c, ResourceOf(k), own, subs, e, |subs|)
    ensures Tells(run, j, c, k)
  {
    assert HasToldAll(run, j, c, ResourceOf(k), own, e);
  }

  /** The next of `k`'s subscribers, as it will be told. */
  function NextTold(k: Call): Propagation
    requires k.pc.MatchInsert? && k.pc.subs != []
  {
    Propagation(k.pc.subs[0].interest, k.pc.event, k.pc.subs[0].who, false)
  }

  /** Where in its batch of subscribers a call stands that is telling them. */
  lemma Standing(run: Run, j: nat, c: nat, k: Call) returns (subs: seq<Subscriber>, told: nat)
    requires j < |run.states| == |run.actions| + 1 && k.pc.MatchInsert? && Tells(run, j, c, k)
    ensures told <= |subs| && k.pc.subs == subs[told..] && Notified(k.pc.reply)
    ensures HasTold(run, j, c, ResourceOf(k), k.pc.own, subs, k.pc.event, told)
    ensures var t := TrailOf(run, j, c);
      t.read < t.chosen < j && k.pc.own <= k.pc.event && ChoosesAt(run, t.chosen, c, ResourceOf(k), k.pc.event)
  {
    subs := ActiveOn(run.states[TrailOf(run, j, c).read].db.interests, ResourceOf(k));
    told := |subs| - |k.pc.subs|;
  }

  lemma Rest(subs: seq<Subscriber>, told: nat)
    requires told < |subs|
    ensures subs[told..][0] == subs[told] && subs[told..][1..] == subs[told + 1..]
    ensures |subs[told..]| == 1 <==> told + 1 == |subs|
  {
  }

  lemma InsertStepTells(run: Run, j: nat, c: nat, k: Call, k': Call)
    requires |run.states| == |run.actions| + 1 && j < |run.actions|
    requires k.pc.MatchInsert? && k.pc.subs != [] && Takes(run, j, c, k, [NextTold(k)])
    requires ResourceOf(k') == ResourceOf(k)
    requires k'.pc == if |k.pc.subs| == 1 then Done(k.pc.reply) else MatchInsert(k.pc.own, k.pc.event, k.pc.subs[1..], k.pc.reply)
    requires Tells(run, j, c, k)
    ensures Tells(run, j + 1, c, k')
  {
    var subs, told := Standing(run, j, c, k);
    Rest(subs, told);
    InsertTellsNext(run, j, c, k, subs, told);
    if told + 1 == |subs| {
      AllTold(run, j + 1, c, k', k.pc.own, k.pc.event, subs);
    } else {
      RestTells(run, j + 1, c, k', k.pc.own, k.pc.event, subs, told + 1);
    }
  }

  lemma InsertLeadsOn(db: Db, clock: Millis, k: Call)
    requires k.pc.MatchInsert? && k.pc.subs != []
    ensures var k' := StepCall(db, clock, k).1;
      && ResourceOf(k') == ResourceOf(k)
      && k'.pc == if |k.pc.subs| == 1 then Done(k.pc.reply) else MatchInsert(k.pc.own, k.pc.event, k.pc.subs[1..], k.pc.reply)
  {
  }

  lemma InsertTellsNext(run: Run, j: nat, c: nat, k: Call, subs: seq<Subscriber>, told: nat)
    requires |run.states| == |run.actions| + 1 && j < |run.actions|
    requires k.pc.MatchInsert? && k.pc.subs != [] && Takes(run, j, c, k, [NextTold(k)])
    requires told < |subs| && k.pc.subs[0] == subs[told]
    requires HasTold(run, j, c, ResourceOf(k), k.pc.own, subs, k.pc.event, told)
    requires var t := TrailOf(run, j, c);
      t.read < t.chosen < j && k.pc.own <= k.pc.event && ChoosesAt(run, t.chosen, c, ResourceOf(k), k.pc.event)
    ensures TrailOf(run, j + 1, c) == TrailOf(run, j, c)
    ensures HasTold(run, j + 1, c, ResourceOf(k), k.pc.own, subs, k.pc.event, told + 1)
  {
    var e := k.pc.event;
    assert TrailOf(run, j + 1, c) == TrailOf(run, j, c);
    assert InsertsBy(run, j + 1, c) == InsertsBy(run, j, c) + [NextTold(k)];
    DeliversNext(subs, told, e);
  }

  lemma DeliversNext(subs: seq<Subscriber>, told: nat, e: nat)
    requires told < |subs|
    ensures Deliveries(subs[..told + 1], e)
         == Deliveries(subs[..told], e) + [Propagation(subs[told].interest, e, subs[told].who, false)]
  {
  }

  lemma StepsFromHere(run: Run, j: nat, c: nat)
    requires run.Valid() && Initial(run.states[0]) && j < |run.actions|
    requires run.actions[j] == Proceed(c) && c in run.states[j].calls
    ensures c in run.states[j + 1].calls && StepsFrom(run, j, c, run.states[j].calls[c], run.states[j + 1].calls[c])
  {
    InitialInv(run.states[0]);
    InvAlong(run, 0, j);
    assert run.Follows(j);
  }

  lemma {:induction false} TellsAlong(run: Run, j: nat, c: nat)
    requires run.Valid() && Initial(run.states[0]) && j < |run.states|
    ensures if c in run.states[j].calls then Tells(run, j, c, run.states[j].calls[c]) else InsertsBy(run, j, c) == []
  {
    if j > 0 {
      var i := j - 1;
      TellsAlong(run, i, c);
      var s := run.states[i];
      if run.actions[i] == Proceed(c) && c in s.calls {
        StepsFromHere(run, i, c);
        OwnStepTells(run, i, c, s.calls[c], run.states[j].calls[c]);
      } else {
        OtherStepTells(run, i, c);
      }
    }
  }

  lemma OtherStep(s: State, a: Action, c: nat)
    requires a == Proceed(c) ==> c !in s.calls
    ensures var s' := Next(s, a);
      && (c in s.calls ==> c in s'.calls && s'.calls[c] == s.calls[c])
      && (c !in s.calls && c in s'.calls ==> s'.calls[c].pc.Begin?)
      && (a == Proceed(c) ==> s' == s)
  {
  }

  lemma OtherStepTells(run: Run, j: nat, c: nat)
    requires run.Valid() && j < |run.actions| && (run.actions[j] == Proceed(c) ==> c !in run.states[j].calls)
    requires var s := run.states[j];
      if c in s.calls then Tells(run, j, c, s.calls[c]) else InsertsBy(run, j, c) == []
    ensures var s' := run.states[j + 1];
      if c in s'.calls then Tells(run, j + 1, c, s'.calls[c]) else InsertsBy(run, j + 1, c) == []
  {
    assert run.Follows(j);
    var s := run.states[j];
    OtherStep(s, run.actions[j], c);
    if c in s.calls {
      TellsStays(run, j, c, s.calls[c]);
    } else {
      assert Added(s.db, s.db) == [];
      assert InsertsBy(run, j + 1, c) == [];
    }
  }

  lemma OwnStepTells(run: Run, j: nat, c: nat, k: Call, k': Call)
    requires |run.states| == |run.actions| + 1 && j < |run.actions| && StepsFrom(run, j, c, k, k')
    requires Tells(run, j, c, k)
    ensures Tells(run, j + 1, c, k')
  {
    var s := run.states[j];
    StepAdds(s.db, s.clock, k);
    if k.pc.Done? {
      DoneStepTells(run, j, c, k, k');
    } else if k.pc.MatchInterests? {
      ReadLeadsOn(s.db, s.clock, k);
      ReadStepTells(run, j, c, k, k');
    } else if k.pc.MatchEvent? {
      ChooseLeadsOn(s.db, s.clock, k);
      ChooseStepTells(run, j, c, k, k');
    } else if k.pc.MatchInsert? {
      InsertLeadsOn(s.db, s.clock, k);
      InsertStepTells(run, j, c, k, k');
    } else {
      QuietStepTells(run, j, c, k, k');
    }
  }

  /** In every run, a call that has ended with a denial, a release or a reclaim has told every interest that was
      active when it looked, each exactly once, all of one event, which is the newest on the resource
      when it chose; and a call that has ended otherwise has told nobody. */
  lemma EachSubscriberToldOnce(run: Run, j: nat, c: nat)
    requires run.Valid() && Initial(run.states[0]) && j < |run.states|
    requires c in run.states[j].calls && run.states[j].calls[c].pc.Done?
    ensures var k := run.states[j].calls[c];
      if Notified(k.pc.result) then exists own, e :: HasToldAll(run, j, c, ResourceOf(k), own, e)
      else InsertsBy(run, j, c) == []
  {
    TellsAlong(run, j, c);
  }

  // ---- How often an interest is told of an event ----

  /** Call `c` has told `interest` of event `e`. */
  predicate HasToldOf(run: Run, j: nat, c: nat, interest: nat, e: nat)
    requires j < |run.states| == |run.actions| + 1
  {
    Told(InsertsBy(run, j, c), interest, e) > 0
  }

  function Tellers(run: Run, j: nat, interest: nat, e: nat): set<nat>
    requires j < |run.states| == |run.actions| + 1
  {
    set c | c in run.states[j].calls && HasToldOf(run, j, c, interest, e)
  }

  /** What a call has told so far comes from one batch of subscribers, so it has told each at most once; and the
      event is one that it has chosen, not older than its own. */
  lemma CallTellsOnce(run: Run, j: nat, c: nat, interest: nat, e: nat)
    requires run.Valid() && Initial(run.states[0]) && j < |run.states|
    ensures Told(InsertsBy(run, j, c), interest, e) <= 1
    ensures HasToldOf(run, j, c, interest, e) ==> Chose(run, j, c, e)
  {
    TellsAlong(run, j, c);
    if c in run.states[j].calls {
      var k := run.states[j].calls[c];
      var resource := ResourceOf(k);
      match k.pc
      case MatchEvent(own, subs, _) => BatchTellsOnce(run, j, c, resource, own, subs, 0, 0, interest, e);
      case MatchInsert(own, event, rest, _) =>
        var subs := ActiveOn(run.states[TrailOf(run, j, c).read].db.interests, resource);
        BatchTellsOnce(run, j, c, resource, own, subs, event, |subs| - |rest|, interest, e);
      case Done(result) =>
        if Notified(result) {
          var own: nat, event: nat :| HasToldAll(run, j, c, resource, own, event);
          var subs := ActiveOn(run.states[TrailOf(run, j, c).read].db.interests, resource);
          BatchTellsOnce(run, j, c, resource, own, subs, event, |subs|, interest, e);
        }
      case _ =>
    }
  }

  /** Call `c` has logged an event of its own and chosen `e`, which is that or a later one on the same resource. */
  ghost predicate Chose(run: Run, j: nat, c: nat, e: nat)
    requires j < |run.states| == |run.actions| + 1
  {
    var t := TrailOf(run, j, c);
    && t.logged < t.chosen < j && LogsAt(run, t.logged, c, |run.states[t.logged].db.events|)
    && |run.states[t.logged].db.events| <= e
    && exists resource :: ChoosesAt(run, t.chosen, c, resource, e)
  }

  lemma BatchTellsOnce(run: Run, j: nat, c: nat, resource: Resource, own: nat, subs: seq<Subscriber>, event: nat,
                       told: nat, interest: nat, e: nat)
    requires j < |run.states| == |run.actions| + 1
    requires HasTold(run, j, c, resource, own, subs, event, told)
    ensures Told(InsertsBy(run, j, c), interest, e) <= 1
    ensures HasToldOf(run, j, c, interest, e) ==> Chose(run, j, c, e)
  {
    ToldOnce(subs[..told], event, interest, e);
    if HasToldOf(run, j, c, interest, e) {
      assert e == event && told > 0;
      assert ChoosesAt(run, TrailOf(run, j, c).chosen, c, resource, e);
    }
  }

  /** In every run, an interest has been told of an event as often as there are calls that chose it for it: once
      by each, and by no call that logged its own event later. */
  lemma {:induction false} ToldOncePerCall(run: Run, j: nat, interest: nat, e: nat)
    requires run.Valid() && Initial(run.states[0]) && j < |run.states|
    ensures Told(run.states[j].db.propagations, interest, e) == |Tellers(run, j, interest, e)|
    ensures forall c :: c in Tellers(run, j, interest, e) ==> Chose(run, j, c, e)
  {
    TellersChose(run, j, interest, e);
    if j == 0 {
      assert Tellers(run, 0, interest, e) == {};
    } else {
      ToldOncePerCall(run, j - 1, interest, e);
      var a := run.actions[j - 1];
      if a.Proceed? && a.c in run.states[j - 1].calls {
        TellerStep(run, j - 1, a.c, interest, e);
      } else {
        SameTellers(run, j - 1, interest, e);
      }
    }
  }

  lemma TellersChose(run: Run, j: nat, interest: nat, e: nat)
    requires run.Valid() && Initial(run.states[0]) && j < |run.states|
    ensures forall c :: c in Tellers(run, j, interest, e) ==> Chose(run, j, c, e)
  {
    forall c | c in Tellers(run, j, interest, e) ensures Chose(run, j, c, e) {
      CallTellsOnce(run, j, c, interest, e);
    }
  }

  lemma SameTellers(run: Run, j: nat, interest: nat, e: nat)
    requires run.Valid() && Initial(run.states[0]) && j < |run.actions|
    requires run.actions[j].Proceed? ==> run.actions[j].c !in run.states[j].calls
    ensures run.states[j + 1].db.propagations == run.states[j].db.propagations
    ensures Tellers(run, j + 1, interest, e) == Tellers(run, j, interest, e)
  {
    assert run.Follows(j);
    var s, s' := run.states[j], run.states[j + 1];
    forall c ensures InsertsBy(run, j + 1, c) == InsertsBy(run, j, c) {
      assert run.actions[j] == Proceed(c) ==> Added(s.db, s'.db) == [];
    }
    forall c | c in s'.calls && c !in s.calls ensures InsertsBy(run, j, c) == [] {
      TellsAlong(run, j, c);
    }
  }

  lemma AddedIsTold(db: Db, clock: Millis, k: Call, interest: nat, e: nat)
    ensures var db' := StepCall(db, clock, k).0;
      Told(db'.propagations, interest, e) == Told(db.propagations, interest, e) + Told(Added(db, db'), interest, e)
  {
    var db' := StepCall(db, clock, k).0;
    StepPropagations(db, clock, k);
    var kept := db'.propagations[..|db.propagations|];
    assert db'.propagations == kept + Added(db, db');
    ToldConcat(kept, Added(db, db'), interest, e);
    ToldKept(db.propagations, kept, interest, e);
  }

  /** A step of call `c` adds `c` to the tellers of what it tells, and nothing else. */
  lemma TellerStep(run: Run, j: nat, c: nat, interest: nat, e: nat)
    requires run.Valid() && Initial(run.states[0]) && j < |run.actions|
    requires run.actions[j] == Proceed(c) && c in run.states[j].calls
    ensures Told(run.states[j + 1].db.propagations, interest, e) - Told(run.states[j].db.propagations, interest, e)
         == |Tellers(run, j + 1, interest, e)| - |Tellers(run, j, interest, e)|
  {
    assert run.Follows(j);
    var s, s' := run.states[j], run.states[j + 1];
    var added := Added(s.db, s'.db);
    AddedIsTold(s.db, s.clock, s.calls[c], interest, e);
    ToldConcat(InsertsBy(run, j, c), added, interest, e);
    CallTellsOnce(run, j + 1, c, interest, e);
    TellersMove(run, j, c, interest, e);
  }

  lemma TellersMove(run: Run, j: nat, c: nat, interest: nat, e: nat)
    requires run.Valid() && j < |run.actions| && run.actions[j] == Proceed(c) && c in run.states[j].calls
    requires run.states[j + 1].calls.Keys == run.states[j].calls.Keys
    requires var before, after := Told(InsertsBy(run, j, c), interest, e), Told(InsertsBy(run, j + 1, c), interest, e);
      before <= after <= 1
    ensures |Tellers(run, j + 1, interest, e)| - |Tellers(run, j, interest, e)|
         == Told(InsertsBy(run, j + 1, c), interest, e) - Told(InsertsBy(run, j, c), interest, e)
  {
    var before, after := Tellers(run, j, interest, e), Tellers(run, j + 1, interest, e);
    OtherTellersStay(run, j, c, interest, e);
    Moves(before, after, c);
    assert c in before <==> HasToldOf(run, j, c, interest, e);
    assert c in after <==> HasToldOf(run, j + 1, c, interest, e);
  }

  lemma OtherTellersStay(run: Run, j: nat, c: nat, interest: nat, e: nat)
    requires |run.states| == |run.actions| + 1 && j < |run.actions| && run.actions[j] == Proceed(c)
    requires run.states[j + 1].calls.Keys == run.states[j].calls.Keys
    ensures Tellers(run, j, interest, e) - {c} == Tellers(run, j + 1, interest, e) - {c}
  {
    forall d | d != c ensures d in Tellers(run, j + 1, interest, e) <==> d in Tellers(run, j, interest, e) {
      OthersTellNothing(run, j, c, d);
    }
  }

  lemma OthersTellNothing(run: Run, j: nat, c: nat, d: nat)
    requires |run.states| == |run.actions| + 1 && j < |run.actions| && run.actions[j] == Proceed(c) && d != c
    ensures InsertsBy(run, j + 1, d) == InsertsBy(run, j, d)
  {
  }

  /** Call `c`, wherever it chooses the event to show, chooses its own. */
  ghost predicate ShowsOwn(run: Run, j: nat, c: nat)
    requires j < |run.states| == |run.actions| + 1
  {
    forall m, resource, e :: 0 <= m < j && ChoosesAt(run, m, c, resource, e) ==> run.states[m].calls[c].pc.own == e
  }

  lemma {:induction false} EventsOnlyGrow(run: Run, i: nat, j: nat)
    requires run.Valid() && Initial(run.states[0]) && i <= j < |run.states|
    ensures |run.states[i].db.events| <= |run.states[j].db.events|
  {
    InitialInv(run.states[0]);
    InvAlong(run, 0, i);
    InvAlong(run, i, j);
  }

  /** No two steps log the same event. */
  lemma LoggedByOne(run: Run, m: nat, n: nat, c: nat, d: nat, own: nat)
    requires run.Valid() && Initial(run.states[0]) && LogsAt(run, m, c, own) && LogsAt(run, n, d, own)
    ensures c == d
  {
    if m < n {
      EventsOnlyGrow(run, m + 1, n);
    } else if n < m {
      EventsOnlyGrow(run, n + 1, m);
    }
  }

  lemma ChosenIsLogged(run: Run, m: nat, c: nat, resource: Resource, e: nat)
    requires run.Valid() && Initial(run.states[0]) && ChoosesAt(run, m, c, resource, e)
    ensures exists l :: LogsAt(run, l, c, run.states[m].calls[c].pc.own)
  {
    TellsAlong(run, m, c);
    assert LogsAt(run, TrailOf(run, m, c).logged, c, run.states[m].calls[c].pc.own);
  }

  lemma TellerLogged(run: Run, j: nat, c: nat, e: nat)
    requires run.Valid() && Initial(run.states[0]) && j < |run.states|
    requires Chose(run, j, c, e) && ShowsOwn(run, j, c)
    ensures exists l :: LogsAt(run, l, c, e)
  {
    var m := TrailOf(run, j, c).chosen;
    var resource :| ChoosesAt(run, m, c, resource, e);
    ChosenIsLogged(run, m, c, resource, e);
  }

  /** While every call shows the event that it has logged itself, nobody is told twice of an event, whatever
      else interleaves. */
  lemma ToldAtMostOnce(run: Run, j: nat, interest: nat, e: nat)
    requires run.Valid() && Initial(run.states[0]) && j < |run.states|
    requires forall c :: c in run.states[j].calls ==> ShowsOwn(run, j, c)
    ensures Told(run.states[j].db.propagations, interest, e) <= 1
  {
    ToldOncePerCall(run, j, interest, e);
    var tellers := Tellers(run, j, interest, e);
    if tellers != {} {
      var c :| c in tellers;
      forall d | d in tellers ensures d == c {
        TellerLogged(run, j, c, e);
        TellerLogged(run, j, d, e);
        var l: nat :| LogsAt(run, l, c, e);
        var m: nat :| LogsAt(run, m, d, e);
        LoggedByOne(run, l, m, c, d, e);
      }
      assert tellers == {c};
    }
  }
}
