/** What is told of a strategy's log: usage totals by harness, and the recent part. */
module Strategy {
  import opened Tables
  import opened Usage

  datatype StrategyEventKind = StepStarted | StepCompleted | Finding | Decision | Reflection | ResourceUsage

  datatype StrategyEvent = StrategyEvent(kind: StrategyEventKind, who: Identity, note: string)

  // ---- Totals ----

  /** The usages that a log tells of, in order; notes that cannot be read are left out. */
  function Usages(codec: Codec, log: seq<StrategyEvent>): seq<Used> {
    if log == [] then []
    else
      var last := log[|log| - 1];
      var init := Usages(codec, log[..|log| - 1]);
      if last.kind.ResourceUsage? && ParseNote(codec, last.note).Ok?
      then init + [ParseNote(codec, last.note).value] else init
  }

  /** The tokens used by one harness, and by all. */
  function TokensOf(used: seq<Used>, harness: string): int {
    if used == [] then 0
    else TokensOf(used[..|used| - 1], harness) + if used[|used| - 1].harness == harness then used[|used| - 1].tokens else 0
  }

  function TokensOfAll(used: seq<Used>): int {
    if used == [] then 0 else TokensOfAll(used[..|used| - 1]) + used[|used| - 1].tokens
  }

  /** The costs that one harness has logged, in order. */
  function CostsOf(used: seq<Used>, harness: string): seq<Cost> {
    if used == [] then []
    else
      var last := used[|used| - 1];
      CostsOf(used[..|used| - 1], harness)
      + if last.harness == harness && last.cost.Some? then [last.cost.value] else []
  }

  predicate Uses(used: seq<Used>, harness: string) {
    exists i :: 0 <= i < |used| && used[i].harness == harness
  }

  /** The harnesses in the order of their first use. */
  function FirstUses(used: seq<Used>): seq<string> {
    if used == [] then []
    else
      var init := FirstUses(used[..|used| - 1]);
      if used[|used| - 1].harness in init then init else init + [used[|used| - 1].harness]
  }

  lemma UsesInit(used: seq<Used>, harness: string)
    requires used != []
    ensures Uses(used, harness) <==> Uses(used[..|used| - 1], harness) || used[|used| - 1].harness == harness
  {
    var init := used[..|used| - 1];
    if Uses(init, harness) {
      var i :| 0 <= i < |init| && init[i].harness == harness;
      assert used[i].harness == harness;
    }
    if Uses(used, harness) {
      var i :| 0 <= i < |used| && used[i].harness == harness;
      assert i < |init| ==> init[i].harness == harness;
    }
  }

  lemma {:induction false} FirstUsesAre(used: seq<Used>)
    ensures forall h :: h in FirstUses(used) <==> Uses(used, h)
    ensures forall i, j :: 0 <= i < j < |FirstUses(used)| ==> FirstUses(used)[i] != FirstUses(used)[j]
  {
    if used != [] {
      FirstUsesAre(used[..|used| - 1]);
      forall h ensures Uses(used, h) <==> Uses(used[..|used| - 1], h) || used[|used| - 1].harness == h {
        UsesInit(used, h);
      }
    }
  }

  /** A harness is listed before another only if its first use is earlier. */
  lemma {:induction false} FirstUsesInOrder(used: seq<Used>, i: nat, j: nat, b: nat)
    requires i < j < |FirstUses(used)| && b < |used| && used[b].harness == FirstUses(used)[j]
    ensures exists a :: 0 <= a < b && used[a].harness == FirstUses(used)[i]
    decreases |used|
  {
    var n := |used| - 1;
    var init := FirstUses(used[..n]);
    FirstUsesAre(used);
    FirstUsesAre(used[..n]);
    if b < n {
      assert used[..n][b].harness == used[b].harness && Uses(used[..n], used[b].harness);
      FirstUsesInOrder(used[..n], i, j, b);
      var a :| 0 <= a < b && used[..n][a].harness == init[i];
      assert used[a].harness == init[i];
    } else {
      assert Uses(used[..n], init[i]);
      var a :| 0 <= a < n && used[..n][a].harness == init[i];
      assert used[a].harness == init[i];
    }
  }

  function SumOver(order: seq<string>, used: seq<Used>): int {
    if order == [] then 0 else SumOver(order[..|order| - 1], used) + TokensOf(used, order[|order| - 1])
  }

  lemma {:induction false} SumOverStep(order: seq<string>, used: seq<Used>)
    requires used != [] && forall i, j :: 0 <= i < j < |order| ==> order[i] != order[j]
    ensures SumOver(order, used) == SumOver(order, used[..|used| - 1])
      + if used[|used| - 1].harness in order then used[|used| - 1].tokens else 0
    decreases |order|
  {
    if order != [] {
      var n := |order| - 1;
      SumOverStep(order[..n], used);
      if used[|used| - 1].harness in order[..n] {
        var i :| 0 <= i < n && order[..n][i] == used[|used| - 1].harness;
        assert order[i] != order[n];
      }
    }
  }

  lemma {:induction false} UnusedHarness(used: seq<Used>, harness: string)
    requires !Uses(used, harness)
    ensures TokensOf(used, harness) == 0 && CostsOf(used, harness) == []
  {
    if used != [] {
      UsesInit(used, harness);
      UnusedHarness(used[..|used| - 1], harness);
    }
  }

  /** The totals by harness add up to everything that was used. */
  lemma {:induction false} TotalsPartition(used: seq<Used>)
    ensures SumOver(FirstUses(used), used) == TokensOfAll(used)
  {
    if used != [] {
      var n := |used| - 1;
      TotalsPartition(used[..n]);
      FirstUsesAre(used);
      SumOverStep(FirstUses(used), used);
      FirstUsesAre(used[..n]);
      if !Uses(used[..n], used[n].harness) {
        SumOverNew(used[..n], used[n].harness);
      }
    }
  }

  lemma SumOverNew(used: seq<Used>, harness: string)
    requires !Uses(used, harness)
    ensures SumOver(FirstUses(used) + [harness], used) == SumOver(FirstUses(used), used)
  {
    UnusedHarness(used, harness);
    assert (FirstUses(used) + [harness])[..|FirstUses(used)|] == FirstUses(used);
  }

  /** Wrapping at each addition or once at the end is the same. */
  lemma WrapsOnce(a: int, b: int)
    ensures Wrap64(Wrap64(a) + b) == Wrap64(a + b)
  {
    var k :| Wrap64(a) == a + k * TWO_64;
    var m :| Wrap64(Wrap64(a) + b) == Wrap64(a) + b + m * TWO_64;
    var n :| Wrap64(a + b) == a + b + n * TWO_64;
    assert Wrap64(Wrap64(a) + b) - Wrap64(a + b) == (k + m - n) * TWO_64;
  }

  /** Usages read from notes are never negative. */
  lemma {:induction false} UsagesNotNegative(codec: Codec, log: seq<StrategyEvent>)
    requires codec.Lawful()
    ensures forall i :: 0 <= i < |Usages(codec, log)| ==> Usages(codec, log)[i].tokens >= 0
  {
    if log != [] {
      UsagesNotNegative(codec, log[..|log| - 1]);
      var note := log[|log| - 1].note;
      if ParseNote(codec, note).Ok? {
        ParsedIsNoteable(codec, note);
      }
    }
  }

  /** A shown total is the true one exactly when the true one fits 64 bits. */
  lemma {:induction false} ShownTotalIsTrue(used: seq<Used>, harness: string)
    requires forall i :: 0 <= i < |used| ==> used[i].tokens >= 0
    ensures Wrap64(TokensOf(used, harness)) == TokensOf(used, harness) <==> TokensOf(used, harness) <= MAX_INT64
    ensures 0 <= TokensOf(used, harness)
  {
    if used != [] {
      ShownTotalIsTrue(used[..|used| - 1], harness);
    }
  }

  /** Where `xs` comes from: the places of its elements in the log, rising. */
  predicate Rising(at: seq<nat>, length: nat) {
    && (forall i :: 0 <= i < |at| ==> at[i] < length)
    && (forall i, j :: 0 <= i < j < |at| ==> at[i] < at[j])
  }

  /** The usage that an event tells of, if it is a usage event whose note can be read. */
  predicate Tells(codec: Codec, e: StrategyEvent, u: Used) {
    e.kind == ResourceUsage && ParseNote(codec, e.note).Ok? && ParseNote(codec, e.note).value == u
  }

  /** `used` are the usages that the events at `at` tell of, and no other event tells of any. */
  ghost predicate ToldAt(codec: Codec, log: seq<StrategyEvent>, used: seq<Used>, at: seq<nat>) {
    && |at| == |used| && Rising(at, |log|)
    && (forall i :: 0 <= i < |at| ==> Tells(codec, log[at[i]], used[i]))
    && (forall n: nat, u :: n < |log| && Tells(codec, log[n], u) ==> n in at)
  }

  lemma ToldAtSnoc(codec: Codec, log: seq<StrategyEvent>, e: StrategyEvent, used: seq<Used>, at: seq<nat>)
    requires ToldAt(codec, log, used, at)
    ensures forall u :: Tells(codec, e, u) ==> ToldAt(codec, log + [e], used + [u], at + [|log|])
    ensures (forall u :: !Tells(codec, e, u)) ==> ToldAt(codec, log + [e], used, at)
  {
  }

  /** The usages are those that the events of the log tell of, one for each such event, in the order of the log. */
  lemma {:induction false} UsagesAre(codec: Codec, log: seq<StrategyEvent>) returns (at: seq<nat>)
    ensures ToldAt(codec, log, Usages(codec, log), at)
  {
    at := [];
    if log != [] {
      var last := |log| - 1;
      at := UsagesAre(codec, log[..last]);
      assert log == log[..last] + [log[last]];
      ToldAtSnoc(codec, log[..last], log[last], Usages(codec, log[..last]), at);
      if log[last].kind.ResourceUsage? && ParseNote(codec, log[last].note).Ok? {
        assert Tells(codec, log[last], ParseNote(codec, log[last].note).value);
        at := at + [last];
      }
    }
  }

  /** The costs listed for a harness are those of its usages, in order. */
  lemma {:induction false} CostsAre(used: seq<Used>, harness: string) returns (at: seq<nat>)
    ensures |at| == |CostsOf(used, harness)| && Rising(at, |used|)
    ensures forall i :: 0 <= i < |at| ==> used[at[i]].harness == harness && used[at[i]].cost == Some(CostsOf(used, harness)[i])
    ensures forall n: nat :: n < |used| && used[n].harness == harness && used[n].cost.Some? ==> n in at
  {
    at := [];
    if used != [] {
      var last := |used| - 1;
      at := CostsAre(used[..last], harness);
      if used[last].harness == harness && used[last].cost.Some? {
        at := at + [last];
      }
    }
  }

  /** Totals add up, from those of single usages: its tokens for the harness of the usage, nothing for others. */
  lemma {:induction false} TokensAdd(a: seq<Used>, b: seq<Used>, harness: string)
    ensures TokensOf(a + b, harness) == TokensOf(a, harness) + TokensOf(b, harness)
    ensures TokensOf([], harness) == 0
    ensures forall u: Used :: TokensOf([u], harness) == if u.harness == harness then u.tokens else 0
    decreases |b|
  {
    forall u: Used ensures TokensOf([u], harness) == if u.harness == harness then u.tokens else 0 {
      TokensSnoc([], u, harness);
      assert [] + [u] == [u];
    }
    if b == [] {
      assert a + b == a;
    } else {
      var last := |b| - 1;
      TokensAdd(a, b[..last], harness);
      assert (a + b)[..|a + b| - 1] == a + b[..last];
    }
  }

  datatype Total = Total(tokens: Int64, costs: seq<Cost>)

  /** The totals of `used`: for each harness its tokens, wrapped to 64 bits, and its costs. */
  ghost predicate TotalsOf(byHarness: map<string, Total>, order: seq<string>, used: seq<Used>) {
    && order == FirstUses(used)
    && (forall h :: h in byHarness <==> h in order)
    && (forall h :: h in byHarness ==> byHarness[h] == Total(Wrap64(TokensOf(used, h)), CostsOf(used, h)))
  }

  /** `u` entered in the totals of its harness. */
  function Entered(byHarness: map<string, Total>, u: Used): map<string, Total> {
    var t := Before(byHarness, u.harness);
    byHarness[u.harness := Total(Wrap64(t.tokens + u.tokens),
                                 if u.cost.Some? then t.costs + [u.cost.value] else t.costs)]
  }

  lemma TokensSnoc(used: seq<Used>, u: Used, harness: string)
    ensures TokensOf(used + [u], harness) == TokensOf(used, harness) + if u.harness == harness then u.tokens else 0
  {
    assert (used + [u])[..|used|] == used;
  }

  lemma CostsSnoc(used: seq<Used>, u: Used, harness: string)
    ensures CostsOf(used + [u], harness)
         == CostsOf(used, harness) + if u.harness == harness && u.cost.Some? then [u.cost.value] else []
  {
    assert (used + [u])[..|used|] == used;
  }

  lemma EnteredIsTotal(byHarness: map<string, Total>, order: seq<string>, used: seq<Used>, u: Used)
    requires TotalsOf(byHarness, order, used)
    ensures TotalsOf(Entered(byHarness, u), if u.harness in byHarness then order else order + [u.harness], used + [u])
  {
    assert (used + [u])[..|used|] == used;
    forall h | h in Entered(byHarness, u)
      ensures Entered(byHarness, u)[h] == Total(Wrap64(TokensOf(used + [u], h)), CostsOf(used + [u], h))
    {
      EnteredFor(byHarness, order, used, u, h);
    }
  }

  /** What the totals so far hold of a harness, or nothing. */
  function Before(byHarness: map<string, Total>, h: string): Total {
    if h in byHarness then byHarness[h] else Total(0, [])
  }

  lemma BeforeIsTotal(byHarness: map<string, Total>, order: seq<string>, used: seq<Used>, h: string)
    requires TotalsOf(byHarness, order, used)
    ensures Before(byHarness, h) == Total(Wrap64(TokensOf(used, h)), CostsOf(used, h))
  {
    if h !in byHarness {
      FirstUsesAre(used);
      UnusedHarness(used, h);
    }
  }

  lemma EnteredFor(byHarness: map<string, Total>, order: seq<string>, used: seq<Used>, u: Used, h: string)
    requires TotalsOf(byHarness, order, used) && h in Entered(byHarness, u)
    ensures Entered(byHarness, u)[h] == Total(Wrap64(TokensOf(used + [u], h)), CostsOf(used + [u], h))
  {
    BeforeIsTotal(byHarness, order, used, h);
    TokensSnoc(used, u, h);
    CostsSnoc(used, u, h);
    if h == u.harness {
      WrapsOnce(TokensOf(used, h), u.tokens);
    }
  }

  /** Totals the log by harness, lists the harnesses in the order of their first use, and says
      which usage events it has skipped because their notes cannot be read. */
  method UsageTotals(codec: Codec, log: seq<StrategyEvent>)
    returns (byHarness: map<string, Total>, order: seq<string>, skipped: seq<nat>)
    ensures TotalsOf(byHarness, order, Usages(codec, log))
    ensures forall i :: i in skipped <==> 0 <= i < |log| && log[i].kind.ResourceUsage? && ParseNote(codec, log[i].note).Err?
  {
    byHarness, order, skipped := map[], [], [];
    for n := 0 to |log|
      invariant TotalsOf(byHarness, order, Usages(codec, log[..n]))
      invariant forall i :: i in skipped <==> 0 <= i < n && log[i].kind.ResourceUsage? && ParseNote(codec, log[i].note).Err?
    {
      assert log[..n + 1][..n] == log[..n];
      if !log[n].kind.ResourceUsage? {
        continue;
      }
      var p := ParseResourceUsageNote(codec, log[n].note);
      if p.Err? {
        skipped := skipped + [n];
        continue;
      }
      var u := p.value;
      EnteredIsTotal(byHarness, order, Usages(codec, log[..n]), u);
      if u.harness !in byHarness {
        order := order + [u.harness];
      }
      byHarness := Entered(byHarness, u);
    }
    assert log[..|log|] == log;
  }

  // ---- Recap ----

  const RECENT_EVENTS_CAP := 10

  /** Where the last completed step stands, or the beginning. */
  predicate IsStart(log: seq<StrategyEvent>, start: nat) {
    && (start == 0 || (start < |log| && log[start].kind.StepCompleted?))
    && forall i :: start < i < |log| ==> !log[i].kind.StepCompleted?
  }

  /** The events from `start` on, at most the last ten of them. */
  function Recent(log: seq<StrategyEvent>, start: nat): seq<StrategyEvent>
    requires start <= |log|
  {
    log[if |log| - start > RECENT_EVENTS_CAP then |log| - RECENT_EVENTS_CAP else start..]
  }

  /** The events from the last completed step on, at most the last ten of them. */
  method RecentStrategyEvents(log: seq<StrategyEvent>) returns (recent: seq<StrategyEvent>)
    ensures exists start: nat :: start <= |log| && IsStart(log, start) && recent == Recent(log, start)
    ensures |recent| <= 10 && |recent| <= |log| && recent == log[|log| - |recent|..]
    ensures |recent| < 10 && |recent| < |log| ==> recent != [] && recent[0].kind.StepCompleted?
    ensures forall i :: |log| - |recent| < i < |log| ==> !log[i].kind.StepCompleted?
  {
    var start := 0;
    var i := |log| - 1;
    while i >= 0
      invariant -1 <= i < |log|
      invariant start == 0
      invariant forall j :: i < j < |log| ==> !log[j].kind.StepCompleted?
    {
      if log[i].kind.StepCompleted? {
        start := i;
        break;
      }
      i := i - 1;
    }
    ghost var cutoff := start;
    assert IsStart(log, cutoff);
    recent := log[start..];
    if |recent| > RECENT_EVENTS_CAP {
      recent := recent[|recent| - RECENT_EVENTS_CAP..];
    }
  }

  /** There is one such place, so what was recent is determined. */
  lemma StartIsUnique(log: seq<StrategyEvent>, a: nat, b: nat)
    requires IsStart(log, a) && IsStart(log, b) && a <= |log| && b <= |log|
    ensures a == b
  {
  }

  /** A recap is the last of the log, the last ten events or all since the last completed step if those are fewer. */
  lemma RecapIsLast(log: seq<StrategyEvent>, start: nat)
    requires IsStart(log, start) && start <= |log|
    ensures var recent := Recent(log, start);
      && |recent| == (if |log| - start < 10 then |log| - start else 10)
      && recent == log[|log| - |recent|..]
  {
  }

  /** A recap completes a step at most in its first event; and it is the whole log exactly if the log
      is short and no step but the very first event is a completed one. */
  lemma RecapShape(log: seq<StrategyEvent>, start: nat)
    requires IsStart(log, start) && start <= |log|
    ensures forall i :: 0 < i < |Recent(log, start)| ==> !Recent(log, start)[i].kind.StepCompleted?
    ensures |Recent(log, start)| == |log| <==>
      |log| <= 10 && forall i :: 0 < i < |log| ==> !log[i].kind.StepCompleted?
  {
    var recent := Recent(log, start);
    var from := |log| - |recent|;
    forall i | 0 < i < |recent| ensures !recent[i].kind.StepCompleted? {
      assert recent[i] == log[from + i];
    }
  }

  /** How a recap of a log with events in it is announced. */
  datatype Label = SinceLastCompleted | NoneCompletedYet

  function LabelOf(log: seq<StrategyEvent>, recent: seq<StrategyEvent>): Label {
    if |recent| == |log| then NoneCompletedYet else SinceLastCompleted
  }

  /** What an announcement says: that no step of the log is completed and the recap is all of it, or that
      the recap begins with the last completed step and leaves out nothing since. */
  ghost predicate IsTrue(heading: Label, log: seq<StrategyEvent>, recent: seq<StrategyEvent>) {
    match heading
    case NoneCompletedYet => recent == log && forall i :: 0 <= i < |log| ==> !log[i].kind.StepCompleted?
    case SinceLastCompleted => exists last :: BeginsAt(log, last, recent)
  }

  ghost predicate BeginsAt(log: seq<StrategyEvent>, last: nat, recent: seq<StrategyEvent>) {
    last < |log| && log[last].kind.StepCompleted? && IsStart(log, last) && recent == log[last..]
  }

  /** The announcement of a full log is true exactly if the log does not begin with a completed step, and the
      other exactly if one of the last ten events is a completed step. */
  lemma LabelIsTrue(log: seq<StrategyEvent>, start: nat)
    requires log != [] && IsStart(log, start) && start <= |log|
    ensures var recent := Recent(log, start);
      IsTrue(LabelOf(log, recent), log, recent) <==>
        if LabelOf(log, recent).NoneCompletedYet? then !log[0].kind.StepCompleted?
        else exists i :: 0 <= i < |log| && |log| - 10 <= i && log[i].kind.StepCompleted?
  {
    var recent := Recent(log, start);
    RecapShape(log, start);
    if LabelOf(log, recent).SinceLastCompleted? {
      if i :| 0 <= i < |log| && |log| - 10 <= i && log[i].kind.StepCompleted? {
        assert BeginsAt(log, start, recent);
      }
      if last :| BeginsAt(log, last, recent) {
        StartIsUnique(log, last, start);
        assert |recent| == |log| - start;
      }
    } else {
      assert recent == log;
    }
  }

  /** Neither is always true: a log whose first event completes a step, and one of more than
      ten events that completes none. */
  lemma LabelsMislead(first: StrategyEvent, other: StrategyEvent)
    requires first.kind.StepCompleted? && !other.kind.StepCompleted?
    ensures var log := [first];
      IsStart(log, 0) && LabelOf(log, Recent(log, 0)).NoneCompletedYet? && !IsTrue(NoneCompletedYet, log, Recent(log, 0))
    ensures var log := seq(11, i => other);
      IsStart(log, 0) && LabelOf(log, Recent(log, 0)).SinceLastCompleted? && !IsTrue(SinceLastCompleted, log, Recent(log, 0))
  {
    LabelIsTrue([first], 0);
    LabelIsTrue(seq(11, i => other), 0);
  }
}
