/** Reading deliveries page by page behind a cursor, while others keep writing. */
module Cursor {
  import opened Tables
  import opened Protocol
  import opened Invariant
  import opened Delivery
  import opened Text

  /** A propagation joined with its event, as a subscriber gets it. */
  datatype Delivered = Delivered(
    rowid: nat,
    interest: nat,
    event: nat,
    who: Identity,
    acknowledged: bool,
    resource: Resource,
    kind: EventKind,
    note: string,
    actor: Identity,
    holder: Identity,
    forced: bool)

  function Join(rowid: nat, p: Propagation, e: Event): Delivered {
    Delivered(rowid, p.interest, p.event, p.who, p.acknowledged, e.resource, e.kind, e.note, e.who, e.holder, e.forced)
  }

  /** The row that raises the bound by one, if it is one of `who`'s. */
  function RowsNext(db: Db, who: Identity, after: int, upTo: nat): (r: seq<Delivered>)
    requires 0 < upTo <= |db.propagations|
    ensures |r| <= 1 && (r != [] ==> r[0].rowid == upTo > after)
  {
    var p := db.propagations[upTo - 1];
    if p.who == who && upTo > after && p.event < |db.events| then [Join(upTo, p, db.events[p.event])] else []
  }

  /** The deliveries of `who` with a rowid above `after` and at most `upTo`, oldest first. */
  function Rows(db: Db, who: Identity, after: int, upTo: nat): seq<Delivered>
    requires upTo <= |db.propagations|
  {
    if upTo == 0 then [] else Rows(db, who, after, upTo - 1) + RowsNext(db, who, after, upTo)
  }

  function Take<T>(s: seq<T>, limit: int): seq<T> {
    if limit <= 0 then [] else if |s| <= limit then s else s[..limit]
  }

  /** One page: the first `limit` deliveries behind the cursor; a negative limit gives none. */
  function Page(db: Db, who: Identity, after: int, limit: int): seq<Delivered> {
    Take(Rows(db, who, after, |db.propagations|), limit)
  }

  function Advanced(cursor: int, page: seq<Delivered>): int {
    if page == [] then cursor else page[|page| - 1].rowid
  }

  /** What was delivered, apart from acknowledgements. */
  function Said(rows: seq<Delivered>): seq<Delivered> {
    seq(|rows|, i requires 0 <= i < |rows| => rows[i].(acknowledged := false))
  }

  lemma SaidConcat(a: seq<Delivered>, b: seq<Delivered>)
    ensures Said(a + b) == Said(a) + Said(b)
  {
  }

  /** Strictly rising rowids above `after` and at most `upTo`. */
  predicate Ascending(rows: seq<Delivered>, after: int, upTo: int) {
    && (forall i :: 0 <= i < |rows| ==> after < rows[i].rowid <= upTo)
    && (forall i, j :: 0 <= i < j < |rows| ==> rows[i].rowid < rows[j].rowid)
  }

  lemma {:induction false} RowsAscend(db: Db, who: Identity, after: int, upTo: nat)
    requires upTo <= |db.propagations|
    ensures Ascending(Rows(db, who, after, upTo), after, upTo)
  {
    if upTo > 0 {
      RowsAscend(db, who, after, upTo - 1);
      var init, next := Rows(db, who, after, upTo - 1), RowsNext(db, who, after, upTo);
      assert Ascending(init, after, upTo - 1);
      assert Ascending(init + next, after, upTo);
    }
  }

  lemma {:induction false} NoRowsBehind(db: Db, who: Identity, after: int, upTo: nat)
    requires upTo <= |db.propagations| && upTo <= after
    ensures Rows(db, who, after, upTo) == []
  {
    if upTo > 0 {
      NoRowsBehind(db, who, after, upTo - 1);
    }
  }

  lemma {:induction false} RowsSplit(db: Db, who: Identity, cursor: nat, upTo: nat)
    requires cursor <= upTo <= |db.propagations|
    ensures Rows(db, who, 0, upTo) == Rows(db, who, 0, cursor) + Rows(db, who, cursor, upTo)
    decreases upTo
  {
    if upTo == cursor {
      NoRowsBehind(db, who, cursor, cursor);
    } else {
      RowsSplit(db, who, cursor, upTo - 1);
      Reassociate(Rows(db, who, 0, cursor), Rows(db, who, cursor, upTo - 1), RowsNext(db, who, cursor, upTo));
    }
  }

  /** The page is all that lies between the old cursor and the new one. */
  predicate FillsGap(db: Db, who: Identity, cursor: nat, upTo: nat, page: seq<Delivered>)
    requires upTo <= |db.propagations|
  {
    cursor <= Advanced(cursor, page) <= upTo && page == Rows(db, who, cursor, Advanced(cursor, page))
  }

  lemma {:induction false} PageFillsGap(db: Db, who: Identity, cursor: nat, upTo: nat, limit: int)
    requires cursor <= upTo <= |db.propagations|
    ensures FillsGap(db, who, cursor, upTo, Take(Rows(db, who, cursor, upTo), limit))
    decreases upTo
  {
    var rows := Rows(db, who, cursor, upTo);
    if upTo == cursor {
      NoRowsBehind(db, who, cursor, cursor);
      assert Take(rows, limit) == [];
    } else {
      PageFillsGap(db, who, cursor, upTo - 1, limit);
      var init, next := Rows(db, who, cursor, upTo - 1), RowsNext(db, who, cursor, upTo);
      TakeNext(init, next, limit);
      if next == [] || |init| >= limit {
        GapWidens(db, who, cursor, upTo, Take(init, limit));
      } else {
        LastRow(init, next, cursor);
        assert Take(rows, limit) == rows && Advanced(cursor, rows) == upTo;
      }
    }
  }

  lemma GapWidens(db: Db, who: Identity, cursor: nat, upTo: nat, page: seq<Delivered>)
    requires 0 < upTo <= |db.propagations| && FillsGap(db, who, cursor, upTo - 1, page)
    ensures FillsGap(db, who, cursor, upTo, page)
  {
  }

  lemma LastRow(init: seq<Delivered>, next: seq<Delivered>, cursor: int)
    requires |next| == 1
    ensures Advanced(cursor, init + next) == next[0].rowid
  {
  }

  lemma TakeNext(init: seq<Delivered>, next: seq<Delivered>, limit: int)
    requires |next| <= 1
    ensures Take(init + next, limit) == if next == [] || |init| >= limit then Take(init, limit) else init + next
  {
    assert next == [] ==> init + next == init;
  }

  /** Propagation number `n`, counted from one, is `who`'s and its event is there. */
  predicate IsMine(db: Db, who: Identity, n: int) {
    0 < n <= |db.propagations| && db.propagations[n - 1].who == who && db.propagations[n - 1].event < |db.events|
  }

  /** `d` says of its propagation and of the event it shows what the store says of them. */
  predicate SaysWhatIs(db: Db, d: Delivered)
    requires 0 < d.rowid <= |db.propagations| && db.propagations[d.rowid - 1].event < |db.events|
  {
    var p := db.propagations[d.rowid - 1];
    var e := db.events[p.event];
    && d.interest == p.interest && d.event == p.event && d.who == p.who && d.acknowledged == p.acknowledged
    && d.resource == e.resource && d.kind == e.kind && d.note == e.note
    && d.actor == e.who && d.holder == e.holder && d.forced == e.forced
  }

  /** How many of `who`'s propagations have a rowid above `after` and below `n`. */
  function Before(db: Db, who: Identity, after: int, n: nat): nat {
    if n == 0 then 0 else Before(db, who, after, n - 1) + if after < n - 1 && IsMine(db, who, n - 1) then 1 else 0
  }

  /** A delivery behind the cursor, told as the store has it. */
  predicate IsDelivery(db: Db, who: Identity, after: int, d: Delivered) {
    after < d.rowid && IsMine(db, who, d.rowid) && SaysWhatIs(db, d)
  }

  /** The `i`-th row is a delivery with `i` of `who`'s between it and the cursor. */
  ghost predicate AllRows(db: Db, who: Identity, after: int, rows: seq<Delivered>) {
    forall i :: 0 <= i < |rows| ==> IsDelivery(db, who, after, rows[i]) && Before(db, who, after, rows[i].rowid) == i
  }

  lemma NextRow(db: Db, who: Identity, after: int, upTo: nat)
    requires 0 < upTo <= |db.propagations|
    ensures var next := RowsNext(db, who, after, upTo);
      && |next| == (if after < upTo && IsMine(db, who, upTo) then 1 else 0)
      && (next != [] ==> next[0].rowid == upTo && IsDelivery(db, who, after, next[0]))
  {
  }

  /** The rows are deliveries, and there are as many as there are propagations of `who`'s behind the cursor. */
  lemma {:induction false} RowsMean(db: Db, who: Identity, after: int, upTo: nat)
    requires upTo <= |db.propagations|
    ensures |Rows(db, who, after, upTo)| == Before(db, who, after, upTo + 1)
    ensures AllRows(db, who, after, Rows(db, who, after, upTo))
  {
    if upTo > 0 {
      RowsMean(db, who, after, upTo - 1);
      NextRow(db, who, after, upTo);
    }
  }

  /** No propagation of `who`'s behind the cursor is left out. */
  lemma {:induction false} RowsHave(db: Db, who: Identity, after: int, upTo: nat, n: nat)
    requires after < n <= upTo <= |db.propagations| && IsMine(db, who, n)
    ensures var rows, i := Rows(db, who, after, upTo), Before(db, who, after, n);
      i < |rows| && rows[i].rowid == n
  {
    var init, next := Rows(db, who, after, upTo - 1), RowsNext(db, who, after, upTo);
    assert Rows(db, who, after, upTo) == init + next;
    if n < upTo {
      RowsHave(db, who, after, upTo - 1, n);
      assert (init + next)[Before(db, who, after, n)] == init[Before(db, who, after, n)];
    } else {
      var count := |Rows(db, who, after, upTo - 1)|;
      RowsCount(db, who, after, upTo - 1);
      NextRow(db, who, after, upTo);
      assert (init + next)[count] == next[0];
    }
  }

  lemma RowsCount(db: Db, who: Identity, after: int, upTo: nat)
    requires upTo <= |db.propagations|
    ensures |Rows(db, who, after, upTo)| == Before(db, who, after, upTo + 1)
  {
    RowsMean(db, who, after, upTo);
  }

  /** A page holds exactly the deliveries of `who` behind the cursor that have fewer than `limit` of them before
      them, each once and oldest first, and tells of each what the store says. */
  lemma PageMeans(db: Db, who: Identity, after: int, limit: int, d: Delivered)
    ensures d in Page(db, who, after, limit) <==>
      IsDelivery(db, who, after, d) && Before(db, who, after, d.rowid) < limit
    ensures Ascending(Page(db, who, after, limit), after, |db.propagations|)
  {
    RowsAscend(db, who, after, |db.propagations|);
    if d in Page(db, who, after, limit) {
      PagedIsDelivery(db, who, after, limit, d);
    }
    if IsDelivery(db, who, after, d) && Before(db, who, after, d.rowid) < limit {
      DeliveryIsPaged(db, who, after, limit, d);
    }
  }

  lemma PagedIsDelivery(db: Db, who: Identity, after: int, limit: int, d: Delivered)
    requires d in Page(db, who, after, limit)
    ensures IsDelivery(db, who, after, d) && Before(db, who, after, d.rowid) < limit
  {
    var rows := Rows(db, who, after, |db.propagations|);
    RowsMean(db, who, after, |db.propagations|);
    var i :| 0 <= i < |rows| && i < limit && rows[i] == d;
  }

  lemma DeliveryIsPaged(db: Db, who: Identity, after: int, limit: int, d: Delivered)
    requires IsDelivery(db, who, after, d) && Before(db, who, after, d.rowid) < limit
    ensures d in Page(db, who, after, limit)
  {
    var rows, i := Rows(db, who, after, |db.propagations|), Before(db, who, after, d.rowid);
    RowsMean(db, who, after, |db.propagations|);
    RowsHave(db, who, after, |db.propagations|, d.rowid);
    assert rows[i] == d;
    assert Page(db, who, after, limit)[i] == d;
  }

  /** Propagations are only added, keep what they say, and have their events. */
  predicate Extends(db: Db, db': Db) {
    && db.events <= db'.events
    && |db.propagations| <= |db'.propagations|
    && (forall j :: 0 <= j < |db.propagations| ==> Content(db'.propagations[j]) == Content(db.propagations[j]))
    && (forall j :: 0 <= j < |db.propagations| ==> db.propagations[j].event < |db.events|)
  }

  lemma {:induction false} RowsKept(db: Db, db': Db, who: Identity, upTo: nat)
    requires Extends(db, db') && upTo <= |db.propagations|
    ensures Said(Rows(db', who, 0, upTo)) == Said(Rows(db, who, 0, upTo))
  {
    if upTo > 0 {
      RowsKept(db, db', who, upTo - 1);
      var p, p' := db.propagations[upTo - 1], db'.propagations[upTo - 1];
      assert Content(p) == Content(p');
      SaidConcat(Rows(db, who, 0, upTo - 1), RowsNext(db, who, 0, upTo));
      SaidConcat(Rows(db', who, 0, upTo - 1), RowsNext(db', who, 0, upTo));
    }
  }

  lemma {:induction false} ExtendsAlong(run: Run, i: nat, j: nat)
    requires run.Valid() && Initial(run.states[0]) && i <= j < |run.states|
    ensures Extends(run.states[i].db, run.states[j].db)
    decreases j
  {
    InitialInv(run.states[0]);
    InvAlong(run, 0, i);
    var db := run.states[i].db;
    assert forall m :: 0 <= m < |db.propagations| ==> PropagationOk(db, db.propagations[m]);
    if i < j {
      ExtendsAlong(run, i, j - 1);
      InvAlong(run, 0, j - 1);
      InvAlong(run, j - 1, j);
      StepInserts(run, j - 1);
    }
  }

  /** A poll: the store as it then is, and how many rows are asked for. */
  datatype Poll = Poll(db: Db, limit: int)

  /** The store is only ever extended from poll to poll. */
  ghost predicate Growing(polls: seq<Poll>) {
    forall i, j :: 0 <= i < j < |polls| ==> Extends(polls[i].db, polls[j].db)
  }

  /** Polls made as a run goes on. */
  lemma RunPollsGrow(run: Run, at: seq<nat>, polls: seq<Poll>)
    requires run.Valid() && Initial(run.states[0]) && |at| == |polls|
    requires forall i :: 0 <= i < |at| ==> at[i] < |run.states| && polls[i].db == run.states[at[i]].db
    requires forall i, j :: 0 <= i < j < |at| ==> at[i] <= at[j]
    ensures Growing(polls)
  {
    forall i, j | 0 <= i < j < |polls| ensures Extends(polls[i].db, polls[j].db) {
      ExtendsAlong(run, at[i], at[j]);
    }
  }

  /** The cursor after the polls, and all the pages they have sent. */
  function Sent(who: Identity, polls: seq<Poll>): (int, seq<Delivered>) {
    if polls == [] then (0, [])
    else
      var (cursor, sent) := Sent(who, polls[..|polls| - 1]);
      var poll := polls[|polls| - 1];
      var page := Page(poll.db, who, cursor, poll.limit);
      (Advanced(cursor, page), sent + page)
  }

  /** One more page behind a cursor up to which all has been sent. */
  lemma PageExtends(db: Db, who: Identity, cursor: nat, sent: seq<Delivered>, limit: int)
    requires cursor <= |db.propagations| && Said(sent) == Said(Rows(db, who, 0, cursor))
    ensures var page := Page(db, who, cursor, limit);
      && 0 <= Advanced(cursor, page) <= |db.propagations|
      && Said(sent + page) == Said(Rows(db, who, 0, Advanced(cursor, page)))
  {
    var page := Page(db, who, cursor, limit);
    PageFillsGap(db, who, cursor, |db.propagations|, limit);
    RowsSplit(db, who, cursor, Advanced(cursor, page));
    SaidConcat(sent, page);
    SaidConcat(Rows(db, who, 0, cursor), page);
  }

  /** Whatever is written between the polls of a session and whatever their limits, the pages sent are,
      one after the other, every delivery of the identity up to the cursor, once each and in order. */
  lemma {:induction false} EachDeliveryOnce(who: Identity, polls: seq<Poll>)
    requires Growing(polls) && polls != []
    ensures var db := polls[|polls| - 1].db;
      var (cursor, sent) := Sent(who, polls);
      && 0 <= cursor <= |db.propagations|
      && Said(sent) == Said(Rows(db, who, 0, cursor))
    decreases |polls|
  {
    var n := |polls| - 1;
    var db := polls[n].db;
    var (cursor, sent) := Sent(who, polls[..n]);
    if n > 0 {
      EachDeliveryOnce(who, polls[..n]);
      assert Extends(polls[n - 1].db, db);
      RowsKept(polls[n - 1].db, db, who, cursor);
    }
    PageExtends(db, who, cursor, sent, polls[n].limit);
  }

  function Min(a: int, b: int): int {
    if a <= b then a else b
  }

  lemma TakeSize<T>(s: seq<T>, limit: nat)
    ensures |Take(s, limit)| == Min(limit, |s|)
  {
  }

  lemma PageSize(db: Db, who: Identity, cursor: nat, limit: nat)
    requires cursor <= |db.propagations|
    ensures |Page(db, who, cursor, limit)| == Min(limit, Total(db, who) - |Rows(db, who, 0, cursor)|)
  {
    var n := |db.propagations|;
    RowsSplit(db, who, cursor, n);
    assert Total(db, who) == |Rows(db, who, 0, cursor) + Rows(db, who, cursor, n)|;
    TakeSize(Rows(db, who, cursor, n), limit);
  }

  function Repeated(poll: Poll, m: nat): (polls: seq<Poll>)
    ensures |polls| == m && forall i :: 0 <= i < m ==> polls[i] == poll
  {
    if m == 0 then [] else Repeated(poll, m - 1) + [poll]
  }

  lemma OnePollMore(db: Db, who: Identity, limit: nat, m: nat)
    requires m > 0
    ensures var (cursor, sent) := Sent(who, Repeated(Poll(db, limit), m - 1));
      var page := Page(db, who, cursor, limit);
      Sent(who, Repeated(Poll(db, limit), m)) == (Advanced(cursor, page), sent + page)
  {
    var polls := Repeated(Poll(db, limit), m);
    assert polls[..m - 1] == Repeated(Poll(db, limit), m - 1);
    assert polls[m - 1] == Poll(db, limit);
  }

  lemma {:induction false} CursorCounts(db: Db, who: Identity, limit: nat, m: nat)
    ensures var (cursor, sent) := Sent(who, Repeated(Poll(db, limit), m));
      && 0 <= cursor <= |db.propagations|
      && Said(sent) == Said(Rows(db, who, 0, cursor)) && |sent| == |Rows(db, who, 0, cursor)|
  {
    if m > 0 {
      CursorCounts(db, who, limit, m - 1);
      var (cursor, sent) := Sent(who, Repeated(Poll(db, limit), m - 1));
      OnePollMore(db, who, limit, m);
      PageExtends(db, who, cursor, sent, limit);
      var (cursor', sent') := Sent(who, Repeated(Poll(db, limit), m));
      assert |Said(sent')| == |Said(Rows(db, who, 0, cursor'))|;
    }
  }

  function Total(db: Db, who: Identity): nat {
    |Rows(db, who, 0, |db.propagations|)|
  }

  /** `m` pages of `limit` rows. */
  function Pages(m: nat, limit: nat): nat {
    if m == 0 then 0 else Pages(m - 1, limit) + limit
  }

  lemma {:induction false} PagesAre(m: nat, limit: nat)
    ensures Pages(m, limit) == m * limit
  {
    if m > 0 {
      PagesAre(m - 1, limit);
      assert m * limit == (m - 1) * limit + limit;
    }
  }

  lemma PageCounts(db: Db, who: Identity, cursor: nat, sent: seq<Delivered>, limit: nat)
    requires cursor <= |db.propagations| && |sent| == |Rows(db, who, 0, cursor)|
    ensures |sent + Page(db, who, cursor, limit)| == Min(|sent| + limit, Total(db, who))
  {
    PageSize(db, who, cursor, limit);
  }

  function CountSent(db: Db, who: Identity, limit: nat, m: nat): nat {
    |Sent(who, Repeated(Poll(db, limit), m)).1|
  }

  lemma PollCounts(db: Db, who: Identity, limit: nat, m: nat)
    requires m > 0
    ensures CountSent(db, who, limit, m) == Min(CountSent(db, who, limit, m - 1) + limit, Total(db, who))
  {
    CursorCounts(db, who, limit, m - 1);
    OnePollMore(db, who, limit, m);
    var (cursor, sent) := Sent(who, Repeated(Poll(db, limit), m - 1));
    PageCounts(db, who, cursor, sent, limit);
  }

  lemma {:induction false} PollsCount(db: Db, who: Identity, limit: nat, m: nat)
    ensures CountSent(db, who, limit, m) == Min(Pages(m, limit), Total(db, who))
  {
    if m > 0 {
      PollsCount(db, who, limit, m - 1);
      PollCounts(db, who, limit, m);
      assert Pages(m, limit) == Pages(m - 1, limit) + limit;
    }
  }

  /** With nothing more written, `m` polls send the first `m * limit` deliveries of the identity, or all of
      them; so they have sent each delivery there is, once and in order, if and only if
      `m` pages can hold them all. */
  lemma PollsDrain(db: Db, who: Identity, limit: nat, m: nat)
    ensures var all, sent := Rows(db, who, 0, |db.propagations|), Sent(who, Repeated(Poll(db, limit), m)).1;
      && Said(sent) == Said(Take(all, m * limit))
      && (Said(sent) == Said(all) <==> |all| <= m * limit)
  {
    var n := |db.propagations|;
    var (cursor, sent) := Sent(who, Repeated(Poll(db, limit), m));
    CursorCounts(db, who, limit, m);
    PollsCount(db, who, limit, m);
    PagesAre(m, limit);
    RowsSplit(db, who, cursor, n);
    var all := Rows(db, who, 0, n);
    assert Rows(db, who, 0, cursor) == all[..|sent|];
    assert |Said(sent)| == |sent| && |Said(all)| == |all|;
  }

  /** How many propagations of `who` there are. */
  function Addressed(ps: seq<Propagation>, who: Identity): nat {
    if ps == [] then 0
    else Addressed(ps[..|ps| - 1], who) + if ps[|ps| - 1].who == who then 1 else 0
  }

  /** The join with the events loses no propagation. */
  lemma {:induction false} JoinKeepsAll(db: Db, who: Identity, upTo: nat)
    requires DbOk(db) && upTo <= |db.propagations|
    ensures |Rows(db, who, 0, upTo)| == Addressed(db.propagations[..upTo], who)
  {
    if upTo > 0 {
      JoinKeepsAll(db, who, upTo - 1);
      assert PropagationOk(db, db.propagations[upTo - 1]);
      assert db.propagations[..upTo][..upTo - 1] == db.propagations[..upTo - 1];
    }
  }
}
