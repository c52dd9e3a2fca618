/** Rows and tables of the coordination database, the 64-bit arithmetic done on
    them, and the conditions that the SQL statements evaluate. */
module Tables {

  datatype Option<+T> = None | Some(value: T)

  const MAX_INT64: int := 0x7FFF_FFFF_FFFF_FFFF
  const TWO_64: int := 0x1_0000_0000_0000_0000

  /** The longest lease whose length in milliseconds still fits 64 bits. */
  const MAX_LEASE: int := 9223372036854775

  type Int64 = n: int | -MAX_INT64 - 1 <= n <= MAX_INT64

  /** Milliseconds since the epoch, as the clock gives them. */
  type Millis = t: int | 0 <= t <= MAX_INT64

  type Identity = string
  type Resource = string

  /** Two's-complement wrap-around of a mathematical result. */
  function Wrap64(n: int): (r: Int64)
    ensures exists k :: r == n + k * TWO_64
    ensures -MAX_INT64 - 1 <= n <= MAX_INT64 ==> r == n
  {
    var r := (n + MAX_INT64 + 1) % TWO_64 - MAX_INT64 - 1;
    assert r == n + (-((n + MAX_INT64 + 1) / TWO_64)) * TWO_64;
    r
  }

  /** A row of `locks`; the two lease columns are nullable. */
  datatype Row = Row(
    holder: Identity,
    note: string,
    acquiredAt: Millis,
    strategy: string,
    leaseSeconds: Option<Int64>,
    renewedAt: Option<Millis>)

  datatype EventKind = AcquiredEvent | DeniedEvent | ReleasedEvent | ReclaimedEvent

  /** A row of `lock_events`; its identifier is its position in the table. */
  datatype Event = Event(
    resource: Resource,
    kind: EventKind,
    who: Identity,
    holder: Identity,
    note: string,
    strategy: string,
    forced: bool)

  datatype Status = Active | Paused

  /** A row of `interests`; its identifier is its position in the table. */
  datatype Interest = Interest(who: Identity, resource: Resource, status: Status, tag: string)

  /** A row of `propagations`; its rowid is its position in the table plus one. */
  datatype Propagation = Propagation(interest: nat, event: nat, who: Identity, acknowledged: bool)

  datatype Db = Db(
    locks: map<Resource, Row>,
    events: seq<Event>,
    interests: seq<Interest>,
    propagations: seq<Propagation>,
    strategies: set<string>)

  const EMPTY_DB := Db(map[], [], [], [], {})

  predicate ValidResourceName(resource: Resource) {
    '\n' !in resource && '\r' !in resource
  }

  function RowAt(db: Db, resource: Resource): Option<Row> {
    if resource in db.locks then Some(db.locks[resource]) else None
  }

  function HolderAt(db: Db, resource: Resource): Option<Identity> {
    if resource in db.locks then Some(db.locks[resource].holder) else None
  }

  /** Both lease columns are set or both are null, and a stored lease is positive. */
  predicate RowOk(row: Row) {
    && row.leaseSeconds.Some? == row.renewedAt.Some?
    && (row.leaseSeconds.Some? ==> row.leaseSeconds.value > 0)
  }

  function LeaseColumn(lease: Int64): Option<Int64> {
    if lease <= 0 then None else Some(lease)
  }

  function RenewedColumn(lease: Int64, now: Millis): Option<Millis> {
    if lease <= 0 then None else Some(now)
  }

  /** The staleness test done on a scanned row, in 64-bit arithmetic. */
  predicate Expired(row: Row, now: Millis) {
    && row.leaseSeconds.Some? && row.leaseSeconds.value > 0
    && row.renewedAt.Some?
    && Wrap64(now - row.renewedAt.value) >= Wrap64(row.leaseSeconds.value * 1000)
  }

  /** The condition under which the reclaiming UPDATE takes a row. */
  predicate Reclaimable(row: Row, now: Millis) {
    && row.leaseSeconds.Some? && row.renewedAt.Some?
    && now - row.renewedAt.value >= row.leaseSeconds.value * 1000
  }

  /** The condition under which the renewing UPDATE takes a row. */
  predicate Renewable(row: Row, now: Millis) {
    && row.leaseSeconds.Some? && row.renewedAt.Some?
    && now - row.renewedAt.value < row.leaseSeconds.value * 1000
  }

  /** Exactly when the test on a scanned row and the conditions of the two UPDATEs decide alike. */
  lemma ExpiryTestsAgree(row: Row, now: Millis)
    requires RowOk(row) && row.leaseSeconds.Some?
    ensures Renewable(row, now) <==> !Reclaimable(row, now)
    ensures (Expired(row, now) <==> Reclaimable(row, now))
       <==> (row.leaseSeconds.value <= MAX_LEASE || now - row.renewedAt.value < Wrap64(row.leaseSeconds.value * 1000))
  {
    var lease := row.leaseSeconds.value;
    if lease > MAX_LEASE {
      assert lease * 1000 > MAX_INT64;
    }
  }

  /** A row that may be reclaimed always reads as expired, whatever its lease. */
  lemma ReclaimableReadsExpired(row: Row, now: Millis)
    requires RowOk(row) && Reclaimable(row, now)
    ensures Expired(row, now)
  {
    ExpiryTestsAgree(row, now);
    assert row.leaseSeconds.value * 1000 <= now - row.renewedAt.value <= MAX_INT64;
  }

  /** One second past the longest lease, the product wraps and a fresh lease reads as expired. */
  lemma FreshLeaseReadsExpired(row: Row, now: Millis)
    requires row.leaseSeconds == Some(MAX_LEASE + 1) && row.renewedAt == Some(now)
    ensures Expired(row, now) && !Reclaimable(row, now)
  {
    assert (MAX_LEASE + 1) * 1000 == MAX_INT64 + 193;
  }

  /** The newest event on `resource`, if there is one. */
  function LastEvent(events: seq<Event>, resource: Resource): (e: Option<nat>)
    ensures e.Some? ==> e.value < |events| && events[e.value].resource == resource
    ensures e.Some? ==> forall i :: e.value < i < |events| ==> events[i].resource != resource
    ensures e.None? ==> forall i :: 0 <= i < |events| ==> events[i].resource != resource
  {
    if |events| == 0 then None
    else if events[|events| - 1].resource == resource then Some(|events| - 1)
    else LastEvent(events[..|events| - 1], resource)
  }

  datatype Subscriber = Subscriber(interest: nat, who: Identity)

  predicate Subscribed(interests: seq<Interest>, i: int, resource: Resource) {
    0 <= i < |interests| && interests[i].resource == resource && interests[i].status == Active
  }

  /** The interests active on `resource`, in table order. */
  function ActiveOn(interests: seq<Interest>, resource: Resource): (subs: seq<Subscriber>)
    ensures forall k :: 0 <= k < |subs| ==>
      Subscribed(interests, subs[k].interest, resource) && interests[subs[k].interest].who == subs[k].who
    ensures forall j, k :: 0 <= j < k < |subs| ==> subs[j].interest < subs[k].interest
    ensures forall i :: Subscribed(interests, i, resource) ==> Subscriber(i, interests[i].who) in subs
  {
    if |interests| == 0 then []
    else
      var last := |interests| - 1;
      var init := ActiveOn(interests[..last], resource);
      if Subscribed(interests, last, resource) then init + [Subscriber(last, interests[last].who)] else init
  }

  /** The first active interest of `who` on `resource`, if there is one. */
  function FirstActive(interests: seq<Interest>, who: Identity, resource: Resource): (e: Option<nat>)
    ensures e.Some? ==> Subscribed(interests, e.value, resource) && interests[e.value].who == who
    ensures e.None? ==> forall i :: Subscribed(interests, i, resource) ==> interests[i].who != who
  {
    if |interests| == 0 then None
    else
      var last := |interests| - 1;
      var init := FirstActive(interests[..last], who, resource);
      if init.Some? then init
      else if Subscribed(interests, last, resource) && interests[last].who == who then Some(last)
      else None
  }
}
