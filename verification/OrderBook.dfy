/** The enclave order book as a value: what each call on the store computes.
    The class in Store.dfy is proved against these functions. */
module OrderBook {
  import opened Numbers

  datatype Status = Open | Executed | Cancelled

  /** One confidential order. `trigger` is the fixed trigger price and `high`
      the private high-watermark of a trailing order; both are USD per FLR with
      six decimals and either can be missing. */
  datatype Order = Order(id: nat, trigger: Option<int>, trailBps: nat, high: Option<int>, status: Status)

  /** `latest` is the last trusted sample and `latestAt` when it was taken, in
      nanoseconds since the Unix epoch. */
  datatype Book = Book(orders: map<nat, Order>, latest: Option<int>, latestAt: int)

  datatype PutOutcome = Stored | AlreadyExists | BadIdentity | BadPolicy

  const SECOND: int := 1_000_000_000
  const TRAILING_SAMPLE_MAX_AGE: int := 10 * SECOND
  // 1 January of year 1, the zero value of Go's time.Time.
  const ZERO_TIME: int := -62_135_596_800 * SECOND

  const Empty := Book(map[], None, ZERO_TIME)

  predicate TrailingReady(b: Book, now: int) {
    && b.latest.Some?
    && b.latestAt != ZERO_TIME
    && 0 <= now - b.latestAt <= TRAILING_SAMPLE_MAX_AGE
  }

  predicate IsFixed(o: Order) {
    o.trigger.Some? && 0 < o.trigger.value < TWO_256 && o.trailBps == 0 && o.high.None?
  }

  predicate IsTrailing(b: Book, o: Order, now: int) {
    o.trigger.None? && 25 <= o.trailBps <= 5000 && o.high.None? && TrailingReady(b, now)
  }

  /** Which of the checks of `Put` an order meets first. */
  function PutCheck(b: Book, o: Order, now: int): PutOutcome {
    if o.id in b.orders then AlreadyExists
    else if o.id == 0 || o.status != Open then BadIdentity
    else if !IsFixed(o) && !IsTrailing(b, o, now) then BadPolicy
    else Stored
  }

  /** The order as it is stored: a trailing order starts from the last sample. */
  function Seeded(b: Book, o: Order, now: int): Order {
    if IsTrailing(b, o, now) then o.(high := b.latest) else o
  }

  function Put(b: Book, o: Order, now: int): Book {
    if PutCheck(b, o, now) == Stored
    then b.(orders := b.orders[o.id := Seeded(b, o, now)])
    else b
  }

  function Delete(b: Book, id: nat): Book {
    b.(orders := b.orders - {id})
  }

  predicate IsOpen(b: Book, id: nat) {
    id in b.orders && b.orders[id].status == Open
  }

  function MarkExecuted(b: Book, id: nat): Book {
    if IsOpen(b, id)
    then b.(orders := b.orders[id := b.orders[id].(status := Executed)])
    else b
  }

  function Observe(b: Book, price: Option<int>, at: int): Book {
    if price.Some? && price.value > 0 && at != ZERO_TIME
    then b.(latest := price, latestAt := at)
    else b
  }

  /** `10_000 - trailBps` in the source's uint16 arithmetic. */
  function Kept(trailBps: nat): nat {
    (10_000 - trailBps) % 0x1_0000
  }

  function TrailTrigger(high: int, trailBps: nat): int {
    high * Kept(trailBps) / 10_000
  }

  /** The trigger an order stands for, whatever its policy. */
  function TriggerOf(o: Order): Option<int> {
    if o.trailBps == 0 then o.trigger
    else if o.high.None? then None
    else Some(TrailTrigger(o.high.value, o.trailBps))
  }

  function EffectiveTrigger(b: Book, id: nat): Option<int> {
    if IsOpen(b, id) then TriggerOf(b.orders[id]) else None
  }

  /** One order after a sample: an open trailing order takes a higher watermark. */
  function Raise(o: Order, price: int): Order {
    if o.status == Open && o.trailBps > 0 && (o.high.None? || price > o.high.value)
    then o.(high := Some(price))
    else o
  }

  predicate ValidSample(price: Option<int>) {
    price.Some? && price.value > 0
  }

  /** The book after `TriggeredOrders(price)`. */
  function Raised(b: Book, price: Option<int>): Book {
    if ValidSample(price)
    then b.(orders := map id | id in b.orders :: Raise(b.orders[id], price.value))
    else b
  }

  /** The book with only the orders `done` raised. */
  ghost function PartlyRaised(b: Book, done: set<nat>, price: int): Book {
    b.(orders := map id | id in b.orders :: if id in done then Raise(b.orders[id], price) else b.orders[id])
  }

  /** Does this order, with its watermark already raised, fire at `price`? */
  predicate Fires(o: Order, price: int) {
    o.status == Open && TriggerOf(o).Some? && price <= TriggerOf(o).value
  }

  /** The reported copy of an order carries its effective trigger. */
  function Revealed(o: Order): Order {
    o.(trigger := TriggerOf(o))
  }

  ghost function FiringIds(b: Book, price: int): set<nat> {
    set id | id in b.orders && Fires(b.orders[id], price)
  }

  /** Some orders of the book, sorted by id: what the source's collect-then-sort
      loops return. */
  ghost function Listing(orders: map<nat, Order>, ids: set<nat>): (r: seq<Order>)
    requires ids <= orders.Keys
    ensures |r| == |SortedIds(ids)|
    ensures forall i :: 0 <= i < |r| ==> r[i] == orders[SortedIds(ids)[i]]
  {
    seq(|SortedIds(ids)|, i requires 0 <= i < |SortedIds(ids)| => orders[SortedIds(ids)[i]])
  }

  ghost function OpenIds(b: Book): (ids: set<nat>)
    ensures ids <= b.orders.Keys
  {
    set id | id in b.orders && b.orders[id].status == Open
  }

  ghost function OpenOrders(b: Book): seq<Order> {
    Listing(b.orders, OpenIds(b))
  }

  ghost function Snapshot(b: Book): seq<Order> {
    Listing(b.orders, b.orders.Keys)
  }

  ghost function RevealAll(b: Book): map<nat, Order> {
    map id | id in b.orders :: Revealed(b.orders[id])
  }

  /** The result of `TriggeredOrders(price)`: every order that fires, by id. */
  ghost function Triggered(b: Book, price: Option<int>): (r: seq<Order>)
    ensures forall o <- r :: o.trigger.Some?
  {
    if ValidSample(price)
    then Listing(RevealAll(Raised(b, price)), FiringIds(Raised(b, price), price.value))
    else []
  }

  // ----- orders by id

  ghost function MinId(ids: set<nat>): (m: nat)
    requires ids != {}
    ensures m in ids && forall i <- ids :: m <= i
  {
    var x :| x in ids;
    if ids == {x} then x
    else
      var m := MinId(ids - {x});
      assert forall i <- ids :: i == x || i in ids - {x};
      if x < m then x else m
  }

  ghost function SortedIds(ids: set<nat>): (r: seq<nat>)
    ensures forall i :: 0 <= i < |r| ==> r[i] in ids
    ensures forall i <- ids :: i in r
    ensures forall i, j :: 0 <= i < j < |r| ==> r[i] < r[j]
  {
    if ids == {} then []
    else
      var m := MinId(ids);
      [m] + SortedIds(ids - {m})
  }

  lemma {:induction false} SortedSize(ids: set<nat>)
    ensures |SortedIds(ids)| == |ids|
  {
    if ids != {} {
      SortedSize(ids - {MinId(ids)});
    }
  }

  lemma SubsetSize(a: set<nat>, b: set<nat>)
    requires a <= b
    ensures |a| <= |b|
  {
    assert |b| == |a| + |b - a| by {
      assert b == a + (b - a);
    }
  }

  ghost predicate Ascending(s: seq<Order>) {
    forall i, j :: 0 <= i < j < |s| ==> s[i].id < s[j].id
  }

  /** A set of orders has only one listing. */
  lemma {:induction false} ListingUnique(s: seq<Order>, t: seq<Order>)
    requires Ascending(s) && Ascending(t)
    requires forall o :: o in s <==> o in t
    ensures s == t
    decreases |s|
  {
    assert |t| > 0 ==> t[0] in t;
    if s != [] {
      assert s[0] in s && t != [];
      assert s[0] in t && t[0] in t && t[0] in s;
      assert s[0] == t[0];
      forall o ensures o in s[1..] <==> o in t[1..] {
        if o in s[1..] {
          var i :| 1 <= i < |s| && s[i] == o;
          assert o in t;
        }
        if o in t[1..] {
          var i :| 1 <= i < |t| && t[i] == o;
          assert o in s;
        }
      }
      ListingUnique(s[1..], t[1..]);
    }
  }

  lemma ListingHas(orders: map<nat, Order>, ids: set<nat>, id: nat)
    requires ids <= orders.Keys && id in ids
    ensures orders[id] in Listing(orders, ids)
  {
    var sorted := SortedIds(ids);
    var j :| 0 <= j < |sorted| && sorted[j] == id;
    assert Listing(orders, ids)[j] == orders[id];
  }

  lemma ListingAscends(orders: map<nat, Order>, ids: set<nat>)
    requires ids <= orders.Keys && forall id <- ids :: orders[id].id == id
    ensures Ascending(Listing(orders, ids))
    ensures forall o <- Listing(orders, ids) :: o.id in ids && orders[o.id] == o
  {
    var t, sorted := Listing(orders, ids), SortedIds(ids);
    assert forall i :: 0 <= i < |t| ==> sorted[i] in ids && t[i].id == sorted[i];
  }

  /** Any sorted list of the right orders is the listing. */
  lemma ListingIs(orders: map<nat, Order>, ids: set<nat>, s: seq<Order>)
    requires ids <= orders.Keys && forall id <- ids :: orders[id].id == id
    requires Ascending(s)
    requires forall i :: 0 <= i < |s| ==> s[i].id in ids && s[i] == orders[s[i].id]
    requires forall id <- ids :: exists i :: 0 <= i < |s| && s[i].id == id
    ensures s == Listing(orders, ids)
  {
    var t := Listing(orders, ids);
    ListingAscends(orders, ids);
    forall o ensures o in s <==> o in t {
      if o in s {
        ListingHas(orders, ids, o.id);
      }
      if o in t {
        var i :| 0 <= i < |s| && s[i].id == o.id;
        assert s[i] == o;
      }
    }
    ListingUnique(s, t);
  }

  // ----- the loop of TriggeredOrders, one order at a time

  lemma RaiseOneMore(b: Book, done: set<nat>, id: nat, price: int)
    requires id in b.orders && id !in done
    ensures var part := PartlyRaised(b, done, price);
      part.(orders := part.orders[id := Raise(part.orders[id], price)]) == PartlyRaised(b, done + {id}, price)
  {
    var part := PartlyRaised(b, done, price);
    assert part.orders[id := Raise(part.orders[id], price)] == PartlyRaised(b, done + {id}, price).orders;
  }

  lemma RaiseBounds(b: Book, price: int)
    requires price > 0
    ensures PartlyRaised(b, {}, price) == b
    ensures PartlyRaised(b, b.orders.Keys, price) == Raised(b, Some(price))
  {
    assert PartlyRaised(b, {}, price).orders == b.orders;
    assert PartlyRaised(b, b.orders.Keys, price).orders == Raised(b, Some(price)).orders;
  }

  lemma FireOneMore(b: Book, done: set<nat>, id: nat, price: int)
    requires id in b.orders && id !in done
    ensures FiringIds(b, price) * (done + {id}) ==
      if Fires(b.orders[id], price) then FiringIds(b, price) * done + {id} else FiringIds(b, price) * done
  {
  }

  lemma FireAll(b: Book, price: int)
    ensures FiringIds(b, price) * b.orders.Keys == FiringIds(b, price)
  {
  }
}
