/** What every run of store calls keeps, and what a trailing order's private
    watermark means. */
module OrderBookProofs {
  import opened Numbers
  import opened OrderBook

  /** The calls that change the store. */
  datatype StoreOp =
    | PutOp(order: Order, now: int)
    | DeleteOp(id: nat)
    | MarkOp(id: nat)
    | ObserveOp(price: Option<int>, at: int)
    | TriggeredOp(price: Option<int>)

  function Apply(b: Book, op: StoreOp): Book {
    match op
    case PutOp(o, now) => Put(b, o, now)
    case DeleteOp(id) => Delete(b, id)
    case MarkOp(id) => MarkExecuted(b, id)
    case ObserveOp(price, at) => Observe(b, price, at)
    case TriggeredOp(price) => Raised(b, price)
  }

  function Run(b: Book, ops: seq<StoreOp>): Book
    decreases |ops|
  {
    if ops == [] then b else Run(Apply(b, ops[0]), ops[1..])
  }

  // ----- the shape invariant

  predicate TrailingShape(o: Order) {
    o.trigger.None? && 25 <= o.trailBps <= 5000 && o.high.Some? && o.high.value > 0
  }

  /** Every stored order is exactly one of fixed or trailing. */
  ghost predicate Shape(b: Book) {
    && (forall id <- b.orders :: id > 0 && b.orders[id].id == id)
    && (forall id <- b.orders :: IsFixed(b.orders[id]) || TrailingShape(b.orders[id]))
    && (b.latest.Some? ==> b.latest.value > 0)
  }

  lemma ShapeStep(b: Book, op: StoreOp)
    requires Shape(b)
    ensures Shape(Apply(b, op))
  {
  }

  lemma {:induction false} ShapeAlways(b: Book, ops: seq<StoreOp>)
    requires Shape(b)
    ensures Shape(Run(b, ops))
    decreases |ops|
  {
    if ops != [] {
      ShapeStep(b, ops[0]);
      ShapeAlways(Apply(b, ops[0]), ops[1..]);
    }
  }

  /** From the empty store on, every open order has an effective trigger. */
  lemma EveryOpenOrderHasATrigger(ops: seq<StoreOp>, id: nat)
    requires IsOpen(Run(Empty, ops), id)
    ensures EffectiveTrigger(Run(Empty, ops), id).Some?
    ensures var o := Run(Empty, ops).orders[id];
      (IsFixed(o) && !TrailingShape(o)) || (TrailingShape(o) && !IsFixed(o))
  {
    ShapeAlways(Empty, ops);
  }

  /** Is order `id` among the reported ones? */
  ghost predicate Reports(hits: seq<Order>, id: nat) {
    exists i :: 0 <= i < |hits| && hits[i].id == id
  }

  lemma ListedIff(orders: map<nat, Order>, ids: set<nat>, id: nat)
    requires ids <= orders.Keys && forall i <- ids :: orders[i].id == i
    ensures Ascending(Listing(orders, ids))
    ensures Reports(Listing(orders, ids), id) <==> id in ids
  {
    var sorted := SortedIds(ids);
    var r := Listing(orders, ids);
    assert forall i :: 0 <= i < |r| ==> sorted[i] in ids && r[i].id == sorted[i];
    if id in ids {
      assert id in sorted;
      var i :| 0 <= i < |sorted| && sorted[i] == id;
      assert r[i].id == id;
    }
  }

  lemma FiresIff(b: Book, price: int, id: nat)
    requires Shape(b) && price > 0
    ensures id in FiringIds(Raised(b, Some(price)), price) <==>
      IsOpen(b, id) && price <= EffectiveTrigger(Raised(b, Some(price)), id).value
  {
    ShapeStep(b, TriggeredOp(Some(price)));
  }

  /** `TriggeredOrders` reports, sorted by id, exactly the open orders whose
      raised trigger is at or above the sample. */
  lemma ReportedIff(b: Book, price: int, id: nat)
    requires Shape(b) && price > 0
    ensures Ascending(Triggered(b, Some(price)))
    ensures Reports(Triggered(b, Some(price)), id) <==>
      IsOpen(b, id) && price <= EffectiveTrigger(Raised(b, Some(price)), id).value
  {
    ShapeStep(b, TriggeredOp(Some(price)));
    ListedIff(RevealAll(Raised(b, Some(price))), FiringIds(Raised(b, Some(price)), price), id);
    FiresIff(b, price, id);
  }

  /** Each reported order is open and carries its effective trigger. */
  lemma ReportedTrigger(b: Book, price: int, i: nat)
    requires Shape(b) && price > 0 && i < |Triggered(b, Some(price))|
    ensures var o := Triggered(b, Some(price))[i];
      && o.trigger.Some?
      && EffectiveTrigger(Raised(b, Some(price)), o.id) == o.trigger
      && price <= o.trigger.value
  {
    var after := Raised(b, Some(price));
    ShapeStep(b, TriggeredOp(Some(price)));
    var ids := SortedIds(FiringIds(after, price));
    assert ids[i] in FiringIds(after, price);
    assert Triggered(b, Some(price))[i] == Revealed(after.orders[ids[i]]);
  }

  // ----- trailing stops

  /** The highest of `h` and every valid sample later given to `TriggeredOrders`. */
  function Peak(h: int, ops: seq<StoreOp>): int
    decreases |ops|
  {
    if ops == [] then h
    else
      var next := if ops[0].TriggeredOp? && ValidSample(ops[0].price) then Max(h, ops[0].price.value) else h;
      Peak(next, ops[1..])
  }

  lemma {:induction false} PeakAppend(h: int, ops: seq<StoreOp>, price: int)
    requires price > 0
    ensures Peak(h, ops + [TriggeredOp(Some(price))]) == Max(Peak(h, ops), price)
    decreases |ops|
  {
    if ops != [] {
      var next := if ops[0].TriggeredOp? && ValidSample(ops[0].price) then Max(h, ops[0].price.value) else h;
      assert (ops + [TriggeredOp(Some(price))])[1..] == ops[1..] + [TriggeredOp(Some(price))];
      PeakAppend(next, ops[1..], price);
    }
  }

  /** An order that was never deleted is still there, with its own policy. */
  lemma {:induction false} OrderStays(b: Book, id: nat, ops: seq<StoreOp>)
    requires Shape(b) && id in b.orders && DeleteOp(id) !in ops
    ensures id in Run(b, ops).orders && Run(b, ops).orders[id].trailBps == b.orders[id].trailBps
    ensures b.orders[id].status == Executed ==> Run(b, ops).orders[id] == b.orders[id]
    decreases |ops|
  {
    if ops != [] {
      assert ops[0] in ops;
      ShapeStep(b, ops[0]);
      OrderStays(Apply(b, ops[0]), id, ops[1..]);
    }
  }

  lemma {:induction false} WatermarkIsPeak(b: Book, id: nat, ops: seq<StoreOp>)
    requires Shape(b) && IsOpen(b, id) && TrailingShape(b.orders[id])
    requires DeleteOp(id) !in ops && IsOpen(Run(b, ops), id)
    ensures Run(b, ops).orders[id].high == Some(Peak(b.orders[id].high.value, ops))
    decreases |ops|
  {
    if ops != [] {
      assert ops[0] in ops;
      var b1 := Apply(b, ops[0]);
      ShapeStep(b, ops[0]);
      if b1.orders[id].status != Open {
        OrderStays(b1, id, ops[1..]);
        assert false;
      }
      WatermarkIsPeak(b1, id, ops[1..]);
    }
  }

  /** What a trailing order that is put into `b` holds after more calls. */
  lemma SeededWatermark(b: Book, o: Order, now: int, after: seq<StoreOp>)
    requires Shape(b) && PutCheck(b, o, now) == Stored && o.trailBps > 0
    requires DeleteOp(o.id) !in after && IsOpen(Run(Put(b, o, now), after), o.id)
    ensures var held := Run(Put(b, o, now), after);
      && Shape(held) && b.latest.Some? && held.orders[o.id].trailBps == o.trailBps
      && held.orders[o.id].high == Some(Peak(b.latest.value, after))
  {
    var b1 := Put(b, o, now);
    ShapeStep(b, PutOp(o, now));
    WatermarkIsPeak(b1, o.id, after);
    OrderStays(b1, o.id, after);
    ShapeAlways(b1, after);
  }

  /** When the next sample fires it. */
  lemma SeededFiring(b: Book, o: Order, now: int, after: seq<StoreOp>, p: int)
    requires Shape(b) && PutCheck(b, o, now) == Stored && o.trailBps > 0 && p > 0
    requires DeleteOp(o.id) !in after && IsOpen(Run(Put(b, o, now), after), o.id)
    ensures b.latest.Some?
    ensures Reports(Triggered(Run(Put(b, o, now), after), Some(p)), o.id)
      <==> 10_000 * p <= Peak(b.latest.value, after + [TriggeredOp(Some(p))]) * (10_000 - o.trailBps)
  {
    SeededWatermark(b, o, now, after);
    FiresLater(Run(Put(b, o, now), after), o.id, b.latest.value, after, p, o.trailBps);
  }

  lemma FiresLater(held: Book, id: nat, start: int, after: seq<StoreOp>, p: int, bps: nat)
    requires Shape(held) && IsOpen(held, id) && held.orders[id].trailBps == bps > 0 && p > 0
    requires held.orders[id].high == Some(Peak(start, after))
    ensures Reports(Triggered(held, Some(p)), id)
      <==> 10_000 * p <= Peak(start, after + [TriggeredOp(Some(p))]) * (10_000 - bps)
  {
    PeakAppend(start, after, p);
    FiresAtPeak(held, id, p, Peak(start, after + [TriggeredOp(Some(p))]), bps);
  }

  lemma FiresAtPeak(b: Book, id: nat, p: int, peak: int, bps: nat)
    requires Shape(b) && IsOpen(b, id) && b.orders[id].trailBps == bps > 0 && p > 0
    requires peak == Max(b.orders[id].high.value, p)
    ensures Reports(Triggered(b, Some(p)), id) <==> 10_000 * p <= peak * (10_000 - bps)
  {
    FiringRule(b, id, p);
  }

  /** Trailing-stop refinement. An order activated after `before` and still open
      after `after` holds the maximum of its activation sample and every later
      sample, and the next sample `p` fires it exactly when
      10000 * p <= max * (10000 - trailBps), with `p` counted in the maximum. */
  lemma TrailingRefinement(before: seq<StoreOp>, o: Order, now: int, after: seq<StoreOp>, p: int)
    requires var b := Run(Empty, before);
      PutCheck(b, o, now) == Stored && o.trailBps > 0 && DeleteOp(o.id) !in after && IsOpen(Run(Put(b, o, now), after), o.id)
    requires p > 0
    ensures var b := Run(Empty, before);
      var held := Run(Put(b, o, now), after);
      && b.latest.Some?
      && held.orders[o.id].high == Some(Peak(b.latest.value, after))
      && var peak := Peak(b.latest.value, after + [TriggeredOp(Some(p))]);
      && (Reports(Triggered(held, Some(p)), o.id) <==>
          10_000 * p <= peak * (10_000 - o.trailBps))
  {
    ShapeAlways(Empty, before);
    SeededWatermark(Run(Empty, before), o, now, after);
    SeededFiring(Run(Empty, before), o, now, after, p);
  }

  lemma FiringRule(b: Book, id: nat, p: int)
    requires Shape(b) && IsOpen(b, id) && b.orders[id].trailBps > 0 && p > 0
    ensures var peak := Max(b.orders[id].high.value, p);
      Reports(Triggered(b, Some(p)), id) <==> 10_000 * p <= peak * (10_000 - b.orders[id].trailBps)
  {
    ReportedIff(b, p, id);
    RaisedTrigger(b, id, p);
    var peak := Max(b.orders[id].high.value, p);
    AtMostFloor(p, peak * (10_000 - b.orders[id].trailBps), 10_000);
  }

  lemma RaisedTrigger(b: Book, id: nat, p: int)
    requires Shape(b) && IsOpen(b, id) && b.orders[id].trailBps > 0 && p > 0
    ensures Raised(b, Some(p)).orders[id].high == Some(Max(b.orders[id].high.value, p))
    ensures EffectiveTrigger(Raised(b, Some(p)), id)
         == Some(Max(b.orders[id].high.value, p) * (10_000 - b.orders[id].trailBps) / 10_000)
  {
    assert Kept(b.orders[id].trailBps) == 10_000 - b.orders[id].trailBps;
  }

  lemma PartIsLess(p: int, bps: nat)
    requires p > 0 && bps > 0
    ensures p * (10_000 - bps) < p * 10_000
  {
    assert p * (10_000 - bps) == p * 10_000 - p * bps;
    assert p * bps > 0;
  }

  /** A sample above the watermark moves the trigger and never fires it. */
  lemma NewHighNeverFires(b: Book, id: nat, p: int)
    requires Shape(b) && IsOpen(b, id) && b.orders[id].trailBps > 0 && p > b.orders[id].high.value
    ensures Raised(b, Some(p)).orders[id].high == Some(p)
    ensures EffectiveTrigger(Raised(b, Some(p)), id).value < p
    ensures !Reports(Triggered(b, Some(p)), id)
  {
    ReportedIff(b, p, id);
    RaisedTrigger(b, id, p);
    var bps := b.orders[id].trailBps;
    AtMostFloor(p, p * (10_000 - bps), 10_000);
    PartIsLess(p, bps);
  }

  /** While an order stays open its effective trigger only rises. */
  lemma {:induction false} TriggerNeverDecreases(b: Book, id: nat, ops: seq<StoreOp>)
    requires Shape(b) && IsOpen(b, id) && DeleteOp(id) !in ops && IsOpen(Run(b, ops), id)
    ensures EffectiveTrigger(b, id).Some? && EffectiveTrigger(Run(b, ops), id).Some?
    ensures EffectiveTrigger(b, id).value <= EffectiveTrigger(Run(b, ops), id).value
    ensures b.orders[id].trailBps == 0 ==> Run(b, ops).orders[id] == b.orders[id]
    decreases |ops|
  {
    if ops != [] {
      assert ops[0] in ops;
      var b1 := Apply(b, ops[0]);
      ShapeStep(b, ops[0]);
      if b1.orders[id].status != Open {
        OrderStays(b1, id, ops[1..]);
        assert false;
      }
      TriggerRises(b, id, ops[0]);
      TriggerNeverDecreases(b1, id, ops[1..]);
    }
  }

  lemma TriggerRises(b: Book, id: nat, op: StoreOp)
    requires Shape(b) && IsOpen(b, id) && op != DeleteOp(id) && IsOpen(Apply(b, op), id)
    ensures EffectiveTrigger(b, id).value <= EffectiveTrigger(Apply(b, op), id).value
    ensures b.orders[id].trailBps == 0 ==> Apply(b, op).orders[id] == b.orders[id]
  {
    var o := b.orders[id];
    var o1 := Apply(b, op).orders[id];
    if o.trailBps > 0 {
      assert o.high.value <= o1.high.value && o1.trailBps == o.trailBps;
      TrailRises(o.high.value, o1.high.value, o.trailBps);
    }
  }

  lemma TrailRises(high: int, higher: int, bps: nat)
    requires high <= higher
    ensures TrailTrigger(high, bps) <= TrailTrigger(higher, bps)
  {
    assert high * Kept(bps) <= higher * Kept(bps);
    FloorMonotone(high * Kept(bps), higher * Kept(bps), 10_000);
  }

  // ----- fixed stops

  /** A fixed order stands for exactly its own price, and fires at or below it. */
  lemma FixedFires(b: Book, id: nat, p: int)
    requires Shape(b) && IsOpen(b, id) && IsFixed(b.orders[id]) && p > 0
    ensures EffectiveTrigger(b, id) == b.orders[id].trigger
    ensures Reports(Triggered(b, Some(p)), id) <==> p <= b.orders[id].trigger.value
    ensures Raised(b, Some(p)).orders[id] == b.orders[id]
  {
    ReportedIff(b, p, id);
  }

  /** Fixed-stop refinement. An order put with price t and still open after any
      calls fires exactly on samples at or below t, and its report carries t. */
  lemma FixedRefinement(before: seq<StoreOp>, o: Order, now: int, after: seq<StoreOp>, p: int, i: nat)
    requires PutCheck(Run(Empty, before), o, now) == Stored && o.trigger.Some? && DeleteOp(o.id) !in after && p > 0
    requires IsOpen(Run(Put(Run(Empty, before), o, now), after), o.id)
    ensures var held := Run(Put(Run(Empty, before), o, now), after);
      && held.orders[o.id] == o
      && EffectiveTrigger(held, o.id) == o.trigger
      && (Reports(Triggered(held, Some(p)), o.id) <==> p <= o.trigger.value)
      && (i < |Triggered(held, Some(p))| && Triggered(held, Some(p))[i].id == o.id ==> Triggered(held, Some(p))[i] == o)
  {
    var b := Run(Empty, before);
    ShapeAlways(Empty, before);
    ShapeStep(b, PutOp(o, now));
    var placed := Put(b, o, now);
    assert placed.orders[o.id] == o;
    TriggerNeverDecreases(placed, o.id, after);
    ShapeAlways(placed, after);
    var held := Run(placed, after);
    FixedFires(held, o.id, p);
    if i < |Triggered(held, Some(p))| {
      ReportedCopy(held, p, i);
    }
  }

  /** A reported copy is the stored order with its effective trigger filled in. */
  lemma ReportedCopy(b: Book, price: int, i: nat)
    requires Shape(b) && price > 0 && i < |Triggered(b, Some(price))|
    ensures var o := Triggered(b, Some(price))[i];
      var after := Raised(b, Some(price));
      o.id in after.orders && o == after.orders[o.id].(trigger := EffectiveTrigger(after, o.id))
  {
    var after := Raised(b, Some(price));
    ShapeStep(b, TriggeredOp(Some(price)));
    var ids := SortedIds(FiringIds(after, price));
    assert ids[i] in FiringIds(after, price);
    assert Triggered(b, Some(price))[i] == Revealed(after.orders[ids[i]]);
  }

  // ----- the last sample

  predicate Observes(op: StoreOp) {
    op.ObserveOp? && op.price.Some? && op.price.value > 0 && op.at != -62_135_596_800_000_000_000
  }

  lemma {:induction false} RunAppend(b: Book, ops: seq<StoreOp>, more: seq<StoreOp>)
    ensures Run(b, ops + more) == Run(Run(b, ops), more)
    decreases |ops|
  {
    if ops == [] {
      assert ops + more == more;
    } else {
      assert (ops + more)[1..] == ops[1..] + more;
      RunAppend(Apply(b, ops[0]), ops[1..], more);
    }
  }

  lemma {:induction false} NothingObserved(b: Book, ops: seq<StoreOp>)
    requires forall op <- ops :: !Observes(op)
    ensures Run(b, ops).latest == b.latest && Run(b, ops).latestAt == b.latestAt
    decreases |ops|
  {
    if ops != [] {
      assert ops[0] in ops;
      NothingObserved(Apply(b, ops[0]), ops[1..]);
    }
  }

  /** The latest price is the last valid sample, whatever came before it. */
  lemma LatestIsLast(before: seq<StoreOp>, price: int, at: int, rest: seq<StoreOp>)
    requires Observes(ObserveOp(Some(price), at)) && forall op <- rest :: !Observes(op)
    ensures var b := Run(Empty, before + [ObserveOp(Some(price), at)] + rest);
      b.latest == Some(price) && b.latestAt == at
  {
    var op := ObserveOp(Some(price), at);
    RunAppend(Empty, before + [op], rest);
    RunAppend(Empty, before, [op]);
    var b := Run(Empty, before);
    assert [op][1..] == [] && Run(Apply(b, op), []) == Apply(b, op);
    NothingObserved(Run(Empty, before + [op]), rest);
  }

  /** A trailing order is taken exactly within ten seconds of the last valid
      sample, which becomes its watermark, and never before the first. */
  lemma ActivationWindow(before: seq<StoreOp>, price: int, at: int, rest: seq<StoreOp>, o: Order, now: int)
    requires Observes(ObserveOp(Some(price), at)) && forall op <- rest :: !Observes(op)
    requires o.trigger.None? && 25 <= o.trailBps <= 5000 && o.high.None? && o.status == Open && o.id > 0
    ensures var b := Run(Empty, before + [ObserveOp(Some(price), at)] + rest);
      && (PutCheck(b, o, now) == Stored <==> o.id !in b.orders && 0 <= now - at <= 10_000_000_000)
      && (PutCheck(b, o, now) == Stored ==> Put(b, o, now).orders[o.id] == o.(high := Some(price)))
    ensures PutCheck(Run(Empty, rest), o, now) != Stored
  {
    LatestIsLast(before, price, at, rest);
    NothingObserved(Empty, rest);
  }

  // ----- the listings

  /** The list of open orders and the snapshot are sorted by id, hold exactly the open
      orders and exactly all orders, and each as it is stored. */
  lemma ListingsAre(b: Book, id: nat)
    requires Shape(b)
    ensures Ascending(OpenOrders(b)) && Ascending(Snapshot(b))
    ensures Reports(OpenOrders(b), id) <==> IsOpen(b, id)
    ensures Reports(Snapshot(b), id) <==> id in b.orders
    ensures forall o <- OpenOrders(b) + Snapshot(b) :: o.id in b.orders && b.orders[o.id] == o
  {
    ListedIff(b.orders, OpenIds(b), id);
    ListedIff(b.orders, b.orders.Keys, id);
    ListingAscends(b.orders, OpenIds(b));
    ListingAscends(b.orders, b.orders.Keys);
  }
}
