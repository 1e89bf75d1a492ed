/** The in-memory order store of the enclave, with big integers as mutable heap
    objects. Each method is proved against its function in OrderBook and, at the
    same time, never shares an integer with its caller. */
module EnclaveStore {
  import opened Numbers
  import opened OrderBook

  class BigInt {
    var v: int

    constructor (v: int)
      ensures this.v == v
    {
      this.v := v;
    }
  }

  /** The source's Order struct: its two prices are pointers. */
  datatype Record = Record(id: nat, trigger: BigInt?, trailBps: nat, high: BigInt?, status: Status)

  ghost function IntsOf(r: Record): set<BigInt> {
    (if r.trigger == null then {} else {r.trigger as BigInt}) + (if r.high == null then {} else {r.high as BigInt})
  }

  function Read(p: BigInt?): Option<int>
    reads p
  {
    if p == null then None else Some(p.v)
  }

  ghost function ValueOf(r: Record): Order
    reads r.trigger, r.high
  {
    Order(r.id, Read(r.trigger), r.trailBps, Read(r.high), r.status)
  }

  ghost function IntsOfAll(s: seq<Record>): set<BigInt> {
    set i, x | 0 <= i < |s| && x in IntsOf(s[i]) :: x
  }

  /** The list a caller sees, as values. */
  ghost function ValuesOf(s: seq<Record>): seq<Order>
    reads IntsOfAll(s)
  {
    seq(|s|, i requires 0 <= i < |s| reads IntsOfAll(s) => (assert IntsOf(s[i]) <= IntsOfAll(s); ValueOf(s[i])))
  }

  /** A caller's list changes only with the integers it holds. */
  twostate lemma ValuesStay(s: seq<Record>)
    requires forall x <- IntsOfAll(s) :: unchanged(x)
    ensures ValuesOf(s) == old(ValuesOf(s))
  {
    assert forall i :: 0 <= i < |s| ==> IntsOf(s[i]) <= IntsOfAll(s);
  }

  /** A record whose integers are new and its own. */
  ghost predicate Detached(r: Record) {
    r.trigger != null && r.high != null ==> r.trigger != r.high
  }

  /** No integer is reachable in two ways. */
  ghost predicate Apart(orders: map<nat, Record>, latest: BigInt?, ints: set<BigInt>) {
    && (latest != null ==> latest in ints && forall id <- orders :: latest !in IntsOf(orders[id]))
    && (forall id <- orders :: orders[id].id == id && Detached(orders[id]) && IntsOf(orders[id]) <= ints)
    && (forall i, j, x :: i in orders && j in orders && x in IntsOf(orders[i]) && x in IntsOf(orders[j]) ==> i == j)
  }

  /** The book `b` is what the fields of a store stand for. */
  ghost predicate Reflects(b: Book, orders: map<nat, Record>, latest: BigInt?, ints: set<BigInt>)
    reads ints
  {
    && Apart(orders, latest, ints)
    && b.orders.Keys == orders.Keys
    && (forall id <- orders :: b.orders[id] == ValueOf(orders[id]))
    && b.latest == Read(latest)
  }

  lemma HoldReflects(b: Book, orders: map<nat, Record>, latest: BigInt?, ints: set<BigInt>, o: Record)
    requires Reflects(b, orders, latest, ints) && Detached(o)
    requires forall x <- IntsOf(o) :: x !in ints || (o.id in orders && x in IntsOf(orders[o.id]))
    ensures Reflects(b.(orders := b.orders[o.id := ValueOf(o)]), orders[o.id := o], latest, ints + IntsOf(o))
  {
  }

  method CloneInt(p: BigInt?) returns (c: BigInt?)
    ensures Read(c) == Read(p)
    ensures c != null ==> fresh(c)
  {
    c := null;
    if p != null {
      c := new BigInt(p.v);
    }
  }

  method CloneOrder(r: Record) returns (c: Record)
    ensures ValueOf(c) == ValueOf(r) && Detached(c) && fresh(IntsOf(c))
  {
    var trigger := CloneInt(r.trigger);
    var high := CloneInt(r.high);
    c := Record(r.id, trigger, r.trailBps, high, r.status);
  }

  /** The trigger an order stands for; a trailing one is computed afresh. */
  method Effective(o: Record) returns (trigger: BigInt?)
    ensures Read(trigger) == TriggerOf(ValueOf(o))
    ensures trigger == null || trigger == o.trigger || fresh(trigger)
  {
    if o.trailBps == 0 {
      trigger := o.trigger;
    } else if o.high == null {
      trigger := null;
    } else {
      trigger := new BigInt(o.high.v * Kept(o.trailBps));
      trigger.v := trigger.v / 10_000;
    }
  }

  /** A detached copy that carries the effective trigger, if the order fires. */
  method Reveal(o: Record, price: int) returns (fires: bool, hit: Record)
    ensures fires == Fires(ValueOf(o), price)
    ensures fires ==> ValueOf(hit) == Revealed(ValueOf(o)) && fresh(IntsOf(hit))
  {
    fires, hit := false, o;
    if o.status == Open {
      var effective := Effective(o);
      if effective != null && price <= effective.v {
        var revealed := new BigInt(effective.v);
        hit := CloneOrder(o.(trigger := revealed));
        fires := true;
      }
    }
  }

  /** Stands for `sort.Slice` by id, whose order is unique on distinct ids. */
  method SortById(s: seq<Record>) returns (r: seq<Record>)
    requires forall i, j :: 0 <= i < j < |s| ==> s[i].id != s[j].id
    ensures forall x :: x in r <==> x in s
    ensures forall i, j :: 0 <= i < j < |r| ==> r[i].id < r[j].id
  {
    r := [];
    for n := 0 to |s|
      invariant forall x :: x in r <==> x in s[..n]
      invariant forall i, j :: 0 <= i < j < |r| ==> r[i].id < r[j].id
    {
      var k := 0;
      while k < |r| && r[k].id < s[n].id
        invariant 0 <= k <= |r|
        invariant forall i :: 0 <= i < k ==> r[i].id < s[n].id
      {
        k := k + 1;
      }
      if k < |r| {
        assert r[k] in r && r[k] in s[..n];
      }
      ghost var was := r;
      r := r[..k] + [s[n]] + r[k..];
      assert s[..n + 1] == s[..n] + [s[n]];
      assert forall x :: x in r <==> x in was || x == s[n];
    }
    assert s[..|s|] == s;
  }

  /** The sort at the end of each listing. */
  method SortListed(found: seq<Record>, ghost orders: map<nat, Order>, ghost ids: set<nat>) returns (list: seq<Record>)
    requires ids <= orders.Keys && forall id <- ids :: orders[id].id == id
    requires ListsAll(found, orders, ids)
    ensures ValuesOf(list) == Listing(orders, ids)
    ensures IntsOfAll(list) == IntsOfAll(found)
  {
    list := SortById(found);
    Sorted(found, list, orders, ids);
  }

  /** `append(triggered, hit)`, if the order fires. */
  method AppendHit(fires: bool, triggered: seq<Record>, hit: Record, ghost values: map<nat, Order>, ghost ids: set<nat>,
                   ghost ints: set<BigInt>)
    returns (more: seq<Record>)
    requires ListsAll(triggered, values, ids) && IntsOfAll(triggered) !! ints
    requires fires ==> hit.id !in ids && hit.id in values && ValueOf(hit) == values[hit.id] && IntsOf(hit) !! ints
    ensures ListsAll(more, values, if fires then ids + {hit.id} else ids) && IntsOfAll(more) !! ints
  {
    more := triggered;
    if fires {
      Appended(triggered, values, ids, hit);
      more := triggered + [hit];
    }
  }

  class Store {
    var orders: map<nat, Record>
    var latestPrice: BigInt?
    var latestAt: int

    /** The store as a value. */
    ghost var book: Book
    /** Every integer reachable from the store. */
    ghost var ints: set<BigInt>

    ghost predicate Valid()
      reads this, ints
    {
      Reflects(book, orders, latestPrice, ints) && book.latestAt == latestAt
    }

    constructor ()
      ensures Valid() && ints == {} && book == Empty
    {
      orders := map[];
      latestPrice := null;
      latestAt := ZERO_TIME;
      book := Empty;
      ints := {};
    }

    /** Adds an order. Whatever integers the caller passed, the store keeps
        copies of its own. */
    method Put(r: Record, now: int) returns (outcome: PutOutcome)
      requires Valid()
      modifies this
      ensures Valid() && fresh(ints - old(ints))
      ensures outcome == PutCheck(old(book), old(ValueOf(r)), now)
      ensures book == OrderBook.Put(old(book), old(ValueOf(r)), now)
    {
      if r.id in orders {
        return AlreadyExists;
      }
      if r.id == 0 || r.status != Open {
        return BadIdentity;
      }
      var isFixed := r.trigger != null && r.trigger.v > 0 && r.trigger.v < TWO_256 && r.trailBps == 0 && r.high == null;
      var isTrailing := r.trigger == null && r.trailBps >= 25 && r.trailBps <= 5000 && r.high == null && IsReady(now);
      if !isFixed && !isTrailing {
        return BadPolicy;
      }
      var o := r;
      if isTrailing && latestPrice != null {
        var seed := new BigInt(latestPrice.v);
        o := o.(high := seed);
      }
      var stored := CloneOrder(o);
      Hold(stored);
      outcome := Stored;
    }

    /** The map assignment `s.orders[id] = o` of the source. */
    method Hold(o: Record)
      requires Valid() && Detached(o)
      requires forall x <- IntsOf(o) :: x !in ints || (o.id in orders && x in IntsOf(orders[o.id]))
      modifies this
      ensures Valid() && ints == old(ints) + IntsOf(o)
      ensures book == old(book).(orders := old(book).orders[o.id := ValueOf(o)])
    {
      ghost var b, all, held := book, ints, orders;
      orders, ints := orders[o.id := o], ints + IntsOf(o);
      book := book.(orders := book.orders[o.id := ValueOf(o)]);
      HoldReflects(b, held, latestPrice, all, o);
    }

    lemma BookIds()
      requires Valid()
      ensures forall id <- book.orders :: book.orders[id].id == id
    {
    }

    predicate IsReady(now: int)
      reads this
    {
      latestPrice != null && latestAt != ZERO_TIME && 0 <= now - latestAt <= TRAILING_SAMPLE_MAX_AGE
    }

    method Get(id: nat) returns (r: Record, ok: bool)
      requires Valid()
      ensures ok <==> id in book.orders
      ensures ok ==> ValueOf(r) == book.orders[id]
      ensures Detached(r) && fresh(IntsOf(r))
    {
      ok := id in orders;
      r := CloneOrder(if ok then orders[id] else Record(0, null, 0, null, Cancelled));
    }

    method Delete(id: nat) returns (ok: bool)
      requires Valid()
      modifies this
      ensures Valid() && ints <= old(ints)
      ensures ok == (id in old(book).orders)
      ensures book == OrderBook.Delete(old(book), id)
    {
      ok := id in orders;
      orders := orders - {id};
      book := OrderBook.Delete(book, id);
    }

    method MarkExecuted(id: nat) returns (ok: bool)
      requires Valid()
      modifies this
      ensures Valid() && ints <= old(ints)
      ensures ok == IsOpen(old(book), id)
      ensures book == OrderBook.MarkExecuted(old(book), id)
    {
      ok := id in orders && orders[id].status == Open;
      if ok {
        Hold(orders[id].(status := Executed));
      }
    }

    method ObservePrice(price: BigInt?, observedAt: int)
      requires Valid()
      modifies this
      ensures Valid() && fresh(ints - old(ints))
      ensures book == Observe(old(book), old(Read(price)), observedAt)
    {
      if price != null && price.v > 0 && observedAt != ZERO_TIME {
        latestPrice := new BigInt(price.v);
        latestAt := observedAt;
        ints := ints + {latestPrice};
        book := Observe(book, Read(price), observedAt);
      }
    }

    method EffectiveTrigger(id: nat) returns (trigger: BigInt?)
      requires Valid()
      ensures Read(trigger) == OrderBook.EffectiveTrigger(book, id)
      ensures trigger != null ==> fresh(trigger)
    {
      if id !in orders || orders[id].status != Open {
        return null;
      }
      var effective := Effective(orders[id]);
      trigger := CloneInt(effective);
    }

    /** One turn of the loop of `TriggeredOrders`: raise the watermark, then
        report a detached copy if the order fires. */
    method Consider(id: nat, price: int) returns (fires: bool, hit: Record)
      requires Valid() && id in orders
      modifies this
      ensures Valid() && fresh(ints - old(ints))
      ensures book == old(book).(orders := old(book).orders[id := Raise(old(book).orders[id], price)])
      ensures fires == Fires(book.orders[id], price)
      ensures fires ==> ValueOf(hit) == Revealed(book.orders[id]) && fresh(IntsOf(hit)) && IntsOf(hit) !! ints
    {
      RaiseHigh(id, price);
      fires, hit := Reveal(orders[id], price);
    }

    /** Takes a new high into an open trailing order. */
    method RaiseHigh(id: nat, price: int)
      requires Valid() && id in orders
      modifies this
      ensures Valid() && fresh(ints - old(ints))
      ensures book == old(book).(orders := old(book).orders[id := Raise(old(book).orders[id], price)])
    {
      var o := orders[id];
      if o.status == Open && o.trailBps > 0 && (o.high == null || price > o.high.v) {
        var high := new BigInt(price);
        Hold(o.(high := high));
      } else {
        assert old(book).orders[id := old(book).orders[id]] == old(book).orders;
      }
    }

    /** Consider one order and append what it reports. */
    method Turn(triggered: seq<Record>, id: nat, price: int, ghost values: map<nat, Order>, ghost ids: set<nat>)
      returns (more: seq<Record>, ghost ids': set<nat>)
      requires Valid() && id in orders && id !in ids && ListsAll(triggered, values, ids)
      requires IntsOfAll(triggered) !! ints
      requires id in values && values[id] == Revealed(Raise(book.orders[id], price))
      modifies this
      ensures Valid() && fresh(ints - old(ints))
      ensures book == old(book).(orders := old(book).orders[id := Raise(old(book).orders[id], price)])
      ensures ids' == if Fires(book.orders[id], price) then ids + {id} else ids
      ensures ListsAll(more, values, ids')
      ensures IntsOfAll(more) !! ints
    {
      var fires, hit := Consider(id, price);
      more := AppendHit(fires, triggered, hit, values, ids, ints);
      ids' := if fires then ids + {id} else ids;
    }

    /** Raises the private watermarks and reports, sorted by id, copies of the
        orders that fire. */
    method TriggeredOrders(price: BigInt?) returns (hits: seq<Record>)
      requires Valid()
      modifies this
      ensures Valid() && fresh(ints - old(ints))
      ensures book == Raised(old(book), old(Read(price)))
      ensures ValuesOf(hits) == Triggered(old(book), old(Read(price)))
      ensures IntsOfAll(hits) !! ints
    {
      if price == null || price.v <= 0 {
        return [];
      }
      var triggered := Sweep(price.v);
      BookIds();
      RevealedIds(book, price.v);
      hits := SortListed(triggered, RevealAll(book), FiringIds(book, price.v));
    }

    /** The loop of `TriggeredOrders`. */
    method Sweep(p: int) returns (triggered: seq<Record>)
      requires Valid() && p > 0
      modifies this
      ensures Valid()
      ensures forall x <- ints :: x in old(ints) || fresh(x)
      ensures book == Raised(old(book), Some(p))
      ensures ListsAll(triggered, RevealAll(book), FiringIds(book, p))
      ensures IntsOfAll(triggered) !! ints
    {
      triggered := [];
      var todo := orders.Keys;
      ghost var before := book;
      SweptBounds(before, triggered, p);
      while todo != {}
        invariant Valid() && todo <= before.orders.Keys
        invariant forall x <- ints :: x in old(ints) || fresh(x)
        invariant Swept(before, todo, triggered, p)
        invariant IntsOfAll(triggered) !! ints
      {
        var id :| id in todo;
        triggered := Step(triggered, id, p, before, todo);
        todo := todo - {id};
      }
      SweptBounds(before, triggered, p);
    }

    /** The orders but `todo` are raised, and those of them that fire are listed. */
    ghost predicate Swept(before: Book, todo: set<nat>, triggered: seq<Record>, p: int)
      reads this, IntsOfAll(triggered)
    {
      var after, done := Raised(before, Some(p)), before.orders.Keys - todo;
      && book == PartlyRaised(before, done, p)
      && ListsAll(triggered, RevealAll(after), FiringIds(after, p) * done)
    }

    lemma SweptBounds(before: Book, triggered: seq<Record>, p: int)
      requires p > 0
      ensures before == book && triggered == [] ==> Swept(before, before.orders.Keys, triggered, p)
      ensures Swept(before, {}, triggered, p) ==>
        book == Raised(before, Some(p)) && ListsAll(triggered, RevealAll(book), FiringIds(book, p))
    {
      var keys := before.orders.Keys;
      assert keys - keys == {} && keys - {} == keys;
      RaiseBounds(before, p);
      FireAll(Raised(before, Some(p)), p);
    }

    method Step(triggered: seq<Record>, id: nat, p: int, ghost before: Book, ghost todo: set<nat>)
      returns (more: seq<Record>)
      requires Valid() && p > 0 && Swept(before, todo, triggered, p)
      requires id in todo && todo <= before.orders.Keys
      requires IntsOfAll(triggered) !! ints
      modifies this
      ensures Valid() && Swept(before, todo - {id}, more, p)
      ensures forall x <- ints :: x in old(ints) || fresh(x)
      ensures IntsOfAll(more) !! ints
    {
      ghost var after, done := Raised(before, Some(p)), before.orders.Keys - todo;
      assert before.orders.Keys - (todo - {id}) == done + {id};
      RaiseOneMore(before, done, id, p);
      FireOneMore(after, done, id, p);
      ghost var ids;
      more, ids := Turn(triggered, id, p, RevealAll(after), FiringIds(after, p) * done);
    }

    /** Every order, open or not, sorted by id. */
    method Snapshot() returns (all: seq<Record>)
      requires Valid()
      ensures ValuesOf(all) == OrderBook.Snapshot(book)
      ensures fresh(IntsOfAll(all))
    {
      all := Collect(orders.Keys);
    }

    /** The open orders, sorted by id. */
    method OpenOrders() returns (open: seq<Record>)
      requires Valid()
      ensures ValuesOf(open) == OrderBook.OpenOrders(book)
      ensures fresh(IntsOfAll(open))
    {
      var ids := set id | id in orders && orders[id].status == Open;
      assert ids == OpenIds(book);
      open := Collect(ids);
    }

    /** The loop that `OpenOrders` and `Snapshot` share: copy, append, sort. */
    method Collect(ids: set<nat>) returns (list: seq<Record>)
      requires Valid() && ids <= orders.Keys
      ensures ValuesOf(list) == Listing(book.orders, ids)
      ensures fresh(IntsOfAll(list))
    {
      var copies := Copies(ids);
      list := SortListed(copies, book.orders, ids);
    }

    method Copies(ids: set<nat>) returns (found: seq<Record>)
      requires Valid() && ids <= orders.Keys
      ensures fresh(IntsOfAll(found))
      ensures ListsAll(found, book.orders, ids)
    {
      found := [];
      var todo := ids;
      ghost var done := {};
      while todo != {}
        invariant done !! todo && done + todo == ids
        invariant forall x <- IntsOfAll(found) :: fresh(x)
        invariant ListsAll(found, book.orders, done)
      {
        var id :| id in todo;
        found := CopyOnto(found, id, done);
        todo, done := todo - {id}, done + {id};
      }
    }

    /** `append(list, cloneOrder(o))` */
    method CopyOnto(found: seq<Record>, id: nat, ghost done: set<nat>) returns (more: seq<Record>)
      requires Valid() && id in orders && id !in done && ListsAll(found, book.orders, done)
      ensures ListsAll(more, book.orders, done + {id})
      ensures forall x <- IntsOfAll(more) :: x in IntsOfAll(found) || fresh(x)
    {
      var copy := CloneOrder(orders[id]);
      Appended(found, book.orders, done, copy);
      more := found + [copy];
    }
  }

  /** Ownership. Whatever a caller writes to integers that the store does not
      own - the ones it passed in, the ones it got back - the store still stands
      for the same book, so no later answer changes. */
  twostate lemma ForeignWritesAreInvisible(s: Store)
    requires old(s.Valid()) && unchanged(s) && forall x <- old(s.ints) :: unchanged(x)
    ensures s.Valid() && s.book == old(s.book)
  {
  }

  /** The records stand for exactly the orders `ids`, each once. */
  ghost predicate ListsAll(found: seq<Record>, orders: map<nat, Order>, ids: set<nat>)
    reads IntsOfAll(found)
  {
    && (forall i :: 0 <= i < |found| ==> found[i].id in ids && found[i].id in orders)
    && (forall i :: 0 <= i < |found| ==> ValuesOf(found)[i] == orders[found[i].id])
    && (forall i, j :: 0 <= i < j < |found| ==> found[i].id != found[j].id)
    && (forall id <- ids :: Has(found, id))
  }

  ghost predicate Has(found: seq<Record>, id: nat) {
    exists i :: 0 <= i < |found| && found[i].id == id
  }

  lemma Appended(found: seq<Record>, orders: map<nat, Order>, ids: set<nat>, copy: Record)
    requires ListsAll(found, orders, ids)
    requires copy.id !in ids && copy.id in orders && ValueOf(copy) == orders[copy.id]
    ensures ListsAll(found + [copy], orders, ids + {copy.id})
    ensures IntsOfAll(found + [copy]) == IntsOfAll(found) + IntsOf(copy)
  {
    var all := found + [copy];
    assert forall i :: 0 <= i < |found| ==> all[i] == found[i] && ValuesOf(all)[i] == ValuesOf(found)[i];
    assert all[|found|] == copy;
    forall id | id in ids + {copy.id} ensures Has(all, id) {
      if id != copy.id {
        var i :| 0 <= i < |found| && found[i].id == id;
        assert all[i].id == id;
      }
    }
  }

  lemma RevealedIds(b: Book, price: int)
    requires forall id <- b.orders :: b.orders[id].id == id
    ensures FiringIds(b, price) <= RevealAll(b).Keys && forall id <- FiringIds(b, price) :: RevealAll(b)[id].id == id
  {
  }

  lemma Sorted(found: seq<Record>, list: seq<Record>, orders: map<nat, Order>, ids: set<nat>)
    requires ids <= orders.Keys && forall id <- ids :: orders[id].id == id
    requires ListsAll(found, orders, ids)
    requires forall x :: x in list <==> x in found
    requires forall i, j :: 0 <= i < j < |list| ==> list[i].id < list[j].id
    ensures ValuesOf(list) == Listing(orders, ids)
    ensures IntsOfAll(list) == IntsOfAll(found)
  {
    var s := ValuesOf(list);
    forall i | 0 <= i < |s| ensures s[i].id in ids && s[i] == orders[s[i].id] {
      assert list[i] in found;
      var k :| 0 <= k < |found| && found[k] == list[i];
      assert ValuesOf(found)[k] == s[i];
    }
    forall id | id in ids ensures exists i :: 0 <= i < |s| && s[i].id == id {
      assert Has(found, id);
      var k :| 0 <= k < |found| && found[k].id == id;
      assert found[k] in list;
      var i :| 0 <= i < |list| && list[i] == found[k];
      assert s[i].id == id;
    }
    ListingIs(orders, ids, s);
    SameInts(found, list);
  }

  lemma SameInts(found: seq<Record>, list: seq<Record>)
    requires forall x :: x in list <==> x in found
    ensures IntsOfAll(list) == IntsOfAll(found)
  {
    forall b ensures b in IntsOfAll(list) <==> b in IntsOfAll(found) {
      if b in IntsOfAll(list) {
        var i :| 0 <= i < |list| && b in IntsOf(list[i]);
        assert list[i] in found;
      }
      if b in IntsOfAll(found) {
        var i :| 0 <= i < |found| && b in IntsOf(found[i]);
        assert found[i] in list;
      }
    }
  }
}
