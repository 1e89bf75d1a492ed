/** The web app's table against the vault it is read from. */
module EventReplay {
  import opened Numbers
  import opened PayoutToken
  import opened EventFold
  import V = VaultSpec
  import L = VaultLedger

  /** The transaction hash and block number of each log of the vault. */
  datatype Place = Place(tx: nat, block: nat)

  predicate Optional<T(==)>(x: Option<T>, value: T) {
    x.None? || x.value == value
  }

  /** A delivery of the vault's event `e`, with or without its hash and block. */
  predicate Carries(l: VaultLog, e: V.VaultEvent, at: Place) {
    && l.id == Some(e.id) && Optional(l.tx, at.tx) && Optional(l.block, at.block)
    && match l.name
       case Placed => e.OrderPlaced? && l.owner == Some(e.owner)
       case Executed => e.OrderExecuted? && l.price == Some(e.price)
       case Cancelled => e.OrderCancelled? && l.price == None
  }

  /** Does the vault emit its event `k`, rather than pay or refund? */
  predicate EmittedAt(trace: seq<V.VaultEvent>, k: nat) {
    k < |trace| && (trace[k].OrderPlaced? || trace[k].OrderExecuted? || trace[k].OrderCancelled?)
  }

  /** Position `k` of the trace is what this log delivers. */
  ghost predicate From(l: VaultLog, trace: seq<V.VaultEvent>, places: nat -> Place, k: nat) {
    k < |trace| && Carries(l, trace[k], places(k))
  }

  /** Every log with an id comes from the vault, and every event of the vault was
      delivered at least once: in any order, any number of times. */
  ghost predicate Delivered(logs: seq<VaultLog>, trace: seq<V.VaultEvent>, places: nat -> Place) {
    && (forall l <- logs :: l.id.Some? ==> exists k :: From(l, trace, places, k))
    && (forall k :: EmittedAt(trace, k) ==> exists l :: l in logs && From(l, trace, places, k))
  }

  // ----- counting events

  predicate IsAt(trace: seq<V.VaultEvent>, k: nat, kind: L.Kind, id: nat) {
    k < |trace| && L.KindOf(trace[k]) == kind && trace[k].id == id
  }

  lemma {:induction false} CountedOnce(trace: seq<V.VaultEvent>, kind: L.Kind, id: nat, k: nat)
    requires IsAt(trace, k, kind, id)
    ensures L.Count(trace, kind, id) >= 1
  {
    var n := |trace| - 1;
    if k < n {
      CountedOnce(trace[..n], kind, id, k);
    }
  }

  lemma {:induction false} CountedTwice(trace: seq<V.VaultEvent>, kind: L.Kind, id: nat, j: nat, k: nat)
    requires IsAt(trace, j, kind, id) && IsAt(trace, k, kind, id) && j < k
    ensures L.Count(trace, kind, id) >= 2
  {
    var n := |trace| - 1;
    if k < n {
      CountedTwice(trace[..n], kind, id, j, k);
    } else {
      CountedOnce(trace[..n], kind, id, j);
    }
  }

  lemma {:induction false} SomewhereCounted(trace: seq<V.VaultEvent>, kind: L.Kind, id: nat)
    requires L.Count(trace, kind, id) >= 1
    ensures exists k :: IsAt(trace, k, kind, id)
  {
    var n := |trace| - 1;
    if IsAt(trace, n, kind, id) {
    } else {
      SomewhereCounted(trace[..n], kind, id);
      var k :| IsAt(trace[..n], k, kind, id);
      assert IsAt(trace, k, kind, id);
    }
  }

  lemma OnlyOne(s: V.Vault, kind: L.Kind, id: nat, j: nat, k: nat)
    requires L.Accounted(s, {}) && IsAt(s.trace, j, kind, id) && IsAt(s.trace, k, kind, id)
    ensures j == k
  {
    assert L.Count(s.trace, kind, id) == L.Expected(s, kind, id, {});
    if j < k {
      CountedTwice(s.trace, kind, id, j, k);
    } else if k < j {
      CountedTwice(s.trace, kind, id, k, j);
    }
  }

  /** No order is both executed and cancelled. */
  lemma NeverBoth(s: V.Vault, id: nat)
    requires L.Accounted(s, {})
    ensures L.Count(s.trace, L.Executing, id) + L.Count(s.trace, L.Cancelling, id) <= 1
  {
    assert L.Count(s.trace, L.Executing, id) == L.Expected(s, L.Executing, id, {});
    assert L.Count(s.trace, L.Cancelling, id) == L.Expected(s, L.Cancelling, id, {});
  }

  function KindOf(name: EventName): L.Kind {
    match name
    case Placed => L.Placing
    case Executed => L.Executing
    case Cancelled => L.Cancelling
  }

  // ----- the vault's logs are consistent

  lemma CompatibleLogs(s: V.Vault, places: nat -> Place, l: VaultLog, j: nat, m: VaultLog, k: nat)
    requires L.Accounted(s, {}) && l.id == m.id && From(l, s.trace, places, j) && From(m, s.trace, places, k)
    ensures Compatible(l, m)
  {
    var id := l.id.value;
    if l.name == m.name {
      OnlyOne(s, KindOf(l.name), id, j, k);
    } else if l.name != Placed && m.name != Placed {
      CountedOnce(s.trace, KindOf(l.name), id, j);
      CountedOnce(s.trace, KindOf(m.name), id, k);
      NeverBoth(s, id);
    }
  }

  lemma DeliveredConsistent(s: V.Vault, places: nat -> Place, logs: seq<VaultLog>)
    requires L.Accounted(s, {}) && Delivered(logs, s.trace, places)
    ensures Consistent(logs)
  {
    forall l, m | l in logs && m in logs && l.id.Some? && l.id == m.id ensures Compatible(l, m) {
      var j :| From(l, s.trace, places, j);
      var k :| From(m, s.trace, places, k);
      CompatibleLogs(s, places, l, j, m, k);
    }
  }

  // ----- the rows match the vault

  predicate StatusMatches(row: RowStatus, status: nat) {
    match row
    case PendingRow => status == V.STATUS_OPEN
    case ExecutedRow => status == V.STATUS_EXECUTED
    case CancelledRow => status == V.STATUS_CANCELLED
  }

  ghost predicate RowMatches(row: RowView, s: V.Vault, id: nat)
    requires id in s.orders
  {
    && row.id == id
    && row.owner == Some(s.orders[id].owner)
    && StatusMatches(row.status, s.orders[id].status)
    && row.price == if s.orders[id].status == V.STATUS_EXECUTED then Some(L.PriceOf(s.trace, id)) else None
  }

  lemma HasCounted(trace: seq<V.VaultEvent>, places: nat -> Place, logs: seq<VaultLog>, id: nat, name: EventName)
    requires Delivered(logs, trace, places) && Has(logs, id, name)
    ensures L.Count(trace, KindOf(name), id) >= 1
  {
    var l :| About(logs, l, id) && l.name == name;
    var k :| From(l, trace, places, k);
    CountedOnce(trace, KindOf(name), id, k);
  }

  lemma CountedHas(trace: seq<V.VaultEvent>, places: nat -> Place, logs: seq<VaultLog>, id: nat, name: EventName)
    requires Delivered(logs, trace, places) && L.Count(trace, KindOf(name), id) >= 1
    ensures Has(logs, id, name)
  {
    SomewhereCounted(trace, KindOf(name), id);
    var k :| IsAt(trace, k, KindOf(name), id);
    assert EmittedAt(trace, k);
    var l :| l in logs && From(l, trace, places, k);
    assert About(logs, l, id);
  }

  /** The delivered logs have an event of this kind for this order exactly when
      the order's status calls for one, with the vault's own details. */
  lemma HasIff(s: V.Vault, places: nat -> Place, logs: seq<VaultLog>, id: nat, name: EventName)
    requires L.Accounted(s, {}) && Delivered(logs, s.trace, places)
    ensures Has(logs, id, name) <==> L.Expected(s, KindOf(name), id, {}) == 1
  {
    assert L.Count(s.trace, KindOf(name), id) == L.Expected(s, KindOf(name), id, {});
    if Has(logs, id, name) {
      HasCounted(s.trace, places, logs, id, name);
    }
    if L.Count(s.trace, KindOf(name), id) >= 1 {
      CountedHas(s.trace, places, logs, id, name);
    }
  }

  /** A delivered log has the order's owner or its execution price. */
  lemma LogDetails(s: V.Vault, places: nat -> Place, l: VaultLog, k: nat)
    requires L.Accounted(s, {}) && From(l, s.trace, places, k)
    ensures l.id.value in s.orders
    ensures l.name == Placed ==> l.owner == Some(s.orders[l.id.value].owner)
    ensures l.name == Executed ==> l.price == Some(L.PriceOf(s.trace, l.id.value))
  {
    assert L.Faithful(s, s.trace[k]);
  }

  lemma RowMatchesVault(s: V.Vault, places: nat -> Place, logs: seq<VaultLog>, row: RowView, id: nat)
    requires L.Accounted(s, {}) && Delivered(logs, s.trace, places) && id in s.orders
    requires RowReflects(row, id, logs)
    ensures RowMatches(row, s, id)
  {
    HasIff(s, places, logs, id, Placed);
    HasIff(s, places, logs, id, Executed);
    HasIff(s, places, logs, id, Cancelled);
    forall l | About(logs, l, id)
      ensures l.name == Placed ==> l.owner == Some(s.orders[id].owner)
      ensures l.name == Executed ==> l.price == Some(L.PriceOf(s.trace, id))
    {
      var k :| From(l, s.trace, places, k);
      LogDetails(s, places, l, k);
    }
  }

  /** The table has a row for exactly the ids 1..nextOrderId. */
  lemma RowIds(s: V.Vault, places: nat -> Place, logs: seq<VaultLog>, t: Table, id: nat)
    requires L.Accounted(s, {}) && Delivered(logs, s.trace, places) && Reflects(t, logs)
    ensures id in t <==> 1 <= id <= s.nextOrderId
  {
    HasIff(s, places, logs, id, Placed);
    if id in t {
      var l :| About(logs, l, id);
      var k :| From(l, s.trace, places, k);
      LogDetails(s, places, l, k);
    }
  }

  /** Replay agreement. After any run of the vault, any delivery of its logs, in
      any order and with any duplication, folds to a table with a row for exactly
      the ids 1..nextOrderId, each with the vault's owner, status and price; and
      two deliveries of the same logs give the same table. */
  lemma ReplayAgrees(cfg: V.Config, token: Token, calls: seq<V.Call>, places: nat -> Place,
                     a: seq<VaultLog>, b: seq<VaultLog>)
    requires Delivered(a, V.ExecAll(cfg, V.InitialVault(token), calls).trace, places)
    requires forall l :: l in a <==> l in b
    ensures var s := V.ExecAll(cfg, V.InitialVault(token), calls);
      && (forall id :: id in Fold(map[], a) <==> 1 <= id <= s.nextOrderId)
      && (forall id <- Fold(map[], a) :: id in s.orders && RowMatches(Fold(map[], a)[id], s, id))
      && Fold(map[], b) == Fold(map[], a)
  {
    var s := V.ExecAll(cfg, V.InitialVault(token), calls);
    L.RunAccounted(cfg, V.InitialVault(token), calls, {});
    DeliveredConsistent(s, places, a);
    FoldReflects(a);
    DeliveryOrderIsIrrelevant(a, b);
    var t := Fold(map[], a);
    forall id: nat ensures id in t <==> 1 <= id <= s.nextOrderId {
      RowIds(s, places, a, t, id);
    }
    forall id | id in t ensures id in s.orders && RowMatches(t[id], s, id) {
      RowIds(s, places, a, t, id);
      RowMatchesVault(s, places, a, t[id], id);
    }
  }
}
