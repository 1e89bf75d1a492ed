/** The order table of the web app, folded from vault event logs: the same table
    for every delivery order and any duplication. */
module EventFold {
  import opened Numbers
  import opened PayoutToken

  datatype EventName = Placed | Executed | Cancelled

  /** One delivered log; every argument, and the hash and block of a log that is
      still pending, can be missing. */
  datatype VaultLog = VaultLog(
    name: EventName, id: Option<nat>, owner: Option<Address>, price: Option<nat>, tx: Option<nat>, block: Option<nat>)

  datatype RowStatus = PendingRow | ExecutedRow | CancelledRow

  /** A row of the table as a value. */
  datatype RowView = RowView(
    id: nat, owner: Option<Address>, status: RowStatus, price: Option<nat>,
    placedTx: Option<nat>, finalTx: Option<nat>, finalBlock: Option<nat>)

  type Table = map<nat, RowView>

  function Blank(id: nat): RowView {
    RowView(id, None, PendingRow, None, None, None, None)
  }

  function Or<T>(x: Option<T>, otherwise: Option<T>): Option<T> {
    if x.Some? then x else otherwise
  }

  function Amended(row: RowView, log: VaultLog): RowView {
    match log.name
    case Placed => row.(owner := log.owner, placedTx := Or(log.tx, row.placedTx))
    case Executed =>
      row.(status := ExecutedRow, price := log.price,
           finalTx := Or(log.tx, row.finalTx), finalBlock := Or(log.block, row.finalBlock))
    case Cancelled =>
      row.(status := CancelledRow, finalTx := Or(log.tx, row.finalTx), finalBlock := Or(log.block, row.finalBlock))
  }

  function ApplyLog(t: Table, log: VaultLog): Table {
    if log.id.None? then t
    else
      var id := log.id.value;
      t[id := Amended(if id in t then t[id] else Blank(id), log)]
  }

  function Fold(t: Table, logs: seq<VaultLog>): Table {
    if logs == [] then t else ApplyLog(Fold(t, logs[..|logs| - 1]), logs[|logs| - 1])
  }

  // ----- the loop of the source, on row objects

  class Row {
    const id: nat
    var owner: Option<Address>
    var status: RowStatus
    var price: Option<nat>
    var placedTx: Option<nat>
    var finalTx: Option<nat>
    var finalBlock: Option<nat>

    constructor (id: nat)
      ensures View() == Blank(id)
    {
      this.id := id;
      owner, status, price := None, PendingRow, None;
      placedTx, finalTx, finalBlock := None, None, None;
    }

    function View(): RowView
      reads this
    {
      RowView(id, owner, status, price, placedTx, finalTx, finalBlock)
    }

    method Amend(log: VaultLog)
      modifies this
      ensures View() == Amended(old(View()), log)
    {
      match log.name
      case Placed =>
        owner := log.owner;
        placedTx := Or(log.tx, placedTx);
      case Executed =>
        status := ExecutedRow;
        price := log.price;
        finalTx := Or(log.tx, finalTx);
        finalBlock := Or(log.block, finalBlock);
      case Cancelled =>
        status := CancelledRow;
        finalTx := Or(log.tx, finalTx);
        finalBlock := Or(log.block, finalBlock);
    }
  }

  ghost function View(rows: map<nat, Row>): Table
    reads rows.Values
  {
    map id | id in rows :: rows[id].View()
  }

  ghost predicate Unshared(rows: map<nat, Row>) {
    forall i, j :: i in rows && j in rows && i != j ==> rows[i] != rows[j]
  }

  method ApplyOne(rows: map<nat, Row>, log: VaultLog) returns (next: map<nat, Row>)
    requires Unshared(rows)
    modifies rows.Values
    ensures Unshared(next) && View(next) == ApplyLog(old(View(rows)), log)
    ensures rows.Keys <= next.Keys && forall id <- rows :: next[id] == rows[id]
    ensures forall id <- next :: id !in rows ==> fresh(next[id])
  {
    if log.id.None? {
      return rows;
    }
    var id := log.id.value;
    var row;
    if id in rows {
      row := rows[id];
    } else {
      row := new Row(id);
    }
    row.Amend(log);
    next := rows[id := row];
  }

  /** The state updater: it copies the map and amends the rows in place, so the
      rows that it was given change as well. */
  method Apply(prev: map<nat, Row>, logs: seq<VaultLog>) returns (next: map<nat, Row>)
    requires Unshared(prev)
    modifies prev.Values
    ensures Unshared(next) && View(next) == Fold(old(View(prev)), logs)
    ensures prev.Keys <= next.Keys && forall id <- prev :: next[id] == prev[id]
    ensures forall id <- next :: id !in prev ==> fresh(next[id])
  {
    next := prev;
    for k := 0 to |logs|
      invariant Unshared(next) && View(next) == Fold(old(View(prev)), logs[..k])
      invariant prev.Keys <= next.Keys && forall id <- prev :: next[id] == prev[id]
      invariant forall id <- next :: id !in prev ==> fresh(next[id])
    {
      assert logs[..k + 1][..k] == logs[..k];
      next := ApplyOne(next, logs[k]);
    }
    assert logs[..|logs|] == logs;
  }

  // ----- what a set of consistent logs says

  predicate Meet<T(==)>(x: Option<T>, y: Option<T>) {
    x.None? || y.None? || x == y
  }

  /** Two logs about one order tell the same story. */
  predicate Compatible(l: VaultLog, m: VaultLog) {
    && ((l.name == Placed && m.name == Placed) ==> l.owner == m.owner && Meet(l.tx, m.tx))
    && ((l.name != Placed && m.name != Placed) ==>
          l.name == m.name && l.price == m.price && Meet(l.tx, m.tx) && Meet(l.block, m.block))
  }

  ghost predicate Consistent(logs: seq<VaultLog>) {
    forall l <- logs, m <- logs :: l.id.Some? && l.id == m.id ==> Compatible(l, m)
  }

  ghost predicate About(logs: seq<VaultLog>, l: VaultLog, id: nat) {
    l in logs && l.id == Some(id)
  }

  ghost predicate Has(logs: seq<VaultLog>, id: nat, name: EventName) {
    exists l :: About(logs, l, id) && l.name == name
  }

  /** The row has everything that this log says. */
  predicate Shows(row: RowView, l: VaultLog) {
    match l.name
    case Placed => row.owner == l.owner && (l.tx.Some? ==> row.placedTx == l.tx)
    case Executed =>
      row.status == ExecutedRow && row.price == l.price
      && (l.tx.Some? ==> row.finalTx == l.tx) && (l.block.Some? ==> row.finalBlock == l.block)
    case Cancelled =>
      row.status == CancelledRow
      && (l.tx.Some? ==> row.finalTx == l.tx) && (l.block.Some? ==> row.finalBlock == l.block)
  }

  /** The row has nothing that no log says. */
  ghost predicate Justified(row: RowView, id: nat, logs: seq<VaultLog>) {
    && row.id == id
    && (row.owner.Some? ==> Has(logs, id, Placed))
    && (row.price.Some? || row.status == ExecutedRow ==> Has(logs, id, Executed))
    && (row.status == CancelledRow ==> Has(logs, id, Cancelled))
    && TxFrom(row.placedTx, true, id, logs)
    && TxFrom(row.finalTx, false, id, logs)
    && BlockFrom(row.finalBlock, id, logs)
  }

  /** Some log, of a placement or of an end, has this hash. */
  ghost predicate TxFrom(tx: Option<nat>, placed: bool, id: nat, logs: seq<VaultLog>) {
    tx.Some? ==> exists l :: About(logs, l, id) && (l.name == Placed) == placed && l.tx == tx
  }

  ghost predicate BlockFrom(block: Option<nat>, id: nat, logs: seq<VaultLog>) {
    block.Some? ==> exists l :: About(logs, l, id) && l.name != Placed && l.block == block
  }

  ghost predicate RowReflects(row: RowView, id: nat, logs: seq<VaultLog>) {
    Justified(row, id, logs) && forall l :: About(logs, l, id) ==> Shows(row, l)
  }

  /** The table says exactly what the logs say. */
  ghost predicate Reflects(t: Table, logs: seq<VaultLog>) {
    && (forall id :: id in t <==> exists l :: About(logs, l, id))
    && (forall id <- t :: RowReflects(t[id], id, logs))
  }

  lemma AmendReflects(row: RowView, id: nat, logs: seq<VaultLog>, log: VaultLog)
    requires Consistent(logs + [log]) && log.id == Some(id) && RowReflects(row, id, logs)
    ensures RowReflects(Amended(row, log), id, logs + [log])
  {
    var longer := logs + [log];
    var after := Amended(row, log);
    assert About(longer, log, id);
    assert forall l :: About(longer, l, id) <==> About(logs, l, id) || l == log;
    forall l | About(longer, l, id) ensures Shows(after, l) {
      assert Compatible(l, log);
    }
    assert forall name :: Has(logs, id, name) ==> Has(longer, id, name);
    AmendJustified(row, id, logs, log);
  }

  lemma AmendJustified(row: RowView, id: nat, logs: seq<VaultLog>, log: VaultLog)
    requires log.id == Some(id) && Justified(row, id, logs)
    ensures Justified(Amended(row, log), id, logs + [log])
  {
    var longer := logs + [log];
    assert About(longer, log, id);
    HasLonger(id, logs, log);
    FromLonger(row.placedTx, true, row.finalBlock, id, logs, log);
    FromLonger(row.finalTx, false, row.finalBlock, id, logs, log);
  }

  lemma HasLonger(id: nat, logs: seq<VaultLog>, log: VaultLog)
    ensures forall name :: Has(logs, id, name) ==> Has(logs + [log], id, name)
  {
    assert forall l :: About(logs, l, id) ==> About(logs + [log], l, id);
  }

  lemma FromLonger(tx: Option<nat>, placed: bool, block: Option<nat>, id: nat, logs: seq<VaultLog>, log: VaultLog)
    ensures TxFrom(tx, placed, id, logs) ==> TxFrom(tx, placed, id, logs + [log])
    ensures BlockFrom(block, id, logs) ==> BlockFrom(block, id, logs + [log])
  {
    assert forall l :: About(logs, l, id) ==> About(logs + [log], l, id);
  }

  lemma KeysFollow(t: Table, logs: seq<VaultLog>, log: VaultLog)
    requires forall id :: id in t <==> exists l :: About(logs, l, id)
    ensures forall id :: id in ApplyLog(t, log) <==> exists l :: About(logs + [log], l, id)
  {
    forall id ensures id in ApplyLog(t, log) <==> exists l :: About(logs + [log], l, id) {
      if id in t {
        var l :| About(logs, l, id);
        assert About(logs + [log], l, id);
      }
      if log.id == Some(id) {
        assert About(logs + [log], log, id);
      }
      if l :| About(logs + [log], l, id) {
        assert l == log || About(logs, l, id);
      }
    }
  }

  lemma {:induction false} FoldReflects(logs: seq<VaultLog>)
    requires Consistent(logs)
    ensures Reflects(Fold(map[], logs), logs)
  {
    if logs != [] {
      var n := |logs| - 1;
      var shorter, log := logs[..n], logs[n];
      assert logs == shorter + [log];
      FoldReflects(shorter);
      var t, u := Fold(map[], shorter), Fold(map[], logs);
      assert forall l, id: nat :: About(logs, l, id) <==> About(shorter, l, id) || (l == log && log.id == Some(id));
      KeysFollow(t, shorter, log);
      forall id | id in u ensures RowReflects(u[id], id, logs) {
        if log.id == Some(id) {
          var row := if id in t then t[id] else Blank(id);
          assert RowReflects(row, id, shorter);
          AmendReflects(row, id, shorter, log);
        } else {
          assert forall name :: Has(shorter, id, name) <==> Has(logs, id, name);
        }
      }
    }
  }

  /** Logs determine their row. */
  lemma RowUnique(r: RowView, s: RowView, id: nat, a: seq<VaultLog>, b: seq<VaultLog>)
    requires Consistent(a) && forall l :: l in a <==> l in b
    requires RowReflects(r, id, a) && RowReflects(s, id, b)
    ensures r == s
  {
    assert forall l :: About(a, l, id) <==> About(b, l, id);
  }

  /** Consistent logs fold to the same table in any order and however often each
      is delivered. */
  lemma DeliveryOrderIsIrrelevant(a: seq<VaultLog>, b: seq<VaultLog>)
    requires Consistent(a) && forall l :: l in a <==> l in b
    ensures Fold(map[], a) == Fold(map[], b)
  {
    FoldReflects(a);
    FoldReflects(b);
    var t, u := Fold(map[], a), Fold(map[], b);
    assert forall l, id: nat :: About(a, l, id) <==> About(b, l, id);
    assert t.Keys == u.Keys;
    forall id | id in t ensures t[id] == u[id] {
      RowUnique(t[id], u[id], id, a, b);
    }
  }

  // ----- the updater may run twice

  lemma {:induction false} FoldAppend(t: Table, a: seq<VaultLog>, b: seq<VaultLog>)
    ensures Fold(t, a + b) == Fold(Fold(t, a), b)
    decreases |b|
  {
    if b == [] {
      assert a + b == a;
    } else {
      assert (a + b)[..|a + b| - 1] == a + b[..|b| - 1];
      FoldAppend(t, a, b[..|b| - 1]);
    }
  }

  /** A row is unchanged by a log that it already shows. */
  lemma ShownAgain(row: RowView, l: VaultLog)
    ensures Shows(row, l) ==> Amended(row, l) == row
  {
  }

  function Restricted(t: Table, ids: set<nat>): Table {
    map id | id in t && id in ids :: t[id]
  }

  ghost predicate AllShown(t: Table, u: Table, logs: seq<VaultLog>) {
    forall l <- logs :: l.id.Some? && l.id.value in t ==> l.id.value in u && Shows(u[l.id.value], l)
  }

  lemma {:induction false} Rerun(t: Table, u: Table, logs: seq<VaultLog>)
    requires t.Keys <= u.Keys && AllShown(t, u, logs)
    ensures var first, again := Fold(t, logs), Fold(Restricted(u, t.Keys), logs);
      && t.Keys <= first.Keys && again.Keys == first.Keys
      && forall id <- again :: again[id] == if id in t then u[id] else first[id]
  {
    if logs != [] {
      var n := |logs| - 1;
      assert forall l <- logs[..n] :: l in logs;
      Rerun(t, u, logs[..n]);
      var log := logs[n];
      assert log in logs;
      if log.id.Some? && log.id.value in t {
        ShownAgain(u[log.id.value], log);
      }
    }
  }

  /** The updater amends the rows of the table that it was given. Running it a
      second time on that same table, as a state library may, still gives the
      same result. */
  lemma SecondRunAgrees(a: seq<VaultLog>, b: seq<VaultLog>)
    requires Consistent(a + b)
    ensures var prev := Fold(map[], a);
      var next := Fold(prev, b);
      Fold(Restricted(next, prev.Keys), b) == next
  {
    var prev := Fold(map[], a);
    var next := Fold(prev, b);
    FoldAppend(map[], a, b);
    FoldReflects(a + b);
    assert Consistent(a);
    FoldReflects(a);
    forall l | l in b && l.id.Some? && l.id.value in prev
      ensures l.id.value in next && Shows(next[l.id.value], l)
    {
      assert About(a + b, l, l.id.value);
    }
    forall id | id in prev ensures id in next {
      var l :| About(a, l, id);
      assert About(a + b, l, id);
    }
    Rerun(prev, next, b);
  }
}
