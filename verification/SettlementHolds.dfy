/** When the enclave lets go of an order: a tick drops one exactly when it has a
    pending broadcast without a receipt and the vault's status reads NONE or
    CANCELLED. */
module SettlementHolds {
  import opened Numbers
  import opened OrderBook
  import opened Settlement
  import P = SettlementProofs

  /** The order is stored, open or executed. */
  predicate Held(b: Book, order: nat) {
    order in b.orders && b.orders[order].status != OrderBook.Cancelled
  }

  // ----- instructions about one order

  ghost predicate NoCancel(list: seq<Instruction>, order: nat) {
    forall x <- list :: x != Cancel(order)
  }

  ghost predicate NoPlace(list: seq<Instruction>, order: nat) {
    forall x <- list :: x.Place? ==> x.id != order
  }

  /** No instruction handled while the tick runs cancels the order. */
  ghost predicate TickNoCancel(i: TickInput, order: nat) {
    && (forall o :: NoCancel(i.reconcile(o).handled, order))
    && (forall o :: NoCancel(i.submit(o).beforeGet, order) && NoCancel(i.submit(o).beforeMark, order))
  }

  ghost predicate TickNoPlace(i: TickInput, order: nat) {
    && (forall o :: NoPlace(i.reconcile(o).handled, order))
    && (forall o :: NoPlace(i.submit(o).beforeGet, order) && NoPlace(i.submit(o).beforeMark, order))
  }

  lemma HandleHolds(b: Book, x: Instruction, order: nat)
    requires Held(b, order) && x != Cancel(order)
    ensures Held(Handle(b, x), order)
  {
  }

  lemma {:induction false} HandlersHold(b: Book, list: seq<Instruction>, order: nat)
    requires Held(b, order) && NoCancel(list, order)
    ensures Held(HandleAll(b, list), order)
    decreases |list|
  {
    if list != [] {
      assert list[0] in list;
      assert forall x <- list[1..] :: x in list;
      HandleHolds(b, list[0], order);
      HandlersHold(Handle(b, list[0]), list[1..], order);
    }
  }

  lemma {:induction false} HandlersAbsent(b: Book, list: seq<Instruction>, order: nat)
    requires order !in b.orders && NoPlace(list, order)
    ensures order !in HandleAll(b, list).orders
    decreases |list|
  {
    if list != [] {
      assert list[0] in list;
      HandlersAbsent(Handle(b, list[0]), list[1..], order);
    }
  }

  // ----- the drop

  /** The answers that drop a pending order from the enclave. */
  predicate Drops(w: State, order: nat, r: Reconciliation) {
    && order in w.pending && r.receipt(w.pending[order].tx).NotFound? && P.AsksVault(w.pending[order], r)
    && (r.status(order) == Got(STATUS_NONE) || r.status(order) == Got(STATUS_CANCELLED))
  }

  /** The book after the order is kept or dropped; every other order is kept. */
  predicate KeptUnless(dropped: bool, b: Book, c: Book, order: nat) {
    if dropped then order !in c.orders else Held(b, order) ==> Held(c, order)
  }

  lemma FinishBook(w: State, order: nat, nonce: uint64, consumed: bool)
    ensures Finish(w, order, nonce, consumed).book == w.book
  {
  }

  lemma ReplaceBook(w: State, o: nat, p: Pending, trigger: int, sample: Option<int>, r: Reconciliation)
    ensures ReplacePending(w, o, p, trigger, sample, r).book == w.book
  {
  }

  /** Which of its three books the vault's status leaves. */
  lemma VaultBook(w: State, o: nat, p: Pending, sample: Option<int>, tx: TxState, r: Reconciliation)
    ensures AgainstVault(w, o, p, sample, tx, r).book ==
      if r.status(o) == Got(STATUS_EXECUTED) then MarkExecuted(w.book, o)
      else if r.status(o) == Got(STATUS_NONE) || r.status(o) == Got(STATUS_CANCELLED) then Delete(w.book, o)
      else w.book
  {
    FinishBook(w, o, p.nonce, true);
    FinishBook(w, o, p.nonce, false);
    var trigger := EffectiveTrigger(w.book, o);
    if trigger.Some? {
      ReplaceBook(w, o, p, trigger.value, sample, r);
    }
  }

  lemma VaultHolds(w: State, o: nat, p: Pending, sample: Option<int>, tx: TxState, r: Reconciliation, order: nat)
    ensures KeptUnless(o == order && (r.status(o) == Got(STATUS_NONE) || r.status(o) == Got(STATUS_CANCELLED)),
                       w.book, AgainstVault(w, o, p, sample, tx, r).book, order)
  {
    VaultBook(w, o, p, sample, tx, r);
  }

  lemma UnconfirmedHolds(w: State, o: nat, p: Pending, sample: Option<int>, r: Reconciliation, order: nat)
    requires o in w.pending && p == w.pending[o] && r.receipt(p.tx).NotFound?
    ensures KeptUnless(o == order && Drops(w, o, r), w.book, Unconfirmed(w, o, p, sample, r).book, order)
  {
    match r.lookup(p.tx)
    case Got(true) =>
      var seen := p.(missing := 0);
      VaultHolds(w.(pending := w.pending[o := seen]), o, seen, sample, Stuck, r, order);
    case Got(false) => VaultHolds(w, o, p, sample, MinedNoReceipt, r, order);
    case Failed =>
    case NotFound =>
      var missed := p.(missing := p.missing + 1);
      VaultHolds(w.(pending := w.pending[o := missed]), o, missed, sample, Dropped, r, order);
  }

  lemma ReconcileOneHolds(w: State, o: nat, sample: Option<int>, r: Reconciliation, order: nat)
    requires o in w.pending && Held(w.book, order) && NoCancel(r.handled, order)
    ensures KeptUnless(o == order && Drops(w, o, r), w.book, ReconcileOne(w, o, sample, r).book, order)
  {
    HandlersHold(w.book, r.handled, order);
    var now := Instructed(w, r.handled);
    var p := now.pending[o];
    FinishBook(now, o, p.nonce, true);
    if r.receipt(p.tx).NotFound? {
      UnconfirmedHolds(now, o, p, sample, r, order);
    }
  }

  // ----- settling changes the store only by instructions and marks

  lemma BroadcastBook(w: State, o: nat, nonce: uint64, trigger: int, sample: Option<int>, effective: Option<int>, a: Attempt)
    requires a.gasPrice.Got? && a.gas.Got?
    ensures Broadcast(w, o, nonce, trigger, sample, effective, a).0.book == w.book
  {
  }

  lemma ReserveBook(w: State, o: nat, remote: Answer<uint64>)
    ensures ReserveNonce(w, o, remote).0.book == w.book
  {
  }

  lemma ReleaseBook(w: State, o: nat, nonce: uint64, consumed: bool)
    ensures ReleaseNonce(w, o, nonce, consumed).book == w.book
    ensures ReleaseOrderNonce(w, o, consumed).book == w.book
  {
  }

  lemma SettleOnceBook(w: State, o: nat, trigger: int, sample: Option<int>, effective: Option<int>, a: Attempt)
    ensures SettleOnce(w, o, trigger, sample, effective, a).0.book == w.book
  {
    var known := w.(chainKnown := true);
    ReserveBook(known, o, a.nonce);
    var (reserved, n) := ReserveNonce(known, o, a.nonce);
    if n.Some? && a.gasPrice.Got? && a.gas.Got? {
      ReleaseBook(reserved, o, n.value, false);
      BroadcastBook(reserved, o, n.value, trigger, sample, effective, a);
    }
  }

  lemma {:induction false} RetryBook(w: State, o: nat, trigger: int, sample: Option<int>, effective: Option<int>,
                                     attempts: nat -> Attempt, k: nat)
    ensures SettleWithRetry(w, o, trigger, sample, effective, attempts, k).0.book == w.book
    decreases SETTLE_ATTEMPTS + 1 - k
  {
    if k > SETTLE_ATTEMPTS {
      ReleaseBook(w, o, 0, false);
    } else {
      SettleOnceBook(w, o, trigger, sample, effective, attempts(k));
      var (tried, outcome) := SettleOnce(w, o, trigger, sample, effective, attempts(k));
      if outcome.AttemptFailed? {
        RetryBook(tried, o, trigger, sample, effective, attempts, k + 1);
      }
    }
  }

  lemma SettleOneHolds(w: State, o: Order, price: int, s: Submission, order: nat)
    requires o.trigger.Some?
    ensures Held(w.book, order) && NoCancel(s.beforeGet, order) && NoCancel(s.beforeMark, order) ==>
      Held(SettleOne(w, o, price, s).book, order)
    ensures order !in w.book.orders && NoPlace(s.beforeGet, order) && NoPlace(s.beforeMark, order) ==>
      order !in SettleOne(w, o, price, s).book.orders
  {
    var now := Instructed(w, s.beforeGet);
    var effective := EffectiveTrigger(now.book, o.id);
    RetryBook(now, o.id, o.trigger.value, Some(price), effective, s.attempt, 1);
    var tried := SettleWithRetry(now, o.id, o.trigger.value, Some(price), effective, s.attempt, 1).0;
    if Held(w.book, order) && NoCancel(s.beforeGet, order) && NoCancel(s.beforeMark, order) {
      HandlersHold(w.book, s.beforeGet, order);
      HandlersHold(tried.book, s.beforeMark, order);
    }
    if order !in w.book.orders && NoPlace(s.beforeGet, order) && NoPlace(s.beforeMark, order) {
      HandlersAbsent(w.book, s.beforeGet, order);
      HandlersAbsent(tried.book, s.beforeMark, order);
    }
  }

  lemma {:induction false} SettleAllHolds(w: State, triggered: seq<Order>, price: int, submit: nat -> Submission, order: nat)
    requires forall o <- triggered :: o.trigger.Some?
    requires Held(w.book, order)
    requires forall o :: NoCancel(submit(o).beforeGet, order) && NoCancel(submit(o).beforeMark, order)
    ensures Held(SettleAll(w, triggered, price, submit).book, order)
    decreases |triggered|
  {
    if triggered != [] && w.pending == map[] {
      var o := triggered[0];
      SettleOneHolds(w, o, price, submit(o.id), order);
      SettleAllHolds(SettleOne(w, o, price, submit(o.id)), triggered[1..], price, submit, order);
    }
  }

  lemma {:induction false} SettleAllAbsent(w: State, triggered: seq<Order>, price: int, submit: nat -> Submission, order: nat)
    requires forall o <- triggered :: o.trigger.Some?
    requires order !in w.book.orders
    requires forall o :: NoPlace(submit(o).beforeGet, order) && NoPlace(submit(o).beforeMark, order)
    ensures order !in SettleAll(w, triggered, price, submit).book.orders
    decreases |triggered|
  {
    if triggered != [] && w.pending == map[] {
      var o := triggered[0];
      SettleOneHolds(w, o, price, submit(o.id), order);
      SettleAllAbsent(SettleOne(w, o, price, submit(o.id)), triggered[1..], price, submit, order);
    }
  }

  // ----- whole ticks

  lemma ReconciledHolds(w: State, i: TickInput, order: nat)
    requires P.Inv(w) && Held(w.book, order) && TickNoCancel(i, order)
    ensures var sampled := w.(book := SampledBook(w.book, i.price));
      var reconciled := ReconcilePending(sampled, sampled.pending.Keys, FreshSample(i.price), i.reconcile);
      if Drops(w, order, i.reconcile(order)) then order !in reconciled.book.orders else Held(reconciled.book, order)
  {
    var sampled := w.(book := SampledBook(w.book, i.price));
    P.SameNoncesKeep(w, sampled);
    P.ReconcileIsOneTurn(sampled, FreshSample(i.price), i.reconcile);
    assert Held(sampled.book, order);
    if sampled.pending != map[] {
      var o :| o in sampled.pending;
      assert order in sampled.pending ==> order == o;
      ReconcileOneHolds(sampled, o, FreshSample(i.price), i.reconcile(o), order);
    }
  }

  lemma UnconfirmedAbsent(w: State, o: nat, p: Pending, sample: Option<int>, r: Reconciliation, order: nat)
    requires order !in w.book.orders
    ensures order !in Unconfirmed(w, o, p, sample, r).book.orders
  {
    match r.lookup(p.tx)
    case Got(true) =>
      var seen := p.(missing := 0);
      VaultBook(w.(pending := w.pending[o := seen]), o, seen, sample, Stuck, r);
    case Got(false) => VaultBook(w, o, p, sample, MinedNoReceipt, r);
    case Failed =>
    case NotFound =>
      var missed := p.(missing := p.missing + 1);
      VaultBook(w.(pending := w.pending[o := missed]), o, missed, sample, Dropped, r);
  }

  lemma ReconcileOneAbsent(w: State, o: nat, sample: Option<int>, r: Reconciliation, order: nat)
    requires o in w.pending && order !in w.book.orders && NoPlace(r.handled, order)
    ensures order !in ReconcileOne(w, o, sample, r).book.orders
  {
    HandlersAbsent(w.book, r.handled, order);
    var now := Instructed(w, r.handled);
    FinishBook(now, o, now.pending[o].nonce, true);
    if r.receipt(now.pending[o].tx).NotFound? {
      UnconfirmedAbsent(now, o, now.pending[o], sample, r, order);
    }
  }

  /** A tick stores no order that no instruction places. */
  lemma TickAbsent(w: State, i: TickInput, order: nat)
    requires P.Inv(w) && order !in w.book.orders && TickNoPlace(i, order)
    ensures order !in Tick(w, i).book.orders
  {
    var sample := FreshSample(i.price);
    var sampled := w.(book := SampledBook(w.book, i.price));
    P.SameNoncesKeep(w, sampled);
    P.ReconcileIsOneTurn(sampled, sample, i.reconcile);
    if sampled.pending != map[] {
      var o :| o in sampled.pending;
      ReconcileOneAbsent(sampled, o, sample, i.reconcile(o), order);
    }
    if sample.Some? {
      var reconciled := ReconcilePending(sampled, sampled.pending.Keys, sample, i.reconcile);
      SettleAllAbsent(reconciled, Triggered(ObservedBook(w.book, i.price), sample), sample.value, i.submit, order);
    }
  }

  /** Whatever the answers, a tick that does not drop the order keeps it. */
  lemma TickHolds(w: State, i: TickInput, order: nat)
    requires P.Inv(w) && Held(w.book, order) && TickNoCancel(i, order) && !Drops(w, order, i.reconcile(order))
    ensures Held(Tick(w, i).book, order)
  {
    ReconciledHolds(w, i, order);
    var sample := FreshSample(i.price);
    if sample.Some? {
      var sampled := w.(book := SampledBook(w.book, i.price));
      var reconciled := ReconcilePending(sampled, sampled.pending.Keys, sample, i.reconcile);
      SettleAllHolds(reconciled, Triggered(ObservedBook(w.book, i.price), sample), sample.value, i.submit, order);
    }
  }

  /** A tick drops a stored order that no instruction cancels exactly when it is
      pending, its broadcast has no receipt and is called mined, has been pending
      for 30 seconds or is missed for the third time, and the vault's status reads
      NONE or CANCELLED. */
  lemma TickDropsIff(w: State, i: TickInput, order: nat)
    requires P.Inv(w) && Held(w.book, order) && TickNoCancel(i, order) && TickNoPlace(i, order)
    ensures order !in Tick(w, i).book.orders <==> Drops(w, order, i.reconcile(order))
  {
    if Drops(w, order, i.reconcile(order)) {
      ReconciledHolds(w, i, order);
      var sample := FreshSample(i.price);
      if sample.Some? {
        var sampled := w.(book := SampledBook(w.book, i.price));
        var reconciled := ReconcilePending(sampled, sampled.pending.Keys, sample, i.reconcile);
        SettleAllAbsent(reconciled, Triggered(ObservedBook(w.book, i.price), sample), sample.value, i.submit, order);
      }
    } else {
      TickHolds(w, i, order);
    }
  }
}
