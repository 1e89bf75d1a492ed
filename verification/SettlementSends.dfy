/** What the watcher broadcasts and when: every settle carries the order's own
    effective trigger and a fresh sample at or below it, and a transaction that
    vanished cannot block the executor for more than three ticks. */
module SettlementSends {
  import opened Numbers
  import opened OrderBook
  import opened OrderBookProofs
  import opened Settlement
  import P = SettlementProofs

  /** A broadcast on a sample at or below the order's effective trigger in the
      book `b0`, which it discloses. The calldata holds the trigger's low 256
      bits. */
  ghost predicate SoundSend(e: Event, sample: Option<int>, b0: Book)
    requires e.Sent?
  {
    && sample.Some? && e.sample == sample
    && e.effective.Some? && e.effective == EffectiveTrigger(b0, e.tx.order)
    && sample.value <= e.effective.value
    && e.tx.trigger == Low256(e.effective.value)
    && e.tx.maxAge == SETTLE_MAX_AGE_SEC
  }

  /** The log of `v` extends that of `w`, and every new broadcast is sound. */
  ghost predicate Sends(w: State, v: State, sample: Option<int>, b0: Book) {
    && w.log <= v.log
    && forall j :: |w.log| <= j < |v.log| && v.log[j].Sent? ==> SoundSend(v.log[j], sample, b0)
  }

  lemma SendsThen(u: State, v: State, w: State, sample: Option<int>, b0: Book)
    requires Sends(u, v, sample, b0) && Sends(v, w, sample, b0)
    ensures Sends(u, w, sample, b0)
  {
    forall j | |u.log| <= j < |w.log| && w.log[j].Sent? ensures SoundSend(w.log[j], sample, b0) {
      if j < |v.log| {
        assert v.log[j] == w.log[j];
      }
    }
  }

  // ----- how the book may change inside a tick

  /** The book keeps its shape, and every order of `b` with a known id is an
      order of `b0`, unchanged or executed: nothing was placed under a known id. */
  ghost predicate Follows(b0: Book, known: set<nat>, b: Book) {
    Shape(b) && forall id <- known * b.orders.Keys :: id in b0.orders && SameButExecuted(b0.orders[id], b.orders[id])
  }

  predicate SameButExecuted(before: Order, after: Order) {
    after == before || after == before.(status := Executed)
  }

  ghost predicate Shrinks(b: Book, c: Book) {
    Follows(b, b.orders.Keys, c) && c.orders.Keys <= b.orders.Keys
  }

  lemma ClosingShrinks(b: Book, order: nat)
    requires Shape(b)
    ensures Shrinks(b, b) && Shrinks(b, MarkExecuted(b, order)) && Shrinks(b, Delete(b, order))
  {
  }

  lemma FollowsThen(a: Book, known: set<nat>, b: Book, c: Book)
    requires Follows(a, known, b) && Shrinks(b, c)
    ensures Follows(a, known, c)
  {
  }

  /** No instruction of the list places a known id. */
  ghost predicate NoReplays(known: set<nat>, list: seq<Instruction>) {
    forall x <- list :: x.Place? ==> x.id !in known
  }

  /** Every id the watcher has to do with when a tick starts. */
  ghost function Known(w: State): set<nat> {
    w.book.orders.Keys + w.pending.Keys + set e | e in w.log && e.Sent? :: e.tx.order
  }

  /** Order ids are placed at most once: none that is known when the tick starts
      is placed while it runs. */
  ghost predicate PlacedOnce(known: set<nat>, i: TickInput) {
    && (forall o :: NoReplays(known, i.reconcile(o).handled))
    && (forall o :: NoReplays(known, i.submit(o).beforeGet) && NoReplays(known, i.submit(o).beforeMark))
  }

  lemma {:induction false} HandlersFollow(b0: Book, known: set<nat>, b: Book, list: seq<Instruction>)
    requires Follows(b0, known, b) && NoReplays(known, list)
    ensures Follows(b0, known, HandleAll(b, list))
    decreases |list|
  {
    if list != [] {
      assert list[0] in list;
      HandlersFollow(b0, known, Handle(b, list[0]), list[1..]);
    }
  }

  // ----- steps that send nothing

  /** The log of `v` extends that of `w` without a broadcast. */
  ghost predicate Quiet(w: State, v: State) {
    w.log <= v.log && forall j :: |w.log| <= j < |v.log| ==> !v.log[j].Sent?
  }

  lemma FinishQuiet(w: State, order: nat, nonce: uint64, consumed: bool)
    ensures Quiet(w, Finish(w, order, nonce, consumed)) && Finish(w, order, nonce, consumed).book == w.book
  {
  }

  /** Is a replacement due: the order open here and there, and still crossed? */
  ghost predicate Active(w: State, order: nat, sample: Option<int>, tx: TxState, r: Reconciliation) {
    var trigger := EffectiveTrigger(w.book, order);
    && r.status(order) == Got(STATUS_OPEN) && tx != MinedNoReceipt
    && sample.Some? && trigger.Some? && sample.value <= trigger.value
  }

  /** The three ways an entry ends. */
  lemma EndQuiet(w: State, order: nat, nonce: uint64, consumed: bool)
    ensures var done := Finish(w, order, nonce, consumed);
      && Quiet(w, done) && done.book == w.book
      && Quiet(w, Mark(done, order)) && Mark(done, order).book == MarkExecuted(w.book, order)
      && Quiet(w, done.(book := Delete(done.book, order)))
  {
    FinishQuiet(w, order, nonce, consumed);
  }

  /** Without a replacement the vault's status at most ends the entry. */
  lemma VaultQuiet(w: State, order: nat, p: Pending, sample: Option<int>, tx: TxState, r: Reconciliation)
    requires !Active(w, order, sample, tx, r)
    ensures var v := AgainstVault(w, order, p, sample, tx, r);
      Quiet(w, v) && v.book in {w.book, MarkExecuted(w.book, order), Delete(w.book, order)}
  {
    EndQuiet(w, order, p.nonce, tx == MinedNoReceipt);
  }

  lemma VaultGrows(w: State, order: nat, p: Pending, sample: Option<int>, tx: TxState, r: Reconciliation)
    ensures w.log <= AgainstVault(w, order, p, sample, tx, r).log
    ensures sample.None? ==> Quiet(w, AgainstVault(w, order, p, sample, tx, r))
  {
    if !Active(w, order, sample, tx, r) {
      VaultQuiet(w, order, p, sample, tx, r);
    }
  }

  lemma UnconfirmedGrows(w: State, order: nat, p: Pending, sample: Option<int>, r: Reconciliation)
    ensures w.log <= Unconfirmed(w, order, p, sample, r).log
    ensures sample.None? ==> Quiet(w, Unconfirmed(w, order, p, sample, r))
  {
    var seen, missed := p.(missing := 0), p.(missing := p.missing + 1);
    VaultGrows(w.(pending := w.pending[order := seen]), order, seen, sample, Stuck, r);
    VaultGrows(w, order, p, sample, MinedNoReceipt, r);
    VaultGrows(w.(pending := w.pending[order := missed]), order, missed, sample, Dropped, r);
  }

  lemma ReconcileGrows(w: State, order: nat, sample: Option<int>, r: Reconciliation)
    requires order in w.pending
    ensures w.log <= ReconcileOne(w, order, sample, r).log
    ensures sample.None? ==> Quiet(w, ReconcileOne(w, order, sample, r))
  {
    var now := Instructed(w, r.handled);
    var p := now.pending[order];
    UnconfirmedGrows(now, order, p, sample, r);
    FinishQuiet(now, order, p.nonce, true);
  }

  /** A tick without a fresh sample sends nothing, replayed ids or not. */
  lemma NoSampleNoSend(w: State, i: TickInput)
    requires P.Inv(w) && FreshSample(i.price).None?
    ensures Quiet(w, Tick(w, i))
  {
    assert SampledBook(w.book, i.price) == w.book;
    P.ReconcileIsOneTurn(w, None, i.reconcile);
    if w.pending != map[] {
      var o :| o in w.pending;
      ReconcileGrows(w, o, None, i.reconcile(o));
    }
  }

  // ----- first settlements

  /** The order's effective trigger in `b0` is `trigger`, at or above `price`. */
  ghost predicate Crossed(b0: Book, order: nat, trigger: Option<int>, price: int) {
    trigger.Some? && price <= trigger.value && EffectiveTrigger(b0, order) == trigger
  }

  lemma BroadcastSends(w: State, order: nat, nonce: uint64, trigger: int, price: int, a: Attempt, b0: Book)
    requires Crossed(b0, order, Some(trigger), price) && a.gasPrice.Got? && a.gas.Got?
    ensures var v := Broadcast(w, order, nonce, trigger, Some(price), Some(trigger), a).0;
      Sends(w, v, Some(price), b0) && v.book == w.book
  {
  }

  lemma SettleOnceSends(w: State, order: nat, trigger: int, price: int, a: Attempt, b0: Book)
    requires Crossed(b0, order, Some(trigger), price)
    ensures var v := SettleOnce(w, order, trigger, Some(price), Some(trigger), a).0;
      Sends(w, v, Some(price), b0) && v.book == w.book
  {
    var (reserved, n) := ReserveNonce(w.(chainKnown := true), order, a.nonce);
    if n.Some? && a.gasPrice.Got? && a.gas.Got? {
      BroadcastSends(reserved, order, n.value, trigger, price, a, b0);
      SendsThen(w, reserved, Broadcast(reserved, order, n.value, trigger, Some(price), Some(trigger), a).0, Some(price), b0);
    }
  }

  lemma {:induction false} RetrySends(w: State, order: nat, trigger: int, price: int, attempts: nat -> Attempt, k: nat, b0: Book)
    requires Crossed(b0, order, Some(trigger), price)
    ensures var v := SettleWithRetry(w, order, trigger, Some(price), Some(trigger), attempts, k).0;
      Sends(w, v, Some(price), b0) && v.book == w.book
    decreases SETTLE_ATTEMPTS + 1 - k
  {
    if k <= SETTLE_ATTEMPTS {
      SettleOnceSends(w, order, trigger, price, attempts(k), b0);
      var (tried, outcome) := SettleOnce(w, order, trigger, Some(price), Some(trigger), attempts(k));
      if outcome.AttemptFailed? {
        RetrySends(tried, order, trigger, price, attempts, k + 1, b0);
      }
      SendsThen(w, tried, SettleWithRetry(w, order, trigger, Some(price), Some(trigger), attempts, k).0, Some(price), b0);
    }
  }

  /** The order's reported trigger is still its effective trigger when the
      watcher last looks at it, because nothing replaced it since. */
  lemma SettleOneSends(b0: Book, known: set<nat>, w: State, o: Order, price: int, s: Submission)
    requires Follows(b0, known, w.book) && NoReplays(known, s.beforeGet) && NoReplays(known, s.beforeMark)
    requires Crossed(b0, o.id, o.trigger, price) && o.id in known
    ensures Sends(w, SettleOne(w, o, price, s), Some(price), b0)
    ensures Follows(b0, known, SettleOne(w, o, price, s).book)
  {
    HandlersFollow(b0, known, w.book, s.beforeGet);
    var now := Instructed(w, s.beforeGet);
    if IsOpen(now.book, o.id) {
      assert now.book.orders[o.id] == b0.orders[o.id];
      RetrySends(now, o.id, o.trigger.value, price, s.attempt, 1, b0);
      var tried := SettleWithRetry(now, o.id, o.trigger.value, Some(price), o.trigger, s.attempt, 1).0;
      HandlersFollow(b0, known, tried.book, s.beforeMark);
    }
  }

  lemma {:induction false} SettleAllSends(b0: Book, known: set<nat>, w: State, triggered: seq<Order>, price: int,
                                          submit: nat -> Submission)
    requires Follows(b0, known, w.book)
    requires forall o :: NoReplays(known, submit(o).beforeGet) && NoReplays(known, submit(o).beforeMark)
    requires forall o <- triggered :: o.trigger.Some?
    requires forall o <- triggered :: Crossed(b0, o.id, o.trigger, price) && o.id in known
    ensures Sends(w, SettleAll(w, triggered, price, submit), Some(price), b0)
    ensures Follows(b0, known, SettleAll(w, triggered, price, submit).book)
    decreases |triggered|
  {
    if triggered != [] && w.pending == map[] {
      var o := triggered[0];
      SettleOneSends(b0, known, w, o, price, submit(o.id));
      var next := SettleOne(w, o, price, submit(o.id));
      SettleAllSends(b0, known, next, triggered[1..], price, submit);
      SendsThen(w, next, SettleAll(next, triggered[1..], price, submit), Some(price), b0);
    }
  }

  // ----- replacements

  lemma QuietSends(w: State, v: State, sample: Option<int>, b0: Book)
    requires Quiet(w, v)
    ensures Sends(w, v, sample, b0)
  {
  }

  lemma ReplaceSends(b0: Book, w: State, order: nat, p: Pending, trigger: int, price: int, r: Reconciliation)
    requires Crossed(b0, order, Some(trigger), price)
    ensures var v := ReplacePending(w, order, p, trigger, Some(price), r);
      Sends(w, v, Some(price), b0) && v.book == w.book
  {
  }

  lemma VaultSends(b0: Book, known: set<nat>, w: State, order: nat, p: Pending, sample: Option<int>, tx: TxState,
                   r: Reconciliation)
    requires Follows(b0, known, w.book) && order in known
    ensures Sends(w, AgainstVault(w, order, p, sample, tx, r), sample, b0)
    ensures Shrinks(w.book, AgainstVault(w, order, p, sample, tx, r).book)
  {
    var v := AgainstVault(w, order, p, sample, tx, r);
    ClosingShrinks(w.book, order);
    if Active(w, order, sample, tx, r) {
      var trigger := EffectiveTrigger(w.book, order).value;
      assert w.book.orders[order] == b0.orders[order];
      ReplaceSends(b0, w, order, p, trigger, sample.value, r);
    } else {
      VaultQuiet(w, order, p, sample, tx, r);
      QuietSends(w, v, sample, b0);
    }
  }

  lemma UnconfirmedSends(b0: Book, known: set<nat>, w: State, order: nat, p: Pending, sample: Option<int>, r: Reconciliation)
    requires Follows(b0, known, w.book) && order in known
    ensures Sends(w, Unconfirmed(w, order, p, sample, r), sample, b0)
    ensures Shrinks(w.book, Unconfirmed(w, order, p, sample, r).book)
  {
    var seen, missed := p.(missing := 0), p.(missing := p.missing + 1);
    VaultSends(b0, known, w.(pending := w.pending[order := seen]), order, seen, sample, Stuck, r);
    VaultSends(b0, known, w, order, p, sample, MinedNoReceipt, r);
    VaultSends(b0, known, w.(pending := w.pending[order := missed]), order, missed, sample, Dropped, r);
  }

  lemma ReconcileOneSends(b0: Book, known: set<nat>, w: State, order: nat, sample: Option<int>, r: Reconciliation)
    requires order in w.pending && order in known && Follows(b0, known, w.book) && NoReplays(known, r.handled)
    ensures Sends(w, ReconcileOne(w, order, sample, r), sample, b0)
    ensures Follows(b0, known, ReconcileOne(w, order, sample, r).book)
  {
    HandlersFollow(b0, known, w.book, r.handled);
    var now := Instructed(w, r.handled);
    var p := now.pending[order];
    ClosingShrinks(now.book, order);
    UnconfirmedSends(b0, known, now, order, p, sample, r);
    FinishQuiet(now, order, p.nonce, true);
    FollowsThen(b0, known, now.book, ReconcileOne(w, order, sample, r).book);
  }

  lemma ReconcileSends(b0: Book, known: set<nat>, w: State, sample: Option<int>, reconcile: nat -> Reconciliation)
    requires P.Inv(w) && Follows(b0, known, w.book) && w.pending.Keys <= known
    requires forall o :: NoReplays(known, reconcile(o).handled)
    ensures var v := ReconcilePending(w, w.pending.Keys, sample, reconcile);
      Sends(w, v, sample, b0) && Follows(b0, known, v.book)
  {
    P.ReconcileIsOneTurn(w, sample, reconcile);
    if w.pending != map[] {
      var o :| o in w.pending;
      ReconcileOneSends(b0, known, w, o, sample, reconcile(o));
    }
  }

  // ----- the theorem about ticks

  lemma ReportCrossed(b: Book, price: int)
    requires Shape(b)
    ensures forall o <- Triggered(b, Some(price)) :: Crossed(Raised(b, Some(price)), o.id, o.trigger, price)
  {
    var hits := Triggered(b, Some(price));
    forall o | o in hits ensures Crossed(Raised(b, Some(price)), o.id, o.trigger, price) {
      var k :| 0 <= k < |hits| && hits[k] == o;
      ReportedTrigger(b, price, k);
    }
  }

  /** A tick up to the end of its reconciliation. */
  ghost function Reconciled(w: State, i: TickInput): State {
    var sampled := w.(book := SampledBook(w.book, i.price));
    ReconcilePending(sampled, sampled.pending.Keys, FreshSample(i.price), i.reconcile)
  }

  lemma ReconciledSends(w: State, i: TickInput)
    requires P.Inv(w) && Shape(w.book) && PlacedOnce(Known(w), i)
    ensures Sends(w, Reconciled(w, i), FreshSample(i.price), SampledBook(w.book, i.price))
    ensures Follows(SampledBook(w.book, i.price), Known(w), Reconciled(w, i).book)
  {
    var b0 := SampledBook(w.book, i.price);
    var sampled := w.(book := b0);
    P.SameNoncesKeep(w, sampled);
    ReconcileSends(b0, Known(w), sampled, FreshSample(i.price), i.reconcile);
  }

  /** Broadcast soundness. When order ids are placed at most once, everything a
      tick sends, first or replacement, is sent on this tick's fresh sample and
      discloses the order's effective trigger, which is at or above the sample;
      and the orders it leaves are those it started with, sampled. */
  lemma TickSends(w: State, i: TickInput)
    requires P.Inv(w) && Shape(w.book) && PlacedOnce(Known(w), i)
    ensures Sends(w, Tick(w, i), FreshSample(i.price), SampledBook(w.book, i.price))
    ensures Follows(SampledBook(w.book, i.price), Known(w), Tick(w, i).book)
  {
    var sample := FreshSample(i.price);
    ReconciledSends(w, i);
    if sample.Some? {
      var observed := ObservedBook(w.book, i.price);
      var b0 := SampledBook(w.book, i.price);
      ReportCrossed(observed, sample.value);
      SettleAllSends(b0, Known(w), Reconciled(w, i), Triggered(observed, sample), sample.value, i.submit);
      SendsThen(w, Reconciled(w, i), Tick(w, i), sample, b0);
    }
  }

  // ----- orders that are over

  /** One step of a run in which no known id is placed again. */
  ghost predicate PlacesOnce(w: State, s: P.Step) {
    match s
    case TickStep(i) => PlacedOnce(Known(w), i)
    case InstructionStep(x) => NoReplays(Known(w), [x])
  }

  ghost predicate PlacesOnceAlways(w: State, steps: seq<P.Step>)
    decreases |steps|
  {
    steps == [] || (PlacesOnce(w, steps[0]) && PlacesOnceAlways(P.Next(w, steps[0]), steps[1..]))
  }

  /** Broadcast `k` of the log is for this order. */
  predicate SentAt(log: seq<Event>, k: nat, order: nat) {
    k < |log| && log[k].Sent? && log[k].tx.order == order
  }

  ghost predicate NotSentSince(before: seq<Event>, log: seq<Event>, order: nat) {
    before <= log && forall j :: |before| <= j < |log| && log[j].Sent? ==> log[j].tx.order != order
  }

  lemma ClosedTick(w: State, i: TickInput, order: nat)
    requires P.Inv(w) && Shape(w.book) && PlacedOnce(Known(w), i) && order in Known(w) && !IsOpen(w.book, order)
    ensures Shape(Tick(w, i).book) && !IsOpen(Tick(w, i).book, order) && NotSentSince(w.log, Tick(w, i).log, order)
  {
    var b0 := SampledBook(w.book, i.price);
    TickSends(w, i);
    assert !IsOpen(b0, order);
    forall j | |w.log| <= j < |Tick(w, i).log| && Tick(w, i).log[j].Sent? ensures Tick(w, i).log[j].tx.order != order {
      assert SoundSend(Tick(w, i).log[j], FreshSample(i.price), b0);
    }
  }

  lemma ClosedStep(w: State, s: P.Step, k: nat, order: nat)
    requires SentAt(w.log, k, order) && !IsOpen(w.book, order)
    requires P.Inv(w) && Shape(w.book)
    requires PlacesOnce(w, s)
    ensures var v := P.Next(w, s);
      && P.Inv(v) && Shape(v.book) && SentAt(v.log, k, order) && !IsOpen(v.book, order)
      && NotSentSince(w.log, v.log, order)
  {
    assert w.log[k] in w.log;
    match s {
      case TickStep(i) =>
        P.TickKeeps(w, i);
        ClosedTick(w, i, order);
      case InstructionStep(x) =>
        P.SameNoncesKeep(w, P.Next(w, s));
        HandlersFollow(w.book, Known(w), w.book, [x]);
    }
  }

  /** Once an order that was broadcast for is no longer open in the enclave -
      executed, or gone - nothing is ever sent for it again. */
  lemma {:induction false} ClosedForGood(w: State, steps: seq<P.Step>, k: nat, order: nat)
    requires P.Inv(w) && Shape(w.book) && PlacesOnceAlways(w, steps)
    requires SentAt(w.log, k, order) && !IsOpen(w.book, order)
    ensures var v := P.Run(w, steps);
      NotSentSince(w.log, v.log, order) && !IsOpen(v.book, order)
    decreases |steps|
  {
    if steps != [] {
      ClosedStep(w, steps[0], k, order);
      ClosedForGood(P.Next(w, steps[0]), steps[1..], k, order);
    }
  }

  // ----- what the calldata discloses

  /** The calldata carries the effective trigger itself exactly when that fits a
      uint256, which every fixed one does; the sample is then at or below it. */
  lemma CalldataIsExactIff(e: Event, sample: Option<int>, b0: Book)
    requires e.Sent? && Shape(b0) && SoundSend(e, sample, b0)
    ensures e.tx.trigger == e.effective.value <==> e.effective.value < TWO_256
    ensures e.effective.value < TWO_256 ==> sample.value <= e.tx.trigger
    ensures b0.orders[e.tx.order].trailBps == 0 ==> e.effective.value < TWO_256
  {
    var o := b0.orders[e.tx.order];
    if o.trailBps > 0 {
      assert o.high.value * Kept(o.trailBps) >= 0;
    }
  }
}
