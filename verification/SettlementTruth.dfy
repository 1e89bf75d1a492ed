/** What truthful RPC answers are worth to the watcher: an order is marked
    executed, and a nonce released as consumed, only on true evidence. */
module SettlementTruth {
  import opened Numbers
  import opened OrderBook
  import opened Settlement
  import P = SettlementProofs

  // ----- answers that are true of the chain

  /** A receipt exists only for a used nonce, a good one for an executed order. */
  ghost predicate ReceiptsTrue(receipt: Tx -> Answer<bool>, executed: set<nat>, used: nat) {
    forall tx :: receipt(tx).Got? ==> tx.nonce < used && (receipt(tx).value ==> tx.order in executed)
  }

  ghost predicate ReconciliationTrue(r: Reconciliation, executed: set<nat>, used: nat) {
    && ReceiptsTrue(r.receipt, executed, used)
    && (forall tx :: r.lookup(tx) == Got(false) ==> tx.nonce < used)
    && (forall o :: r.status(o) == Got(STATUS_EXECUTED) ==> o in executed)
  }

  ghost predicate SubmissionTrue(s: Submission, executed: set<nat>, used: nat) {
    forall k :: ReceiptsTrue(s.attempt(k).receipt, executed, used)
  }

  ghost predicate InputTrue(i: TickInput, executed: set<nat>, used: nat) {
    && (forall o :: ReconciliationTrue(i.reconcile(o), executed, used))
    && (forall o :: SubmissionTrue(i.submit(o), executed, used))
  }

  // ----- agreement

  ghost predicate BookAgrees(b: Book, executed: set<nat>) {
    forall id <- b.orders :: b.orders[id].status == Executed ==> id in executed
  }

  ghost predicate LogAgrees(log: seq<Event>, used: nat) {
    forall e <- log :: e.Released? && e.consumed ==> e.nonce < used
  }

  /** Every locally executed order is in `executed`, and every nonce released as
      consumed is below `used`. */
  ghost predicate Agrees(w: State, executed: set<nat>, used: nat) {
    BookAgrees(w.book, executed) && LogAgrees(w.log, used)
  }

  lemma {:induction false} HandlersAgree(b: Book, list: seq<Instruction>, executed: set<nat>)
    requires BookAgrees(b, executed)
    ensures BookAgrees(HandleAll(b, list), executed)
    decreases |list|
  {
    if list != [] {
      HandlersAgree(Handle(b, list[0]), list[1..], executed);
    }
  }

  lemma ReleaseAgrees(w: State, order: nat, nonce: uint64, consumed: bool, executed: set<nat>, used: nat)
    requires Agrees(w, executed, used) && (consumed ==> nonce < used)
    ensures Agrees(ReleaseNonce(w, order, nonce, consumed), executed, used)
  {
  }

  lemma FinishAgrees(w: State, order: nat, nonce: uint64, consumed: bool, executed: set<nat>, used: nat)
    requires Agrees(w, executed, used) && (consumed ==> nonce < used)
    ensures Agrees(Finish(w, order, nonce, consumed), executed, used)
  {
  }

  // ----- first settlements

  lemma BroadcastAgrees(w: State, order: nat, nonce: uint64, trigger: int, sample: Option<int>, effective: Option<int>,
                        a: Attempt, executed: set<nat>, used: nat)
    requires Agrees(w, executed, used) && ReceiptsTrue(a.receipt, executed, used) && a.gasPrice.Got? && a.gas.Got?
    ensures var (v, outcome) := Broadcast(w, order, nonce, trigger, sample, effective, a);
      Agrees(v, executed, used) && (outcome.Confirmed? ==> order in executed)
  {
    var tx := Tx(nonce, order, Low256(trigger), SETTLE_MAX_AGE_SEC, a.gasPrice.value, a.gas.value);
    if a.receipt(tx).Got? {
      ReleaseAgrees(Emit(w, Sent(tx, sample, effective)), order, nonce, true, executed, used);
    }
  }

  lemma SettleOnceAgrees(w: State, order: nat, trigger: int, sample: Option<int>, effective: Option<int>, a: Attempt,
                         executed: set<nat>, used: nat)
    requires Agrees(w, executed, used) && ReceiptsTrue(a.receipt, executed, used)
    ensures var (v, outcome) := SettleOnce(w, order, trigger, sample, effective, a);
      Agrees(v, executed, used) && (outcome.Confirmed? ==> order in executed)
  {
    var (reserved, n) := ReserveNonce(w.(chainKnown := true), order, a.nonce);
    if n.Some? && a.gasPrice.Got? && a.gas.Got? {
      ReleaseAgrees(reserved, order, n.value, false, executed, used);
      BroadcastAgrees(reserved, order, n.value, trigger, sample, effective, a, executed, used);
    }
  }

  lemma {:induction false} RetryAgrees(w: State, order: nat, trigger: int, sample: Option<int>, effective: Option<int>,
                                       attempts: nat -> Attempt, k: nat, executed: set<nat>, used: nat)
    requires Agrees(w, executed, used) && forall j :: ReceiptsTrue(attempts(j).receipt, executed, used)
    ensures var (v, settled) := SettleWithRetry(w, order, trigger, sample, effective, attempts, k);
      Agrees(v, executed, used) && (settled ==> order in executed)
    decreases SETTLE_ATTEMPTS + 1 - k
  {
    if k <= SETTLE_ATTEMPTS {
      SettleOnceAgrees(w, order, trigger, sample, effective, attempts(k), executed, used);
      var (tried, outcome) := SettleOnce(w, order, trigger, sample, effective, attempts(k));
      if outcome.AttemptFailed? {
        RetryAgrees(tried, order, trigger, sample, effective, attempts, k + 1, executed, used);
      }
    }
  }

  lemma SettleOneAgrees(w: State, o: Order, price: int, s: Submission, executed: set<nat>, used: nat)
    requires o.trigger.Some? && Agrees(w, executed, used) && SubmissionTrue(s, executed, used)
    ensures Agrees(SettleOne(w, o, price, s), executed, used)
  {
    HandlersAgree(w.book, s.beforeGet, executed);
    var now := Instructed(w, s.beforeGet);
    var effective := EffectiveTrigger(now.book, o.id);
    RetryAgrees(now, o.id, o.trigger.value, Some(price), effective, s.attempt, 1, executed, used);
    var (tried, settled) := SettleWithRetry(now, o.id, o.trigger.value, Some(price), effective, s.attempt, 1);
    HandlersAgree(tried.book, s.beforeMark, executed);
  }

  lemma {:induction false} SettleAllAgrees(w: State, triggered: seq<Order>, price: int, submit: nat -> Submission,
                                           executed: set<nat>, used: nat)
    requires forall o <- triggered :: o.trigger.Some?
    requires Agrees(w, executed, used) && forall o :: SubmissionTrue(submit(o), executed, used)
    ensures Agrees(SettleAll(w, triggered, price, submit), executed, used)
    decreases |triggered|
  {
    if triggered != [] && w.pending == map[] {
      var s := submit(triggered[0].id);
      SettleOneAgrees(w, triggered[0], price, s, executed, used);
      SettleAllAgrees(SettleOne(w, triggered[0], price, s), triggered[1..], price, submit, executed, used);
    }
  }

  // ----- reconciliation

  lemma ReplaceAgrees(w: State, order: nat, p: Pending, trigger: int, sample: Option<int>, r: Reconciliation,
                      executed: set<nat>, used: nat)
    requires Agrees(w, executed, used)
    ensures Agrees(ReplacePending(w, order, p, trigger, sample, r), executed, used)
  {
  }

  /** The three ways an entry ends against the vault's status. */
  lemma EndAgrees(w: State, order: nat, nonce: uint64, consumed: bool, executed: set<nat>, used: nat)
    requires Agrees(w, executed, used) && (consumed ==> nonce < used)
    ensures var done := Finish(w, order, nonce, consumed);
      && Agrees(done, executed, used)
      && Agrees(done.(book := Delete(done.book, order)), executed, used)
      && (order in executed ==> Agrees(Mark(done, order), executed, used))
  {
    FinishAgrees(w, order, nonce, consumed, executed, used);
  }

  lemma VaultAgrees(w: State, order: nat, p: Pending, sample: Option<int>, tx: TxState, r: Reconciliation,
                    executed: set<nat>, used: nat)
    requires Agrees(w, executed, used) && ReconciliationTrue(r, executed, used)
    requires tx == MinedNoReceipt ==> p.nonce < used
    ensures Agrees(AgainstVault(w, order, p, sample, tx, r), executed, used)
  {
    var trigger := EffectiveTrigger(w.book, order);
    if r.status(order) == Got(STATUS_OPEN) && tx != MinedNoReceipt && trigger.Some? {
      ReplaceAgrees(w, order, p, trigger.value, sample, r, executed, used);
    }
    if tx == MinedNoReceipt {
      EndAgrees(w, order, p.nonce, true, executed, used);
    } else {
      EndAgrees(w, order, p.nonce, false, executed, used);
    }
  }

  lemma UnconfirmedAgrees(w: State, order: nat, p: Pending, sample: Option<int>, r: Reconciliation,
                          executed: set<nat>, used: nat)
    requires Agrees(w, executed, used) && ReconciliationTrue(r, executed, used) && p.tx.nonce == p.nonce
    ensures Agrees(Unconfirmed(w, order, p, sample, r), executed, used)
  {
    match r.lookup(p.tx)
    case Got(true) =>
      var seen := p.(missing := 0);
      VaultAgrees(w.(pending := w.pending[order := seen]), order, seen, sample, Stuck, r, executed, used);
    case Got(false) => VaultAgrees(w, order, p, sample, MinedNoReceipt, r, executed, used);
    case Failed =>
    case NotFound =>
      var missed := p.(missing := p.missing + 1);
      VaultAgrees(w.(pending := w.pending[order := missed]), order, missed, sample, Dropped, r, executed, used);
  }

  lemma ReconcileOneAgrees(w: State, order: nat, sample: Option<int>, r: Reconciliation, executed: set<nat>, used: nat)
    requires P.Waiting(w) && order in w.pending
    requires Agrees(w, executed, used) && ReconciliationTrue(r, executed, used)
    ensures Agrees(ReconcileOne(w, order, sample, r), executed, used)
  {
    HandlersAgree(w.book, r.handled, executed);
    var now := Instructed(w, r.handled);
    var p := now.pending[order];
    match r.receipt(p.tx)
    case NotFound => UnconfirmedAgrees(now, order, p, sample, r, executed, used);
    case Failed =>
    case Got(success) => FinishAgrees(now, order, p.nonce, true, executed, used);
  }

  /** A tick whose answers are true keeps the watcher in agreement. */
  lemma TickAgrees(w: State, i: TickInput, executed: set<nat>, used: nat)
    requires P.Inv(w) && Agrees(w, executed, used) && InputTrue(i, executed, used)
    ensures Agrees(Tick(w, i), executed, used)
  {
    var sample := FreshSample(i.price);
    var sampled := w.(book := SampledBook(w.book, i.price));
    P.SameNoncesKeep(w, sampled);
    P.ReconcileIsOneTurn(sampled, sample, i.reconcile);
    if sampled.pending != map[] {
      var o :| o in sampled.pending;
      ReconcileOneAgrees(sampled, o, sample, i.reconcile(o), executed, used);
    }
    if sample.Some? {
      var reconciled := ReconcilePending(sampled, sampled.pending.Keys, sample, i.reconcile);
      SettleAllAgrees(reconciled, Triggered(ObservedBook(w.book, i.price), sample), sample.value, i.submit, executed, used);
    }
  }
}
