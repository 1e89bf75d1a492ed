/** What each event of a tick owes to the answers that the tick was given. */
module SettlementEvents {
  import opened Numbers
  import opened OrderBook
  import opened Settlement
  import P = SettlementProofs

  // ----- first settlements

  /** One of the three attempts for an order. */
  ghost predicate Attempted(i: TickInput, order: nat, a: Attempt) {
    exists k: nat :: 1 <= k <= 3 && a == i.submit(order).attempt(k)
  }

  /** The transaction is priced as the attempt's answers say. */
  predicate FirstTx(a: Attempt, tx: Tx) {
    a.gasPrice == Got(tx.gasPrice) && a.gas == Got(tx.gas) && tx.maxAge == 300
  }

  /** A reservation is at or above the count that the node answered. */
  ghost predicate ReservedFrom(i: TickInput, order: nat, nonce: uint64) {
    exists a :: Attempted(i, order, a) && a.nonce.Got? && a.nonce.value <= nonce
  }

  ghost predicate SentFirst(i: TickInput, tx: Tx) {
    exists a :: Attempted(i, tx.order, a) && FirstTx(a, tx)
  }

  /** A pending entry is what was sent, first seen when it was sent and missed never;
      its send failed or it had no receipt. */
  ghost predicate OpenedFrom(i: TickInput, order: nat, p: Pending) {
    exists a :: Attempted(i, order, a) && Uncertain(a, order, p)
  }

  predicate Uncertain(a: Attempt, order: nat, p: Pending) {
    && FirstTx(a, p.tx) && p.tx.order == order && p.tx.nonce == p.nonce && p.tx.gasPrice == p.gasPrice
    && p.tx.trigger == Low256(p.trigger) && p.firstSeen == a.sentAt && p.missing == 0
    && (!a.sent || !a.receipt(p.tx).Got?)
  }

  // ----- replacements

  /** A replacement is for the pending broadcast, without a receipt, on its nonce, at
      nine eighths of its price and one more, or at the suggested price if higher. */
  ghost predicate ReplacedFrom(w: State, i: TickInput, tx: Tx) {
    var r := i.reconcile(tx.order);
    && tx.order in w.pending
    && var p := w.pending[tx.order];
    && r.receipt(p.tx).NotFound? && r.status(tx.order) == Got(1)
    && r.gasPrice.Got? && r.gas == Got(tx.gas)
    && tx.nonce == p.nonce && tx.maxAge == 300
    && tx.gasPrice == Max(r.gasPrice.value, p.gasPrice * 9 / 8 + 1)
  }

  /** The entry recorded for a replacement is the one sent, counted afresh. */
  ghost predicate RecordedFrom(w: State, i: TickInput, order: nat, p: Pending) {
    && ReplacedFrom(w, i, p.tx) && p.tx.order == order && p.tx.nonce == p.nonce && p.tx.gasPrice == p.gasPrice
    && p.tx.trigger == Low256(p.trigger) && i.reconcile(order).sent
    && p.firstSeen == i.reconcile(order).sentAt && p.missing == 0
  }

  // ----- every event

  /** What an event of a tick from `w` may be. */
  ghost predicate EventLaw(w: State, i: TickInput, e: Event) {
    match e
    case Reserved(order, n) => ReservedFrom(i, order, n)
    case Sent(tx, sample, _) =>
      sample.Some? && sample == FreshSample(i.price) && (SentFirst(i, tx) || ReplacedFrom(w, i, tx))
    case Opened(order, p) => OpenedFrom(i, order, p)
    case Replaced(order, p) => RecordedFrom(w, i, order, p)
    case Cleared(order) => order in w.pending
    case Released(_, _, _) => true
  }

  ghost predicate Lawful(w: State, i: TickInput, before: seq<Event>, after: seq<Event>) {
    before <= after && forall j :: |before| <= j < |after| ==> EventLaw(w, i, after[j])
  }

  lemma LawfulThen(w: State, i: TickInput, a: seq<Event>, b: seq<Event>, c: seq<Event>)
    requires Lawful(w, i, a, b) && Lawful(w, i, b, c)
    ensures Lawful(w, i, a, c)
  {
    forall j | |a| <= j < |c| ensures EventLaw(w, i, c[j]) {
      if j < |b| {
        assert b[j] == c[j];
      }
    }
  }

  lemma OneMore(w: State, i: TickInput, log: seq<Event>, e: Event)
    requires EventLaw(w, i, e)
    ensures Lawful(w, i, log, log + [e])
  {
  }

  // ----- the paths of a first settlement

  lemma ReleaseLawful(w: State, i: TickInput, v: State, order: nat, nonce: uint64, consumed: bool)
    ensures Lawful(w, i, v.log, ReleaseNonce(v, order, nonce, consumed).log)
  {
  }

  lemma ReserveLawful(w: State, i: TickInput, v: State, order: nat, a: Attempt)
    requires v.owners == map[] && Attempted(i, order, a)
    ensures Lawful(w, i, v.log, ReserveNonce(v, order, a.nonce).0.log)
  {
    P.ReserveIdle(v, order, a.nonce);
    var n := ReserveNonce(v, order, a.nonce).1;
    if n.Some? {
      assert ReservedFrom(i, order, n.value);
    }
  }

  lemma BroadcastLawful(w: State, i: TickInput, v: State, order: nat, nonce: uint64, trigger: int, sample: Option<int>,
                        effective: Option<int>, a: Attempt)
    requires Attempted(i, order, a) && a.gasPrice.Got? && a.gas.Got? && sample.Some? && sample == FreshSample(i.price)
    ensures var (u, outcome) := Broadcast(v, order, nonce, trigger, sample, effective, a);
      Lawful(w, i, v.log, u.log) && (outcome.Unresolved? ==> OpenedFrom(i, order, outcome.entry))
  {
    var tx := Tx(nonce, order, Low256(trigger), SETTLE_MAX_AGE_SEC, a.gasPrice.value, a.gas.value);
    var sent := Emit(v, Sent(tx, sample, effective));
    assert FirstTx(a, tx) && SentFirst(i, tx);
    OneMore(w, i, v.log, Sent(tx, sample, effective));
    ReleaseLawful(w, i, sent, order, nonce, true);
    LawfulThen(w, i, v.log, sent.log, ReleaseNonce(sent, order, nonce, true).log);
    if !a.sent || !a.receipt(tx).Got? {
      assert Uncertain(a, order, Pending(tx, nonce, a.gasPrice.value, trigger, a.sentAt, 0));
    }
  }

  lemma SettleOnceLawful(w: State, i: TickInput, v: State, order: nat, trigger: int, sample: Option<int>,
                         effective: Option<int>, a: Attempt)
    requires v.owners == map[] && Attempted(i, order, a) && sample.Some? && sample == FreshSample(i.price)
    ensures var (u, outcome) := SettleOnce(v, order, trigger, sample, effective, a);
      Lawful(w, i, v.log, u.log) && (outcome.Unresolved? ==> OpenedFrom(i, order, outcome.entry))
  {
    var known := v.(chainKnown := true);
    ReserveLawful(w, i, known, order, a);
    var (reserved, n) := ReserveNonce(known, order, a.nonce);
    if n.Some? && a.gasPrice.Got? && a.gas.Got? {
      ReleaseLawful(w, i, reserved, order, n.value, false);
      LawfulThen(w, i, v.log, reserved.log, ReleaseNonce(reserved, order, n.value, false).log);
      BroadcastLawful(w, i, reserved, order, n.value, trigger, sample, effective, a);
      LawfulThen(w, i, v.log, reserved.log, Broadcast(reserved, order, n.value, trigger, sample, effective, a).0.log);
    }
  }

  lemma {:induction false} RetryLawful(w: State, i: TickInput, v: State, order: nat, trigger: int, sample: Option<int>,
                                       effective: Option<int>, k: nat)
    requires P.Idle(v) && 1 <= k && sample.Some? && sample == FreshSample(i.price)
    ensures Lawful(w, i, v.log, SettleWithRetry(v, order, trigger, sample, effective, i.submit(order).attempt, k).0.log)
    decreases SETTLE_ATTEMPTS + 1 - k
  {
    var attempts := i.submit(order).attempt;
    if k <= SETTLE_ATTEMPTS {
      assert Attempted(i, order, attempts(k));
      SettleOnceLawful(w, i, v, order, trigger, sample, effective, attempts(k));
      P.SettleOnceKeeps(v, order, trigger, sample, effective, attempts(k));
      var (tried, outcome) := SettleOnce(v, order, trigger, sample, effective, attempts(k));
      match outcome
      case Confirmed =>
      case Unresolved(entry) =>
        OneMore(w, i, tried.log, Opened(order, entry));
        LawfulThen(w, i, v.log, tried.log, tried.log + [Opened(order, entry)]);
      case AttemptFailed =>
        RetryLawful(w, i, tried, order, trigger, sample, effective, k + 1);
        LawfulThen(w, i, v.log, tried.log, SettleWithRetry(tried, order, trigger, sample, effective, attempts, k + 1).0.log);
    }
  }

  lemma SettleOneLawful(w: State, i: TickInput, v: State, o: Order, price: int)
    requires P.Idle(v) && o.trigger.Some? && Some(price) == FreshSample(i.price)
    ensures Lawful(w, i, v.log, SettleOne(v, o, price, i.submit(o.id)).log)
  {
    var now := Instructed(v, i.submit(o.id).beforeGet);
    P.SameNoncesKeep(v, now);
    RetryLawful(w, i, now, o.id, o.trigger.value, Some(price), EffectiveTrigger(now.book, o.id), 1);
  }

  lemma {:induction false} SettleAllLawful(w: State, i: TickInput, v: State, triggered: seq<Order>, price: int)
    requires P.Inv(v) && Some(price) == FreshSample(i.price) && forall o <- triggered :: o.trigger.Some?
    ensures Lawful(w, i, v.log, SettleAll(v, triggered, price, i.submit).log)
    decreases |triggered|
  {
    if triggered != [] && v.pending == map[] {
      var o := triggered[0];
      var next := SettleOne(v, o, price, i.submit(o.id));
      SettleOneLawful(w, i, v, o, price);
      P.SettleOneKeeps(v, o, price, i.submit(o.id));
      SettleAllLawful(w, i, next, triggered[1..], price);
      LawfulThen(w, i, v.log, next.log, SettleAll(next, triggered[1..], price, i.submit).log);
    }
  }

  // ----- the paths of a reconciliation

  lemma FinishLawful(w: State, i: TickInput, v: State, order: nat, nonce: uint64, consumed: bool)
    requires order in w.pending
    ensures Lawful(w, i, v.log, Finish(v, order, nonce, consumed).log)
  {
    OneMore(w, i, v.log, Cleared(order));
    ReleaseLawful(w, i, Clear(v, order), order, nonce, consumed);
    LawfulThen(w, i, v.log, Clear(v, order).log, Finish(v, order, nonce, consumed).log);
  }

  /** The same broadcast, whatever has been counted about it since. */
  predicate SameBroadcast(p: Pending, q: Pending) {
    p.tx == q.tx && p.nonce == q.nonce && p.gasPrice == q.gasPrice
  }

  lemma ResendLawful(w: State, i: TickInput, v: State, order: nat, p: Pending, trigger: int, price: nat, gas: nat)
    requires order in w.pending && SameBroadcast(p, w.pending[order]) && FreshSample(i.price).Some?
    requires var r := i.reconcile(order);
      && r.receipt(p.tx).NotFound? && r.status(order) == Got(1) && r.gasPrice.Got? && r.gas == Got(gas)
      && price == Max(r.gasPrice.value, p.gasPrice * 9 / 8 + 1)
    ensures Lawful(w, i, v.log, Resend(v, order, p, trigger, FreshSample(i.price), price, gas, i.reconcile(order)).log)
  {
    var r := i.reconcile(order);
    var tx := Tx(p.nonce, order, Low256(trigger), SETTLE_MAX_AGE_SEC, price, gas);
    var sent := Sent(tx, FreshSample(i.price), Some(trigger));
    assert ReplacedFrom(w, i, tx);
    OneMore(w, i, v.log, sent);
    if r.sent {
      var entry := Pending(tx, p.nonce, price, trigger, r.sentAt, 0);
      OneMore(w, i, v.log + [sent], Replaced(order, entry));
      LawfulThen(w, i, v.log, v.log + [sent], v.log + [sent] + [Replaced(order, entry)]);
    }
  }

  lemma ReplaceLawful(w: State, i: TickInput, v: State, order: nat, p: Pending, trigger: int)
    requires order in w.pending && SameBroadcast(p, w.pending[order]) && FreshSample(i.price).Some?
    requires i.reconcile(order).receipt(p.tx).NotFound? && i.reconcile(order).status(order) == Got(1)
    ensures Lawful(w, i, v.log, ReplacePending(v, order, p, trigger, FreshSample(i.price), i.reconcile(order)).log)
  {
    var r := i.reconcile(order);
    var known := v.(owners := v.owners[p.nonce := order], chainKnown := true);
    if r.gasPrice.Got? && r.gas.Got? {
      ResendLawful(w, i, known, order, p, trigger, Bumped(p.gasPrice, r.gasPrice.value), r.gas.value);
    }
  }

  lemma VaultLawful(w: State, i: TickInput, v: State, order: nat, p: Pending, tx: TxState)
    requires order in w.pending && SameBroadcast(p, w.pending[order]) && i.reconcile(order).receipt(p.tx).NotFound?
    ensures Lawful(w, i, v.log, AgainstVault(v, order, p, FreshSample(i.price), tx, i.reconcile(order)).log)
  {
    var sample, r := FreshSample(i.price), i.reconcile(order);
    var trigger := EffectiveTrigger(v.book, order);
    FinishLawful(w, i, v, order, p.nonce, tx == MinedNoReceipt);
    P.VaultCases(v, order, p, sample, tx, r);
    if trigger.Some? && sample.Some? && r.status(order) == Got(1) {
      ReplaceLawful(w, i, v, order, p, trigger.value);
    } else if AgainstVault(v, order, p, sample, tx, r) != v {
      NotReplaced(v, order, p, sample, tx, r);
    }
  }

  /** Without a sample, or with a status other than OPEN, nothing is replaced. */
  lemma NotReplaced(v: State, order: nat, p: Pending, sample: Option<int>, tx: TxState, r: Reconciliation)
    requires sample.None? || EffectiveTrigger(v.book, order).None? || r.status(order) != Got(1)
    ensures var done := Finish(v, order, p.nonce, tx == MinedNoReceipt);
      AgainstVault(v, order, p, sample, tx, r).log in {v.log, done.log}
  {
  }

  lemma UnconfirmedLawful(w: State, i: TickInput, v: State, order: nat, p: Pending)
    requires order in w.pending && SameBroadcast(p, w.pending[order]) && i.reconcile(order).receipt(p.tx).NotFound?
    ensures Lawful(w, i, v.log, Unconfirmed(v, order, p, FreshSample(i.price), i.reconcile(order)).log)
  {
    var r := i.reconcile(order);
    match r.lookup(p.tx)
    case Got(true) =>
      var seen := p.(missing := 0);
      VaultLawful(w, i, v.(pending := v.pending[order := seen]), order, seen, Stuck);
    case Got(false) => VaultLawful(w, i, v, order, p, MinedNoReceipt);
    case Failed =>
    case NotFound =>
      var missed := p.(missing := p.missing + 1);
      VaultLawful(w, i, v.(pending := v.pending[order := missed]), order, missed, Dropped);
  }

  lemma ReconcileOneLawful(w: State, i: TickInput, v: State, order: nat)
    requires order in v.pending && v.pending == w.pending
    ensures Lawful(w, i, v.log, ReconcileOne(v, order, FreshSample(i.price), i.reconcile(order)).log)
  {
    var r := i.reconcile(order);
    var now := Instructed(v, r.handled);
    var p := now.pending[order];
    match r.receipt(p.tx)
    case NotFound => UnconfirmedLawful(w, i, now, order, p);
    case Failed =>
    case Got(success) => FinishLawful(w, i, now, order, p.nonce, true);
  }

  // ----- ticks and runs

  /** Everything a tick logs follows from the answers it was given. */
  lemma TickLawful(w: State, i: TickInput)
    requires P.Inv(w)
    ensures Lawful(w, i, w.log, Tick(w, i).log)
  {
    var sample := FreshSample(i.price);
    var sampled := w.(book := SampledBook(w.book, i.price));
    var reconciled := ReconcilePending(sampled, sampled.pending.Keys, sample, i.reconcile);
    P.SameNoncesKeep(w, sampled);
    P.ReconcileIsOneTurn(sampled, sample, i.reconcile);
    P.ReconcileKeeps(sampled, sample, i.reconcile);
    if sampled.pending != map[] {
      var o :| o in sampled.pending;
      ReconcileOneLawful(w, i, sampled, o);
    }
    if sample.Some? {
      SettleAllLawful(w, i, reconciled, Triggered(ObservedBook(w.book, i.price), sample), sample.value);
      LawfulThen(w, i, w.log, reconciled.log, Tick(w, i).log);
    }
  }

  /** The tick of a run that an event comes from. */
  ghost predicate ComesFrom(w: State, steps: seq<P.Step>, m: nat, e: Event) {
    m < |steps| && steps[m].TickStep? && EventLaw(P.Run(w, steps[..m]), steps[m].input, e)
  }

  lemma ComesLater(w: State, steps: seq<P.Step>, m: nat, e: Event)
    requires steps != [] && ComesFrom(P.Next(w, steps[0]), steps[1..], m, e)
    ensures ComesFrom(w, steps, m + 1, e)
  {
    var first := steps[..m + 1];
    assert first[0] == steps[0] && first[1..] == steps[1..][..m];
    assert P.Run(w, first) == P.Run(P.Next(w, steps[0]), first[1..]);
  }

  /** Some tick of the run accounts for the event. */
  ghost predicate Explained(w: State, steps: seq<P.Step>, e: Event) {
    exists m: nat :: ComesFrom(w, steps, m, e)
  }

  lemma ExplainedLater(w: State, steps: seq<P.Step>, e: Event)
    requires steps != [] && Explained(P.Next(w, steps[0]), steps[1..], e)
    ensures Explained(w, steps, e)
  {
    var m: nat :| ComesFrom(P.Next(w, steps[0]), steps[1..], m, e);
    ComesLater(w, steps, m, e);
  }

  /** Over every run, each new event comes from some tick, and from its answers. */
  lemma {:induction false} RunLawful(w: State, steps: seq<P.Step>)
    requires P.Inv(w)
    ensures w.log <= P.Run(w, steps).log
    ensures forall j :: |w.log| <= j < |P.Run(w, steps).log| ==> Explained(w, steps, P.Run(w, steps).log[j])
    decreases |steps|
  {
    if steps != [] {
      var next, end := P.Next(w, steps[0]), P.Run(w, steps);
      StepLawful(w, steps[0]);
      RunLawful(next, steps[1..]);
      forall j | |w.log| <= j < |end.log| ensures Explained(w, steps, end.log[j]) {
        if j < |next.log| {
          assert P.Run(w, steps[..0]) == w && next.log[j] == end.log[j];
          assert ComesFrom(w, steps, 0, end.log[j]);
        } else {
          ExplainedLater(w, steps, end.log[j]);
        }
      }
    }
  }

  lemma StepLawful(w: State, s: P.Step)
    requires P.Inv(w)
    ensures var next := P.Next(w, s);
      && P.Inv(next) && w.log <= next.log
      && (s.InstructionStep? ==> next.log == w.log)
      && (s.TickStep? ==> Lawful(w, s.input, w.log, next.log))
  {
    match s
    case TickStep(i) =>
      P.TickKeeps(w, i);
      TickLawful(w, i);
    case InstructionStep(x) => P.SameNoncesKeep(w, P.Next(w, s));
  }
}
