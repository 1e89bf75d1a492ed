/** The watcher's rules in figures: how old a price may be, when a lookup is enough,
    how often a settlement is tried, and what a tick does when everything works. */
module SettlementLaws {
  import opened Numbers
  import opened OrderBook
  import opened OrderBookProofs
  import opened Settlement
  import opened SettlementEvents
  import P = SettlementProofs
  import S = SettlementSends
  import H = SettlementHolds
  import PriceAgreement

  // ----- fresh prices

  /** The clock is not before 1970 and inside int64 seconds, and a feed timestamp is
      a uint64. One above int64 wraps; from five minutes past the start of 1970 on
      that makes no difference. */
  predicate Clock(a: PriceAnswer) {
    a.Price? ==>
      && 0 <= a.now / 1_000_000_000 < TWO_63 && a.feed.timestamp < TWO_64
      && (a.feed.timestamp >= TWO_63 ==> a.now / 1_000_000_000 >= 300)
  }

  /** A price that was read, not from the future and at most 300 seconds old. */
  predicate Usable(a: PriceAnswer) {
    a.Price? && 0 <= a.now / 1_000_000_000 - a.feed.timestamp <= 300
  }

  /** `sample` is the feed's price at six decimals. */
  ghost predicate SampleOf(a: PriceAnswer, sample: int) {
    a.Price? && PriceAgreement.AtSixDecimals(sample, a.feed.value, a.feed.decimals)
  }

  lemma AgeIs(timestamp: nat, seconds: int)
    requires 0 <= seconds < TWO_63 && timestamp < TWO_64 && (timestamp >= TWO_63 ==> seconds >= 300)
    ensures 0 <= Int64(seconds - Int64(timestamp)) <= 300 <==> 0 <= seconds - timestamp <= 300
  {
  }

  lemma FreshIff(a: PriceAnswer)
    requires Clock(a)
    ensures FreshSample(a).Some? <==> Usable(a)
    ensures FreshSample(a).Some? ==> SampleOf(a, FreshSample(a).value)
  {
    if a.Price? {
      AgeIs(a.feed.timestamp, a.now / 1_000_000_000);
      PriceAgreement.SampleAtSixDecimals(a.feed.value, a.feed.decimals);
    }
  }

  /** Everything a tick sends is sent on a price that it read, at most 300 seconds
      old, and on that price. */
  lemma SendsAreFresh(w: State, i: TickInput)
    requires P.Inv(w) && Clock(i.price)
    ensures w.log <= Tick(w, i).log
    ensures forall j :: |w.log| <= j < |Tick(w, i).log| && Tick(w, i).log[j].Sent? ==> SentFresh(i.price, Tick(w, i).log[j])
  {
    TickLawful(w, i);
    FreshIff(i.price);
    forall j | |w.log| <= j < |Tick(w, i).log| && Tick(w, i).log[j].Sent? ensures SentFresh(i.price, Tick(w, i).log[j]) {
      assert EventLaw(w, i, Tick(w, i).log[j]);
    }
  }

  ghost predicate SentFresh(a: PriceAnswer, e: Event)
    requires e.Sent?
  {
    Usable(a) && e.sample.Some? && SampleOf(a, e.sample.value)
  }

  // ----- the last sample, through a tick

  predicate SameLatest(b: Book, c: Book) {
    b.latest == c.latest && b.latestAt == c.latestAt
  }

  lemma {:induction false} HandlersLatest(b: Book, list: seq<Instruction>)
    ensures SameLatest(b, HandleAll(b, list))
    decreases |list|
  {
    if list != [] {
      HandlersLatest(Handle(b, list[0]), list[1..]);
    }
  }

  lemma UnconfirmedLatest(w: State, order: nat, p: Pending, sample: Option<int>, r: Reconciliation)
    ensures SameLatest(w.book, Unconfirmed(w, order, p, sample, r).book)
  {
    var seen, missed := p.(missing := 0), p.(missing := p.missing + 1);
    H.VaultBook(w.(pending := w.pending[order := seen]), order, seen, sample, Stuck, r);
    H.VaultBook(w, order, p, sample, MinedNoReceipt, r);
    H.VaultBook(w.(pending := w.pending[order := missed]), order, missed, sample, Dropped, r);
  }

  lemma ReconcileOneLatest(w: State, order: nat, sample: Option<int>, r: Reconciliation)
    requires order in w.pending
    ensures SameLatest(w.book, ReconcileOne(w, order, sample, r).book)
  {
    var now := Instructed(w, r.handled);
    HandlersLatest(w.book, r.handled);
    UnconfirmedLatest(now, order, now.pending[order], sample, r);
    H.FinishBook(now, order, now.pending[order].nonce, true);
  }

  lemma SettleOneLatest(w: State, o: Order, price: int, s: Submission)
    requires o.trigger.Some?
    ensures SameLatest(w.book, SettleOne(w, o, price, s).book)
  {
    var now := Instructed(w, s.beforeGet);
    var effective := EffectiveTrigger(now.book, o.id);
    H.RetryBook(now, o.id, o.trigger.value, Some(price), effective, s.attempt, 1);
    HandlersLatest(w.book, s.beforeGet);
    HandlersLatest(SettleWithRetry(now, o.id, o.trigger.value, Some(price), effective, s.attempt, 1).0.book, s.beforeMark);
  }

  lemma {:induction false} SettleAllLatest(w: State, triggered: seq<Order>, price: int, submit: nat -> Submission)
    requires forall o <- triggered :: o.trigger.Some?
    ensures SameLatest(w.book, SettleAll(w, triggered, price, submit).book)
    decreases |triggered|
  {
    if triggered != [] && w.pending == map[] {
      SettleOneLatest(w, triggered[0], price, submit(triggered[0].id));
      SettleAllLatest(SettleOne(w, triggered[0], price, submit(triggered[0].id)), triggered[1..], price, submit);
    }
  }

  lemma TickLatest(w: State, i: TickInput)
    requires P.Inv(w)
    ensures SameLatest(SampledBook(w.book, i.price), Tick(w, i).book)
  {
    var sample := FreshSample(i.price);
    var sampled := w.(book := SampledBook(w.book, i.price));
    P.SameNoncesKeep(w, sampled);
    P.ReconcileIsOneTurn(sampled, sample, i.reconcile);
    if sampled.pending != map[] {
      var o :| o in sampled.pending;
      ReconcileOneLatest(sampled, o, sample, i.reconcile(o));
    }
    if sample.Some? {
      var reconciled := ReconcilePending(sampled, sampled.pending.Keys, sample, i.reconcile);
      SettleAllLatest(reconciled, Triggered(ObservedBook(w.book, i.price), sample), sample.value, i.submit);
    }
  }

  /** A tick without a usable price sends nothing and leaves the last sample and
      every watermark and trigger as they were. */
  lemma UnusablePriceChangesNothing(w: State, i: TickInput)
    requires P.Inv(w) && Clock(i.price) && !Usable(i.price)
    ensures w.log <= Tick(w, i).log && forall j :: |w.log| <= j < |Tick(w, i).log| ==> !Tick(w, i).log[j].Sent?
    ensures SameLatest(w.book, Tick(w, i).book)
    ensures Shape(w.book) && S.PlacedOnce(S.Known(w), i) ==>
      forall id :: id in w.book.orders && id in Tick(w, i).book.orders ==>
        S.SameButExecuted(w.book.orders[id], Tick(w, i).book.orders[id])
  {
    FreshIff(i.price);
    S.NoSampleNoSend(w, i);
    TickLatest(w, i);
    if Shape(w.book) && S.PlacedOnce(S.Known(w), i) {
      S.TickSends(w, i);
    }
  }

  /** An order after a positive sample `q`: an open trailing one holds the higher of
      its watermark and `q`; and it may have been executed since. */
  predicate SampledTo(before: Order, after: Order, q: int) {
    var raised := if before.status == Open && before.trailBps > 0 && before.high.Some?
      then before.(high := Some(Max(before.high.value, q))) else before;
    S.SameButExecuted(raised, after)
  }

  lemma RaiseIs(b: Book, id: nat, a: PriceAnswer)
    requires Shape(b) && id in b.orders && FreshSample(a).Some? && FreshSample(a).value > 0
    ensures id in SampledBook(b, a).orders && SampledTo(b.orders[id], SampledBook(b, a).orders[id], FreshSample(a).value)
  {
  }

  /** A tick with a usable positive price records it, at the feed's own time, as the
      last sample, and every open trailing order takes it into its watermark. */
  lemma UsablePriceIsTaken(w: State, i: TickInput, q: int)
    requires P.Inv(w) && Clock(i.price) && Usable(i.price) && SampleOf(i.price, q) && q > 0
    ensures Tick(w, i).book.latest == Some(q) && Tick(w, i).book.latestAt == i.price.feed.timestamp * 1_000_000_000
    ensures Shape(w.book) && S.PlacedOnce(S.Known(w), i) ==>
      forall id :: id in w.book.orders && id in Tick(w, i).book.orders ==>
        SampledTo(w.book.orders[id], Tick(w, i).book.orders[id], q)
  {
    FreshIff(i.price);
    PriceAgreement.OnePrice(q, FreshSample(i.price).value, i.price.feed.value, i.price.feed.decimals);
    assert i.price.feed.timestamp < TWO_63 && Int64(i.price.feed.timestamp) == i.price.feed.timestamp;
    TickLatest(w, i);
    if Shape(w.book) && S.PlacedOnce(S.Known(w), i) {
      S.TickSends(w, i);
      forall id | id in w.book.orders && id in Tick(w, i).book.orders
        ensures SampledTo(w.book.orders[id], Tick(w, i).book.orders[id], q)
      {
        RaiseIs(w.book, id, i.price);
      }
    }
  }

  // ----- nonces and counts

  /** Over every run, a nonce is reserved only after the node answered a count, and
      at or above it. */
  lemma ReservedAtOrAboveTheCount(steps: seq<P.Step>, j: nat)
    requires j < |P.Run(Initial, steps).log| && P.Run(Initial, steps).log[j].Reserved?
    ensures exists m: nat, a: Attempt :: ReservedOn(steps, m, a, P.Run(Initial, steps).log[j])
  {
    RunLawful(Initial, steps);
    var e := P.Run(Initial, steps).log[j];
    assert Explained(Initial, steps, e);
    var m: nat :| ComesFrom(Initial, steps, m, e);
    assert ReservedFrom(steps[m].input, e.order, e.nonce);
    var a :| Attempted(steps[m].input, e.order, a) && a.nonce.Got? && a.nonce.value <= e.nonce;
    assert ReservedOn(steps, m, a, e);
  }

  ghost predicate ReservedOn(steps: seq<P.Step>, m: nat, a: Attempt, e: Event)
    requires e.Reserved?
  {
    && m < |steps| && steps[m].TickStep? && Attempted(steps[m].input, e.order, a)
    && a.nonce.Got? && a.nonce.value <= e.nonce
  }

  // ----- when a lookup is enough

  /** The first and the second miss only count, whatever the vault would say. */
  lemma MissesOnlyCount(w: State, order: nat, sample: Option<int>, r: Reconciliation)
    requires order in w.pending
    requires var p := w.pending[order];
      r.receipt(p.tx).NotFound? && r.lookup(p.tx).NotFound? && p.missing < 2
    ensures var p := w.pending[order];
      ReconcileOne(w, order, sample, r) == w.(
        book := HandleAll(w.book, r.handled), pending := w.pending[order := p.(missing := p.missing + 1)])
  {
  }

  /** A broadcast in the pool for less than 30 seconds only restarts that count. */
  lemma YoungOnesWait(w: State, order: nat, sample: Option<int>, r: Reconciliation)
    requires order in w.pending
    requires var p := w.pending[order];
      r.receipt(p.tx).NotFound? && r.lookup(p.tx) == Got(true) && r.checkedAt - p.firstSeen < 30_000_000_000
    ensures ReconcileOne(w, order, sample, r) == w.(
      book := HandleAll(w.book, r.handled), pending := w.pending[order := w.pending[order].(missing := 0)])
  {
  }

  /** A call that fails changes nothing but what the instructions do. */
  lemma FailuresWait(w: State, order: nat, sample: Option<int>, r: Reconciliation)
    requires order in w.pending
    requires var p := w.pending[order];
      r.receipt(p.tx).Failed? || (r.receipt(p.tx).NotFound? && r.lookup(p.tx).Failed?)
    ensures ReconcileOne(w, order, sample, r) == w.(book := HandleAll(w.book, r.handled))
  {
  }

  /** Every call about the pending broadcast works, and nobody has mined it; it is
      time to ask the vault. */
  predicate Due(p: Pending, order: nat, r: Reconciliation) {
    && r.receipt(p.tx).NotFound? && P.AsksVault(p, r) && r.lookup(p.tx) != Got(false) && r.status(order).Got?
  }

  /** The entry as it is when the vault is asked. */
  function Counted(p: Pending, r: Reconciliation): Pending {
    p.(missing := if r.lookup(p.tx).NotFound? then p.missing + 1 else 0)
  }

  lemma DueAsks(w: State, order: nat, sample: Option<int>, r: Reconciliation)
    requires order in w.pending && Due(w.pending[order], order, r)
    ensures var p := Counted(w.pending[order], r);
      var asked := w.(book := HandleAll(w.book, r.handled), pending := w.pending[order := p]);
      ReconcileOne(w, order, sample, r)
        == AgainstVault(asked, order, p, sample, if r.lookup(p.tx).NotFound? then Dropped else Stuck, r)
  {
  }

  /** A status other than OPEN ends such an entry as unconsumed: EXECUTED marks the
      order, NONE and CANCELLED remove it. */
  lemma ClosedStatusEndsEntry(w: State, order: nat, sample: Option<int>, r: Reconciliation)
    requires P.Waiting(w) && order in w.pending && Due(w.pending[order], order, r)
    requires r.status(order).value in {0, 2, 3}
    ensures var v := ReconcileOne(w, order, sample, r);
      && v.pending == map[] && v.owners == map[] && v.nextNonce == w.pending[order].nonce
      && P.EndsEntry(w.log, v.log, order, w.pending[order].nonce, false)
      && P.StatusApplied(r.status(order).value, HandleAll(w.book, r.handled), v.book, order)
  {
    var p := Counted(w.pending[order], r);
    var asked := w.(book := HandleAll(w.book, r.handled), pending := w.pending[order := p]);
    DueAsks(w, order, sample, r);
    P.RewriteKeeps(w, order, p);
    P.SameNoncesKeep(w.(pending := asked.pending), asked);
    P.FinishExactly(asked, order, false);
  }

  /** A status of OPEN while the fresh sample is still at or below the effective
      trigger sends, and records, a replacement at exactly this price. */
  lemma OpenAndCrossedReplaces(w: State, order: nat, price: int, r: Reconciliation)
    requires P.Waiting(w) && order in w.pending && Due(w.pending[order], order, r) && r.status(order).value == 1
    requires P.StillCrossed(HandleAll(w.book, r.handled), order, Some(price))
    requires r.gasPrice.Got? && r.gas.Got? && r.chainId && r.signed && r.sent
    ensures var v := ReconcileOne(w, order, Some(price), r);
      var p := w.pending[order];
      var b := HandleAll(w.book, r.handled);
      var trigger := EffectiveTrigger(b, order).value;
      var tx := Tx(p.nonce, order, Low256(trigger), 300, Max(r.gasPrice.value, p.gasPrice * 9 / 8 + 1), r.gas.value);
      var entry := Pending(tx, p.nonce, tx.gasPrice, trigger, r.sentAt, 0);
      && v.book == b && v.pending == map[order := entry] && v.owners == w.owners
      && v.log == w.log + [Sent(tx, Some(price), Some(trigger)), Replaced(order, entry)]
  {
    DueAsks(w, order, Some(price), r);
    var p := Counted(w.pending[order], r);
    var b := HandleAll(w.book, r.handled);
    var asked := w.(book := b, pending := w.pending[order := p]);
    var trigger := EffectiveTrigger(b, order).value;
    assert asked.owners[p.nonce := order] == asked.owners;
    ResendIs(asked.(chainKnown := true), order, p, trigger, Some(price), r);
  }

  lemma ResendIs(w: State, order: nat, p: Pending, trigger: int, sample: Option<int>, r: Reconciliation)
    requires r.gasPrice.Got? && r.gas.Got? && r.sent && w.pending.Keys == {order}
    ensures var tx := Tx(p.nonce, order, Low256(trigger), 300, Max(r.gasPrice.value, p.gasPrice * 9 / 8 + 1), r.gas.value);
      var entry := Pending(tx, p.nonce, tx.gasPrice, trigger, r.sentAt, 0);
      Resend(w, order, p, trigger, sample, Bumped(p.gasPrice, r.gasPrice.value), r.gas.value, r) == w.(
        pending := map[order := entry], log := w.log + [Sent(tx, sample, Some(trigger)), Replaced(order, entry)])
  {
    var tx := Tx(p.nonce, order, Low256(trigger), 300, Max(r.gasPrice.value, p.gasPrice * 9 / 8 + 1), r.gas.value);
    var entry := Pending(tx, p.nonce, tx.gasPrice, trigger, r.sentAt, 0);
    assert w.pending[order := entry] == map[order := entry];
    assert w.log + [Sent(tx, sample, Some(trigger))] + [Replaced(order, entry)]
        == w.log + [Sent(tx, sample, Some(trigger)), Replaced(order, entry)];
  }

  /** A status that cannot be read, or is none of the vault's four, decides nothing:
      the broadcast stays pending, whatever is known about it. */
  lemma UnreadStatusWaits(w: State, order: nat, sample: Option<int>, r: Reconciliation)
    requires order in w.pending && r.receipt(w.pending[order].tx).NotFound? && P.AsksVault(w.pending[order], r)
    requires r.status(order).Got? ==> r.status(order).value > 3
    ensures ReconcileOne(w, order, sample, r) == w.(
      book := HandleAll(w.book, r.handled),
      pending := if r.lookup(w.pending[order].tx) == Got(false) then w.pending
                 else w.pending[order := Counted(w.pending[order], r)])
  {
  }

  /** Nothing is sent on a nonce that another order owns. */
  lemma OthersNoncesAreSafe(w: State, order: nat, p: Pending, trigger: int, sample: Option<int>, r: Reconciliation)
    requires p.nonce in w.owners && w.owners[p.nonce] != order
    ensures ReplacePending(w, order, p, trigger, sample, r) == w
  {
  }

  /** A status of OPEN without that: a dropped broadcast with a fresh sample ends as
      unconsumed, any other waits. Either way the order stays as it is. */
  lemma OpenButNotCrossed(w: State, order: nat, sample: Option<int>, r: Reconciliation)
    requires P.Waiting(w) && order in w.pending && Due(w.pending[order], order, r) && r.status(order).value == 1
    requires !P.StillCrossed(HandleAll(w.book, r.handled), order, sample)
    ensures var v := ReconcileOne(w, order, sample, r);
      var b := HandleAll(w.book, r.handled);
      if r.lookup(w.pending[order].tx).NotFound? && sample.Some?
      then v.book == b && P.EndsEntry(w.log, v.log, order, w.pending[order].nonce, false)
      else v == w.(book := b, pending := w.pending[order := Counted(w.pending[order], r)])
  {
    DueAsks(w, order, sample, r);
    var p := Counted(w.pending[order], r);
    var asked := w.(book := HandleAll(w.book, r.handled), pending := w.pending[order := p]);
    P.RewriteKeeps(w, order, p);
    P.SameNoncesKeep(w.(pending := asked.pending), asked);
    P.FinishExactly(asked, order, false);
  }

  // ----- three attempts

  /** A settlement is tried once, again after a failed attempt, and a third time
      after a second; then what it still holds is released. */
  lemma ThreeAttempts(w: State, order: nat, trigger: int, sample: Option<int>, effective: Option<int>, attempts: nat -> Attempt)
    ensures var result := SettleWithRetry(w, order, trigger, sample, effective, attempts, 1);
      var (w1, o1) := SettleOnce(w, order, trigger, sample, effective, attempts(1));
      var (w2, o2) := SettleOnce(w1, order, trigger, sample, effective, attempts(2));
      var (w3, o3) := SettleOnce(w2, order, trigger, sample, effective, attempts(3));
      result == if !o1.AttemptFailed? then Kept(w1, order, o1)
                else if !o2.AttemptFailed? then Kept(w2, order, o2)
                else if !o3.AttemptFailed? then Kept(w3, order, o3)
                else (ReleaseOrderNonce(w3, order, false), false)
  {
    var (w1, o1) := SettleOnce(w, order, trigger, sample, effective, attempts(1));
    var (w2, o2) := SettleOnce(w1, order, trigger, sample, effective, attempts(2));
    NextAttempt(w, order, trigger, sample, effective, attempts, 1);
    NextAttempt(w1, order, trigger, sample, effective, attempts, 2);
    NextAttempt(w2, order, trigger, sample, effective, attempts, 3);
  }

  /** A confirmed settlement, or one whose entry is now pending. */
  function Kept(w: State, order: nat, outcome: Outcome): (State, bool)
    requires !outcome.AttemptFailed?
  {
    match outcome
    case Confirmed => (w, true)
    case Unresolved(p) => (w.(pending := w.pending[order := p], log := w.log + [Opened(order, p)]), false)
  }

  lemma NextAttempt(w: State, order: nat, trigger: int, sample: Option<int>, effective: Option<int>,
                    attempts: nat -> Attempt, k: nat)
    requires k <= 3
    ensures var (v, outcome) := SettleOnce(w, order, trigger, sample, effective, attempts(k));
      SettleWithRetry(w, order, trigger, sample, effective, attempts, k) ==
        if outcome.AttemptFailed? then SettleWithRetry(v, order, trigger, sample, effective, attempts, k + 1)
        else Kept(v, order, outcome)
  {
  }

  // ----- one attempt, in full

  /** Signed with a nonce in hand: what is sent, and how it ends. */
  lemma BroadcastInFull(w: State, order: nat, n: uint64, trigger: int, sample: Option<int>, effective: Option<int>, a: Attempt)
    requires w.owners == map[n := order] && w.nonceReady && w.nextNonce == n + 1 && a.gasPrice.Got? && a.gas.Got?
    ensures var (v, outcome) := Broadcast(w, order, n, trigger, sample, effective, a);
      var tx := Tx(n, order, Low256(trigger), 300, a.gasPrice.value, a.gas.value);
      && v.book == w.book && v.pending == w.pending && v.nextNonce == n + 1
      && (if !a.sent || !a.receipt(tx).Got? then
            && outcome == Unresolved(Pending(tx, n, tx.gasPrice, trigger, a.sentAt, 0))
            && v.owners == w.owners && v.log == w.log + [Sent(tx, sample, effective)]
          else
            && outcome == (if a.receipt(tx).value then Confirmed else AttemptFailed)
            && v.owners == map[] && v.log == w.log + [Sent(tx, sample, effective), Released(order, n, true)])
  {
    var tx := Tx(n, order, Low256(trigger), 300, a.gasPrice.value, a.gas.value);
    ReleasedIs(Emit(w, Sent(tx, sample, effective)), order, n, true);
    assert w.log + [Sent(tx, sample, effective)] + [Released(order, n, true)]
        == w.log + [Sent(tx, sample, effective), Released(order, n, true)];
  }

  /** An attempt of a watcher with nothing reserved: what it logs, what it leaves,
      and how it ends. */
  lemma AttemptInFull(w: State, order: nat, trigger: int, sample: Option<int>, effective: Option<int>, a: Attempt)
    requires P.Idle(w)
    ensures var (v, outcome) := SettleOnce(w, order, trigger, sample, effective, a);
      v.book == w.book && v.pending == map[] &&
      if (!w.chainKnown && !a.chainId) || !a.gasPrice.Got? || !a.gas.Got? || !a.nonce.Got?
         || Max(w.nextNonce, a.nonce.value) == MAX_UINT64
      then outcome == AttemptFailed && v.(chainKnown := w.chainKnown) == w
      else
        var n := Max(w.nextNonce, a.nonce.value);
        var tx := Tx(n, order, Low256(trigger), 300, a.gasPrice.value, a.gas.value);
        if !a.signed then
          && outcome == AttemptFailed && v.owners == map[] && v.nextNonce == n
          && v.log == w.log + [Reserved(order, n), Released(order, n, false)]
        else if !a.sent || !a.receipt(tx).Got? then
          && outcome == Unresolved(Pending(tx, n, tx.gasPrice, trigger, a.sentAt, 0))
          && v.owners == map[n := order] && v.nextNonce == n + 1
          && v.log == w.log + [Reserved(order, n), Sent(tx, sample, effective)]
        else
          && outcome == (if a.receipt(tx).value then Confirmed else AttemptFailed)
          && v.owners == map[] && v.nextNonce == n + 1
          && v.log == w.log + [Reserved(order, n), Sent(tx, sample, effective), Released(order, n, true)]
  {
    var known := w.(chainKnown := true);
    P.ReserveIdle(known, order, a.nonce);
    var (reserved, n) := ReserveNonce(known, order, a.nonce);
    if n.Some? {
      ReleasedIs(reserved, order, n.value, false);
      if a.gasPrice.Got? && a.gas.Got? {
        BroadcastInFull(reserved, order, n.value, trigger, sample, effective, a);
      }
    }
  }

  lemma ReleasedIs(w: State, order: nat, n: uint64, consumed: bool)
    requires w.owners == map[n := order] && w.nonceReady && w.nextNonce == n + 1
    ensures ReleaseNonce(w, order, n, consumed) == w.(
      owners := map[], nextNonce := if consumed then n + 1 else n, log := w.log + [Released(order, n, consumed)])
  {
    assert w.owners - {n} == map[];
  }

  // ----- when everything works

  /** Every call of the attempt works and the transaction is mined at once. */
  ghost predicate Works(a: Attempt, limit: nat) {
    && a.chainId && a.gasPrice.Got? && a.gas.Got? && a.nonce.Got? && a.nonce.value <= limit && a.signed && a.sent
    && forall tx :: a.receipt(tx) == Got(true)
  }

  lemma WorkingAttempt(w: State, o: Order, price: int, effective: Option<int>, attempts: nat -> Attempt, limit: nat)
    requires P.Idle(w) && o.trigger.Some? && Works(attempts(1), limit) && w.nextNonce <= limit < MAX_UINT64
    ensures var (v, settled) := SettleWithRetry(w, o.id, o.trigger.value, Some(price), effective, attempts, 1);
      settled && P.Idle(v) && v.nextNonce <= limit + 1 && v.book == w.book
  {
    AttemptInFull(w, o.id, o.trigger.value, Some(price), effective, attempts(1));
    P.SettleOnceKeeps(w, o.id, o.trigger.value, Some(price), effective, attempts(1));
    NextAttempt(w, o.id, o.trigger.value, Some(price), effective, attempts, 1);
  }

  predicate IsExecuted(b: Book, id: nat) {
    id in b.orders && b.orders[id].status == Executed
  }

  lemma {:induction false} ExecutedStays(b: Book, list: seq<Instruction>, id: nat)
    requires IsExecuted(b, id) && H.NoCancel(list, id)
    ensures IsExecuted(HandleAll(b, list), id)
    decreases |list|
  {
    if list != [] {
      assert list[0] in list && forall x <- list[1..] :: x in list;
      ExecutedStays(Handle(b, list[0]), list[1..], id);
    }
  }

  /** The answers to one order's settlement, with no cancellation. */
  ghost predicate WorkingSubmission(s: Submission, limit: nat) {
    Works(s.attempt(1), limit) && forall id :: H.NoCancel(s.beforeGet, id) && H.NoCancel(s.beforeMark, id)
  }

  lemma SettleOneSettles(w: State, o: Order, price: int, s: Submission, limit: nat)
    requires P.Idle(w) && o.trigger.Some? && WorkingSubmission(s, limit) && w.nextNonce <= limit < MAX_UINT64
    ensures var v := SettleOne(w, o, price, s);
      && P.Idle(v) && v.nextNonce <= limit + 1
      && (H.Held(w.book, o.id) ==> IsExecuted(v.book, o.id))
      && (forall id :: IsExecuted(w.book, id) ==> IsExecuted(v.book, id))
      && (forall id :: H.Held(w.book, id) ==> H.Held(v.book, id))
  {
    var now := Instructed(w, s.beforeGet);
    var effective := EffectiveTrigger(now.book, o.id);
    P.SameNoncesKeep(w, now);
    WorkingAttempt(now, o, price, effective, s.attempt, limit);
    var tried := SettleWithRetry(now, o.id, o.trigger.value, Some(price), effective, s.attempt, 1).0;
    var marking := Instructed(tried, s.beforeMark);
    P.SameNoncesKeep(tried, Mark(marking, o.id));
    KeepsAll(w.book, s.beforeGet);
    KeepsAll(tried.book, s.beforeMark);
  }

  lemma KeepsAll(b: Book, list: seq<Instruction>)
    requires forall id :: H.NoCancel(list, id)
    ensures forall id :: IsExecuted(b, id) ==> IsExecuted(HandleAll(b, list), id)
    ensures forall id :: H.Held(b, id) ==> H.Held(HandleAll(b, list), id)
  {
    forall id | IsExecuted(b, id) ensures IsExecuted(HandleAll(b, list), id) {
      ExecutedStays(b, list, id);
    }
    forall id | H.Held(b, id) ensures H.Held(HandleAll(b, list), id) {
      H.HandlersHold(b, list, id);
    }
  }

  lemma {:induction false} SettleAllSettles(w: State, triggered: seq<Order>, price: int, submit: nat -> Submission, limit: nat)
    requires P.Idle(w) && w.nextNonce <= limit && limit + |triggered| < MAX_UINT64
    requires forall o <- triggered :: o.trigger.Some?
    requires forall k :: WorkingSubmission(submit(k), limit)
    requires forall o <- triggered :: H.Held(w.book, o.id)
    ensures var v := SettleAll(w, triggered, price, submit);
      && P.Idle(v)
      && (forall o <- triggered :: IsExecuted(v.book, o.id))
      && (forall id :: IsExecuted(w.book, id) ==> IsExecuted(v.book, id))
    decreases |triggered|
  {
    if triggered != [] {
      var o := triggered[0];
      SettleOneSettles(w, o, price, submit(o.id), limit);
      var next := SettleOne(w, o, price, submit(o.id));
      assert forall x <- triggered[1..] :: x in triggered;
      SettleAllSettles(next, triggered[1..], price, submit, limit + 1);
    }
  }

  /** Nothing is pending, or there is a receipt for what is. */
  ghost predicate Clears(w: State, i: TickInput) {
    forall o <- w.pending :: i.reconcile(o).receipt(w.pending[o].tx).Got?
  }

  lemma ReceiptClears(w: State, o: nat, sample: Option<int>, i: TickInput, r: Reconciliation)
    requires P.Waiting(w) && o in w.pending && r == i.reconcile(o) && r.receipt(w.pending[o].tx).Got?
    requires forall id :: H.TickNoCancel(i, id)
    ensures var v := ReconcileOne(w, o, sample, r);
      P.Idle(v) && v.nextNonce == w.nextNonce && forall id :: H.Held(w.book, id) ==> H.Held(v.book, id)
  {
    P.ReceiptEndsEntry(w, o, sample, r);
    forall id ensures H.NoCancel(r.handled, id) {
      assert H.TickNoCancel(i, id);
    }
    KeepsAll(w.book, r.handled);
  }

  lemma ClearedWatcher(w: State, i: TickInput)
    requires P.Inv(w) && Clears(w, i) && forall id :: H.TickNoCancel(i, id)
    ensures var sampled := w.(book := SampledBook(w.book, i.price));
      var v := ReconcilePending(sampled, sampled.pending.Keys, FreshSample(i.price), i.reconcile);
      && P.Idle(v) && v.nextNonce == w.nextNonce
      && (forall id :: H.Held(sampled.book, id) ==> H.Held(v.book, id))
  {
    var sampled := w.(book := SampledBook(w.book, i.price));
    P.SameNoncesKeep(w, sampled);
    P.ReconcileIsOneTurn(sampled, FreshSample(i.price), i.reconcile);
    if sampled.pending != map[] {
      var o :| o in sampled.pending;
      ReceiptClears(sampled, o, FreshSample(i.price), i, i.reconcile(o));
    }
  }

  /** When every call works, one tick settles every order that fires, also right after
      a pending broadcast turns out mined: each open order whose effective trigger,
      with this sample in its watermark, is at or above the sample is executed when
      the tick ends. */
  lemma EveryFiringOrderSettles(w: State, i: TickInput, q: int, limit: nat, id: nat)
    requires P.Inv(w) && Clears(w, i) && Shape(w.book)
    requires Clock(i.price) && Usable(i.price) && SampleOf(i.price, q) && q > 0
    requires w.nextNonce <= limit && limit + |w.book.orders| < MAX_UINT64
    requires (forall k :: WorkingSubmission(i.submit(k), limit)) && (forall o :: H.TickNoCancel(i, o))
    requires IsOpen(w.book, id) && q <= EffectiveTrigger(Raised(w.book, Some(q)), id).value
    ensures IsExecuted(Tick(w, i).book, id)
  {
    FreshIff(i.price);
    PriceAgreement.OnePrice(q, FreshSample(i.price).value, i.price.feed.value, i.price.feed.decimals);
    var observed := ObservedBook(w.book, i.price);
    var sampled := w.(book := SampledBook(w.book, i.price));
    var reconciled := ReconcilePending(sampled, sampled.pending.Keys, Some(q), i.reconcile);
    var hits := Triggered(observed, Some(q));
    ClearedWatcher(w, i);
    HitsAreHeld(observed, q);
    ReportedIff(observed, q, id);
    SettleAllSettles(reconciled, hits, q, i.submit, limit);
    var k :| 0 <= k < |hits| && hits[k].id == id;
    assert hits[k] in hits;
  }

  lemma HitsAreHeld(b: Book, q: int)
    requires Shape(b) && q > 0
    ensures |Triggered(b, Some(q))| <= |b.orders|
    ensures forall o <- Triggered(b, Some(q)) :: H.Held(Raised(b, Some(q)), o.id)
  {
    var hits, after := Triggered(b, Some(q)), Raised(b, Some(q));
    SortedSize(FiringIds(after, q));
    SubsetSize(FiringIds(after, q), b.orders.Keys);
    forall o | o in hits ensures H.Held(after, o.id) {
      var k :| 0 <= k < |hits| && hits[k] == o;
      ReportedTrigger(b, q, k);
    }
  }

  // ----- the broadcasts of a fixed stop

  /** If it is stored, the order is fixed at price `t`. */
  predicate FixedAt(b: Book, id: nat, t: nat) {
    id in b.orders ==> b.orders[id].trigger == Some(t) && b.orders[id].trailBps == 0
  }

  /** Every broadcast for the order since `before` discloses exactly `t`, on a sample
      at or below it. */
  ghost predicate AllAt(before: seq<Event>, after: seq<Event>, id: nat, t: nat) {
    && before <= after
    && forall j :: |before| <= j < |after| && after[j].Sent? && after[j].tx.order == id ==> DisclosesAt(after[j], t)
  }

  predicate DisclosesAt(e: Event, t: nat)
    requires e.Sent?
  {
    e.effective == Some(t) && e.tx.trigger == t && e.sample.Some? && e.sample.value <= t
  }

  lemma FixedSampled(b: Book, a: PriceAnswer, id: nat, t: nat)
    requires FixedAt(b, id, t)
    ensures FixedAt(SampledBook(b, a), id, t) && SampledBook(b, a).orders.Keys == b.orders.Keys
  {
  }

  lemma FixedSend(b0: Book, sample: Option<int>, e: Event, t: nat)
    requires e.Sent? && FixedAt(b0, e.tx.order, t) && t < TWO_256 && S.SoundSend(e, sample, b0)
    ensures IsOpen(b0, e.tx.order) && DisclosesAt(e, t)
  {
  }

  lemma FixedFollows(b0: Book, known: set<nat>, b: Book, id: nat, t: nat)
    requires S.Follows(b0, known, b) && FixedAt(b0, id, t) && id in known
    ensures FixedAt(b, id, t)
  {
    if id in b.orders {
      assert id in known * b.orders.Keys;
    }
  }

  lemma FixedTick(w: State, i: TickInput, id: nat, t: nat)
    requires P.Inv(w) && Shape(w.book) && S.PlacedOnce(S.Known(w), i) && H.TickNoPlace(i, id)
    requires FixedAt(w.book, id, t) && t < TWO_256
    ensures FixedAt(Tick(w, i).book, id, t) && Shape(Tick(w, i).book) && AllAt(w.log, Tick(w, i).log, id, t)
  {
    var v, b0 := Tick(w, i), SampledBook(w.book, i.price);
    S.TickSends(w, i);
    FixedSampled(w.book, i.price, id, t);
    if id in w.book.orders {
      FixedFollows(b0, S.Known(w), v.book, id, t);
    } else {
      H.TickAbsent(w, i, id);
    }
    forall j | |w.log| <= j < |v.log| && v.log[j].Sent? && v.log[j].tx.order == id ensures DisclosesAt(v.log[j], t) {
      FixedSend(b0, FreshSample(i.price), v.log[j], t);
    }
  }

  ghost predicate NeverPlaced(steps: seq<P.Step>, id: nat) {
    forall s <- steps :: match s case TickStep(i) => H.TickNoPlace(i, id) case InstructionStep(x) => x.Place? ==> x.id != id
  }

  /** Over every run that does not place it again, each broadcast for an order fixed
      at t discloses t, on a sample at or below t. */
  lemma {:induction false} FixedBroadcasts(w: State, steps: seq<P.Step>, id: nat, t: nat)
    requires P.Inv(w) && Shape(w.book) && FixedAt(w.book, id, t) && t < TWO_256
    requires S.PlacesOnceAlways(w, steps) && NeverPlaced(steps, id)
    ensures AllAt(w.log, P.Run(w, steps).log, id, t)
    decreases |steps|
  {
    if steps != [] {
      assert steps[0] in steps && forall s <- steps[1..] :: s in steps;
      FixedStep(w, steps[0], id, t);
      FixedBroadcasts(P.Next(w, steps[0]), steps[1..], id, t);
    }
  }

  lemma FixedStep(w: State, s: P.Step, id: nat, t: nat)
    requires P.Inv(w) && Shape(w.book) && FixedAt(w.book, id, t) && t < TWO_256
    requires S.PlacesOnce(w, s) && NeverPlaced([s], id)
    ensures var v := P.Next(w, s);
      P.Inv(v) && Shape(v.book) && FixedAt(v.book, id, t) && AllAt(w.log, v.log, id, t)
  {
    assert s in [s];
    match s
    case TickStep(i) =>
      P.TickKeeps(w, i);
      FixedTick(w, i, id, t);
    case InstructionStep(x) =>
      P.SameNoncesKeep(w, P.Next(w, s));
      assert HandleAll(w.book, [x]) == Handle(w.book, x);
      ShapeStep(w.book, if x.Place? then PutOp(Order(x.id, x.trigger, x.trailBps, None, Open), x.at) else DeleteOp(x.id));
  }
}
