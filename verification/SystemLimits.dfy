/** What the protocol does not promise, each as a legal run: an open order that is
    lost, a used nonce that is handed out again, a replacement the vault cannot
    price. All three start with a lost broadcast of one order at its trigger. */
module SystemLimits {
  import opened Numbers
  import opened Settlement
  import opened SettlementScenes
  import opened PayoutToken
  import opened DarkStopSystem
  import opened SystemExample
  import O = OrderBook
  import V = VaultSpec
  import P = SettlementProofs
  import Holds = SystemHolds
  import PriceAgreement

  // ----- a lost broadcast

  const HeldBook := O.Book(map[1 := StoredOrder], Some(90), 0)
  const WaitingState := Lost(Before.(book := HeldBook), 0, 1, 100, 90)

  lemma LostTickWaits()
    ensures Tick(Before, LostTick(Feed)) == WaitingState && P.Waiting(WaitingState)
  {
    FeedSample();
    var sampled := SampledBook(Before.book, Price(Feed, 0));
    assert sampled.orders == map[1 := StoredOrder];
    assert sampled == HeldBook;
    LostTickOpens(Before, Feed, 90, 1);
    assert Candidate(Before, 0) == 0;
    assert P.Idle(Before);
    P.TickKeeps(Before, LostTick(Feed));
  }

  lemma LostTickIsLegal(sys: System, feed: V.FeedData)
    requires sys.hist != []
    ensures Reaches(sys, [TickStep(LostTick(feed), [])], System(Tick(sys.enclave, LostTick(feed)), sys.hist))
  {
    assert TruthfulReconciliation(NoReconciliation(), sys.hist);
    assert TruthfulReceipts(LostAttempt().receipt, sys.hist);
    OneStep(sys, TickStep(LostTick(feed), []));
  }

  /** Order 1 is open on both sides, and its broadcast is lost. */
  ghost predicate LostFirst(token: Token, steps: seq<SystemStep>, sys: System) {
    && Reaches(Start(token, 0), steps, sys)
    && sys == System(WaitingState, SetUpHistory(token)) && Last(sys.hist) == Chain(SetUpVault(token), 0, map[])
  }

  lemma LosesFirst(token: Token)
    ensures exists steps, sys :: LostFirst(token, steps, sys)
  {
    var ready := System(Before, SetUpHistory(token));
    var s := TickStep(LostTick(Feed), []);
    VaultIsSetUp(token);
    SetsUp(token);
    LostTickWaits();
    LostTickIsLegal(ready, Feed);
    ReachesThen(Start(token, 0), SetUpSteps(), ready, [s], System(WaitingState, ready.hist));
    assert LostFirst(token, SetUpSteps() + [s], System(WaitingState, ready.hist));
  }

  // ----- a status read for the lost broadcast, half a minute later

  function Reading(status: nat): Reconciliation {
    Reconciliation([], _ => NotFound, _ => Got(true), PENDING_REPLACEMENT_AGE, o => if o == 1 then Got(status) else Failed,
                   Got(1), Got(1), true, true, true, 0)
  }

  /** The node still has the broadcast in its pool, without a receipt. */
  function StatusTick(price: PriceAnswer, status: nat): TickInput {
    TickInput(price, _ => Reading(status), _ => LostSubmission())
  }

  lemma StatusTickIsLegal(sys: System, price: PriceAnswer, status: nat, k: nat)
    requires k < |sys.hist| && V.StatusOf(sys.hist[k].vault, 1) == status
    ensures Reaches(sys, [TickStep(StatusTick(price, status), [])], System(Tick(sys.enclave, StatusTick(price, status)), sys.hist))
  {
    var r := Reading(status);
    assert TruthfulReceipts(r.receipt, sys.hist);
    assert TruthfulReconciliation(r, sys.hist);
    assert TruthfulReceipts(LostAttempt().receipt, sys.hist);
    OneStep(sys, TickStep(StatusTick(price, status), []));
  }

  lemma StatusTickReconciles(price: PriceAnswer, status: nat)
    requires SampledBook(HeldBook, price) == HeldBook
    ensures var i := StatusTick(price, status);
      var reconciled := AgainstVault(WaitingState, 1, LostEntry(0, 1, 100), FreshSample(price), Stuck, Reading(status));
      ReconcilePending(WaitingState, WaitingState.pending.Keys, FreshSample(price), i.reconcile) == reconciled
  {
    LostTickWaits();
    var p := LostEntry(0, 1, 100);
    P.ReconcileIsOneTurn(WaitingState, FreshSample(price), StatusTick(price, status).reconcile);
    assert 1 in WaitingState.pending && WaitingState.pending[1 := p] == WaitingState.pending;
    assert Instructed(WaitingState, []) == WaitingState;
  }

  // ----- an open order that is lost

  /** The order is open in the enclave and in the vault, no instruction is about it,
      and afterwards it is open in the vault only. */
  ghost predicate LosesOpenOrder(mid: System, steps: seq<SystemStep>, end: System, order: nat)
    requires mid.hist != [] && end.hist != []
  {
    && O.IsOpen(mid.enclave.book, order) && V.StatusOf(Last(mid.hist).vault, order) == V.STATUS_OPEN
    && (forall s <- steps :: Holds.StepNoCancel(s, order) && Holds.StepNoPlace(s, order))
    && V.StatusOf(Last(end.hist).vault, order) == V.STATUS_OPEN && order !in end.enclave.book.orders
  }

  lemma NoneDrops()
    ensures 1 !in Tick(WaitingState, StatusTick(NoPrice, STATUS_NONE)).book.orders
  {
    StatusTickReconciles(NoPrice, STATUS_NONE);
  }

  function NoneStep(): SystemStep {
    TickStep(StatusTick(NoPrice, STATUS_NONE), [])
  }

  lemma NoneStepReaches(mid: System, token: Token)
    requires mid == System(WaitingState, SetUpHistory(token))
    ensures Reaches(mid, [NoneStep()], System(Tick(WaitingState, StatusTick(NoPrice, STATUS_NONE)), mid.hist))
  {
    VaultIsSetUp(token);
    StatusTickIsLegal(mid, NoPrice, STATUS_NONE, 0);
  }

  lemma NoneStepLoses(mid: System, end: System, token: Token)
    requires mid.hist != [] && mid.enclave == WaitingState && Last(mid.hist) == Chain(SetUpVault(token), 0, map[])
    requires end == System(Tick(WaitingState, StatusTick(NoPrice, STATUS_NONE)), mid.hist)
    ensures LosesOpenOrder(mid, [NoneStep()], end, 1)
  {
    NoneDrops();
  }

  /** A status of NONE, true when the run began, deletes an order that is open in
      the vault, although it was stored after the vault placed it and nobody
      cancelled it. */
  lemma LateAnswerLosesOrder(token: Token)
    ensures exists steps, mid: System, more, end: System ::
      (Reaches(Start(token, 0), steps, mid) && mid.hist != [] && end.hist != [] && Reaches(mid, more, end)
       && LosesOpenOrder(mid, more, end, 1))
  {
    LosesFirst(token);
    var steps, mid :| LostFirst(token, steps, mid);
    NoneStepReaches(mid, token);
    var end := System(Tick(WaitingState, StatusTick(NoPrice, STATUS_NONE)), mid.hist);
    NoneStepLoses(mid, end, token);
  }

  // ----- a used nonce that is handed out again

  /** The step hands out a nonce that was used up before it began. */
  ghost predicate HandsOutUsedNonce(mid: System, end: System)
    requires mid.hist != []
  {
    && mid.enclave.log <= end.enclave.log
    && exists j :: |mid.enclave.log| <= j < |end.enclave.log| && end.enclave.log[j].Reserved?
         && end.enclave.log[j].nonce < Last(mid.hist).nonce
  }

  const OtherOrder := O.Order(2, Some(100), 0, None, O.Open)
  const FirstExecuted := StoredOrder.(status := O.Executed)

  /** The enclave after it read EXECUTED for a broadcast that it believes pending. */
  const Released := WaitingState.(book := HeldBook.(orders := map[1 := FirstExecuted]), pending := map[], owners := map[],
    nextNonce := 0, log := WaitingState.log + [Cleared(1), Settlement.Released(1, 0, false)])

  lemma EndsAsExecuted()
    ensures AgainstVault(WaitingState, 1, LostEntry(0, 1, 100), None, Stuck, Reading(STATUS_EXECUTED)) == Released
  {
    LostTickWaits();
    P.FinishExactly(WaitingState, 1, false);
  }

  lemma ExecutedReleases()
    ensures Tick(WaitingState, StatusTick(NoPrice, STATUS_EXECUTED)) == Released
  {
    EndsAsExecuted();
    StatusTickReconciles(NoPrice, STATUS_EXECUTED);
  }

  lemma NextOrder()
    ensures Instructed(Released, [Place(2, Some(100), 0, 0)])
         == Released.(book := HeldBook.(orders := map[1 := FirstExecuted, 2 := OtherOrder]))
  {
    var list := [Place(2, Some(100), 0, 0)];
    assert HandleAll(Handle(Released.book, list[0]), list[1..]) == Handle(Released.book, list[0]);
  }

  lemma ReusesNonce(w: State)
    requires w == Released.(book := HeldBook.(orders := map[1 := FirstExecuted, 2 := OtherOrder]))
    ensures var v := Tick(w, LostTick(Feed));
      w.log < v.log && v.log[|w.log|] == Reserved(2, 0)
  {
    FeedSample();
    var sampled := SampledBook(w.book, Price(Feed, 0));
    assert sampled.orders == map[1 := FirstExecuted, 2 := OtherOrder];
    LostTickOpens(w, Feed, 90, 2);
    assert Candidate(w, 0) == 0;
  }

  /** The first nonce is used, nothing is pending, and a new order waits. */
  ghost predicate NonceUsed(sys: System) {
    && sys.hist != [] && Last(sys.hist).nonce == 1
    && sys.enclave == Released.(book := HeldBook.(orders := map[1 := FirstExecuted, 2 := OtherOrder]))
  }

  /** The lost broadcast is mined and executes its order. */
  lemma MinedAfterAll(mid: System, token: Token)
    requires Balanced(token) && mid == System(WaitingState, SetUpHistory(token))
    requires Last(mid.hist) == Chain(SetUpVault(token), 0, map[])
    ensures var mined := Mine(TheTx, Some(Feed), 0);
      var c := Advance(SomeWorld, Last(mid.hist), mined);
      && Reaches(mid, [ChainEvent(mined)], System(WaitingState, mid.hist + [c]))
      && c.nonce == 1 && V.StatusOf(c.vault, 1) == STATUS_EXECUTED
  {
    OneMined(mid.hist, token);
    assert Sent(TheTx, Some(90), Some(100)) == WaitingState.log[1];
    OneChainStep(mid, Mine(TheTx, Some(Feed), 0));
  }

  /** The vault's status is read while the node still has the broadcast in its
      pool, and another order arrives. */
  lemma ReleasesUsedNonce(mid: System)
    requires mid.hist != [] && mid.enclave == WaitingState
    requires Last(mid.hist).nonce == 1 && V.StatusOf(Last(mid.hist).vault, 1) == STATUS_EXECUTED
    ensures Reaches(mid, [TickStep(StatusTick(NoPrice, STATUS_EXECUTED), [])], System(Released, mid.hist))
  {
    StatusTickIsLegal(mid, NoPrice, STATUS_EXECUTED, |mid.hist| - 1);
    ExecutedReleases();
  }

  lemma OtherArrives(mid: System)
    requires mid.hist != [] && mid.enclave == Released && Last(mid.hist).nonce == 1
    ensures exists end :: Reaches(mid, [InstructionStep(Place(2, Some(100), 0, 0))], end) && NonceUsed(end)
  {
    NextOrder();
    OneStep(mid, InstructionStep(Place(2, Some(100), 0, 0)));
    assert NonceUsed(Next(SomeWorld, mid, InstructionStep(Place(2, Some(100), 0, 0))));
  }

  lemma UsesNonceFrom(token: Token, mid: System)
    requires Balanced(token) && mid == System(WaitingState, SetUpHistory(token))
    requires Last(mid.hist) == Chain(SetUpVault(token), 0, map[])
    ensures exists more, end :: Reaches(mid, more, end) && NonceUsed(end)
  {
    var mined := Mine(TheTx, Some(Feed), 0);
    var after := System(WaitingState, mid.hist + [Advance(SomeWorld, Last(mid.hist), mined)]);
    MinedAfterAll(mid, token);
    var t, x := TickStep(StatusTick(NoPrice, STATUS_EXECUTED), []), InstructionStep(Place(2, Some(100), 0, 0));
    var released := System(Released, after.hist);
    ReleasesUsedNonce(after);
    OtherArrives(released);
    var end :| Reaches(released, [x], end) && NonceUsed(end);
    ReachesThen(after, [t], released, [x], end);
    ReachesThen(mid, [ChainEvent(mined)], after, [t] + [x], end);
  }

  lemma ReachesUsedNonce(token: Token)
    requires Balanced(token)
    ensures exists steps, mid :: Reaches(Start(token, 0), steps, mid) && NonceUsed(mid)
  {
    LosesFirst(token);
    var steps, first :| LostFirst(token, steps, first);
    UsesNonceFrom(token, first);
    var more, mid :| Reaches(first, more, mid) && NonceUsed(mid);
    ReachesThen(Start(token, 0), steps, first, more, mid);
  }

  /** A nonce released as unconsumed on indirect evidence can be one that is used:
      the watcher then hands it out again. */
  lemma UsedNonceIsReused(token: Token)
    requires Balanced(token)
    ensures exists steps, mid: System, s, end: System ::
      (Reaches(Start(token, 0), steps, mid) && mid.hist != [] && Reaches(mid, [s], end) && HandsOutUsedNonce(mid, end))
  {
    ReachesUsedNonce(token);
    var steps, mid :| Reaches(Start(token, 0), steps, mid) && NonceUsed(mid);
    ReusesNonce(mid.enclave);
    LostTickIsLegal(mid, Feed);
    var end := System(Tick(mid.enclave, LostTick(Feed)), mid.hist);
    assert end.enclave.log[|mid.enclave.log|] == Reserved(2, 0);
    assert HandsOutUsedNonce(mid, end);
  }

  // ----- a replacement the vault cannot price

  const ZeroFeed := V.FeedData(1, 84, 0)
  const ZeroTx := Tx(0, 1, 100, 300, 2, 1)

  lemma SmallQuotient(x: nat, d: nat)
    requires x < d
    ensures x / d == 0
  {
  }

  lemma TinyPrice(value: nat, decimals: int)
    requires value == 1 && decimals == 84
    ensures NormalizePrice(value, decimals) == 0 && V.ToPayoutDecimals(value, decimals).None?
  {
    var e: nat := decimals - 6;
    PowersOfTen();
    PowPositive(10, e);
    PriceAgreement.PowerFitsIff(e);
    SmallQuotient(value, Pow(10, e));
  }

  /** The watcher's sample is zero where the vault's rescale reverts. */
  lemma ZeroSample()
    ensures NormalizePrice(ZeroFeed.value, ZeroFeed.decimals) == 0 && FreshSample(Price(ZeroFeed, 0)) == Some(0)
    ensures V.ToPayoutDecimals(ZeroFeed.value, ZeroFeed.decimals).None?
  {
    TinyPrice(ZeroFeed.value, ZeroFeed.decimals);
  }

  lemma ZeroTickSends()
    ensures Sent(ZeroTx, Some(0), Some(100)) in Tick(WaitingState, StatusTick(Price(ZeroFeed, 0), STATUS_OPEN)).log
  {
    ZeroSample();
    var i := StatusTick(Price(ZeroFeed, 0), STATUS_OPEN);
    StatusTickReconciles(i.price, STATUS_OPEN);
    var reconciled := ReconcilePending(WaitingState, WaitingState.pending.Keys, Some(0), i.reconcile);
    assert O.EffectiveTrigger(HeldBook, 1) == Some(100);
    assert O.Triggered(ObservedBook(HeldBook, i.price), Some(0)) == [];
    assert SettleAll(reconciled, [], 0, i.submit) == reconciled;
    assert reconciled.log[|WaitingState.log|] == Sent(ZeroTx, Some(0), Some(100));
  }

  /** Mined against that feed, whenever it is, this broadcast fails. */
  ghost predicate NeverSettles(c: Chain, tx: Tx, feed: V.FeedData) {
    forall now :: !V.Exec(SomeWorld.cfg, c.vault, V.Settle(EXECUTOR, tx.order, tx.trigger, tx.maxAge, Some(feed), now)).1
  }

  lemma ZeroNeverSettles(c: Chain, tx: Tx)
    ensures NeverSettles(c, tx, ZeroFeed)
  {
    ZeroSample();
  }

  /** A fresh sample of zero sends a replacement that the vault must refuse while
      the feed is as it is. */
  lemma ZeroSampleIsSent(token: Token)
    ensures exists steps, end: System ::
      (end.hist != [] && Reaches(Start(token, 0), steps, end) && Sent(ZeroTx, Some(0), Some(100)) in end.enclave.log
       && NeverSettles(Last(end.hist), ZeroTx, ZeroFeed))
  {
    LosesFirst(token);
    var steps, mid :| LostFirst(token, steps, mid);
    var i := StatusTick(Price(ZeroFeed, 0), STATUS_OPEN);
    var end := System(Tick(WaitingState, i), mid.hist);
    StatusTickIsLegal(mid, i.price, STATUS_OPEN, |mid.hist| - 1);
    ReachesThen(Start(token, 0), steps, mid, [TickStep(i, [])], end);
    ZeroTickSends();
    ZeroNeverSettles(Last(end.hist), ZeroTx);
  }
}
