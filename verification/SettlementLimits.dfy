/** A trigger too wide for the calldata, reached by the watcher itself. */
module SettlementLimits {
  import opened Numbers
  import opened OrderBook
  import opened Settlement
  import opened SettlementScenes
  import P = SettlementProofs
  import V = VaultSpec
  import PriceAgreement

  /** A uint256 feed value whose sample is 2 * (2^256 + 4), and a later one of 10. */
  const WideFeed := V.FeedData((TWO_256 + 4) / 5, 5, 0)
  const LowFeed := V.FeedData(10, 6, 0)
  const HIGH: int := 2 * (TWO_256 + 4)

  /** A sample, a trailing order seeded with it at a distance of half, a fall. */
  function WideRun(): seq<P.Step> {
    [P.TickStep(LostTick(WideFeed)), P.InstructionStep(Place(1, None, 5000, 0)), P.TickStep(LostTick(LowFeed))]
  }

  lemma WideSample()
    ensures (TWO_256 + 4) / 5 <= MAX_UINT256
    ensures FreshSample(Price(WideFeed, 0)) == Some(HIGH) && FreshSample(Price(LowFeed, 0)) == Some(10)
  {
    assert Pow(10, 1) == 10 * Pow(10, 0) == 10;
    assert (TWO_256 + 4) / 5 * 10 == HIGH;
  }

  lemma SampleOnly()
    ensures Tick(Initial, LostTick(WideFeed)) == Initial.(book := Empty.(latest := Some(HIGH), latestAt := 0))
  {
    WideSample();
    var i := LostTick(WideFeed);
    var observed := ObservedBook(Empty, i.price);
    var sampled := Initial.(book := SampledBook(Empty, i.price));
    assert sampled.book.orders == map[] && Triggered(observed, Some(HIGH)) == [];
    assert ReconcilePending(sampled, sampled.pending.Keys, Some(HIGH), i.reconcile) == sampled;
  }

  lemma WideTrigger()
    ensures TrailTrigger(HIGH, 5000) == TWO_256 + 4 && Low256(TWO_256 + 4) == 4
  {
  }

  /** The last tick broadcasts the order with its trigger packed. */
  lemma LowTickSends(w: State, o: Order)
    requires w == Initial.(book := Book(map[1 := o], Some(HIGH), 0)) && o == Order(1, None, 5000, Some(HIGH), Open)
    ensures Tick(w, LostTick(LowFeed)).log == [
      Reserved(1, 0), Sent(LostTx(0, 1, TWO_256 + 4), Some(10), Some(TWO_256 + 4)), Opened(1, LostEntry(0, 1, TWO_256 + 4))]
  {
    WideSample();
    WideTrigger();
    assert SampledBook(w.book, Price(LowFeed, 0)).orders == map[1 := o];
    LostTickOpens(w, LowFeed, 10, 1);
  }

  lemma WideRunSends()
    ensures P.Run(Initial, WideRun()).log == [
      Reserved(1, 0), Sent(LostTx(0, 1, TWO_256 + 4), Some(10), Some(TWO_256 + 4)), Opened(1, LostEntry(0, 1, TWO_256 + 4))]
  {
    var o := Order(1, None, 5000, Some(HIGH), Open);
    var place := Place(1, None, 5000, 0);
    SampleOnly();
    var w1 := Tick(Initial, LostTick(WideFeed));
    assert [place][1..] == [];
    assert HandleAll(w1.book, [place]) == Handle(w1.book, place);
    var w2 := Instructed(w1, [place]);
    assert w2.book.orders == map[1 := o];
    LowTickSends(w2, o);
    var w3 := Tick(w2, LostTick(LowFeed));
    assert P.Run(w3, []) == w3;
    assert WideRun()[1..][1..][1..] == [];
  }

  /** A vault that reads the feed at 10 refuses a trigger of 4, whatever its state. */
  lemma VaultRefuses(cfg: V.Config, s: V.Vault, executor: nat, tx: Tx, now: nat)
    requires tx.trigger == 4
    ensures !V.Exec(cfg, s, PriceAgreement.SettleCall(executor, tx, Some(LowFeed), now)).1
  {
    assert Pow(10, 0) == 1;
    assert V.ToPayoutDecimals(10, 6) == Some(10);
  }

  /** A broadcast of a trigger of 2^256 + 4, packed as 4, on a sample of 10. */
  predicate LosesTrigger(e: Event) {
    e.Sent? && e.sample == Some(10) && e.effective == Some(TWO_256 + 4) && e.tx.trigger == 4
  }

  /** From feed values the watcher can receive, it broadcasts an order whose trigger
      is packed as 4, below the sample of 10 that fired it. */
  lemma WideTriggerIsLost()
    ensures WideFeed.value <= MAX_UINT256 && WideFeed.decimals == 5
    ensures exists e :: e in P.Run(Initial, WideRun()).log && LosesTrigger(e)
  {
    WideSample();
    WideRunSends();
    WideTrigger();
    var e := Sent(LostTx(0, 1, TWO_256 + 4), Some(10), Some(TWO_256 + 4));
    assert P.Run(Initial, WideRun()).log[1] == e;
    assert LosesTrigger(e);
  }
}
