/** The assumptions of the system theorems can be met: a run that places, trips
    and settles one stop-loss order. */
module SystemExample {
  import opened Numbers
  import opened Settlement
  import opened SettlementScenes
  import opened PayoutToken
  import opened DarkStopSystem
  import O = OrderBook
  import V = VaultSpec
  import Prices = SystemPrices

  const EXECUTOR: Address := 7
  const OWNER: Address := 1
  const SENDERS: seq<Address> := [4, 10]
  const SomeWorld := World(V.Config(10, OWNER, 1), EXECUTOR, {EXECUTOR})

  // ----- runs, put together

  /** A legal and orderly run. */
  ghost predicate Reaches(sys: System, steps: seq<SystemStep>, end: System)
    requires sys.hist != []
  {
    && LegalRun(SomeWorld, sys, steps) && Prices.OrderlyRun(SomeWorld, sys, steps)
    && Run(SomeWorld, sys, steps) == end
  }

  lemma {:induction false} ReachesThen(sys: System, a: seq<SystemStep>, mid: System, b: seq<SystemStep>, end: System)
    requires sys.hist != [] && mid.hist != [] && Reaches(sys, a, mid) && Reaches(mid, b, end)
    ensures Reaches(sys, a + b, end)
    decreases |a|
  {
    if a == [] {
      assert a + b == b;
    } else {
      assert (a + b)[0] == a[0] && (a + b)[1..] == a[1..] + b;
      ReachesThen(Next(SomeWorld, sys, a[0]), a[1..], mid, b, end);
    }
  }

  lemma OneStep(sys: System, s: SystemStep)
    requires sys.hist != [] && Legal(SomeWorld, sys, s) && Prices.Orderly(SomeWorld, sys, s)
    ensures Reaches(sys, [s], Next(SomeWorld, sys, s))
  {
    assert [s][1..] == [];
  }

  /** A chain step between ticks. */
  lemma OneChainStep(sys: System, c: ChainStep)
    requires sys.hist != [] && Enabled(Last(sys.hist), c, SentTxs(sys.enclave.log)) && Prices.ForeignStep(SomeWorld, c)
    ensures Reaches(sys, [ChainEvent(c)], sys.(hist := sys.hist + [Advance(SomeWorld, Last(sys.hist), c)]))
  {
    var longer := sys.hist + [Advance(SomeWorld, Last(sys.hist), c)];
    assert [c][1..] == [];
    assert Extend(SomeWorld, longer, []) == longer;
    OneStep(sys, ChainEvent(c));
  }

  // ----- one order, placed on both sides

  const Quiet := V.Reply([], true)
  const Register := V.SetExtensionId(SENDERS)
  const Appoint := V.SetTeeExecutor(OWNER, EXECUTOR)
  const PlaceFirst := V.PlaceOrder(3, 2, 1, true, Quiet)

  const StoredOrder := O.Order(1, Some(100), 0, None, O.Open)
  const Before := Initial.(book := O.Empty.(orders := map[1 := StoredOrder]))

  function SetUpVault(token: Token): V.Vault {
    V.Vault(map[1 := V.VaultOrder(3, 1, V.STATUS_OPEN)], 1, 1, 1, EXECUTOR, token, [V.OrderPlaced(1, 3)])
  }

  function SetUpSteps(): seq<SystemStep> {
    [ChainEvent(Other(Register))] + [ChainEvent(Other(Appoint))] + [ChainEvent(Other(PlaceFirst))]
    + [InstructionStep(Place(1, Some(100), 0, 0))]
  }

  ghost function SetUpHistory(token: Token): seq<Chain> {
    var c0 := Chain(V.InitialVault(token), 0, map[]);
    var c1 := Advance(SomeWorld, c0, Other(Register));
    var c2 := Advance(SomeWorld, c1, Other(Appoint));
    [c0] + [c1] + [c2] + [Advance(SomeWorld, c2, Other(PlaceFirst))]
  }

  lemma VaultIsSetUp(token: Token)
    ensures Last(SetUpHistory(token)) == Chain(SetUpVault(token), 0, map[])
    ensures SetUpHistory(token)[0].vault == V.InitialVault(token)
  {
    assert V.FindSender(SENDERS, 10, 0) == V.FindSender(SENDERS, 10, 1) == Some(1);
    var b := V.InitialVault(token).(extensionId := 1, teeExecutor := EXECUTOR);
    var placed := V.Placed(SomeWorld.cfg, b, PlaceFirst).value;
    assert V.CallOut(SomeWorld.cfg, placed, 1, Quiet) == (placed.(balance := 1), true);
  }

  lemma PlacedFirst()
    ensures Instructed(Initial, [Place(1, Some(100), 0, 0)]) == Before
  {
    var list := [Place(1, Some(100), 0, 0)];
    assert HandleAll(Handle(O.Empty, list[0]), list[1..]) == Handle(O.Empty, list[0]);
  }

  lemma SetsUp(token: Token)
    ensures Reaches(Start(token, 0), SetUpSteps(), System(Before, SetUpHistory(token)))
  {
    var c0 := Chain(V.InitialVault(token), 0, map[]);
    var c1 := Advance(SomeWorld, c0, Other(Register));
    var c2 := Advance(SomeWorld, c1, Other(Appoint));
    var e1, e2, e3 := ChainEvent(Other(Register)), ChainEvent(Other(Appoint)), ChainEvent(Other(PlaceFirst));
    var s0, s1, s2 := Start(token, 0), System(Initial, [c0] + [c1]), System(Initial, [c0] + [c1] + [c2]);
    var s3 := System(Initial, SetUpHistory(token));
    OneChainStep(s0, Other(Register));
    OneChainStep(s1, Other(Appoint));
    OneChainStep(s2, Other(PlaceFirst));
    OneStep(s3, InstructionStep(Place(1, Some(100), 0, 0)));
    PlacedFirst();
    ReachesThen(s0, [e1], s1, [e2], s2);
    ReachesThen(s0, [e1] + [e2], s2, [e3], s3);
    ReachesThen(s0, [e1] + [e2] + [e3], s3, [InstructionStep(Place(1, Some(100), 0, 0))], System(Before, SetUpHistory(token)));
  }

  // ----- the tick that settles it

  /** Sample 90 against a trigger of 100, both at six decimals. */
  const Feed := V.FeedData(90, 6, 0)
  const TheTx := Tx(0, 1, 100, 300, 1, 1)

  /** Everything works and the receipt is there at once. */
  function GoodAttempt(): Attempt {
    LostAttempt().(receipt := tx => if tx == TheTx then Got(true) else NotFound)
  }

  function GoodTick(): TickInput {
    LostTick(Feed).(submit := _ => Submission([], _ => GoodAttempt(), []))
  }

  lemma Settles(w: State)
    requires w.book.orders == map[1 := StoredOrder] && w.pending == map[] && w.owners == map[] && !w.nonceReady
    ensures var v := SettleOne(w, StoredOrder, 90, Submission([], _ => GoodAttempt(), []));
      && v.book.orders == map[1 := StoredOrder.(status := O.Executed)]
      && v.pending == map[] && v.log == w.log + [Reserved(1, 0), Sent(TheTx, Some(90), Some(100)), Released(1, 0, true)]
  {
    var known := w.(chainKnown := true);
    var (reserved, n) := ReserveNonce(known, 1, Got(0));
    assert n == Some(0) && reserved.log == w.log + [Reserved(1, 0)];
    var (sent, outcome) := Broadcast(reserved, 1, 0, 100, Some(90), Some(100), GoodAttempt());
    assert outcome == Confirmed;
    assert sent.log == w.log + [Reserved(1, 0)] + [Sent(TheTx, Some(90), Some(100))] + [Released(1, 0, true)];
    assert SettleOnce(w, 1, 100, Some(90), Some(100), GoodAttempt()) == (sent, Confirmed);
  }

  lemma FeedSample()
    ensures FreshSample(Price(Feed, 0)) == Some(90)
  {
    assert Pow(10, 0) == 1;
  }

  lemma TickSettles()
    ensures var v := Tick(Before, GoodTick());
      && v.book.orders == map[1 := StoredOrder.(status := O.Executed)]
      && v.log == [Reserved(1, 0), Sent(TheTx, Some(90), Some(100)), Released(1, 0, true)]
  {
    var i := GoodTick();
    FeedSample();
    var observed := ObservedBook(Before.book, i.price);
    var sampled := Before.(book := SampledBook(Before.book, i.price));
    assert sampled.book.orders == map[1 := StoredOrder];
    OnlyHit(observed, 90, 1);
    assert ReconcilePending(sampled, sampled.pending.Keys, Some(90), i.reconcile) == sampled;
    Settles(sampled);
    var v := SettleOne(sampled, StoredOrder, 90, i.submit(1));
    assert [StoredOrder][1..] == [];
    assert SettleAll(v, [], 90, i.submit) == v;
  }

  lemma SettleIsMined(token: Token)
    requires Balanced(token)
    ensures var (after, ok) := V.Exec(SomeWorld.cfg, SetUpVault(token), V.Settle(EXECUTOR, 1, 100, 300, Some(Feed), 0));
      ok && V.StatusOf(after, 1) == V.STATUS_EXECUTED
  {
    assert Pow(10, 0) == 1;
    MoveKeepsSupply(token, 10, 3, 0);
  }

  /** The broadcast is mined next, and executes the order. */
  lemma OneMined(hist: seq<Chain>, token: Token)
    requires Balanced(token) && hist != [] && Last(hist) == Chain(SetUpVault(token), 0, map[])
    ensures var mined := Mine(TheTx, Some(Feed), 0);
      var c := Advance(SomeWorld, Last(hist), mined);
      && Extend(SomeWorld, hist, [mined]) == hist + [c]
      && MinedAs(c, TheTx, true) && V.StatusOf(c.vault, 1) == V.STATUS_EXECUTED && c.nonce == 1
      && forall sent: set<Tx> :: TheTx in sent ==> AllEnabled(SomeWorld, Last(hist), [mined], sent)
  {
    var mined := Mine(TheTx, Some(Feed), 0);
    var c := Advance(SomeWorld, Last(hist), mined);
    SettleIsMined(token);
    assert [mined][1..] == [];
    assert Extend(SomeWorld, hist + [c], []) == hist + [c];
    assert forall sent :: AllEnabled(SomeWorld, c, [], sent);
  }

  lemma GoodTickIsTruthful(hist: seq<Chain>)
    requires hist != [] && MinedAs(Last(hist), TheTx, true)
    ensures Truthful(GoodTick(), hist)
  {
    assert TruthfulReconciliation(NoReconciliation(), hist);
    assert MinedAs(hist[|hist| - 1], TheTx, true);
    assert TruthfulReceipts(GoodAttempt().receipt, hist);
  }

  function Settling(): SystemStep {
    TickStep(GoodTick(), [Mine(TheTx, Some(Feed), 0)])
  }

  lemma SettlingIsLegal(sys: System, token: Token)
    requires Balanced(token) && sys.enclave == Before
    requires sys.hist != [] && Last(sys.hist) == Chain(SetUpVault(token), 0, map[])
    ensures Legal(SomeWorld, sys, Settling())
  {
    TickSettles();
    OneMined(sys.hist, token);
    assert Sent(TheTx, Some(90), Some(100)) == Tick(Before, GoodTick()).log[1];
    GoodTickIsTruthful(Extend(SomeWorld, sys.hist, [Mine(TheTx, Some(Feed), 0)]));
  }

  lemma SettlingIsOrderly(sys: System)
    ensures Prices.Orderly(SomeWorld, sys, Settling())
  {
  }

  lemma SettlingExecutes(sys: System, token: Token)
    requires Balanced(token) && sys.enclave == Before
    requires sys.hist != [] && Last(sys.hist) == Chain(SetUpVault(token), 0, map[])
    ensures ExecutedOnBothSides(Next(SomeWorld, sys, Settling()), 1)
  {
    TickSettles();
    OneMined(sys.hist, token);
  }

  /** There is a legal and orderly run after which an order is executed in the
      enclave and in the vault. */
  lemma SomeRunSettles(token: Token)
    requires Balanced(token)
    ensures exists steps, end :: Reaches(Start(token, 0), steps, end) && ExecutedOnBothSides(end, 1)
  {
    var sys := System(Before, SetUpHistory(token));
    var end := Next(SomeWorld, sys, Settling());
    VaultIsSetUp(token);
    SetsUp(token);
    SettlingIsLegal(sys, token);
    SettlingIsOrderly(sys);
    SettlingExecutes(sys, token);
    OneStep(sys, Settling());
    ReachesThen(Start(token, 0), SetUpSteps(), sys, [Settling()], end);
  }

  ghost predicate ExecutedOnBothSides(sys: System, order: nat) {
    && order in sys.enclave.book.orders && sys.enclave.book.orders[order].status == O.Executed
    && sys.hist != [] && V.StatusOf(Last(sys.hist).vault, order) == V.STATUS_EXECUTED
  }
}
