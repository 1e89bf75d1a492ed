/** The promise of a stop-loss, end to end: an order is executed only at or below
    its own private trigger. */
module SystemPrices {
  import opened Numbers
  import opened Settlement
  import opened PayoutToken
  import opened DarkStopSystem
  import B = OrderBookProofs
  import opened SystemProofs
  import O = OrderBook
  import V = VaultSpec
  import VaultProofs
  import L = VaultLedger
  import P = SettlementProofs
  import S = SettlementSends
  import Progress = SettlementProgress

  // ----- appointed executors settle only through the watcher

  /** A call, nested ones included, that neither settles as an appointed executor
      nor appoints anybody else. The zero address never calls. */
  ghost predicate Foreign(world: World, c: V.Call) {
    match c
    case Settle(sender, _, _, _, _, _) => sender !in world.appointed && sender != 0
    case SetTeeExecutor(_, executor) => executor in world.appointed
    case PlaceOrder(_, _, _, _, send) => forall x <- send.nested :: Foreign(world, x)
    case CancelOrder(_, _, _, _, send, refund) =>
      (forall x <- send.nested :: Foreign(world, x)) && (forall x <- refund.nested :: Foreign(world, x))
    case _ => true
  }

  ghost predicate ForeignStep(world: World, s: ChainStep) {
    !s.Mine? ==> Foreign(world, s.call)
  }

  ghost predicate ExecutorSet(world: World, s: V.Vault) {
    s.teeExecutor == 0 || s.teeExecutor in world.appointed
  }

  /** The same orders are executed before and after. */
  ghost predicate SameExecuted(world: World, s: V.Vault, t: V.Vault) {
    && ExecutorSet(world, t)
    && forall id :: V.StatusOf(t, id) == V.STATUS_EXECUTED <==> V.StatusOf(s, id) == V.STATUS_EXECUTED
  }

  lemma {:induction false} ForeignExec(world: World, s: V.Vault, c: V.Call)
    requires VaultProofs.Shaped(s) && ExecutorSet(world, s) && Foreign(world, c)
    ensures SameExecuted(world, s, V.Exec(world.cfg, s, c).0)
    decreases c, 3
  {
    match c
    case PlaceOrder(_, _, _, teeIds, send) =>
      if V.Placed(world.cfg, s, c).Some? {
        ForeignInstruction(world, V.Placed(world.cfg, s, c).value, world.cfg.fee, teeIds, send);
      }
    case CancelOrder(_, value, id, teeIds, send, refund) =>
      if V.Cancelled(s, c).Some? {
        var cancelled := V.Cancelled(s, c).value;
        assert SameExecuted(world, s, cancelled);
        ForeignInstruction(world, cancelled, value, teeIds, send);
        L.InstructionAdvances(world.cfg, cancelled, value, teeIds, send);
        var (sent, ok) := V.SendInstruction(world.cfg, cancelled, value, teeIds, send);
        ForeignCallOut(world, V.Refund(sent, c, s.orders[id].deposit), s.orders[id].deposit, refund);
      }
    case _ =>
  }

  lemma {:induction false} ForeignInstruction(world: World, s: V.Vault, fee: nat, teeIds: bool, send: V.Reply)
    requires VaultProofs.Shaped(s) && ExecutorSet(world, s) && forall x <- send.nested :: Foreign(world, x)
    ensures SameExecuted(world, s, V.SendInstruction(world.cfg, s, fee, teeIds, send).0)
    decreases send, 2
  {
    ForeignCallOut(world, s, fee, send);
  }

  lemma {:induction false} ForeignCallOut(world: World, s: V.Vault, amount: nat, reply: V.Reply)
    requires VaultProofs.Shaped(s) && ExecutorSet(world, s) && forall x <- reply.nested :: Foreign(world, x)
    ensures SameExecuted(world, s, V.CallOut(world.cfg, s, amount, reply).0)
    decreases reply, 1
  {
    if s.balance >= amount {
      ForeignRun(world, s.(balance := s.balance - amount), reply.nested);
    }
  }

  lemma {:induction false} ForeignRun(world: World, s: V.Vault, calls: seq<V.Call>)
    requires VaultProofs.Shaped(s) && ExecutorSet(world, s) && forall x <- calls :: Foreign(world, x)
    ensures SameExecuted(world, s, V.ExecAll(world.cfg, s, calls))
    decreases calls, 0
  {
    if calls != [] {
      ForeignExec(world, s, calls[0]);
      L.ExecAdvances(world.cfg, s, calls[0]);
      ForeignRun(world, V.Exec(world.cfg, s, calls[0]).0, calls[1..]);
    }
  }

  // ----- every execution has a mined broadcast behind it

  ghost predicate Executes(c: Chain, tx: Tx, id: nat) {
    tx in c.receipts && c.receipts[tx] && tx.order == id
  }

  ghost predicate Backed(world: World, c: Chain) {
    && ExecutorSet(world, c.vault)
    && forall id :: V.StatusOf(c.vault, id) == V.STATUS_EXECUTED ==> exists tx :: Executes(c, tx, id)
  }

  lemma AdvanceBacked(world: World, c: Chain, s: ChainStep, sent: set<Tx>)
    requires Sound(c, sent) && Enabled(c, s, sent) && ForeignStep(world, s) && Backed(world, c)
    ensures Backed(world, Advance(world, c, s))
  {
    var d := Advance(world, c, s);
    AdvanceKeeps(world, c, s, sent);
    if !s.Mine? {
      ForeignExec(world, c.vault, s.call);
    }
    forall id | V.StatusOf(d.vault, id) == V.STATUS_EXECUTED ensures exists tx :: Executes(d, tx, id) {
      if V.StatusOf(c.vault, id) == V.STATUS_EXECUTED {
        var tx :| Executes(c, tx, id);
        assert Executes(d, tx, id);
      } else {
        assert Executes(d, s.tx, id);
      }
    }
  }

  lemma {:induction false} ExtendBacked(world: World, hist: seq<Chain>, steps: seq<ChainStep>, sent: set<Tx>)
    requires hist != [] && Sound(Last(hist), sent) && AllEnabled(world, Last(hist), steps, sent)
    requires Backed(world, Last(hist)) && forall s <- steps :: ForeignStep(world, s)
    ensures Backed(world, Last(Extend(world, hist, steps)))
    decreases |steps|
  {
    if steps != [] {
      AdvanceBacked(world, Last(hist), steps[0], sent);
      AdvanceKeeps(world, Last(hist), steps[0], sent);
      ExtendBacked(world, hist + [Advance(world, Last(hist), steps[0])], steps[1..], sent);
    }
  }

  // ----- what was sent stays at or below the order's trigger

  ghost predicate TriggerCovers(b: O.Book, e: Event)
    requires e.Sent? && e.tx.order in b.orders
  {
    var trigger := O.TriggerOf(b.orders[e.tx.order]);
    trigger.Some? && e.tx.trigger <= trigger.value
  }

  /** No broadcast disclosed more than its order's trigger is now. */
  ghost predicate SentBelow(w: State) {
    forall e <- w.log :: e.Sent? && e.tx.order in w.book.orders ==> TriggerCovers(w.book, e)
  }

  lemma ShapedTrigger(o: O.Order)
    requires O.IsFixed(o) || B.TrailingShape(o)
    ensures O.TriggerOf(o).Some? && O.TriggerOf(o).value >= 0
  {
  }

  /** A broadcast on a sample at or below the order's effective trigger when it was
      sent, disclosing no more than that trigger. */
  ghost predicate WithinTrigger(e: Event)
    requires e.Sent?
  {
    && e.sample.Some? && e.effective.Some?
    && e.sample.value <= e.effective.value && e.tx.trigger <= e.effective.value
  }

  ghost predicate AllWithin(log: seq<Event>) {
    forall e <- log :: e.Sent? ==> WithinTrigger(e)
  }

  /** Sampling at the start of a tick only raises triggers. */
  lemma SampledRises(b: O.Book, a: PriceAnswer, id: nat)
    requires B.Shape(b) && id in b.orders
    ensures B.Shape(SampledBook(b, a)) && id in SampledBook(b, a).orders
    ensures var before, after := O.TriggerOf(b.orders[id]), O.TriggerOf(SampledBook(b, a).orders[id]);
      before.Some? && after.Some? && 0 <= before.value <= after.value
  {
    var observed := ObservedBook(b, a);
    assert B.Shape(observed) && observed.orders == b.orders;
    B.ShapeStep(observed, B.TriggeredOp(FreshSample(a)));
    var raised := O.Raised(observed, FreshSample(a));
    ShapedTrigger(b.orders[id]);
    ShapedTrigger(raised.orders[id]);
    if O.IsOpen(observed, id) {
      B.TriggerRises(observed, id, B.TriggeredOp(FreshSample(a)));
    } else {
      assert raised.orders[id] == b.orders[id];
    }
  }

  lemma LowIsBelow(x: nat)
    ensures Low256(x) <= x
  {
  }

  /** A broadcast made before the tick. */
  lemma OldSendCovered(w: State, i: TickInput, e: Event)
    requires B.Shape(w.book) && SentBelow(w) && e in w.log && e.Sent?
    ensures e.tx.order in SampledBook(w.book, i.price).orders ==> TriggerCovers(SampledBook(w.book, i.price), e)
  {
    if e.tx.order in w.book.orders {
      SampledRises(w.book, i.price, e.tx.order);
    }
  }

  /** A broadcast made by the tick. */
  lemma NewSendCovered(b0: O.Book, sample: Option<int>, e: Event)
    requires B.Shape(b0) && e.Sent? && S.SoundSend(e, sample, b0)
    ensures e.tx.order in b0.orders && TriggerCovers(b0, e)
  {
    ShapedTrigger(b0.orders[e.tx.order]);
    LowIsBelow(e.effective.value);
  }

  lemma NewSendWithin(b0: O.Book, sample: Option<int>, e: Event)
    requires B.Shape(b0) && e.Sent? && S.SoundSend(e, sample, b0)
    ensures WithinTrigger(e)
  {
    ShapedTrigger(b0.orders[e.tx.order]);
    LowIsBelow(e.effective.value);
  }

  lemma TickWithin(w: State, i: TickInput)
    requires P.Inv(w) && B.Shape(w.book) && S.PlacedOnce(S.Known(w), i) && AllWithin(w.log)
    ensures AllWithin(Tick(w, i).log)
  {
    var v := Tick(w, i);
    S.TickSends(w, i);
    SampledShape(w.book, i.price);
    forall e | e in v.log && e.Sent? ensures WithinTrigger(e) {
      var j :| 0 <= j < |v.log| && v.log[j] == e;
      if j < |w.log| {
        assert w.log[j] in w.log;
      } else {
        NewSendWithin(SampledBook(w.book, i.price), FreshSample(i.price), e);
      }
    }
  }

  lemma SampledShape(b: O.Book, a: PriceAnswer)
    requires B.Shape(b)
    ensures B.Shape(SampledBook(b, a)) && SampledBook(b, a).orders.Keys == b.orders.Keys
  {
    B.ShapeStep(ObservedBook(b, a), B.TriggeredOp(FreshSample(a)));
  }

  /** What covers an order before and after it is executed is the same. */
  lemma CoveredStill(w: State, b0: O.Book, b: O.Book, e: Event)
    requires S.Follows(b0, S.Known(w), b) && e.Sent? && e.tx.order in b.orders && e.tx.order in S.Known(w)
    requires e.tx.order in b0.orders ==> TriggerCovers(b0, e)
    ensures TriggerCovers(b, e)
  {
    assert e.tx.order in S.Known(w) * b.orders.Keys;
  }

  lemma TickSentBelow(w: State, i: TickInput)
    requires P.Inv(w) && B.Shape(w.book) && S.PlacedOnce(S.Known(w), i) && SentBelow(w)
    ensures SentBelow(Tick(w, i)) && B.Shape(Tick(w, i).book)
  {
    var v := Tick(w, i);
    var b0 := SampledBook(w.book, i.price);
    S.TickSends(w, i);
    SampledShape(w.book, i.price);
    forall e | e in v.log && e.Sent? && e.tx.order in v.book.orders ensures TriggerCovers(v.book, e) {
      var j :| 0 <= j < |v.log| && v.log[j] == e;
      if j < |w.log| {
        OldSendCovered(w, i, w.log[j]);
      } else {
        NewSendCovered(b0, FreshSample(i.price), e);
      }
      CoveredStill(w, b0, v.book, e);
    }
  }

  // ----- runs in which ids are placed once and the executor's key is private

  ghost predicate Orderly(world: World, sys: System, s: SystemStep) {
    match s
    case TickStep(i, during) =>
      S.PlacedOnce(S.Known(sys.enclave), i) && forall c <- during :: ForeignStep(world, c)
    case InstructionStep(x) => S.NoReplays(S.Known(sys.enclave), [x])
    case ChainEvent(c) => ForeignStep(world, c)
  }

  ghost predicate OrderlyRun(world: World, sys: System, steps: seq<SystemStep>)
    requires sys.hist != []
    decreases |steps|
  {
    steps == [] || (Orderly(world, sys, steps[0]) && OrderlyRun(world, Next(world, sys, steps[0]), steps[1..]))
  }

  ghost predicate PriceInv(world: World, sys: System) {
    && SystemInv(sys)
    && Backed(world, Last(sys.hist))
    && B.Shape(sys.enclave.book)
    && SentBelow(sys.enclave)
    && AllWithin(sys.enclave.log)
  }

  lemma InstructedBelow(w: State, x: Instruction)
    requires B.Shape(w.book) && SentBelow(w) && S.NoReplays(S.Known(w), [x])
    ensures B.Shape(Instructed(w, [x]).book) && SentBelow(Instructed(w, [x]))
  {
    var b := Handle(w.book, x);
    assert HandleAll(w.book, [x]) == b;
    assert x in [x];
    B.ShapeStep(w.book, if x.Place? then B.PutOp(O.Order(x.id, x.trigger, x.trailBps, None, O.Open), x.at) else B.DeleteOp(x.id));
    forall e <- w.log | e.Sent? && e.tx.order in b.orders ensures TriggerCovers(b, e) {
      assert e.tx.order in S.Known(w);
    }
  }

  lemma PriceStep(world: World, sys: System, s: SystemStep)
    requires PriceInv(world, sys) && Legal(world, sys, s) && Orderly(world, sys, s)
    ensures PriceInv(world, Next(world, sys, s))
  {
    StepKeeps(world, sys, s);
    match s
    case TickStep(i, during) =>
      TickSentBelow(sys.enclave, i);
      TickWithin(sys.enclave, i);
      Progress.TickGrows(sys.enclave, i);
      SentGrows(sys.enclave.log, Tick(sys.enclave, i).log, sys.hist);
      ExtendBacked(world, sys.hist, during, SentTxs(Tick(sys.enclave, i).log));
    case InstructionStep(x) => InstructedBelow(sys.enclave, x);
    case ChainEvent(c) => ExtendBacked(world, sys.hist, [c], SentTxs(sys.enclave.log));
  }

  lemma {:induction false} PriceAlways(world: World, sys: System, steps: seq<SystemStep>)
    requires PriceInv(world, sys) && LegalRun(world, sys, steps) && OrderlyRun(world, sys, steps)
    ensures PriceInv(world, Run(world, sys, steps))
    decreases |steps|
  {
    if steps != [] {
      PriceStep(world, sys, steps[0]);
      PriceAlways(world, Next(world, sys, steps[0]), steps[1..]);
    }
  }

  /** The broadcast behind an execution: sent on a sample at or below the order's
      effective trigger at that moment, and executed at or below the trigger it
      disclosed, which is at or below that effective one. */
  ghost predicate ExecutedWithin(c: Chain, e: Event, id: nat) {
    && e.Sent? && Executes(c, e.tx, id) && WithinTrigger(e)
    && L.PriceOf(c.vault.trace, id) <= e.tx.trigger <= e.effective.value
  }

  /** With order ids placed once and appointed executors that settle only through
      the watcher, every order that is EXECUTED in the vault - whatever became of it
      in the enclave since - was executed by a broadcast of the watcher, at a price
      at or below its private effective trigger when that was sent; and if the
      enclave still holds it, at or below its present trigger. */
  lemma ExecutedAtOrBelowItsTrigger(world: World, token: Token, nonce: nat, steps: seq<SystemStep>, id: nat)
    requires LegalRun(world, Start(token, nonce), steps) && OrderlyRun(world, Start(token, nonce), steps)
    requires V.StatusOf(Last(Run(world, Start(token, nonce), steps).hist).vault, id) == V.STATUS_EXECUTED
    ensures var sys := Run(world, Start(token, nonce), steps);
      && (exists e :: e in sys.enclave.log && ExecutedWithin(Last(sys.hist), e, id))
      && (id in sys.enclave.book.orders ==>
            var trigger := O.TriggerOf(sys.enclave.book.orders[id]);
            trigger.Some? && L.PriceOf(Last(sys.hist).vault.trace, id) <= trigger.value)
  {
    StartHolds(token, nonce);
    PriceAlways(world, Start(token, nonce), steps);
    var sys := Run(world, Start(token, nonce), steps);
    var c := Last(sys.hist);
    var tx :| Executes(c, tx, id);
    assert ReceiptSound(c, tx) && tx in SentTxs(sys.enclave.log);
    var e :| e in sys.enclave.log && e.Sent? && e.tx == tx;
    assert ExecutedWithin(c, e, id);
    if id in sys.enclave.book.orders {
      assert TriggerCovers(sys.enclave.book, e);
    }
  }
}
