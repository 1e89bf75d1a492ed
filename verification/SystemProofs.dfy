/** Agreement of the enclave with the canonical vault in every reachable state. */
module SystemProofs {
  import opened Numbers
  import opened Settlement
  import opened PayoutToken
  import opened DarkStopSystem
  import O = OrderBook
  import V = VaultSpec
  import L = VaultLedger
  import PriceAgreement
  import P = SettlementProofs
  import T = SettlementTruth
  import Progress = SettlementProgress

  // ----- the chain

  /** The chain's own invariant: the vault's books balance, mined nonces are used
      up, and a good receipt means an order executed at most at its trigger. */
  ghost predicate Sound(c: Chain, sent: set<Tx>) {
    && L.Accounted(c.vault, {})
    && c.receipts.Keys <= sent
    && forall tx <- c.receipts :: ReceiptSound(c, tx)
  }

  ghost predicate ReceiptSound(c: Chain, tx: Tx)
    requires tx in c.receipts
  {
    && tx.nonce < c.nonce
    && (c.receipts[tx] ==>
          V.StatusOf(c.vault, tx.order) == V.STATUS_EXECUTED && L.PriceOf(c.vault.trace, tx.order) <= tx.trigger)
  }

  ghost predicate Below(c: Chain, d: Chain) {
    && L.Advances(c.vault, d.vault)
    && c.nonce <= d.nonce
    && (forall tx <- c.receipts :: tx in d.receipts && d.receipts[tx] == c.receipts[tx])
  }

  /** An execution price, once set, stays. */
  lemma PriceStays(s: V.Vault, t: V.Vault, id: nat)
    requires L.Accounted(s, {}) && L.Accounted(t, {}) && s.trace <= t.trace
    requires V.StatusOf(s, id) == V.STATUS_EXECUTED
    ensures L.PriceOf(t.trace, id) == L.PriceOf(s.trace, id)
  {
    assert L.Count(s.trace, L.Executing, id) == L.Expected(s, L.Executing, id, {});
    L.ExecutedIsTraced(s.trace, id);
    var e := V.OrderExecuted(id, L.PriceOf(s.trace, id));
    assert e in t.trace && L.Faithful(t, e);
  }

  lemma VaultStep(world: World, s: V.Vault, c: V.Call)
    requires L.Accounted(s, {})
    ensures var t := V.Exec(world.cfg, s, c).0;
      L.Accounted(t, {}) && L.Advances(s, t)
    ensures var t := V.Exec(world.cfg, s, c).0;
      forall id :: V.StatusOf(s, id) == V.STATUS_EXECUTED ==>
        V.StatusOf(t, id) == V.STATUS_EXECUTED && L.PriceOf(t.trace, id) == L.PriceOf(s.trace, id)
  {
    var t := V.Exec(world.cfg, s, c).0;
    L.ExecAccounted(world.cfg, s, c, {});
    L.ExecAdvances(world.cfg, s, c);
    forall id | V.StatusOf(s, id) == V.STATUS_EXECUTED
      ensures V.StatusOf(t, id) == V.STATUS_EXECUTED && L.PriceOf(t.trace, id) == L.PriceOf(s.trace, id)
    {
      PriceStays(s, t, id);
    }
  }

  /** A mined settle that succeeds has executed its order at most at its trigger. */
  lemma MinedSettle(world: World, s: V.Vault, tx: Tx, feed: Option<V.FeedData>, now: nat)
    requires L.Accounted(s, {})
    ensures var (t, ok) := V.Exec(world.cfg, s, PriceAgreement.SettleCall(world.executor, tx, feed, now));
      ok ==> V.StatusOf(t, tx.order) == V.STATUS_EXECUTED && L.PriceOf(t.trace, tx.order) <= tx.trigger
  {
    var c := PriceAgreement.SettleCall(world.executor, tx, feed, now);
    var (t, ok) := V.SettleOrder(world.cfg, s, c);
    if ok {
      var executed, paid := t.trace[|s.trace|], t.trace[|s.trace| + 1];
      L.Append(s.trace, executed);
      L.Append(s.trace + [executed], paid);
      assert t.trace == s.trace + [executed] + [paid];
    }
  }

  lemma AdvanceKeeps(world: World, c: Chain, s: ChainStep, sent: set<Tx>)
    requires Sound(c, sent) && Enabled(c, s, sent)
    ensures Sound(Advance(world, c, s), sent) && Below(c, Advance(world, c, s))
  {
    match s
    case Mine(tx, feed, now) =>
      MinedSettle(world, c.vault, tx, feed, now);
      VaultStep(world, c.vault, PriceAgreement.SettleCall(world.executor, tx, feed, now));
      assert tx !in c.receipts;
    case Other(call) => VaultStep(world, c.vault, call);
    case Spend(call) => VaultStep(world, c.vault, call);
  }

  // ----- the history

  /** Every earlier state is below the current one. */
  ghost predicate History(hist: seq<Chain>, sent: set<Tx>) {
    && hist != []
    && Sound(Last(hist), sent)
    && forall k :: 0 <= k < |hist| ==> Below(hist[k], Last(hist))
  }

  lemma BelowThen(c: Chain, d: Chain, e: Chain)
    requires Below(c, d) && Below(d, e)
    ensures Below(c, e)
  {
  }

  lemma {:induction false} ExtendKeeps(world: World, hist: seq<Chain>, steps: seq<ChainStep>, sent: set<Tx>)
    requires History(hist, sent) && AllEnabled(world, Last(hist), steps, sent)
    ensures History(Extend(world, hist, steps), sent) && Below(Last(hist), Last(Extend(world, hist, steps)))
    decreases |steps|
  {
    if steps != [] {
      var next := Advance(world, Last(hist), steps[0]);
      AdvanceKeeps(world, Last(hist), steps[0], sent);
      var longer := hist + [next];
      forall k | 0 <= k < |longer| ensures Below(longer[k], next) {
        if k < |hist| {
          BelowThen(hist[k], Last(hist), next);
        }
      }
      ExtendKeeps(world, longer, steps[1..], sent);
      BelowThen(Last(hist), next, Last(Extend(world, longer, steps[1..])));
    }
  }

  // ----- the enclave against the chain

  function ExecutedIds(c: Chain): set<nat> {
    set id | id in c.vault.orders && c.vault.orders[id].status == V.STATUS_EXECUTED
  }

  lemma TrueReceipts(receipt: Tx -> Answer<bool>, hist: seq<Chain>, sent: set<Tx>)
    requires History(hist, sent) && TruthfulReceipts(receipt, hist)
    ensures T.ReceiptsTrue(receipt, ExecutedIds(Last(hist)), Last(hist).nonce)
  {
    forall tx | receipt(tx).Got?
      ensures tx.nonce < Last(hist).nonce && (receipt(tx).value ==> tx.order in ExecutedIds(Last(hist)))
    {
      var k :| 0 <= k < |hist| && MinedAs(hist[k], tx, receipt(tx).value);
      assert Below(hist[k], Last(hist));
      assert ReceiptSound(Last(hist), tx);
    }
  }

  lemma TrueReconciliation(r: Reconciliation, hist: seq<Chain>, sent: set<Tx>)
    requires History(hist, sent) && TruthfulReconciliation(r, hist)
    ensures T.ReconciliationTrue(r, ExecutedIds(Last(hist)), Last(hist).nonce)
  {
    TrueReceipts(r.receipt, hist, sent);
    forall tx | r.lookup(tx) == Got(false) ensures tx.nonce < Last(hist).nonce {
      var k :| 0 <= k < |hist| && tx in hist[k].receipts;
      assert Below(hist[k], Last(hist));
      assert ReceiptSound(Last(hist), tx);
    }
    forall o | r.status(o) == Got(STATUS_EXECUTED) ensures o in ExecutedIds(Last(hist)) {
      var k :| 0 <= k < |hist| && V.StatusOf(hist[k].vault, o) == STATUS_EXECUTED;
      assert Below(hist[k], Last(hist));
    }
  }

  /** Answers that were each true at some moment are true evidence now. */
  lemma TrueInput(i: TickInput, hist: seq<Chain>, sent: set<Tx>)
    requires History(hist, sent) && Truthful(i, hist)
    ensures T.InputTrue(i, ExecutedIds(Last(hist)), Last(hist).nonce)
  {
    forall o ensures T.ReconciliationTrue(i.reconcile(o), ExecutedIds(Last(hist)), Last(hist).nonce) {
      TrueReconciliation(i.reconcile(o), hist, sent);
    }
    forall o ensures T.SubmissionTrue(i.submit(o), ExecutedIds(Last(hist)), Last(hist).nonce) {
      forall k ensures T.ReceiptsTrue(i.submit(o).attempt(k).receipt, ExecutedIds(Last(hist)), Last(hist).nonce) {
        TrueReceipts(i.submit(o).attempt(k).receipt, hist, sent);
      }
    }
  }

  // ----- the system invariant

  ghost predicate SystemInv(sys: System) {
    && P.Inv(sys.enclave)
    && History(sys.hist, SentTxs(sys.enclave.log))
    && T.Agrees(sys.enclave, ExecutedIds(Last(sys.hist)), Last(sys.hist).nonce)
  }

  lemma SentGrows(log: seq<Event>, longer: seq<Event>, hist: seq<Chain>)
    requires log <= longer && History(hist, SentTxs(log))
    ensures History(hist, SentTxs(longer))
  {
    assert forall e <- log :: e in longer;
  }

  lemma StillAgrees(w: State, c: Chain, d: Chain)
    requires T.Agrees(w, ExecutedIds(c), c.nonce) && Below(c, d)
    ensures T.Agrees(w, ExecutedIds(d), d.nonce)
  {
  }

  lemma TickStepKeeps(world: World, sys: System, i: TickInput, during: seq<ChainStep>)
    requires SystemInv(sys) && Legal(world, sys, TickStep(i, during))
    ensures SystemInv(Next(world, sys, TickStep(i, during)))
  {
    var next := Next(world, sys, TickStep(i, during));
    P.TickKeeps(sys.enclave, i);
    Progress.TickGrows(sys.enclave, i);
    SentGrows(sys.enclave.log, next.enclave.log, sys.hist);
    ExtendKeeps(world, sys.hist, during, SentTxs(next.enclave.log));
    StillAgrees(sys.enclave, Last(sys.hist), Last(next.hist));
    TrueInput(i, next.hist, SentTxs(next.enclave.log));
    T.TickAgrees(sys.enclave, i, ExecutedIds(Last(next.hist)), Last(next.hist).nonce);
  }

  lemma StepKeeps(world: World, sys: System, s: SystemStep)
    requires SystemInv(sys) && Legal(world, sys, s)
    ensures SystemInv(Next(world, sys, s))
  {
    match s
    case TickStep(i, during) => TickStepKeeps(world, sys, i, during);
    case InstructionStep(x) =>
      P.SameNoncesKeep(sys.enclave, Instructed(sys.enclave, [x]));
      T.HandlersAgree(sys.enclave.book, [x], ExecutedIds(Last(sys.hist)));
    case ChainEvent(c) =>
      ExtendKeeps(world, sys.hist, [c], SentTxs(sys.enclave.log));
      StillAgrees(sys.enclave, Last(sys.hist), Last(Extend(world, sys.hist, [c])));
  }

  lemma {:induction false} InvAlways(world: World, sys: System, steps: seq<SystemStep>)
    requires SystemInv(sys)
    requires LegalRun(world, sys, steps)
    ensures SystemInv(Run(world, sys, steps))
    decreases |steps|
  {
    if steps != [] {
      StepKeeps(world, sys, steps[0]);
      InvAlways(world, Next(world, sys, steps[0]), steps[1..]);
    }
  }

  lemma StartHolds(token: Token, nonce: nat)
    ensures SystemInv(Start(token, nonce))
  {
  }

  /** In every reachable state, every order marked executed in the enclave is
      EXECUTED in the vault, and every nonce the watcher recorded as consumed is
      used up on the chain, across all drops, replacements, lost receipts and
      reverted attempts. */
  lemma EnclaveAgreesWithVault(world: World, token: Token, nonce: nat, steps: seq<SystemStep>)
    requires LegalRun(world, Start(token, nonce), steps)
    ensures var sys := Run(world, Start(token, nonce), steps);
      && (forall id <- sys.enclave.book.orders :: sys.enclave.book.orders[id].status == O.Executed ==>
            V.StatusOf(Last(sys.hist).vault, id) == V.STATUS_EXECUTED)
      && (forall e <- sys.enclave.log :: e.Released? && e.consumed ==> e.nonce < Last(sys.hist).nonce)
  {
    StartHolds(token, nonce);
    InvAlways(world, Start(token, nonce), steps);
  }
}
