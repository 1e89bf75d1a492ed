/** The other half of a stop-loss: an order that is OPEN in the vault stays under
    the enclave's watch. */
module SystemHolds {
  import opened Settlement
  import opened PayoutToken
  import opened DarkStopSystem
  import opened SystemProofs
  import opened SettlementHolds
  import O = OrderBook
  import V = VaultSpec

  ghost predicate StepNoCancel(s: SystemStep, order: nat) {
    match s
    case TickStep(i, _) => TickNoCancel(i, order)
    case InstructionStep(x) => x != Cancel(order)
    case ChainEvent(_) => true
  }

  ghost predicate StepNoPlace(s: SystemStep, order: nat) {
    match s
    case TickStep(i, _) => TickNoPlace(i, order)
    case InstructionStep(x) => x.Place? ==> x.id != order
    case ChainEvent(_) => true
  }

  predicate Final(c: Chain, order: nat) {
    V.StatusOf(c.vault, order) == V.STATUS_EXECUTED || V.StatusOf(c.vault, order) == V.STATUS_CANCELLED
  }

  lemma FinalStays(c: Chain, d: Chain, order: nat)
    requires Below(c, d) && Final(c, order)
    ensures Final(d, order)
  {
  }

  /** An order that reads CANCELLED was cancelled then and still is. */
  lemma CancelledIsFinal(r: Reconciliation, hist: seq<Chain>, sent: set<Tx>, order: nat)
    requires History(hist, sent) && TruthfulReconciliation(r, hist) && r.status(order) == Got(STATUS_CANCELLED)
    ensures Final(Last(hist), order)
  {
    var k :| 0 <= k < |hist| && V.StatusOf(hist[k].vault, order) == STATUS_CANCELLED;
    FinalStays(hist[k], Last(hist), order);
  }

  /** The chain only moves on in a step. */
  lemma StepBelow(world: World, sys: System, s: SystemStep)
    requires SystemInv(sys) && Legal(world, sys, s)
    ensures Below(Last(sys.hist), Last(Next(world, sys, s).hist))
  {
    var next := Next(world, sys, s);
    StepKeeps(world, sys, s);
    assert next.hist[|sys.hist| - 1] == Last(sys.hist);
  }

  // ----- one step

  /** A NONE answer, true or stale, for the order's pending broadcast. */
  ghost predicate ReadsNone(sys: System, s: SystemStep, order: nat) {
    s.TickStep? && Drops(sys.enclave, order, s.input.reconcile(order)) && s.input.reconcile(order).status(order) == Got(STATUS_NONE)
  }

  /** A step keeps a held order, unless an instruction cancels it, the vault has
      finished with it, or its pending broadcast reads NONE. */
  lemma StepHolds(world: World, sys: System, s: SystemStep, order: nat)
    requires SystemInv(sys) && Legal(world, sys, s) && Held(sys.enclave.book, order) && StepNoCancel(s, order)
    ensures var next := Next(world, sys, s);
      Held(next.enclave.book, order) || Final(Last(next.hist), order) || ReadsNone(sys, s, order)
  {
    StepKeeps(world, sys, s);
    match s
    case TickStep(i, during) =>
      if !Drops(sys.enclave, order, i.reconcile(order)) {
        TickHolds(sys.enclave, i, order);
      } else if i.reconcile(order).status(order) == Got(STATUS_CANCELLED) {
        var next := Next(world, sys, s);
        CancelledIsFinal(i.reconcile(order), next.hist, SentTxs(next.enclave.log), order);
      }
    case InstructionStep(x) => HandlersHold(sys.enclave.book, [x], order);
    case ChainEvent(c) =>
  }

  /** While no instruction is about it, a held order that is OPEN in the vault when
      the step ends is lost in that step exactly when its pending broadcast reads
      NONE: an answer from before the vault placed it. */
  lemma OpenOrderLostIff(world: World, sys: System, s: SystemStep, order: nat)
    requires SystemInv(sys) && Legal(world, sys, s) && Held(sys.enclave.book, order)
    requires StepNoCancel(s, order) && StepNoPlace(s, order)
    requires V.StatusOf(Last(Next(world, sys, s).hist).vault, order) == V.STATUS_OPEN
    ensures order !in Next(world, sys, s).enclave.book.orders <==> ReadsNone(sys, s, order)
  {
    StepHolds(world, sys, s, order);
    if ReadsNone(sys, s, order) {
      TickDropsIff(sys.enclave, s.input, order);
    }
  }

  // ----- whole runs

  /** An instruction that cancels the order comes only from a vault that has
      cancelled it, and while the order is pending no status answer is NONE. */
  ghost predicate Guarded(world: World, sys: System, s: SystemStep, order: nat)
    requires sys.hist != []
  {
    && (StepNoCancel(s, order) || V.StatusOf(Last(Next(world, sys, s).hist).vault, order) == V.STATUS_CANCELLED)
    && (s.TickStep? && order in sys.enclave.pending ==> s.input.reconcile(order).status(order) != Got(STATUS_NONE))
  }

  ghost predicate GuardedRun(world: World, sys: System, steps: seq<SystemStep>, order: nat)
    requires sys.hist != []
    decreases |steps|
  {
    steps == []
    || (Guarded(world, sys, steps[0], order) && GuardedRun(world, Next(world, sys, steps[0]), steps[1..], order))
  }

  lemma {:induction false} HeldOrFinal(world: World, sys: System, steps: seq<SystemStep>, order: nat)
    requires SystemInv(sys) && LegalRun(world, sys, steps) && GuardedRun(world, sys, steps, order)
    requires Held(sys.enclave.book, order) || Final(Last(sys.hist), order)
    ensures var end := Run(world, sys, steps);
      SystemInv(end) && (Held(end.enclave.book, order) || Final(Last(end.hist), order))
    decreases |steps|
  {
    if steps != [] {
      var next := Next(world, sys, steps[0]);
      StepKeeps(world, sys, steps[0]);
      if Final(Last(sys.hist), order) {
        StepBelow(world, sys, steps[0]);
        FinalStays(Last(sys.hist), Last(next.hist), order);
      } else if StepNoCancel(steps[0], order) {
        StepHolds(world, sys, steps[0], order);
      }
      HeldOrFinal(world, next, steps[1..], order);
    }
  }

  /** Retention. From the moment the enclave holds an order, and for as long as the
      vault has it OPEN, the order is open in the enclave too, through all ticks,
      drops and replacements - provided it is cancelled only when the vault has
      cancelled it, and no status answer for its pending broadcast is NONE. */
  lemma OpenOrdersStayWatched(world: World, token: Token, nonce: nat, before: seq<SystemStep>, after: seq<SystemStep>,
                              order: nat)
    requires LegalRun(world, Start(token, nonce), before)
    requires var sys := Run(world, Start(token, nonce), before);
      && Held(sys.enclave.book, order)
      && LegalRun(world, sys, after) && GuardedRun(world, sys, after, order)
    ensures var end := Run(world, Run(world, Start(token, nonce), before), after);
      V.StatusOf(Last(end.hist).vault, order) == V.STATUS_OPEN ==> O.IsOpen(end.enclave.book, order)
  {
    StartHolds(token, nonce);
    InvAlways(world, Start(token, nonce), before);
    HeldOrFinal(world, Run(world, Start(token, nonce), before), after, order);
  }
}
