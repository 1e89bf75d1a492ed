/** Bounded response: a broadcast that nobody knows any more is released or
    replaced within three ticks. */
module SettlementProgress {
  import opened Numbers
  import opened OrderBook
  import opened Settlement
  import P = SettlementProofs
  import S = SettlementSends

  // ----- logs only grow

  lemma SettleOnceGrows(w: State, order: nat, trigger: int, sample: Option<int>, effective: Option<int>, a: Attempt)
    ensures w.log <= SettleOnce(w, order, trigger, sample, effective, a).0.log
  {
    var (reserved, n) := ReserveNonce(w.(chainKnown := true), order, a.nonce);
    if n.Some? && a.gasPrice.Got? && a.gas.Got? {
      BroadcastGrows(reserved, order, n.value, trigger, sample, effective, a);
    }
  }

  lemma BroadcastGrows(w: State, order: nat, nonce: uint64, trigger: int, sample: Option<int>, effective: Option<int>, a: Attempt)
    requires a.gasPrice.Got? && a.gas.Got?
    ensures w.log <= Broadcast(w, order, nonce, trigger, sample, effective, a).0.log
  {
  }

  lemma {:induction false} RetryGrows(w: State, order: nat, trigger: int, sample: Option<int>, effective: Option<int>,
                                      attempts: nat -> Attempt, k: nat)
    ensures w.log <= SettleWithRetry(w, order, trigger, sample, effective, attempts, k).0.log
    decreases SETTLE_ATTEMPTS + 1 - k
  {
    if k <= SETTLE_ATTEMPTS {
      SettleOnceGrows(w, order, trigger, sample, effective, attempts(k));
      var (tried, outcome) := SettleOnce(w, order, trigger, sample, effective, attempts(k));
      if outcome.AttemptFailed? {
        RetryGrows(tried, order, trigger, sample, effective, attempts, k + 1);
      }
    }
  }

  lemma {:induction false} SettleAllGrows(w: State, triggered: seq<Order>, price: int, submit: nat -> Submission)
    requires forall o <- triggered :: o.trigger.Some?
    ensures w.log <= SettleAll(w, triggered, price, submit).log
    decreases |triggered|
  {
    if triggered != [] && w.pending == map[] {
      var o := triggered[0];
      var s := submit(o.id);
      var now := Instructed(w, s.beforeGet);
      RetryGrows(now, o.id, o.trigger.value, Some(price), EffectiveTrigger(now.book, o.id), s.attempt, 1);
      SettleAllGrows(SettleOne(w, o, price, s), triggered[1..], price, submit);
    }
  }

  lemma TickGrows(w: State, i: TickInput)
    requires P.Inv(w)
    ensures w.log <= Tick(w, i).log
  {
    var sample := FreshSample(i.price);
    var sampled := w.(book := SampledBook(w.book, i.price));
    P.SameNoncesKeep(w, sampled);
    P.ReconcileIsOneTurn(sampled, sample, i.reconcile);
    if sampled.pending != map[] {
      var o :| o in sampled.pending;
      S.ReconcileGrows(sampled, o, sample, i.reconcile(o));
    }
    if sample.Some? {
      var reconciled := ReconcilePending(sampled, sampled.pending.Keys, sample, i.reconcile);
      SettleAllGrows(reconciled, Triggered(ObservedBook(w.book, i.price), sample), sample.value, i.submit);
    }
  }

  // ----- a vanished transaction

  /** The entry was cleared, or replaced on its own nonce, after `before`. */
  ghost predicate Resolved(before: seq<Event>, log: seq<Event>, order: nat, nonce: uint64) {
    exists j :: |before| <= j < |log| && Resolves(log[j], order, nonce)
  }

  predicate Resolves(e: Event, order: nat, nonce: uint64) {
    e == Cleared(order) || (e.Replaced? && e.order == order && e.entry.nonce == nonce)
  }

  /** A tick with a fresh sample and working RPC in which nobody knows `tx`. */
  ghost predicate Unknown(i: TickInput, order: nat, tx: Tx) {
    var r := i.reconcile(order);
    && FreshSample(i.price).Some?
    && r.receipt(tx).NotFound? && r.lookup(tx).NotFound?
    && r.status(order).Got? && r.status(order).value <= STATUS_CANCELLED
    && r.gasPrice.Got? && r.gas.Got? && r.chainId && r.signed && r.sent
  }

  /** The same broadcast is still pending, missed at least `missed` times. */
  ghost predicate StillPending(w: State, order: nat, tx: Tx, missed: nat) {
    P.Inv(w) && order in w.pending && w.pending[order].tx == tx && w.pending[order].missing >= missed
  }

  lemma UnknownAtVault(w: State, order: nat, sample: Option<int>, r: Reconciliation)
    requires P.Waiting(w) && order in w.pending && sample.Some?
    requires r.status(order).Got? && r.status(order).value <= STATUS_CANCELLED
    requires r.gasPrice.Got? && r.gas.Got? && r.chainId && r.signed && r.sent
    ensures var p := w.pending[order];
      Resolved(w.log, AgainstVault(w, order, p, sample, Dropped, r).log, order, p.nonce)
  {
    var p := w.pending[order];
    var v := AgainstVault(w, order, p, sample, Dropped, r);
    if v.log[|w.log|] != Cleared(order) {
      assert Resolves(v.log[|w.log| + 1], order, p.nonce);
    } else {
      assert Resolves(v.log[|w.log|], order, p.nonce);
    }
  }

  lemma UnknownReconcile(w: State, order: nat, tx: Tx, missed: nat, sample: Option<int>, i: TickInput)
    requires StillPending(w, order, tx, missed) && Unknown(i, order, tx) && sample.Some?
    ensures var v := ReconcileOne(w, order, sample, i.reconcile(order));
      if missed + 1 >= PENDING_DROP_CHECKS
      then Resolved(w.log, v.log, order, tx.nonce)
      else Resolved(w.log, v.log, order, tx.nonce) || StillPending(v, order, tx, missed + 1)
  {
    var r := i.reconcile(order);
    var now := Instructed(w, r.handled);
    P.SameNoncesKeep(w, now);
    P.ReconcileOneKeeps(w, order, sample, r);
    var p := now.pending[order].(missing := now.pending[order].missing + 1);
    var kept := now.(pending := now.pending[order := p]);
    P.RewriteKeeps(now, order, p);
    if p.missing >= PENDING_DROP_CHECKS {
      UnknownAtVault(kept, order, sample, r);
    }
  }

  lemma UnknownTick(w: State, order: nat, tx: Tx, missed: nat, i: TickInput)
    requires StillPending(w, order, tx, missed) && Unknown(i, order, tx)
    ensures var v := Tick(w, i);
      && w.log <= v.log
      && (if missed + 1 >= PENDING_DROP_CHECKS
          then Resolved(w.log, v.log, order, tx.nonce)
          else Resolved(w.log, v.log, order, tx.nonce) || StillPending(v, order, tx, missed + 1))
  {
    var sample := FreshSample(i.price);
    var observed := ObservedBook(w.book, i.price);
    var raised := w.(book := SampledBook(w.book, i.price));
    P.SameNoncesKeep(w, raised);
    P.ReconcileIsOneTurn(raised, sample, i.reconcile);
    var reconciled := ReconcileOne(raised, order, sample, i.reconcile(order));
    UnknownReconcile(raised, order, tx, missed, sample, i);
    SettleAllGrows(reconciled, Triggered(observed, sample), sample.value, i.submit);
    ResolvedStays(w.log, reconciled.log, Tick(w, i).log, order, tx.nonce);
    S.ReconcileGrows(raised, order, sample, i.reconcile(order));
  }

  lemma ResolvedStays(before: seq<Event>, log: seq<Event>, longer: seq<Event>, order: nat, nonce: uint64)
    requires log <= longer
    ensures Resolved(before, log, order, nonce) ==> Resolved(before, longer, order, nonce)
  {
    if Resolved(before, log, order, nonce) {
      var j :| |before| <= j < |log| && Resolves(log[j], order, nonce);
      assert Resolves(longer[j], order, nonce);
    }
  }

  lemma ResolvedSince(earlier: seq<Event>, before: seq<Event>, log: seq<Event>, order: nat, nonce: uint64)
    requires earlier <= before
    ensures Resolved(before, log, order, nonce) ==> Resolved(earlier, log, order, nonce)
  {
  }

  /** A pending transaction unknown on three consecutive ticks, each with a fresh
      sample and working RPC calls, has by then been released or replaced on the
      same nonce, whatever instructions arrive between the ticks. */
  lemma VanishedTransactionUnblocks(w: State, order: nat, i1: TickInput, h1: seq<Instruction>,
                                    i2: TickInput, h2: seq<Instruction>, i3: TickInput)
    requires P.Inv(w) && order in w.pending
    requires var tx := w.pending[order].tx; Unknown(i1, order, tx) && Unknown(i2, order, tx) && Unknown(i3, order, tx)
    ensures var w1 := Tick(w, i1);
      var w2 := Tick(Instructed(w1, h1), i2);
      var w3 := Tick(Instructed(w2, h2), i3);
      var p := w.pending[order];
      Resolved(w.log, w1.log, order, p.nonce) || Resolved(w.log, w2.log, order, p.nonce) || Resolved(w.log, w3.log, order, p.nonce)
  {
    var tx := w.pending[order].tx;
    UnknownTick(w, order, tx, 0, i1);
    var w1 := Tick(w, i1);
    if !Resolved(w.log, w1.log, order, tx.nonce) {
      var v1 := Instructed(w1, h1);
      P.SameNoncesKeep(w1, v1);
      UnknownTick(v1, order, tx, 1, i2);
      var w2 := Tick(v1, i2);
      ResolvedSince(w.log, w1.log, w2.log, order, tx.nonce);
      if !Resolved(w.log, w2.log, order, tx.nonce) {
        var v2 := Instructed(w2, h2);
        P.SameNoncesKeep(w2, v2);
        UnknownTick(v2, order, tx, 2, i3);
        ResolvedSince(w.log, w2.log, Tick(v2, i3).log, order, tx.nonce);
      }
    }
  }
}
