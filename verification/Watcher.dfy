/** The settlement watcher as the object it is: fields that each method updates
    in place, proved against the functions of Settlement. */
module SettlementWatcher {
  import opened Numbers
  import opened OrderBook
  import opened EnclaveStore
  import opened Settlement
  import P = SettlementProofs

  ghost predicate Owns(owners: map<uint64, nat>, order: nat) {
    exists n :: n in owners && owners[n] == order
  }

  class Watcher {
    const store: Store
    var pending: map<nat, Pending>
    var nonceOwners: map<uint64, nat>
    var nextNonce: uint64
    var nonceReady: bool
    // Has the chain id been fetched?
    var chainKnown: bool

    /** What the watcher has done so far. */
    ghost var log: seq<Event>

    ghost predicate Valid()
      reads this, store, store.ints
    {
      store.Valid()
    }

    ghost function View(): State
      reads this, store
    {
      State(store.book, pending, nonceOwners, nextNonce, nonceReady, chainKnown, log)
    }

    constructor (store: Store)
      requires store.Valid()
      ensures this.store == store && Valid()
      ensures View() == Initial.(book := store.book)
    {
      this.store := store;
      pending, nonceOwners, nextNonce, nonceReady, chainKnown := map[], map[], 0, false, false;
      log := [];
    }

    // ----- nonces

    /** Reserves one executor nonce for an order: one that it already owns, or the
        first free one. The search below terminates and the floor never leaves
        uint64. */
    method ReserveNonce(orderId: nat, remote: Answer<uint64>) returns (nonce: Option<uint64>)
      requires Valid()
      modifies this
      ensures Valid()
      ensures if Owns(old(nonceOwners), orderId)
        then nonce.Some? && nonce.value in nonceOwners && nonceOwners[nonce.value] == orderId
          && View() == Emit(old(View()), Reserved(orderId, nonce.value))
        else (View(), nonce) == Settlement.ReserveNonce(old(View()), orderId, remote)
    {
      var todo := nonceOwners.Keys;
      while todo != {}
        invariant todo <= nonceOwners.Keys
        invariant forall n <- nonceOwners :: n in todo || nonceOwners[n] != orderId
      {
        var n :| n in todo;
        if nonceOwners[n] == orderId {
          log := log + [Reserved(orderId, n)];
          return Some(n);
        }
        todo := todo - {n};
      }
      if !remote.Got? {
        return None;
      }
      var candidate: uint64 := remote.value;
      if nonceReady && nextNonce > candidate {
        candidate := nextNonce;
      }
      ghost var first := candidate;
      while candidate in nonceOwners
        invariant FirstFree(nonceOwners, first) == FirstFree(nonceOwners, candidate)
        decreases MAX_UINT64 - candidate
      {
        if candidate == MAX_UINT64 {
          return None;
        }
        candidate := candidate + 1;
      }
      if candidate == MAX_UINT64 {
        return None;
      }
      nonceOwners := nonceOwners[candidate := orderId];
      nextNonce := candidate + 1;
      nonceReady := true;
      log := log + [Reserved(orderId, candidate)];
      nonce := Some(candidate);
    }

    method ReleaseNonce(orderId: nat, nonce: uint64, consumed: bool)
      requires Valid()
      modifies this
      ensures Valid()
      ensures View() == Settlement.ReleaseNonce(old(View()), orderId, nonce, consumed)
    {
      if nonce !in nonceOwners || nonceOwners[nonce] != orderId {
        return;
      }
      nonceOwners := nonceOwners - {nonce};
      if !consumed && (!nonceReady || nonce < nextNonce) {
        nextNonce := nonce;
        nonceReady := true;
      }
      log := log + [Released(orderId, nonce, consumed)];
    }

    method ReleaseOrderNonce(orderId: nat, consumed: bool)
      requires Valid()
      modifies this
      ensures Valid()
      ensures if Owns(old(nonceOwners), orderId)
        then exists n ::
          (n in old(nonceOwners) && old(nonceOwners)[n] == orderId
           && View() == Settlement.ReleaseNonce(old(View()), orderId, n, consumed))
        else View() == old(View())
    {
      var todo := nonceOwners.Keys;
      while todo != {}
        invariant todo <= nonceOwners.Keys && View() == old(View())
        invariant forall n <- nonceOwners :: n in todo || nonceOwners[n] != orderId
      {
        var n :| n in todo;
        if nonceOwners[n] == orderId {
          ReleaseNonce(orderId, n, consumed);
          return;
        }
        todo := todo - {n};
      }
    }

    // ----- first settlements

    /** Builds, signs and sends one settle transaction, then looks at its receipt
        once. */
    method SettleOnce(orderId: nat, trigger: int, ghost sample: Option<int>, ghost effective: Option<int>, a: Attempt)
      returns (outcome: Outcome)
      requires Valid() && nonceOwners == map[]
      modifies this
      ensures Valid()
      ensures (View(), outcome) == Settlement.SettleOnce(old(View()), orderId, trigger, sample, effective, a)
      ensures !outcome.Unresolved? ==> nonceOwners == map[]
    {
      if !chainKnown && !a.chainId {
        return AttemptFailed;
      }
      chainKnown := true;
      if !a.gasPrice.Got? || !a.gas.Got? {
        return AttemptFailed;
      }
      var nonce := ReserveNonce(orderId, a.nonce);
      if nonce.None? {
        return AttemptFailed;
      }
      if !a.signed {
        ReleaseNonce(orderId, nonce.value, false);
        return AttemptFailed;
      }
      outcome := Send(orderId, nonce.value, trigger, sample, effective, a);
    }

    /** The end of `settleOnce`: an error or a missing receipt leaves the outcome
        open and the nonce reserved. */
    method Send(orderId: nat, nonce: uint64, trigger: int, ghost sample: Option<int>, ghost effective: Option<int>, a: Attempt)
      returns (outcome: Outcome)
      requires Valid() && nonceOwners == map[nonce := orderId] && a.gasPrice.Got? && a.gas.Got?
      modifies this
      ensures Valid()
      ensures (View(), outcome) == Broadcast(old(View()), orderId, nonce, trigger, sample, effective, a)
      ensures !outcome.Unresolved? ==> nonceOwners == map[]
    {
      var tx := Tx(nonce, orderId, Low256(trigger), SETTLE_MAX_AGE_SEC, a.gasPrice.value, a.gas.value);
      log := log + [Sent(tx, sample, effective)];
      var receipt := a.receipt(tx);
      if !a.sent || !receipt.Got? {
        return Unresolved(Pending(tx, nonce, a.gasPrice.value, trigger, a.sentAt, 0));
      }
      ReleaseNonce(orderId, nonce, true);
      outcome := if receipt.value then Confirmed else AttemptFailed;
    }

    method OpenEntry(orderId: nat, entry: Pending)
      requires Valid()
      modifies this
      ensures Valid()
      ensures View() == Emit(old(View()).(pending := old(pending)[orderId := entry]), Opened(orderId, entry))
    {
      pending := pending[orderId := entry];
      log := log + [Opened(orderId, entry)];
    }

    /** Up to three attempts; an uncertain broadcast becomes the pending entry. */
    method SettleWithRetry(orderId: nat, trigger: int, ghost sample: Option<int>, ghost effective: Option<int>,
                           attempts: nat -> Attempt)
      returns (settled: bool)
      requires Valid() && nonceOwners == map[]
      modifies this
      ensures Valid()
      ensures (View(), settled) == Settlement.SettleWithRetry(old(View()), orderId, trigger, sample, effective, attempts, 1)
    {
      var attempt := 1;
      while attempt <= SETTLE_ATTEMPTS
        invariant 1 <= attempt <= SETTLE_ATTEMPTS + 1
        invariant Valid() && nonceOwners == map[]
        invariant Settlement.SettleWithRetry(old(View()), orderId, trigger, sample, effective, attempts, 1)
               == Settlement.SettleWithRetry(View(), orderId, trigger, sample, effective, attempts, attempt)
      {
        var outcome := SettleOnce(orderId, trigger, sample, effective, attempts(attempt));
        match outcome {
          case Confirmed =>
            return true;
          case Unresolved(entry) =>
            OpenEntry(orderId, entry);
            return false;
          case AttemptFailed =>
        }
        attempt := attempt + 1;
      }
      ReleaseOrderNonce(orderId, false);
      settled := false;
    }

    // ----- instructions

    /** The store calls of `processPlaceOrder` and `processCancelOrder`. */
    method Handle(x: Instruction)
      requires Valid()
      modifies store
      ensures Valid()
      ensures View() == old(View()).(book := Settlement.Handle(old(store.book), x))
    {
      match x
      case Place(id, trigger, bps, at) =>
        var price := null;
        if trigger.Some? {
          price := new BigInt(trigger.value);
        }
        var outcome := store.Put(Record(id, price, bps, null, Open), at);
      case Cancel(id) =>
        var ok := store.Delete(id);
    }

    method HandleAll(list: seq<Instruction>)
      requires Valid()
      modifies store
      ensures Valid()
      ensures View() == Instructed(old(View()), list)
    {
      for n := 0 to |list|
        invariant Valid() && View() == old(View()).(book := store.book)
        invariant Settlement.HandleAll(old(store.book), list) == Settlement.HandleAll(store.book, list[n..])
      {
        assert list[n..][0] == list[n] && list[n..][1..] == list[n + 1..];
        Handle(list[n]);
      }
      assert list[|list|..] == [];
    }

    // ----- reconciliation

    /** Deletes the pending entry and releases its nonce. */
    method Finish(orderId: nat, nonce: uint64, consumed: bool)
      requires Valid()
      modifies this
      ensures Valid()
      ensures View() == Settlement.Finish(old(View()), orderId, nonce, consumed)
    {
      pending := pending - {orderId};
      log := log + [Cleared(orderId)];
      ReleaseNonce(orderId, nonce, consumed);
    }

    method MarkExecuted(orderId: nat)
      requires Valid()
      modifies store
      ensures Valid()
      ensures View() == Mark(old(View()), orderId)
    {
      var ok := store.MarkExecuted(orderId);
    }

    /** Sends the same settlement again on the same nonce at a higher price. */
    method ReplacePending(orderId: nat, p: Pending, trigger: int, ghost sample: Option<int>, r: Reconciliation)
      requires Valid()
      modifies this
      ensures Valid()
      ensures View() == Settlement.ReplacePending(old(View()), orderId, p, trigger, sample, r)
    {
      if p.nonce in nonceOwners && nonceOwners[p.nonce] != orderId {
        return;
      }
      nonceOwners := nonceOwners[p.nonce := orderId];
      if !r.gasPrice.Got? {
        return;
      }
      var bumped := p.gasPrice * 9;
      bumped := bumped / 8;
      bumped := bumped + 1;
      if r.gasPrice.value > bumped {
        bumped := r.gasPrice.value;
      }
      if !r.gas.Got? {
        return;
      }
      if !chainKnown && !r.chainId {
        return;
      }
      chainKnown := true;
      if !r.signed {
        return;
      }
      Resend(orderId, p, trigger, sample, bumped, r.gas.value, r);
    }

    method Resend(orderId: nat, p: Pending, trigger: int, ghost sample: Option<int>, price: nat, gas: nat, r: Reconciliation)
      requires Valid()
      modifies this
      ensures Valid()
      ensures View() == Settlement.Resend(old(View()), orderId, p, trigger, sample, price, gas, r)
    {
      var tx := Tx(p.nonce, orderId, Low256(trigger), SETTLE_MAX_AGE_SEC, price, gas);
      log := log + [Sent(tx, sample, Some(trigger))];
      if !r.sent {
        return;
      }
      var entry := Pending(tx, p.nonce, price, trigger, r.sentAt, 0);
      pending := pending[orderId := entry];
      log := log + [Replaced(orderId, entry)];
    }

    /** Lets the vault's own order status decide about an unconfirmed broadcast. */
    method ReconcileAgainstVault(orderId: nat, p: Pending, sample: Option<int>, tx: TxState, r: Reconciliation)
      requires Valid()
      modifies this, store
      ensures Valid()
      ensures View() == AgainstVault(old(View()), orderId, p, sample, tx, r)
    {
      var status := r.status(orderId);
      if !status.Got? {
        return;
      }
      if status.value == STATUS_EXECUTED {
        Finish(orderId, p.nonce, tx == MinedNoReceipt);
        MarkExecuted(orderId);
      } else if status.value == STATUS_OPEN {
        if tx == MinedNoReceipt {
          Finish(orderId, p.nonce, true);
          return;
        }
        var trigger := store.EffectiveTrigger(orderId);
        var active := sample.Some? && trigger != null && sample.value <= trigger.v;
        if !active {
          if tx == Dropped && sample.Some? {
            Finish(orderId, p.nonce, false);
          }
          return;
        }
        ReplacePending(orderId, p, trigger.v, sample, r);
      } else if status.value == STATUS_NONE || status.value == STATUS_CANCELLED {
        Finish(orderId, p.nonce, tx == MinedNoReceipt);
        var ok := store.Delete(orderId);
      }
    }

    /** A broadcast without a receipt: pending, mined, missing or unknowable. */
    method ReconcileUnconfirmed(orderId: nat, p: Pending, sample: Option<int>, r: Reconciliation)
      requires Valid()
      modifies this, store
      ensures Valid()
      ensures View() == Unconfirmed(old(View()), orderId, p, sample, r)
    {
      var lookup := r.lookup(p.tx);
      if lookup.Got? {
        if lookup.value {
          var seen := p.(missing := 0);
          pending := pending[orderId := seen];
          assert View() == old(View()).(pending := old(View()).pending[orderId := seen]);
          if r.checkedAt - p.firstSeen < PENDING_REPLACEMENT_AGE {
            return;
          }
          ReconcileAgainstVault(orderId, seen, sample, Stuck, r);
          return;
        }
        ReconcileAgainstVault(orderId, p, sample, MinedNoReceipt, r);
        return;
      }
      if lookup.Failed? {
        return;
      }
      var missed := p.(missing := p.missing + 1);
      pending := pending[orderId := missed];
      assert View() == old(View()).(pending := old(View()).pending[orderId := missed]);
      if missed.missing < PENDING_DROP_CHECKS {
        return;
      }
      ReconcileAgainstVault(orderId, missed, sample, Dropped, r);
    }

    method ReconcileOne(orderId: nat, sample: Option<int>, r: Reconciliation)
      requires Valid() && orderId in pending
      modifies this, store
      ensures Valid()
      ensures View() == Settlement.ReconcileOne(old(View()), orderId, sample, r)
    {
      HandleAll(r.handled);
      var p := pending[orderId];
      var receipt := r.receipt(p.tx);
      if receipt.NotFound? {
        ReconcileUnconfirmed(orderId, p, sample, r);
        return;
      }
      if receipt.Failed? {
        return;
      }
      Finish(orderId, p.nonce, true);
      if receipt.value {
        MarkExecuted(orderId);
      }
    }

    /** One receipt lookup per pending broadcast. */
    method ReconcilePending(sample: Option<int>, reconcile: nat -> Reconciliation)
      requires Valid() && P.Inv(View())
      modifies this, store
      ensures Valid()
      ensures View() == Settlement.ReconcilePending(old(View()), old(pending).Keys, sample, reconcile)
    {
      P.ReconcileIsOneTurn(View(), sample, reconcile);
      ghost var before := View();
      var todo := pending.Keys;
      while todo != {}
        invariant Valid() && todo <= before.pending.Keys
        invariant View() == if todo == before.pending.Keys
          then before
          else Settlement.ReconcilePending(before, before.pending.Keys, sample, reconcile)
      {
        var orderId :| orderId in todo;
        ReconcileOne(orderId, sample, reconcile(orderId));
        todo := todo - {orderId};
      }
    }

    // ----- ticks

    /** One triggered order: look again, settle, mark. `o` is a detached copy. */
    method SettleOne(o: Record, price: int, s: Submission)
      requires Valid() && nonceOwners == map[] && o.trigger != null
      modifies this, store
      ensures Valid()
      ensures View() == Settlement.SettleOne(old(View()), ValueOf(o), price, s)
    {
      HandleAll(s.beforeGet);
      var current, exists_ := store.Get(o.id);
      if !exists_ || current.status != Open {
        return;
      }
      ghost var effective := EffectiveTrigger(store.book, o.id);
      var settled := SettleWithRetry(o.id, o.trigger.v, Some(price), effective, s.attempt);
      if settled {
        HandleAll(s.beforeMark);
        MarkExecuted(o.id);
      }
    }

    /** Settles the triggered orders, one executor transaction at a time. */
    method SettleAll(triggered: seq<Record>, price: int, submit: nat -> Submission)
      requires Valid() && P.Inv(View())
      requires forall o <- ValuesOf(triggered) :: o.trigger.Some?
      modifies this, store
      ensures Valid() && P.Inv(View())
      ensures View() == Settlement.SettleAll(old(View()), old(ValuesOf(triggered)), price, submit)
    {
      ghost var values := ValuesOf(triggered);
      for k := 0 to |triggered|
        invariant Valid() && P.Inv(View())
        invariant ValuesOf(triggered) == values
        invariant Settlement.SettleAll(old(View()), values, price, submit)
               == Settlement.SettleAll(View(), values[k..], price, submit)
      {
        if pending != map[] {
          break;
        }
        SettleAllStep(View(), values, k, price, submit);
        SettleNext(triggered, k, price, submit);
      }
    }

    /** One turn of that loop; the list is not touched. */
    method SettleNext(triggered: seq<Record>, k: nat, price: int, submit: nat -> Submission)
      requires Valid() && P.Inv(View()) && pending == map[]
      requires k < |triggered| && forall o <- ValuesOf(triggered) :: o.trigger.Some?
      modifies this, store
      ensures Valid() && P.Inv(View())
      ensures ValuesOf(triggered) == old(ValuesOf(triggered))
      ensures View() == Settlement.SettleOne(old(View()), ValuesOf(triggered)[k], price, submit(triggered[k].id))
    {
      ghost var o := ValuesOf(triggered)[k];
      assert o == ValueOf(triggered[k]) && o in ValuesOf(triggered);
      P.SettleOneKeeps(View(), o, price, submit(o.id));
      SettleOne(triggered[k], price, submit(triggered[k].id));
      ValuesStay(triggered);
    }

    /** Observes the sample and updates every private watermark. */
    method Sample(price: BigInt, at: int) returns (triggered: seq<Record>)
      requires Valid()
      modifies store
      ensures Valid()
      ensures var observed := Observe(old(store.book), Some(price.v), at);
        && View() == old(View()).(book := Raised(observed, Some(price.v)))
        && ValuesOf(triggered) == Triggered(observed, Some(price.v))
    {
      store.ObservePrice(price, at);
      triggered := store.TriggeredOrders(price);
    }

    /** One poll: sample, reconcile the pending broadcast, settle what fires. */
    method Tick(i: TickInput)
      requires Valid() && P.Inv(View())
      modifies this, store
      ensures Valid() && P.Inv(View())
      ensures View() == Settlement.Tick(old(View()), i)
    {
      P.TickKeeps(View(), i);
      if i.price.NoPrice? {
        ReconcilePending(None, i.reconcile);
        return;
      }
      var age := FeedAge(i.price.feed.timestamp, i.price.now);
      if age < 0 {
        ReconcilePending(None, i.reconcile);
        return;
      }
      if age > SETTLE_MAX_AGE_SEC {
        ReconcilePending(None, i.reconcile);
        return;
      }
      Poll(NormalizePrice(i.price.feed.value, i.price.feed.decimals), Int64(i.price.feed.timestamp) * SECOND, i);
    }

    /** Reconciliation while `tick` holds the list of triggered orders. */
    method ReconcileHolding(triggered: seq<Record>, sample: int, reconcile: nat -> Reconciliation)
      requires Valid() && P.Inv(View())
      modifies this, store
      ensures Valid() && P.Inv(View())
      ensures View() == Settlement.ReconcilePending(old(View()), old(pending).Keys, Some(sample), reconcile)
      ensures ValuesOf(triggered) == old(ValuesOf(triggered))
    {
      P.ReconcileKeeps(View(), Some(sample), reconcile);
      ReconcilePending(Some(sample), reconcile);
      ValuesStay(triggered);
    }

    /** A tick that has a fresh sample. */
    method Poll(sample: int, at: int, i: TickInput)
      requires Valid() && P.Inv(View())
      modifies this, store
      ensures Valid()
      ensures var observed := Observe(old(store.book), Some(sample), at);
        var raised := old(View()).(book := Raised(observed, Some(sample)));
        var reconciled := Settlement.ReconcilePending(raised, raised.pending.Keys, Some(sample), i.reconcile);
        View() == Settlement.SettleAll(reconciled, Triggered(observed, Some(sample)), sample, i.submit)
    {
      var price := new BigInt(sample);
      var triggered := Sample(price, at);
      P.SameNoncesKeep(old(View()), View());
      ReconcileHolding(triggered, sample, i.reconcile);
      SettleAll(triggered, sample, i.submit);
    }
  }

  /** One turn of the loop over the triggered orders. */
  lemma SettleAllStep(w: State, values: seq<Order>, k: nat, price: int, submit: nat -> Submission)
    requires k < |values| && w.pending == map[] && forall o <- values :: o.trigger.Some?
    ensures Settlement.SettleAll(w, values[k..], price, submit)
         == Settlement.SettleAll(Settlement.SettleOne(w, values[k], price, submit(values[k].id)), values[k + 1..], price, submit)
  {
    assert values[k..][0] == values[k] && values[k..][1..] == values[k + 1..];
  }
}
