/** A tick on which exactly one order fires and its broadcast is lost: sent, with
    no receipt. The runs that show the limits of the protocol start with it. */
module SettlementScenes {
  import opened Numbers
  import opened OrderBook
  import opened Settlement
  import P = SettlementProofs
  import V = VaultSpec

  /** Every call works, but there is no receipt. */
  function LostAttempt(): Attempt {
    Attempt(true, Got(1), Got(1), Got(0), true, true, 0, _ => NotFound)
  }

  function LostSubmission(): Submission {
    Submission([], _ => LostAttempt(), [])
  }

  /** No call about a pending entry succeeds. */
  function NoReconciliation(): Reconciliation {
    Reconciliation([], _ => Failed, _ => Failed, 0, _ => Failed, Failed, Failed, false, false, false, 0)
  }

  function LostTick(feed: V.FeedData): TickInput {
    TickInput(Price(feed, 0), _ => NoReconciliation(), _ => LostSubmission())
  }

  function LostTx(nonce: uint64, order: nat, trigger: int): Tx {
    Tx(nonce, order, Low256(trigger), SETTLE_MAX_AGE_SEC, 1, 1)
  }

  function LostEntry(nonce: uint64, order: nat, trigger: int): Pending {
    Pending(LostTx(nonce, order, trigger), nonce, 1, trigger, 0, 0)
  }

  /** The state after the order's broadcast on `nonce` was lost. */
  function Lost(w: State, nonce: uint64, order: nat, trigger: int, price: int): State
    requires nonce < MAX_UINT64
  {
    w.(pending := map[order := LostEntry(nonce, order, trigger)], owners := map[nonce := order],
       nextNonce := nonce + 1, nonceReady := true, chainKnown := true,
       log := w.log + [Reserved(order, nonce), Sent(LostTx(nonce, order, trigger), Some(price), Some(trigger)),
                       Opened(order, LostEntry(nonce, order, trigger))])
  }

  lemma LostSend(w: State, o: Order, price: int)
    requires w.pending == map[] && w.owners == map[] && Candidate(w, 0) < MAX_UINT64
    requires o.trigger.Some? && EffectiveTrigger(w.book, o.id) == o.trigger
    ensures SettleOne(w, o, price, LostSubmission()) == Lost(w, Candidate(w, 0), o.id, o.trigger.value, price)
  {
    var known, n, trigger := w.(chainKnown := true), Candidate(w, 0), o.trigger.value;
    P.ReserveIdle(known, o.id, Got(0));
    var reserved := ReserveNonce(known, o.id, Got(0)).0;
    var (sent, outcome) := Broadcast(reserved, o.id, n, trigger, Some(price), o.trigger, LostAttempt());
    assert outcome == Unresolved(LostEntry(n, o.id, trigger));
    assert SettleOnce(w, o.id, trigger, Some(price), o.trigger, LostAttempt()) == (sent, outcome);
    assert sent.log + [Opened(o.id, LostEntry(n, o.id, trigger))] == Lost(w, n, o.id, trigger, price).log;
  }

  /** A single firing order is the whole report. */
  lemma OnlyHit(b: Book, price: int, id: nat)
    requires price > 0 && id in b.orders
    requires var raised := Raised(b, Some(price)).orders;
      raised[id].id == id && forall k <- raised :: Fires(raised[k], price) <==> k == id
    ensures Triggered(b, Some(price)) == [Revealed(Raised(b, Some(price)).orders[id])]
  {
    var raised := Raised(b, Some(price));
    var hit := Revealed(raised.orders[id]);
    assert FiringIds(raised, price) == {id} && [hit][0].id == id;
    ListingIs(RevealAll(raised), {id}, [hit]);
  }

  lemma LostTickOpens(w: State, feed: V.FeedData, price: int, id: nat)
    requires w.pending == map[] && w.owners == map[] && Candidate(w, 0) < MAX_UINT64
    requires FreshSample(Price(feed, 0)) == Some(price) && price > 0 && id in w.book.orders
    requires var raised := SampledBook(w.book, Price(feed, 0)).orders;
      raised[id].id == id && forall k <- raised :: Fires(raised[k], price) <==> k == id
    ensures var b := SampledBook(w.book, Price(feed, 0));
      && EffectiveTrigger(b, id).Some?
      && Tick(w, LostTick(feed)) == Lost(w.(book := b), Candidate(w, 0), id, EffectiveTrigger(b, id).value, price)
  {
    var i := LostTick(feed);
    var observed := ObservedBook(w.book, i.price);
    var sampled := w.(book := SampledBook(w.book, i.price));
    OnlyHit(observed, price, id);
    var hit := Revealed(sampled.book.orders[id]);
    assert Fires(sampled.book.orders[id], price);
    assert ReconcilePending(sampled, sampled.pending.Keys, Some(price), i.reconcile) == sampled;
    LostSend(sampled, hit, price);
    var v := SettleOne(sampled, hit, price, i.submit(id));
    assert [hit][0] == hit && [hit][1..] == [];
    assert SettleAll(v, [], price, i.submit) == v;
  }
}
