/** Invariants of the watcher over every sequence of RPC answers: one pending
    settlement with exactly its nonce, increasing nonces, serial broadcasts on
    one nonce, and growing fees. */
module SettlementProofs {
  import opened Numbers
  import opened OrderBook
  import opened Settlement

  // ----- reading the log

  /** The broadcast whose outcome is unknown, as the log alone tells it: its
      order and nonce, its first and current gas price, and its replacements. */
  datatype Live = Live(order: nat, nonce: uint64, first: nat, gasPrice: nat, bumps: nat)

  function After(l: Option<Live>, e: Event): Option<Live> {
    match e
    case Opened(o, p) => Some(Live(o, p.nonce, p.gasPrice, p.gasPrice, 0))
    case Replaced(o, p) => if l.Some? then Some(l.value.(gasPrice := p.gasPrice, bumps := l.value.bumps + 1)) else None
    case Cleared(o) => None
    case _ => l
  }

  function LiveIn(log: seq<Event>): Option<Live> {
    if log == [] then None else After(LiveIn(log[..|log| - 1]), log[|log| - 1])
  }

  /** Every nonce that the log releases as consumed is below `n`. */
  ghost predicate ConsumedBelow(log: seq<Event>, n: nat) {
    forall e <- log :: e.Released? && e.consumed ==> e.nonce < n
  }

  ghost predicate Outbids(bid: nat, previous: nat) {
    8 * bid > 9 * previous
  }

  /** What an event may be after the given log. */
  ghost predicate EventOk(log: seq<Event>, e: Event) {
    var l := LiveIn(log);
    match e
    case Reserved(o, n) => l.None? && ConsumedBelow(log, n)
    case Sent(tx, _, _) =>
      l.Some? ==> tx.order == l.value.order && tx.nonce == l.value.nonce && Outbids(tx.gasPrice, l.value.gasPrice)
    case Opened(o, p) => l.None?
    case Replaced(o, p) =>
      l.Some? && o == l.value.order && p.nonce == l.value.nonce && Outbids(p.gasPrice, l.value.gasPrice)
    case Cleared(o) => l.Some? && o == l.value.order
    case Released(_, _, _) => true
  }

  ghost predicate LogOk(log: seq<Event>) {
    forall j :: 0 <= j < |log| ==> EventOk(log[..j], log[j])
  }

  lemma EmitOk(log: seq<Event>, e: Event)
    requires LogOk(log) && EventOk(log, e)
    ensures LogOk(log + [e]) && LiveIn(log + [e]) == After(LiveIn(log), e)
  {
    var longer := log + [e];
    assert longer[..|log|] == log;
    forall j | 0 <= j < |longer| ensures EventOk(longer[..j], longer[j]) {
      if j < |log| {
        assert longer[..j] == log[..j];
      }
    }
  }

  // ----- the invariant

  ghost predicate EntryOk(p: Pending, l: Live) {
    && p.nonce == l.nonce == p.tx.nonce
    && p.gasPrice == l.gasPrice == p.tx.gasPrice
    && p.tx.order == l.order
    && p.tx.trigger == Low256(p.trigger)
    && p.tx.maxAge == SETTLE_MAX_AGE_SEC
  }

  /** The parts of the invariant that hold at every moment of a tick. */
  ghost predicate Base(w: State) {
    && LogOk(w.log)
    && (!w.nonceReady ==> w.nextNonce == 0)
    && (forall n <- w.owners :: n < w.nextNonce && ConsumedBelow(w.log, n))
    && ConsumedBelow(w.log, w.nextNonce)
  }

  /** Nothing is pending and no nonce is reserved. */
  ghost predicate Idle(w: State) {
    Base(w) && LiveIn(w.log).None? && w.pending == map[] && w.owners == map[]
  }

  /** One nonce is reserved for an order, and nothing is pending yet. */
  ghost predicate Holding(w: State, order: nat, nonce: uint64) {
    Base(w) && LiveIn(w.log).None? && w.pending == map[] && w.owners == map[nonce := order]
  }

  /** One broadcast is pending under exactly its own nonce. */
  ghost predicate Waiting(w: State) {
    && Base(w)
    && LiveIn(w.log).Some?
    && var l := LiveIn(w.log).value;
    && w.pending.Keys == {l.order}
    && w.owners == map[l.nonce := l.order]
    && EntryOk(w.pending[l.order], l)
  }

  /** What holds between ticks. */
  ghost predicate Inv(w: State) {
    Idle(w) || Waiting(w)
  }

  /** The two states differ at most in the order book and the chain id. */
  ghost predicate SameNonces(w: State, v: State) {
    w.pending == v.pending && w.owners == v.owners && w.nextNonce == v.nextNonce && w.nonceReady == v.nonceReady && w.log == v.log
  }

  lemma SameNoncesKeep(w: State, v: State)
    requires SameNonces(w, v)
    ensures Idle(w) ==> Idle(v)
    ensures Waiting(w) ==> Waiting(v)
    ensures forall o, n :: Holding(w, o, n) ==> Holding(v, o, n)
  {
  }

  // ----- nonces

  /** With no nonce owned the first candidate is free. */
  lemma ReserveIdle(w: State, order: nat, remote: Answer<uint64>)
    requires w.owners == map[]
    ensures var n := if remote.Got? then Max(if w.nonceReady then w.nextNonce else 0, remote.value) else MAX_UINT64;
      ReserveNonce(w, order, remote) == if n == MAX_UINT64 then (w, None) else
        (Emit(w.(owners := map[n := order], nextNonce := n + 1, nonceReady := true), Reserved(order, n)), Some(n))
  {
    assert OwnedNonce(w.owners, order).None?;
    if remote.Got? {
      assert Candidate(w, remote.value) !in w.owners;
    }
  }

  lemma ReserveKeeps(w: State, order: nat, remote: Answer<uint64>)
    requires Idle(w)
    ensures var (v, n) := ReserveNonce(w, order, remote);
      (n.None? ==> v == w) && (n.Some? ==> Holding(v, order, n.value))
  {
    ReserveIdle(w, order, remote);
    var n := ReserveNonce(w, order, remote).1;
    if n.Some? {
      HoldKeeps(w, order, n.value);
    }
  }

  /** Handing out a nonce at or above the floor. */
  lemma HoldKeeps(w: State, order: nat, n: uint64)
    requires Idle(w) && n < MAX_UINT64 && w.nextNonce <= n
    ensures Holding(Emit(w.(owners := map[n := order], nextNonce := n + 1, nonceReady := true), Reserved(order, n)), order, n)
  {
    var held := w.(owners := map[n := order], nextNonce := n + 1, nonceReady := true);
    ConsumedMonotone(w.log, w.nextNonce, n);
    ConsumedMonotone(w.log, n, n + 1);
    EmitKeepsBase(held, Reserved(order, n));
  }

  lemma ConsumedMonotone(log: seq<Event>, m: nat, n: nat)
    requires ConsumedBelow(log, m) && m <= n
    ensures ConsumedBelow(log, n)
  {
  }

  lemma ReleaseKeeps(w: State, order: nat, nonce: uint64, consumed: bool)
    requires Holding(w, order, nonce)
    ensures Idle(ReleaseNonce(w, order, nonce, consumed))
  {
    EmitOk(w.log, Released(order, nonce, consumed));
    assert w.owners - {nonce} == map[];
  }

  // ----- first settlements

  lemma SendKeeps(w: State, order: nat, nonce: uint64, tx: Tx, sample: Option<int>, effective: Option<int>)
    requires Holding(w, order, nonce)
    ensures Holding(Emit(w, Sent(tx, sample, effective)), order, nonce)
  {
    EmitOk(w.log, Sent(tx, sample, effective));
  }

  lemma BroadcastKeeps(w: State, order: nat, nonce: uint64, trigger: int, sample: Option<int>, effective: Option<int>, a: Attempt)
    requires Holding(w, order, nonce) && a.gasPrice.Got? && a.gas.Got?
    ensures var (v, outcome) := Broadcast(w, order, nonce, trigger, sample, effective, a);
      if outcome.Unresolved?
      then Holding(v, order, nonce) && EntryOk(outcome.entry, Live(order, nonce, a.gasPrice.value, a.gasPrice.value, 0))
      else Idle(v)
  {
    var tx := Tx(nonce, order, Low256(trigger), SETTLE_MAX_AGE_SEC, a.gasPrice.value, a.gas.value);
    SendKeeps(w, order, nonce, tx, sample, effective);
    ReleaseKeeps(Emit(w, Sent(tx, sample, effective)), order, nonce, true);
  }

  lemma SettleOnceKeeps(w: State, order: nat, trigger: int, sample: Option<int>, effective: Option<int>, a: Attempt)
    requires Idle(w)
    ensures var (v, outcome) := SettleOnce(w, order, trigger, sample, effective, a);
      if outcome.Unresolved?
      then Holding(v, order, outcome.entry.nonce)
        && EntryOk(outcome.entry, Live(order, outcome.entry.nonce, outcome.entry.gasPrice, outcome.entry.gasPrice, 0))
      else Idle(v)
  {
    var known := w.(chainKnown := true);
    ReserveKeeps(known, order, a.nonce);
    var (reserved, n) := ReserveNonce(known, order, a.nonce);
    if n.Some? {
      ReleaseKeeps(reserved, order, n.value, false);
      if a.gasPrice.Got? && a.gas.Got? {
        BroadcastKeeps(reserved, order, n.value, trigger, sample, effective, a);
      }
    }
  }

  lemma EmitKeepsBase(w: State, e: Event)
    requires Base(w) && EventOk(w.log, e) && !e.Released?
    ensures Base(Emit(w, e)) && LiveIn(Emit(w, e).log) == After(LiveIn(w.log), e)
  {
    EmitOk(w.log, e);
    assert forall n :: ConsumedBelow(w.log, n) ==> ConsumedBelow(w.log + [e], n);
  }

  lemma OpenKeeps(w: State, order: nat, p: Pending)
    requires Holding(w, order, p.nonce) && EntryOk(p, Live(order, p.nonce, p.gasPrice, p.gasPrice, 0))
    ensures Waiting(Emit(w.(pending := w.pending[order := p]), Opened(order, p)))
  {
    EmitKeepsBase(w.(pending := w.pending[order := p]), Opened(order, p));
  }

  lemma {:induction false} RetryKeeps(w: State, order: nat, trigger: int, sample: Option<int>, effective: Option<int>,
                                      attempts: nat -> Attempt, k: nat)
    requires Idle(w)
    ensures Inv(SettleWithRetry(w, order, trigger, sample, effective, attempts, k).0)
    decreases SETTLE_ATTEMPTS + 1 - k
  {
    if k <= SETTLE_ATTEMPTS {
      SettleOnceKeeps(w, order, trigger, sample, effective, attempts(k));
      var (tried, outcome) := SettleOnce(w, order, trigger, sample, effective, attempts(k));
      match outcome
      case Confirmed =>
      case Unresolved(entry) => OpenKeeps(tried, order, entry);
      case AttemptFailed => RetryKeeps(tried, order, trigger, sample, effective, attempts, k + 1);
    }
  }

  lemma SettleOneKeeps(w: State, o: Order, price: int, s: Submission)
    requires Idle(w) && o.trigger.Some?
    ensures Inv(SettleOne(w, o, price, s))
  {
    var now := Instructed(w, s.beforeGet);
    SameNoncesKeep(w, now);
    RetryKeeps(now, o.id, o.trigger.value, Some(price), EffectiveTrigger(now.book, o.id), s.attempt, 1);
    var (tried, settled) :=
      SettleWithRetry(now, o.id, o.trigger.value, Some(price), EffectiveTrigger(now.book, o.id), s.attempt, 1);
    SameNoncesKeep(tried, Mark(Instructed(tried, s.beforeMark), o.id));
  }

  lemma {:induction false} SettleAllKeeps(w: State, triggered: seq<Order>, price: int, submit: nat -> Submission)
    requires Inv(w) && forall o <- triggered :: o.trigger.Some?
    ensures Inv(SettleAll(w, triggered, price, submit))
    decreases |triggered|
  {
    if triggered != [] && w.pending == map[] {
      SettleOneKeeps(w, triggered[0], price, submit(triggered[0].id));
      SettleAllKeeps(SettleOne(w, triggered[0], price, submit(triggered[0].id)), triggered[1..], price, submit);
    }
  }

  // ----- reconciliation

  lemma FinishKeeps(w: State, order: nat, nonce: uint64, consumed: bool)
    requires Waiting(w) && order in w.pending && nonce == w.pending[order].nonce
    ensures Idle(Finish(w, order, nonce, consumed))
  {
    EmitOk(w.log, Cleared(order));
    var cleared := Clear(w, order);
    assert w.pending - {order} == map[];
    ReleaseKeeps(cleared, order, nonce, consumed);
  }

  /** An entry rewritten with only its bookkeeping changed. */
  lemma RewriteKeeps(w: State, order: nat, p: Pending)
    requires Waiting(w) && order in w.pending
    requires p.(firstSeen := 0, missing := 0) == w.pending[order].(firstSeen := 0, missing := 0)
    ensures Waiting(w.(pending := w.pending[order := p]))
  {
  }

  lemma BumpOutbids(gasPrice: nat, suggested: nat)
    ensures Outbids(Bumped(gasPrice, suggested), gasPrice) && Bumped(gasPrice, suggested) >= gasPrice + 1
  {
  }

  /** A replacement that was sent, with its outcome recorded or not. */
  lemma ResendKeeps(w: State, order: nat, e: Pending, sample: Option<int>)
    requires Waiting(w) && order in w.pending && e.nonce == w.pending[order].nonce
    requires Outbids(e.gasPrice, w.pending[order].gasPrice)
    requires EntryOk(e, Live(order, e.nonce, e.gasPrice, e.gasPrice, 0))
    ensures var sent := Emit(w, Sent(e.tx, sample, Some(e.trigger)));
      Waiting(sent) && Waiting(Emit(sent.(pending := sent.pending[order := e]), Replaced(order, e)))
  {
    var sent := Emit(w, Sent(e.tx, sample, Some(e.trigger)));
    EmitKeepsBase(w, Sent(e.tx, sample, Some(e.trigger)));
    RecordKeeps(sent, order, e);
  }

  lemma RecordKeeps(w: State, order: nat, e: Pending)
    requires Waiting(w) && order in w.pending && e.nonce == w.pending[order].nonce
    requires Outbids(e.gasPrice, w.pending[order].gasPrice)
    requires EntryOk(e, Live(order, e.nonce, e.gasPrice, e.gasPrice, 0))
    ensures Waiting(Emit(w.(pending := w.pending[order := e]), Replaced(order, e)))
  {
    EmitKeepsBase(w.(pending := w.pending[order := e]), Replaced(order, e));
  }

  lemma ReplaceKeeps(w: State, order: nat, p: Pending, trigger: int, sample: Option<int>, r: Reconciliation)
    requires Waiting(w) && order in w.pending && p == w.pending[order]
    ensures Waiting(ReplacePending(w, order, p, trigger, sample, r))
  {
    assert w.owners[p.nonce := order] == w.owners;
    var known := w.(chainKnown := true);
    SameNoncesKeep(w, known);
    if r.gasPrice.Got? && r.gas.Got? {
      var price := Bumped(p.gasPrice, r.gasPrice.value);
      BumpOutbids(p.gasPrice, r.gasPrice.value);
      var tx := Tx(p.nonce, order, Low256(trigger), SETTLE_MAX_AGE_SEC, price, r.gas.value);
      ResendKeeps(known, order, Pending(tx, p.nonce, price, trigger, r.sentAt, 0), sample);
    }
  }

  /** The three ways an entry ends. */
  lemma EndKeeps(w: State, order: nat, nonce: uint64, consumed: bool)
    requires Waiting(w) && order in w.pending && nonce == w.pending[order].nonce
    ensures var done := Finish(w, order, nonce, consumed);
      Idle(done) && Idle(Mark(done, order)) && Idle(done.(book := Delete(done.book, order)))
  {
    FinishKeeps(w, order, nonce, consumed);
    var done := Finish(w, order, nonce, consumed);
    SameNoncesKeep(done, Mark(done, order));
    SameNoncesKeep(done, done.(book := Delete(done.book, order)));
  }

  /** All that the vault's status can lead to. */
  lemma VaultCases(w: State, order: nat, p: Pending, sample: Option<int>, tx: TxState, r: Reconciliation)
    ensures var v := AgainstVault(w, order, p, sample, tx, r);
      var done := Finish(w, order, p.nonce, tx == MinedNoReceipt);
      var trigger := EffectiveTrigger(w.book, order);
      || v in {w, done, Mark(done, order), done.(book := Delete(done.book, order))}
      || (trigger.Some? && v == ReplacePending(w, order, p, trigger.value, sample, r))
  {
  }

  lemma VaultKeeps(w: State, order: nat, p: Pending, sample: Option<int>, tx: TxState, r: Reconciliation)
    requires Waiting(w) && order in w.pending && p == w.pending[order]
    ensures Inv(AgainstVault(w, order, p, sample, tx, r))
  {
    VaultCases(w, order, p, sample, tx, r);
    EndKeeps(w, order, p.nonce, tx == MinedNoReceipt);
    var trigger := EffectiveTrigger(w.book, order);
    if trigger.Some? {
      ReplaceKeeps(w, order, p, trigger.value, sample, r);
    }
  }

  lemma UnconfirmedKeeps(w: State, order: nat, p: Pending, sample: Option<int>, r: Reconciliation)
    requires Waiting(w) && order in w.pending && p == w.pending[order]
    ensures Inv(Unconfirmed(w, order, p, sample, r))
  {
    match r.lookup(p.tx)
    case Got(true) =>
      var seen := p.(missing := 0);
      RewriteKeeps(w, order, seen);
      VaultKeeps(w.(pending := w.pending[order := seen]), order, seen, sample, Stuck, r);
    case Got(false) => VaultKeeps(w, order, p, sample, MinedNoReceipt, r);
    case Failed =>
    case NotFound =>
      var missed := p.(missing := p.missing + 1);
      RewriteKeeps(w, order, missed);
      VaultKeeps(w.(pending := w.pending[order := missed]), order, missed, sample, Dropped, r);
  }

  lemma ReconcileOneKeeps(w: State, order: nat, sample: Option<int>, r: Reconciliation)
    requires Waiting(w) && order in w.pending
    ensures Inv(ReconcileOne(w, order, sample, r))
  {
    var now := Instructed(w, r.handled);
    SameNoncesKeep(w, now);
    var p := now.pending[order];
    match r.receipt(p.tx)
    case NotFound => UnconfirmedKeeps(now, order, p, sample, r);
    case Failed =>
    case Got(success) =>
      FinishKeeps(now, order, p.nonce, true);
      SameNoncesKeep(Finish(now, order, p.nonce, true), Mark(Finish(now, order, p.nonce, true), order));
  }

  /** The end of an entry, in full. */
  lemma FinishExactly(w: State, order: nat, consumed: bool)
    requires Waiting(w) && order in w.pending
    ensures var n := w.pending[order].nonce;
      Finish(w, order, n, consumed) == w.(
        pending := map[], owners := map[],
        nextNonce := if consumed then w.nextNonce else n,
        log := w.log + [Cleared(order), Released(order, n, consumed)])
  {
    assert w.pending - {order} == map[];
    assert w.owners - {w.pending[order].nonce} == map[];
  }

  /** The order is marked executed, if it was open, and nothing else changes. */
  ghost predicate Marked(b: Book, c: Book, order: nat) {
    if order in b.orders && b.orders[order].status == Open
    then c == b.(orders := b.orders[order := b.orders[order].(status := Executed)])
    else c == b
  }

  /** A receipt ends its entry for good: the nonce is recorded as consumed and is
      not handed out again; a good receipt marks the order executed, and a failed
      one leaves it as it is. */
  lemma ReceiptEndsEntry(w: State, order: nat, sample: Option<int>, r: Reconciliation)
    requires Waiting(w) && order in w.pending && r.receipt(w.pending[order].tx).Got?
    ensures var v := ReconcileOne(w, order, sample, r);
      var n, b := w.pending[order].nonce, HandleAll(w.book, r.handled);
      && Idle(v) && v.nextNonce == w.nextNonce > n
      && EndsEntry(w.log, v.log, order, n, true)
      && (if r.receipt(w.pending[order].tx).value then Marked(b, v.book, order) else v.book == b)
  {
    var now := Instructed(w, r.handled);
    SameNoncesKeep(w, now);
    ReconcileOneKeeps(w, order, sample, r);
    FinishExactly(now, order, true);
  }

  /** What each vault status does to the order: EXECUTED marks it, OPEN leaves it,
      NONE and CANCELLED remove it. */
  ghost predicate StatusApplied(status: nat, b: Book, c: Book, order: nat) {
    match status
    case 2 => Marked(b, c, order)
    case 1 => c == b
    case _ => c == b.(orders := b.orders - {order})
  }

  lemma MinedAtVault(w: State, order: nat, p: Pending, sample: Option<int>, r: Reconciliation)
    requires r.status(order).Got? && r.status(order).value <= 3
    ensures var v := AgainstVault(w, order, p, sample, MinedNoReceipt, r);
      && v.(book := w.book) == Finish(w, order, p.nonce, true)
      && StatusApplied(r.status(order).value, w.book, v.book, order)
  {
  }

  /** A broadcast the node calls mined, without a receipt, ends its entry as soon
      as the vault's status can be read: always as consumed, with the order left to
      that status. */
  lemma MinedEndsEntry(w: State, order: nat, sample: Option<int>, r: Reconciliation)
    requires Waiting(w) && order in w.pending && r.status(order).Got? && r.status(order).value <= 3
    requires r.receipt(w.pending[order].tx).NotFound? && r.lookup(w.pending[order].tx) == Got(false)
    ensures var v := ReconcileOne(w, order, sample, r);
      && Idle(v) && v.nextNonce == w.nextNonce
      && EndsEntry(w.log, v.log, order, w.pending[order].nonce, true)
      && StatusApplied(r.status(order).value, HandleAll(w.book, r.handled), v.book, order)
  {
    var now := Instructed(w, r.handled);
    var p := now.pending[order];
    SameNoncesKeep(w, now);
    FinishExactly(now, order, true);
    FinishKeeps(now, order, p.nonce, true);
    MinedAtVault(now, order, p, sample, r);
    SameNoncesKeep(Finish(now, order, p.nonce, true), AgainstVault(now, order, p, sample, MinedNoReceipt, r));
  }

  /** Does the lookup of a broadcast without a receipt lead on to the vault's
      status: mined, pending for too long, or missed once too often? */
  predicate AsksVault(p: Pending, r: Reconciliation) {
    match r.lookup(p.tx)
    case Got(pending) => !pending || r.checkedAt - p.firstSeen >= 30_000_000_000
    case NotFound => p.missing + 1 >= 3
    case Failed => false
  }

  /** Is the order still open in the enclave and its trigger still crossed? */
  predicate StillCrossed(b: Book, order: nat, sample: Option<int>) {
    var trigger := EffectiveTrigger(b, order);
    sample.Some? && trigger.Some? && sample.value <= trigger.value
  }

  /** The answers that release a pending nonce as unconsumed: no receipt, not known
      to be mined, and a status other than OPEN - or OPEN, for a dropped broadcast
      whose fresh sample is above the trigger. */
  predicate ReleasesUnconsumed(b: Book, order: nat, p: Pending, sample: Option<int>, r: Reconciliation) {
    && r.receipt(p.tx).NotFound? && AsksVault(p, r) && r.lookup(p.tx) != Got(false)
    && r.status(order).Got? && r.status(order).value <= STATUS_CANCELLED
    && (r.status(order).value == STATUS_OPEN ==>
          r.lookup(p.tx).NotFound? && sample.Some? && !StillCrossed(b, order, sample))
  }

  /** The entry is cleared and its nonce released, and nothing else is logged. */
  predicate EndsEntry(before: seq<Event>, after: seq<Event>, order: nat, nonce: uint64, consumed: bool) {
    after == before + [Cleared(order), Released(order, nonce, consumed)]
  }

  lemma EndsOneWay(before: seq<Event>, after: seq<Event>, order: nat, nonce: uint64)
    ensures EndsEntry(before, after, order, nonce, true) ==> !EndsEntry(before, after, order, nonce, false)
    ensures after == before ==> !EndsEntry(before, after, order, nonce, false)
  {
    assert EndsEntry(before, after, order, nonce, true) ==> after[|before| + 1] == Released(order, nonce, true);
    assert EndsEntry(before, after, order, nonce, false) ==> after[|before| + 1] == Released(order, nonce, false);
  }

  /** A replacement clears nothing. */
  lemma ReplaceEndsNothing(w: State, order: nat, p: Pending, trigger: int, sample: Option<int>, r: Reconciliation)
    ensures !EndsEntry(w.log, ReplacePending(w, order, p, trigger, sample, r).log, order, p.nonce, false)
  {
    var v := ReplacePending(w, order, p, trigger, sample, r);
    assert |v.log| > |w.log| ==> v.log[|w.log|].Sent?;
  }

  /** How the vault's status ends an entry whose broadcast is not known to be mined. */
  lemma UnminedAtVault(w: State, order: nat, p: Pending, sample: Option<int>, tx: TxState, r: Reconciliation)
    requires Waiting(w) && order in w.pending && p == w.pending[order] && tx != MinedNoReceipt
    ensures var status := r.status(order);
      EndsEntry(w.log, AgainstVault(w, order, p, sample, tx, r).log, order, p.nonce, false) <==> (
        && status.Got? && status.value <= STATUS_CANCELLED
        && (status.value == STATUS_OPEN ==> tx == Dropped && sample.Some? && !StillCrossed(w.book, order, sample)))
  {
    FinishExactly(w, order, false);
    EndsOneWay(w.log, w.log, order, p.nonce);
    if r.status(order) == Got(STATUS_OPEN) && StillCrossed(w.book, order, sample) {
      ReplaceEndsNothing(w, order, p, EffectiveTrigger(w.book, order).value, sample, r);
    }
  }

  lemma MinedNotUnconsumed(w: State, order: nat, p: Pending, sample: Option<int>, r: Reconciliation)
    requires Waiting(w) && order in w.pending && p == w.pending[order]
    ensures !EndsEntry(w.log, AgainstVault(w, order, p, sample, MinedNoReceipt, r).log, order, p.nonce, false)
  {
    EndsOneWay(w.log, w.log, order, p.nonce);
    FinishExactly(w, order, true);
    EndsOneWay(w.log, Finish(w, order, p.nonce, true).log, order, p.nonce);
    if r.status(order).Got? && r.status(order).value <= STATUS_CANCELLED {
      MinedAtVault(w, order, p, sample, r);
    }
  }

  lemma StuckUnconsumed(w: State, order: nat, p: Pending, sample: Option<int>, r: Reconciliation)
    requires Waiting(w) && order in w.pending && p == w.pending[order] && r.lookup(p.tx) == Got(true)
    requires r.receipt(p.tx).NotFound?
    ensures EndsEntry(w.log, Unconfirmed(w, order, p, sample, r).log, order, p.nonce, false)
      <==> ReleasesUnconsumed(w.book, order, p, sample, r)
  {
    var seen := p.(missing := 0);
    EndsOneWay(w.log, w.log, order, p.nonce);
    RewriteKeeps(w, order, seen);
    UnminedAtVault(w.(pending := w.pending[order := seen]), order, seen, sample, Stuck, r);
  }

  lemma MissedUnconsumed(w: State, order: nat, p: Pending, sample: Option<int>, r: Reconciliation)
    requires Waiting(w) && order in w.pending && p == w.pending[order] && r.lookup(p.tx).NotFound?
    requires r.receipt(p.tx).NotFound?
    ensures EndsEntry(w.log, Unconfirmed(w, order, p, sample, r).log, order, p.nonce, false)
      <==> ReleasesUnconsumed(w.book, order, p, sample, r)
  {
    var missed := p.(missing := p.missing + 1);
    EndsOneWay(w.log, w.log, order, p.nonce);
    RewriteKeeps(w, order, missed);
    UnminedAtVault(w.(pending := w.pending[order := missed]), order, missed, sample, Dropped, r);
  }

  lemma UnconfirmedUnconsumed(w: State, order: nat, p: Pending, sample: Option<int>, r: Reconciliation)
    requires Waiting(w) && order in w.pending && p == w.pending[order] && r.receipt(p.tx).NotFound?
    ensures EndsEntry(w.log, Unconfirmed(w, order, p, sample, r).log, order, p.nonce, false)
      <==> ReleasesUnconsumed(w.book, order, p, sample, r)
  {
    match r.lookup(p.tx)
    case Got(true) => StuckUnconsumed(w, order, p, sample, r);
    case Got(false) => MinedNotUnconsumed(w, order, p, sample, r);
    case Failed => EndsOneWay(w.log, w.log, order, p.nonce);
    case NotFound => MissedUnconsumed(w, order, p, sample, r);
  }

  /** A pending nonce is released as unconsumed - and may then be handed out again,
      mined or not - on exactly these answers. */
  lemma UnconsumedIff(w: State, order: nat, sample: Option<int>, r: Reconciliation)
    requires Waiting(w) && order in w.pending
    ensures EndsEntry(w.log, ReconcileOne(w, order, sample, r).log, order, w.pending[order].nonce, false)
      <==> ReleasesUnconsumed(HandleAll(w.book, r.handled), order, w.pending[order], sample, r)
  {
    var now := Instructed(w, r.handled);
    var p := now.pending[order];
    SameNoncesKeep(w, now);
    EndsOneWay(w.log, w.log, order, p.nonce);
    match r.receipt(p.tx)
    case NotFound => UnconfirmedUnconsumed(now, order, p, sample, r);
    case Failed =>
    case Got(success) =>
      FinishExactly(now, order, true);
      EndsOneWay(w.log, Finish(now, order, p.nonce, true).log, order, p.nonce);
  }

  /** With at most one entry pending the loop has at most one turn. */
  lemma ReconcileIsOneTurn(w: State, sample: Option<int>, reconcile: nat -> Reconciliation)
    requires Inv(w)
    ensures w.pending == map[] ==> ReconcilePending(w, w.pending.Keys, sample, reconcile) == w
    ensures forall o <- w.pending ::
      ReconcilePending(w, w.pending.Keys, sample, reconcile) == ReconcileOne(w, o, sample, reconcile(o))
  {
    var todo := w.pending.Keys;
    assert todo * todo == todo;
    if Waiting(w) {
      var o := LiveIn(w.log).value.order;
      var turn := ReconcileOne(w, o, sample, reconcile(o));
      assert todo - {o} == {} && {} * turn.pending.Keys == {};
    }
  }

  lemma ReconcileKeeps(w: State, sample: Option<int>, reconcile: nat -> Reconciliation)
    requires Inv(w)
    ensures Inv(ReconcilePending(w, w.pending.Keys, sample, reconcile))
  {
    ReconcileIsOneTurn(w, sample, reconcile);
    if Waiting(w) {
      var o := LiveIn(w.log).value.order;
      ReconcileOneKeeps(w, o, sample, reconcile(o));
    }
  }

  // ----- ticks and runs

  lemma TickKeeps(w: State, i: TickInput)
    requires Inv(w)
    ensures Inv(Tick(w, i))
  {
    var sample := FreshSample(i.price);
    var sampled := w.(book := SampledBook(w.book, i.price));
    SameNoncesKeep(w, sampled);
    ReconcileKeeps(sampled, sample, i.reconcile);
    if sample.Some? {
      SettleAllKeeps(ReconcilePending(sampled, sampled.pending.Keys, sample, i.reconcile),
                     Triggered(ObservedBook(w.book, i.price), sample), sample.value, i.submit);
    }
  }

  /** The watcher's goroutine ticks; instructions arrive in between. */
  datatype Step = TickStep(input: TickInput) | InstructionStep(instruction: Instruction)

  ghost function Next(w: State, s: Step): State {
    match s
    case TickStep(i) => Tick(w, i)
    case InstructionStep(x) => Instructed(w, [x])
  }

  ghost function Run(w: State, steps: seq<Step>): State
    decreases |steps|
  {
    if steps == [] then w else Run(Next(w, steps[0]), steps[1..])
  }

  lemma {:induction false} InvAlways(w: State, steps: seq<Step>)
    requires Inv(w)
    ensures Inv(Run(w, steps))
    decreases |steps|
  {
    if steps != [] {
      match steps[0] {
        case TickStep(i) => TickKeeps(w, i);
        case InstructionStep(x) => SameNoncesKeep(w, Instructed(w, [x]));
      }
      InvAlways(Next(w, steps[0]), steps[1..]);
    }
  }

  // ----- the theorems about whole runs

  /** Between ticks at most one settlement is pending, and the owned nonces are
      exactly the pairs of its nonce and its order: no reservation leaks and no
      pending entry lacks its nonce. */
  lemma PendingOwnsItsNonce(steps: seq<Step>)
    ensures var w := Run(Initial, steps);
      && (forall a, b :: a in w.pending && b in w.pending ==> a == b)
      && w.owners.Items == (set o | o in w.pending :: (w.pending[o].nonce, o))
      && forall o <- w.pending :: w.pending[o].tx.order == o && w.pending[o].tx.nonce == w.pending[o].nonce
  {
    InvAlways(Initial, steps);
    var w := Run(Initial, steps);
    var pairs := set o | o in w.pending :: (w.pending[o].nonce, o);
    if Waiting(w) {
      var l := LiveIn(w.log).value;
      assert (l.nonce, l.order) in w.owners.Items;
      assert forall x <- w.owners.Items :: x == (l.nonce, l.order);
      assert l.order in w.pending && forall x <- pairs :: x == (l.nonce, l.order);
    } else {
      assert w.owners.Items == {} == pairs;
    }
  }

  /** Every nonce handed out is above every nonce already released as consumed. */
  lemma NoncesIncrease(steps: seq<Step>, i: nat, j: nat)
    requires var log := Run(Initial, steps).log;
      i < j < |log| && log[i].Released? && log[i].consumed && log[j].Reserved?
    ensures var log := Run(Initial, steps).log;
      log[i].nonce < log[j].nonce
  {
    InvAlways(Initial, steps);
    var log := Run(Initial, steps).log;
    assert EventOk(log[..j], log[j]);
    assert log[..j][i] == log[i];
  }

  /** Which nonce comes next after a pending entry ends: above the old one if it
      was released as consumed; the old one again if it was released as
      unconsumed and the node's own count has not moved past it. */
  lemma NextNonceAfter(w: State, order: nat, consumed: bool, next: nat, remote: uint64)
    requires Waiting(w) && order in w.pending && w.nextNonce < MAX_UINT64 && remote < MAX_UINT64
    ensures var n := w.pending[order].nonce;
      var chosen := ReserveNonce(Finish(w, order, n, consumed), next, Got(remote)).1;
      && chosen == Some(Max(if consumed then w.nextNonce else n, remote))
      && (chosen == Some(n) <==> !consumed && remote <= n)
  {
    var n := w.pending[order].nonce;
    FinishKeeps(w, order, n, consumed);
    FinishExactly(w, order, consumed);
    ReserveIdle(Finish(w, order, n, consumed), next, Got(remote));
  }

  ghost predicate Grown(l: Live) {
    && Pow(8, l.bumps) * l.gasPrice >= Pow(9, l.bumps) * l.first
    && l.gasPrice >= l.first + l.bumps
  }

  lemma GrowthArithmetic(b8: nat, b9: nat, bid: nat, previous: nat, first: nat)
    requires b8 * previous >= b9 * first && Outbids(bid, previous)
    ensures (8 * b8) * bid >= (9 * b9) * first
  {
    assert b8 * (8 * bid) >= b8 * (9 * previous);
    assert 9 * (b8 * previous) >= 9 * (b9 * first);
    assert b8 * (9 * previous) == 9 * (b8 * previous);
    assert (8 * b8) * bid == b8 * (8 * bid);
    assert (9 * b9) * first == 9 * (b9 * first);
  }

  lemma GrowthStep(l: Live, gasPrice: nat)
    requires Grown(l) && Outbids(gasPrice, l.gasPrice)
    ensures Grown(l.(gasPrice := gasPrice, bumps := l.bumps + 1))
  {
    GrowthArithmetic(Pow(8, l.bumps), Pow(9, l.bumps), gasPrice, l.gasPrice, l.first);
  }

  /** The replacements in `log[i..j]`. */
  function Replacements(log: seq<Event>, i: nat, j: nat): nat
    requires i <= j <= |log|
    decreases j
  {
    if i == j then 0 else Replacements(log, i, j - 1) + if log[j - 1].Replaced? then 1 else 0
  }

  ghost predicate NoneCleared(log: seq<Event>, i: nat, j: nat)
    requires j <= |log|
  {
    forall k :: i < k < j ==> !log[k].Cleared?
  }

  lemma LiveStep(log: seq<Event>, j: nat)
    requires LogOk(log) && 0 < j <= |log|
    ensures EventOk(log[..j - 1], log[j - 1])
    ensures LiveIn(log[..j]) == After(LiveIn(log[..j - 1]), log[j - 1])
  {
    assert log[..j][..j - 1] == log[..j - 1] && log[..j][j - 1] == log[j - 1];
  }

  /** While nothing is cleared, the entry opened at `i` stays the live one. */
  lemma {:induction false} OpenedStaysLive(log: seq<Event>, i: nat, j: nat)
    requires LogOk(log) && i < j <= |log| && log[i].Opened? && NoneCleared(log, i, j)
    ensures var l := LiveIn(log[..j]);
      && l.Some?
      && l.value.order == log[i].order && l.value.nonce == log[i].entry.nonce && l.value.first == log[i].entry.gasPrice
      && l.value.bumps == Replacements(log, i + 1, j)
      && Grown(l.value)
    decreases j
  {
    LiveStep(log, j);
    if i + 1 < j {
      OpenedStaysLive(log, i, j - 1);
      if log[j - 1].Replaced? {
        GrowthStep(LiveIn(log[..j - 1]).value, log[j - 1].entry.gasPrice);
      }
    }
  }

  /** From a broadcast with unknown outcome until its entry is cleared, every
      transaction sent carries that same order and that same nonce and outbids
      the last recorded price by more than an eighth. */
  lemma SendsStayOnTheOpenNonce(steps: seq<Step>, i: nat, j: nat)
    requires var log := Run(Initial, steps).log;
      i < j < |log| && log[i].Opened? && log[j].Sent? && NoneCleared(log, i, j)
    ensures var log := Run(Initial, steps).log;
      && LiveIn(log[..j]).Some?
      && log[j].tx.order == log[i].order
      && log[j].tx.nonce == log[i].entry.nonce
      && 8 * log[j].tx.gasPrice > 9 * LiveIn(log[..j]).value.gasPrice
  {
    InvAlways(Initial, steps);
    var log := Run(Initial, steps).log;
    OpenedStaysLive(log, i, j);
    assert EventOk(log[..j], log[j]);
  }

  /** After k replacements of one pending entry its gas price has grown by
      (9/8)^k and by k. */
  lemma FeesGrow(steps: seq<Step>, i: nat, j: nat)
    requires var log := Run(Initial, steps).log;
      i < j <= |log| && log[i].Opened? && NoneCleared(log, i, j)
    ensures LiveIn(Run(Initial, steps).log[..j]).Some?
    ensures var log := Run(Initial, steps).log;
      var k, first, now := Replacements(log, i + 1, j), log[i].entry.gasPrice, LiveIn(log[..j]).value.gasPrice;
      && Pow(8, k) * now >= Pow(9, k) * first
      && now >= first + k
      && (j == |log| ==> forall o <- Run(Initial, steps).pending :: Run(Initial, steps).pending[o].gasPrice == now)
  {
    InvAlways(Initial, steps);
    var log := Run(Initial, steps).log;
    OpenedStaysLive(log, i, j);
    assert log[..|log|] == log;
  }
}
