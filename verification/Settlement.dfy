/** The settlement watcher as functions on values: what one tick does for each
    sequence of RPC answers. The class in Watcher.dfy is proved against these
    functions and the lemmas of SettlementProofs are about them.

    A transaction is a value, so equal transactions are one transaction and a
    transaction stands for its own hash. An RPC client is a record of functions,
    one per call site, from the question asked to the answer given. */
module Settlement {
  import opened Numbers
  import opened OrderBook
  import V = VaultSpec

  const SETTLE_MAX_AGE_SEC: int := 300
  const SETTLE_ATTEMPTS: nat := 3
  const PENDING_DROP_CHECKS: nat := 3
  const PENDING_REPLACEMENT_AGE: int := 30 * SECOND

  // DarkStopVault's order statuses, as the watcher reads them.
  const STATUS_NONE: nat := V.STATUS_NONE
  const STATUS_OPEN: nat := V.STATUS_OPEN
  const STATUS_EXECUTED: nat := V.STATUS_EXECUTED
  const STATUS_CANCELLED: nat := V.STATUS_CANCELLED

  /** A signed call of `settle(order, trigger, maxAge)` by the executor. */
  datatype Tx = Tx(nonce: uint64, order: nat, trigger: nat, maxAge: nat, gasPrice: nat, gas: nat)

  datatype Pending = Pending(tx: Tx, nonce: uint64, gasPrice: nat, trigger: int, firstSeen: int, missing: nat)

  /** An RPC answer: an error, go-ethereum's NotFound error, or a value. */
  datatype Answer<+T> = Failed | NotFound | Got(value: T)

  /** A PLACE_ORDER or CANCEL_ORDER instruction that reaches the store. */
  datatype Instruction = Place(id: nat, trigger: Option<int>, trailBps: nat, at: int) | Cancel(id: nat)

  /** One price read: the feed's answer and the clock, in nanoseconds. */
  datatype PriceAnswer = NoPrice | Price(feed: V.FeedData, now: int)

  /** The answers to one pending entry's reconciliation. `handled` is what other
      goroutines did to the store before the entry's store access. */
  datatype Reconciliation = Reconciliation(
    handled: seq<Instruction>,
    receipt: Tx -> Answer<bool>,
    lookup: Tx -> Answer<bool>,
    checkedAt: int,
    status: nat -> Answer<nat>,
    gasPrice: Answer<nat>,
    gas: Answer<nat>,
    chainId: bool,
    signed: bool,
    sent: bool,
    sentAt: int)

  /** The answers to one settle attempt. */
  datatype Attempt = Attempt(
    chainId: bool,
    gasPrice: Answer<nat>,
    gas: Answer<nat>,
    nonce: Answer<uint64>,
    signed: bool,
    sent: bool,
    sentAt: int,
    receipt: Tx -> Answer<bool>)

  /** The answers to one triggered order's settlement, with the instructions
      handled before its status check and before it is marked. */
  datatype Submission = Submission(
    beforeGet: seq<Instruction>,
    attempt: nat -> Attempt,
    beforeMark: seq<Instruction>)

  /** Everything the outside says to one tick. */
  datatype TickInput = TickInput(
    price: PriceAnswer,
    reconcile: nat -> Reconciliation,
    submit: nat -> Submission)

  /** What a run did, in order. `sample` and `effective` are the tick's sample
      and the order's effective trigger at the watcher's last look at the store. */
  datatype Event =
    | Reserved(order: nat, nonce: uint64)
    | Released(order: nat, nonce: uint64, consumed: bool)
    | Sent(tx: Tx, sample: Option<int>, effective: Option<int>)
    | Opened(order: nat, entry: Pending)
    | Replaced(order: nat, entry: Pending)
    | Cleared(order: nat)

  datatype State = State(
    book: Book,
    pending: map<nat, Pending>,
    owners: map<uint64, nat>,
    nextNonce: uint64,
    nonceReady: bool,
    chainKnown: bool,
    log: seq<Event>)

  const Initial := State(Empty, map[], map[], 0, false, false, [])

  function Emit(w: State, e: Event): State {
    w.(log := w.log + [e])
  }

  // ----- instructions

  /** `processPlaceOrder` and `processCancelOrder` as far as the store goes. */
  function Handle(b: Book, i: Instruction): Book {
    match i
    case Place(id, trigger, bps, at) => Put(b, Order(id, trigger, bps, None, Open), at)
    case Cancel(id) => Delete(b, id)
  }

  function HandleAll(b: Book, list: seq<Instruction>): Book
    decreases |list|
  {
    if list == [] then b else HandleAll(Handle(b, list[0]), list[1..])
  }

  function Instructed(w: State, list: seq<Instruction>): State {
    w.(book := HandleAll(w.book, list))
  }

  // ----- nonces

  /** A nonce that the order already owns, if any. */
  ghost function OwnedNonce(owners: map<uint64, nat>, order: nat): Option<uint64> {
    if exists n :: n in owners && owners[n] == order then (var n :| n in owners && owners[n] == order; Some(n)) else None
  }

  /** The first unowned nonce from `candidate` on, or none below the last uint64. */
  function FirstFree(owners: map<uint64, nat>, candidate: uint64): (n: Option<uint64>)
    ensures n.Some? ==> candidate <= n.value < MAX_UINT64 && n.value !in owners
    ensures n.None? ==> forall k :: candidate <= k < MAX_UINT64 ==> k in owners
    decreases MAX_UINT64 - candidate
  {
    if candidate == MAX_UINT64 then None
    else if candidate !in owners then Some(candidate)
    else FirstFree(owners, candidate + 1)
  }

  function Candidate(w: State, remote: uint64): uint64 {
    if w.nonceReady && w.nextNonce > remote then w.nextNonce else remote
  }

  ghost function ReserveNonce(w: State, order: nat, remote: Answer<uint64>): (State, Option<uint64>) {
    var owned := OwnedNonce(w.owners, order);
    if owned.Some? then (Emit(w, Reserved(order, owned.value)), owned)
    else if !remote.Got? then (w, None)
    else
      var free := FirstFree(w.owners, Candidate(w, remote.value));
      if free.None? then (w, None)
      else
        var n := free.value;
        (Emit(w.(owners := w.owners[n := order], nextNonce := n + 1, nonceReady := true), Reserved(order, n)), Some(n))
  }

  function ReleaseNonce(w: State, order: nat, nonce: uint64, consumed: bool): State {
    if nonce !in w.owners || w.owners[nonce] != order then w
    else
      var freed := Emit(w.(owners := w.owners - {nonce}), Released(order, nonce, consumed));
      if !consumed && (!w.nonceReady || nonce < w.nextNonce)
      then freed.(nextNonce := nonce, nonceReady := true)
      else freed
  }

  ghost function ReleaseOrderNonce(w: State, order: nat, consumed: bool): State {
    var owned := OwnedNonce(w.owners, order);
    if owned.Some? then ReleaseNonce(w, order, owned.value, consumed) else w
  }

  // ----- first settlements

  datatype Outcome = Confirmed | Unresolved(entry: Pending) | AttemptFailed

  ghost function SettleOnce(w: State, order: nat, trigger: int, sample: Option<int>, effective: Option<int>, a: Attempt)
    : (State, Outcome)
  {
    if !w.chainKnown && !a.chainId then (w, AttemptFailed)
    else
      var known := w.(chainKnown := true);
      if !a.gasPrice.Got? || !a.gas.Got? then (known, AttemptFailed)
      else
        var (reserved, n) := ReserveNonce(known, order, a.nonce);
        if n.None? then (reserved, AttemptFailed)
        else if !a.signed then (ReleaseNonce(reserved, order, n.value, false), AttemptFailed)
        else Broadcast(reserved, order, n.value, trigger, sample, effective, a)
  }

  /** The second half of `settleOnce`: send, then look at the receipt once. */
  function Broadcast(w: State, order: nat, nonce: uint64, trigger: int, sample: Option<int>, effective: Option<int>, a: Attempt)
    : (State, Outcome)
    requires a.gasPrice.Got? && a.gas.Got?
  {
    var tx := Tx(nonce, order, Low256(trigger), SETTLE_MAX_AGE_SEC, a.gasPrice.value, a.gas.value);
    var entry := Pending(tx, nonce, a.gasPrice.value, trigger, a.sentAt, 0);
    var sent := Emit(w, Sent(tx, sample, effective));
    if !a.sent || !a.receipt(tx).Got? then (sent, Unresolved(entry))
    else
      var released := ReleaseNonce(sent, order, nonce, true);
      (released, if a.receipt(tx).value then Confirmed else AttemptFailed)
  }

  /** `settleWithRetry` from attempt `k` on: the new state and whether the
      settlement was confirmed. */
  ghost function SettleWithRetry(w: State, order: nat, trigger: int, sample: Option<int>, effective: Option<int>,
                                 attempts: nat -> Attempt, k: nat): (State, bool)
    decreases SETTLE_ATTEMPTS + 1 - k
  {
    if k > SETTLE_ATTEMPTS then (ReleaseOrderNonce(w, order, false), false)
    else
      var (tried, outcome) := SettleOnce(w, order, trigger, sample, effective, attempts(k));
      match outcome
      case Confirmed => (tried, true)
      case Unresolved(entry) =>
        (Emit(tried.(pending := tried.pending[order := entry]), Opened(order, entry)), false)
      case AttemptFailed => SettleWithRetry(tried, order, trigger, sample, effective, attempts, k + 1)
  }

  function Mark(w: State, order: nat): State {
    w.(book := MarkExecuted(w.book, order))
  }

  /** One triggered order of the loop of `tick`. */
  ghost function SettleOne(w: State, o: Order, price: int, s: Submission): State
    requires o.trigger.Some?
  {
    var now := Instructed(w, s.beforeGet);
    if !IsOpen(now.book, o.id) then now
    else
      var (tried, settled) :=
        SettleWithRetry(now, o.id, o.trigger.value, Some(price), EffectiveTrigger(now.book, o.id), s.attempt, 1);
      if settled then Mark(Instructed(tried, s.beforeMark), o.id) else tried
  }

  /** The loop of `tick`: one executor transaction at a time. */
  ghost function SettleAll(w: State, triggered: seq<Order>, price: int, submit: nat -> Submission): State
    requires forall o <- triggered :: o.trigger.Some?
    decreases |triggered|
  {
    if triggered == [] || w.pending != map[] then w
    else SettleAll(SettleOne(w, triggered[0], price, submit(triggered[0].id)), triggered[1..], price, submit)
  }

  // ----- reconciliation

  datatype TxState = Stuck | Dropped | MinedNoReceipt

  function Clear(w: State, order: nat): State {
    Emit(w.(pending := w.pending - {order}), Cleared(order))
  }

  /** Drop the pending entry and its nonce. */
  function Finish(w: State, order: nat, nonce: uint64, consumed: bool): State {
    ReleaseNonce(Clear(w, order), order, nonce, consumed)
  }

  function Bumped(gasPrice: nat, suggested: nat): nat {
    var bumped := gasPrice * 9 / 8 + 1;
    if suggested > bumped then suggested else bumped
  }

  function ReplacePending(w: State, order: nat, p: Pending, trigger: int, sample: Option<int>, r: Reconciliation): State {
    if p.nonce in w.owners && w.owners[p.nonce] != order then w
    else
      var owned := w.(owners := w.owners[p.nonce := order]);
      if !r.gasPrice.Got? || !r.gas.Got? || (!w.chainKnown && !r.chainId) then owned
      else
        var known := owned.(chainKnown := true);
        if !r.signed then known
        else Resend(known, order, p, trigger, sample, Bumped(p.gasPrice, r.gasPrice.value), r.gas.value, r)
  }

  /** The send of a replacement; only a send without an error is recorded. */
  function Resend(w: State, order: nat, p: Pending, trigger: int, sample: Option<int>, price: nat, gas: nat, r: Reconciliation)
    : State
  {
    var tx := Tx(p.nonce, order, Low256(trigger), SETTLE_MAX_AGE_SEC, price, gas);
    var sent := Emit(w, Sent(tx, sample, Some(trigger)));
    if !r.sent then sent
    else
      var entry := Pending(tx, p.nonce, price, trigger, r.sentAt, 0);
      Emit(sent.(pending := sent.pending[order := entry]), Replaced(order, entry))
  }

  function AgainstVault(w: State, order: nat, p: Pending, sample: Option<int>, tx: TxState, r: Reconciliation): State {
    var status := r.status(order);
    if !status.Got? then w
    else if status.value == STATUS_EXECUTED then Mark(Finish(w, order, p.nonce, tx == MinedNoReceipt), order)
    else if status.value == STATUS_OPEN then
      if tx == MinedNoReceipt then Finish(w, order, p.nonce, true)
      else
        var trigger := EffectiveTrigger(w.book, order);
        var active := sample.Some? && trigger.Some? && sample.value <= trigger.value;
        if active then ReplacePending(w, order, p, trigger.value, sample, r)
        else if tx == Dropped && sample.Some? then Finish(w, order, p.nonce, false)
        else w
    else if status.value == STATUS_NONE || status.value == STATUS_CANCELLED then
      var done := Finish(w, order, p.nonce, tx == MinedNoReceipt);
      done.(book := Delete(done.book, order))
    else w
  }

  function Unconfirmed(w: State, order: nat, p: Pending, sample: Option<int>, r: Reconciliation): State {
    match r.lookup(p.tx)
    case Got(true) =>
      var seen := p.(missing := 0);
      var kept := w.(pending := w.pending[order := seen]);
      if r.checkedAt - p.firstSeen < PENDING_REPLACEMENT_AGE then kept
      else AgainstVault(kept, order, seen, sample, Stuck, r)
    case Got(false) => AgainstVault(w, order, p, sample, MinedNoReceipt, r)
    case Failed => w
    case NotFound =>
      var missed := p.(missing := p.missing + 1);
      var kept := w.(pending := w.pending[order := missed]);
      if missed.missing < PENDING_DROP_CHECKS then kept
      else AgainstVault(kept, order, missed, sample, Dropped, r)
  }

  /** One entry of the loop of `reconcilePending`. */
  function ReconcileOne(w0: State, order: nat, sample: Option<int>, r: Reconciliation): State
    requires order in w0.pending
  {
    var w := Instructed(w0, r.handled);
    var p := w.pending[order];
    match r.receipt(p.tx)
    case NotFound => Unconfirmed(w, order, p, sample, r)
    case Failed => w
    case Got(success) =>
      var done := Finish(w, order, p.nonce, true);
      if success then Mark(done, order) else done
  }

  /** The loop of `reconcilePending` over the entries it starts with. */
  ghost function ReconcilePending(w: State, todo: set<nat>, sample: Option<int>, reconcile: nat -> Reconciliation): State
    decreases todo
  {
    if todo * w.pending.Keys == {} then w
    else
      var order :| order in todo * w.pending.Keys;
      ReconcilePending(ReconcileOne(w, order, sample, reconcile(order)), todo - {order}, sample, reconcile)
  }

  // ----- one tick

  /** `normalizePrice`: a feed value with int8 decimals, at six decimals. */
  function NormalizePrice(value: nat, decimals: int): int {
    var shift := 6 - decimals;
    if shift >= 0 then value * Pow(10, shift) else (PowPositive(10, -shift); value / Pow(10, -shift))
  }

  /** The age check of `tick`, in Go's int64 arithmetic. */
  function FeedAge(timestamp: nat, now: int): int {
    Int64(now / SECOND - Int64(timestamp))
  }

  /** The sample of a tick, when the price read succeeds and is fresh. */
  function FreshSample(a: PriceAnswer): Option<int> {
    if a.Price? && 0 <= FeedAge(a.feed.timestamp, a.now) <= SETTLE_MAX_AGE_SEC
    then Some(NormalizePrice(a.feed.value, a.feed.decimals))
    else None
  }

  /** The book right after the tick's own sampling. */
  function ObservedBook(b: Book, a: PriceAnswer): Book {
    if FreshSample(a).Some? then Observe(b, FreshSample(a), Int64(a.feed.timestamp) * SECOND) else b
  }

  function SampledBook(b: Book, a: PriceAnswer): Book {
    Raised(ObservedBook(b, a), FreshSample(a))
  }

  ghost function Tick(w: State, i: TickInput): State {
    var sample := FreshSample(i.price);
    var sampled := w.(book := SampledBook(w.book, i.price));
    var reconciled := ReconcilePending(sampled, sampled.pending.Keys, sample, i.reconcile);
    if sample.None? then reconciled
    else SettleAll(reconciled, Triggered(ObservedBook(w.book, i.price), sample), sample.value, i.submit)
  }
}
