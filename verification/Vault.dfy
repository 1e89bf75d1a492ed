/** DarkStopVault as functions on values. An external call is a tree: at each
    point where the vault calls out, the callee may call the vault again, any
    number of times and to any depth, before it returns or reverts. A call that
    reverts leaves the state it found. */
module VaultSpec {
  import opened Numbers
  import opened PayoutToken

  const STATUS_NONE: nat := 0
  const STATUS_OPEN: nat := 1
  const STATUS_EXECUTED: nat := 2
  const STATUS_CANCELLED: nat := 3

  const MAX_PRICE_AGE_SEC: nat := 300
  const ONE_NATIVE: nat := 1_000_000_000_000_000_000

  /** The immutables: the vault's own address, the deployer and the fee. */
  datatype Config = Config(self: Address, owner: Address, fee: nat)

  datatype VaultOrder = VaultOrder(owner: Address, deposit: nat, status: nat)

  /** The vault's events, with the payments it makes between them. */
  datatype VaultEvent =
    | OrderPlaced(id: nat, owner: Address)
    | OrderExecuted(id: nat, price: nat)
    | OrderCancelled(id: nat)
    | Paid(id: nat, to: Address, amount: nat, trigger: nat)
    | Refunded(id: nat, to: Address, amount: nat)

  datatype Vault = Vault(
    orders: map<nat, VaultOrder>,
    nextOrderId: nat,
    balance: nat,
    extensionId: nat,
    teeExecutor: Address,
    token: Token,
    trace: seq<VaultEvent>)

  /** What a callee does while it has control: nested calls, then its outcome. */
  datatype Reply = Reply(nested: seq<Call>, ok: bool)

  /** The FTSO feed: USD per FLR, int8 decimals, a timestamp in seconds. */
  datatype FeedData = FeedData(value: nat, decimals: int, timestamp: nat)

  datatype Call =
    | PlaceOrder(sender: Address, value: nat, ciphertextLength: nat, teeIds: bool, send: Reply)
    | Settle(sender: Address, id: nat, trigger: nat, maxAge: nat, feed: Option<FeedData>, now: nat)
    | CancelOrder(sender: Address, value: nat, id: nat, teeIds: bool, send: Reply, refund: Reply)
    | SetTeeExecutor(sender: Address, executor: Address)
    | SetExtensionId(senders: seq<Address>)
    | UseToken(call: TokenCall)

  /** The state after a call and whether it succeeded. */
  type Result = (Vault, bool)

  function StatusOf(s: Vault, id: nat): nat {
    if id in s.orders then s.orders[id].status else STATUS_NONE
  }

  /** `10 ** e` in checked uint256 arithmetic. */
  function CheckedPow10(e: nat): (scale: Option<nat>)
    ensures scale.Some? ==> 0 < scale.value <= MAX_UINT256
  {
    PowPositive(10, e);
    if Pow(10, e) > MAX_UINT256 then None else Some(Pow(10, e))
  }

  /** `_toPayoutDecimals`. */
  function ToPayoutDecimals(value: nat, decimals: int): Option<nat> {
    var shift := 6 - decimals;
    if shift >= 0 then
      var scale := CheckedPow10(shift);
      if scale.None? || value * scale.value > MAX_UINT256 then None else Some(value * scale.value)
    else
      var scale := CheckedPow10(-shift);
      if scale.None? then None else Some(value / scale.value)
  }

  function Payout(deposit: nat, price: nat): nat {
    deposit * price / ONE_NATIVE
  }

  /** Does `settle` get as far as reading the price feed? */
  predicate ReadsFeed(s: Vault, c: Call)
    requires c.Settle?
  {
    c.sender == s.teeExecutor && c.maxAge <= MAX_PRICE_AGE_SEC && StatusOf(s, c.id) == STATUS_OPEN
  }

  /** The state of `settle` when it reaches the token transfer, and the price. */
  function Executed(s: Vault, c: Call): Option<(Vault, nat)>
    requires c.Settle?
    ensures Executed(s, c).Some? ==> StatusOf(s, c.id) == STATUS_OPEN
  {
    if !ReadsFeed(s, c) || c.feed.None? then None
    else if c.now < c.feed.value.timestamp || c.now - c.feed.value.timestamp > c.maxAge then None
    else
      var price := ToPayoutDecimals(c.feed.value.value, c.feed.value.decimals);
      if price.None? || price.value > c.trigger || s.orders[c.id].deposit * price.value > MAX_UINT256 then None
      else
        Some((s.(orders := s.orders[c.id := s.orders[c.id].(status := STATUS_EXECUTED)],
                 trace := s.trace + [OrderExecuted(c.id, price.value)]), price.value))
  }

  /** `settle`. The payout token has no callbacks, so nothing can nest here. */
  function SettleOrder(cfg: Config, s: Vault, c: Call): Result
    requires c.Settle?
  {
    match Executed(s, c)
    case None => (s, false)
    case Some((at, price)) =>
      var o := s.orders[c.id];
      var amount := Payout(o.deposit, price);
      var token := Move(s.token, cfg.self, o.owner, amount);
      if token.None? then (s, false)
      else (at.(token := token.value, trace := at.trace + [Paid(c.id, o.owner, amount, c.trigger)]), true)
  }

  /** The scan of `setExtensionId` for the vault's own address. */
  function FindSender(senders: seq<Address>, self: Address, from: nat): (found: Option<nat>)
    requires from <= |senders|
    ensures found.Some? ==> from <= found.value < |senders| && senders[found.value] == self
    decreases |senders| - from
  {
    if from == |senders| then None
    else if senders[from] == self then Some(from)
    else FindSender(senders, self, from + 1)
  }

  /** The state of `placeOrder` when it reaches `_sendInstruction`. */
  function Placed(cfg: Config, s: Vault, c: Call): Option<Vault>
    requires c.PlaceOrder?
  {
    if c.ciphertextLength == 0 || c.value <= cfg.fee || s.nextOrderId >= MAX_UINT256 then None
    else
      var id := s.nextOrderId + 1;
      Some(s.(orders := s.orders[id := VaultOrder(c.sender, c.value - cfg.fee, STATUS_OPEN)],
              nextOrderId := id,
              balance := s.balance + c.value,
              trace := s.trace + [OrderPlaced(id, c.sender)]))
  }

  /** The state of `cancel` when it reaches `_sendInstruction`. */
  function Cancelled(s: Vault, c: Call): Option<Vault>
    requires c.CancelOrder?
  {
    if c.id !in s.orders || s.orders[c.id].owner != c.sender || s.orders[c.id].status != STATUS_OPEN then None
    else
      Some(s.(orders := s.orders[c.id := s.orders[c.id].(status := STATUS_CANCELLED)],
              balance := s.balance + c.value,
              trace := s.trace + [OrderCancelled(c.id)]))
  }

  /** The refund leaves the vault when the owner's code gets control. */
  function Refund(s: Vault, c: Call, deposit: nat): Vault
    requires c.CancelOrder?
  {
    s.(trace := s.trace + [Refunded(c.id, c.sender, deposit)])
  }

  /** A call with value: the money moves, the callee acts, and its revert is ours. */
  function CallOut(cfg: Config, s: Vault, amount: nat, reply: Reply): Result
    decreases reply, 1
  {
    if s.balance < amount then (s, false)
    else (ExecAll(cfg, s.(balance := s.balance - amount), reply.nested), reply.ok)
  }

  /** `_sendInstruction`: the extension id, the registry's pick, then the send. */
  function SendInstruction(cfg: Config, s: Vault, fee: nat, teeIds: bool, send: Reply): Result
    decreases send, 2
  {
    if s.extensionId == 0 || !teeIds then (s, false) else CallOut(cfg, s, fee, send)
  }

  /** One external call; on failure the state is the one it started from. */
  function Exec(cfg: Config, s: Vault, c: Call): Result
    decreases c, 3
  {
    match c
    case PlaceOrder(_, _, _, teeIds, send) =>
      var placed := Placed(cfg, s, c);
      if placed.None? then (s, false)
      else
        var (after, ok) := SendInstruction(cfg, placed.value, cfg.fee, teeIds, send);
        if ok then (after, true) else (s, false)
    case CancelOrder(_, value, id, teeIds, send, refund) =>
      var cancelled := Cancelled(s, c);
      if cancelled.None? then (s, false)
      else
        var (sent, ok) := SendInstruction(cfg, cancelled.value, value, teeIds, send);
        if !ok then (s, false)
        else
          var deposit := s.orders[id].deposit;
          var (after, refunded) := CallOut(cfg, Refund(sent, c, deposit), deposit, refund);
          if refunded then (after, true) else (s, false)
    case Settle(_, _, _, _, _, _) => SettleOrder(cfg, s, c)
    case SetTeeExecutor(sender, executor) =>
      if sender == cfg.owner then (s.(teeExecutor := executor), true) else (s, false)
    case SetExtensionId(senders) =>
      var found := FindSender(senders, cfg.self, 0);
      if s.extensionId == 0 && found.Some? then (s.(extensionId := found.value), true) else (s, false)
    case UseToken(call) =>
      var token := PayoutToken.Call(s.token, call);
      if token.Some? then (s.(token := token.value), true) else (s, false)
  }

  /** The nested calls of one callee, in order; it may ignore their failures. */
  function ExecAll(cfg: Config, s: Vault, calls: seq<Call>): Vault
    decreases calls, 0
  {
    if calls == [] then s else ExecAll(cfg, Exec(cfg, s, calls[0]).0, calls[1..])
  }

  function InitialVault(token: Token): Vault {
    Vault(map[], 0, 0, 0, 0, token, [])
  }
}
