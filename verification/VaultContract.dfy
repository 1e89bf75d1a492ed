/** DarkStopVault as the contract it is: storage that each external call updates
    in place, across calls that may come back into it. */
module VaultContract {
  import opened Numbers
  import opened PayoutToken
  import opened VaultSpec

  class DarkStopVault {
    const config: Config
    const token: MockUsdt0
    var orders: map<nat, VaultOrder>
    var nextOrderId: nat
    var balance: nat
    var extensionId: nat
    var teeExecutor: Address
    // Events and payments, in order.
    var trace: seq<VaultEvent>

    function View(): Vault
      reads this, token
    {
      Vault(orders, nextOrderId, balance, extensionId, teeExecutor, token.View(), trace)
    }

    ghost predicate Valid()
      reads this, token
    {
      Balanced(token.View())
    }

    constructor (config: Config, token: MockUsdt0)
      requires Balanced(token.View())
      ensures this.config == config && this.token == token && Valid()
      ensures View() == InitialVault(token.View())
    {
      this.config, this.token := config, token;
      orders, nextOrderId, balance, extensionId, teeExecutor, trace := map[], 0, 0, 0, 0, [];
    }

    /** What a revert does: every write since `s` is undone, the token's too. */
    method Revert(s: Vault)
      requires s.token.owner == token.owner && Balanced(s.token)
      modifies this, token
      ensures Valid() && View() == s
    {
      orders, nextOrderId, balance := s.orders, s.nextOrderId, s.balance;
      extensionId, teeExecutor, trace := s.extensionId, s.teeExecutor, s.trace;
      token.Restore(s.token);
    }

    /** `placeOrder`: takes the deposit, then forwards the ciphertext. */
    method PlaceOrder(c: Call) returns (ok: bool)
      requires Valid() && c.PlaceOrder?
      modifies this, token
      ensures Valid()
      ensures (View(), ok) == Exec(config, old(View()), c)
      decreases c, 2
    {
      var before := View();
      if c.ciphertextLength == 0 || c.value <= config.fee || nextOrderId >= MAX_UINT256 {
        return false;
      }
      balance := balance + c.value;
      nextOrderId := nextOrderId + 1;
      var id := nextOrderId;
      orders := orders[id := VaultOrder(c.sender, c.value - config.fee, STATUS_OPEN)];
      trace := trace + [OrderPlaced(id, c.sender)];
      ok := SendInstruction(config.fee, c.teeIds, c.send);
      if !ok {
        Revert(before);
      }
    }

    /** `settle`: re-checks the price feed itself, then pays the order's owner. */
    method Settle(c: Call) returns (ok: bool)
      requires Valid() && c.Settle?
      modifies this, token
      ensures Valid()
      ensures (View(), ok) == Exec(config, old(View()), c)
    {
      var before := View();
      if c.sender != teeExecutor || c.maxAge > MAX_PRICE_AGE_SEC {
        return false;
      }
      if c.id !in orders || orders[c.id].status != STATUS_OPEN {
        return false;
      }
      if c.feed.None? {
        return false;
      }
      var data := c.feed.value;
      if c.now < data.timestamp || c.now - data.timestamp > c.maxAge {
        return false;
      }
      var price := ToPayoutDecimals(data.value, data.decimals);
      if price.None? || price.value > c.trigger {
        return false;
      }
      var o := orders[c.id];
      orders := orders[c.id := o.(status := STATUS_EXECUTED)];
      trace := trace + [OrderExecuted(c.id, price.value)];
      if o.deposit * price.value > MAX_UINT256 {
        Revert(before);
        return false;
      }
      var amount := o.deposit * price.value / ONE_NATIVE;
      ok := token.Transfer(config.self, o.owner, amount);
      if !ok {
        Revert(before);
        return;
      }
      trace := trace + [Paid(c.id, o.owner, amount, c.trigger)];
    }

    /** `cancel`: notifies the enclave, then refunds the full deposit. */
    method Cancel(c: Call) returns (ok: bool)
      requires Valid() && c.CancelOrder?
      modifies this, token
      ensures Valid()
      ensures (View(), ok) == Exec(config, old(View()), c)
      decreases c, 2
    {
      var before := View();
      if c.id !in orders || orders[c.id].owner != c.sender || orders[c.id].status != STATUS_OPEN {
        return false;
      }
      balance := balance + c.value;
      var deposit := orders[c.id].deposit;
      orders := orders[c.id := orders[c.id].(status := STATUS_CANCELLED)];
      trace := trace + [OrderCancelled(c.id)];
      ok := SendInstruction(c.value, c.teeIds, c.send);
      if !ok {
        Revert(before);
        return;
      }
      trace := trace + [Refunded(c.id, c.sender, deposit)];
      ok := CallOut(deposit, c.refund);
      if !ok {
        Revert(before);
      }
    }

    method SendInstruction(fee: nat, teeIds: bool, send: Reply) returns (ok: bool)
      requires Valid()
      modifies this, token
      ensures Valid()
      ensures ok == VaultSpec.SendInstruction(config, old(View()), fee, teeIds, send).1
      ensures ok ==> View() == VaultSpec.SendInstruction(config, old(View()), fee, teeIds, send).0
      decreases send, 2
    {
      if extensionId == 0 || !teeIds {
        return false;
      }
      ok := CallOut(fee, send);
    }

    /** A call with value. While the callee runs it may call this vault again. */
    method CallOut(amount: nat, reply: Reply) returns (ok: bool)
      requires Valid()
      modifies this, token
      ensures Valid()
      ensures ok == VaultSpec.CallOut(config, old(View()), amount, reply).1
      ensures ok ==> View() == VaultSpec.CallOut(config, old(View()), amount, reply).0
      decreases reply, 1
    {
      if balance < amount {
        return false;
      }
      balance := balance - amount;
      ExecuteAll(reply.nested);
      ok := reply.ok;
    }

    /** `setExtensionId`: looks for this vault among the registered senders. */
    method SetExtensionId(senders: seq<Address>) returns (ok: bool)
      requires Valid()
      modifies this
      ensures Valid()
      ensures (View(), ok) == Exec(config, old(View()), VaultSpec.SetExtensionId(senders))
    {
      if extensionId != 0 {
        return false;
      }
      for i := 0 to |senders|
        invariant View() == old(View()) && extensionId == 0
        invariant FindSender(senders, config.self, 0) == FindSender(senders, config.self, i)
      {
        if senders[i] == config.self {
          extensionId := i;
          return true;
        }
      }
      ok := false;
    }

    /** One external call of any kind. */
    method Execute(c: Call) returns (ok: bool)
      requires Valid()
      modifies this, token
      ensures Valid()
      ensures (View(), ok) == Exec(config, old(View()), c)
      decreases c, 3
    {
      match c
      case PlaceOrder(_, _, _, _, _) => ok := PlaceOrder(c);
      case CancelOrder(_, _, _, _, _, _) => ok := Cancel(c);
      case Settle(_, _, _, _, _, _) => ok := Settle(c);
      case SetTeeExecutor(sender, executor) =>
        ok := sender == config.owner;
        if ok {
          teeExecutor := executor;
        }
      case SetExtensionId(senders) => ok := SetExtensionId(senders);
      case UseToken(call) => ok := token.Use(call);
    }

    method ExecuteAll(calls: seq<Call>)
      requires Valid()
      modifies this, token
      ensures Valid()
      ensures View() == ExecAll(config, old(View()), calls)
      decreases calls, 0
    {
      if calls != [] {
        var ok := Execute(calls[0]);
        ExecuteAll(calls[1..]);
      }
    }
  }
}
