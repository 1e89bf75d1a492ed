/** What the vault's and the token's numbers and guards come to, in figures. */
module VaultLaws {
  import opened Numbers
  import opened PayoutToken
  import opened VaultSpec
  import P = VaultProofs
  import L = VaultLedger
  import PriceAgreement

  // ----- payments

  /** `amount` is deposit * price / 10^18, rounded down: wei times a price at six
      decimals, as an amount of USDT0 at six decimals. */
  predicate PaysOut(amount: nat, deposit: nat, price: nat) {
    1_000_000_000_000_000_000 * amount <= deposit * price < 1_000_000_000_000_000_000 * (amount + 1)
  }

  lemma PayoutIs(deposit: nat, price: nat)
    ensures PaysOut(Payout(deposit, price), deposit, price)
  {
    PriceAgreement.FloorIs(deposit * price, 1_000_000_000_000_000_000);
  }

  lemma OneAmount(a: nat, b: nat, deposit: nat, price: nat)
    requires PaysOut(a, deposit, price) && PaysOut(b, deposit, price)
    ensures a == b
  {
  }

  /** Over every run each payment is the order's deposit at the price of its own
      execution, and at most the deposit at the disclosed trigger. */
  lemma PaymentsInFigures(cfg: Config, token: Token, calls: seq<Call>, k: nat)
    requires k < |ExecAll(cfg, InitialVault(token), calls).trace|
    requires ExecAll(cfg, InitialVault(token), calls).trace[k].Paid?
    ensures var s := ExecAll(cfg, InitialVault(token), calls);
      var e := s.trace[k];
      && e.id in s.orders && e.to == s.orders[e.id].owner
      && (exists price :: OrderExecuted(e.id, price) in s.trace && PaysOut(e.amount, s.orders[e.id].deposit, price))
      && 1_000_000_000_000_000_000 * e.amount <= s.orders[e.id].deposit * e.trigger
  {
    var s := ExecAll(cfg, InitialVault(token), calls);
    var e := s.trace[k];
    L.EveryPaymentIsBounded(cfg, token, calls, k);
    L.RunAccounted(cfg, InitialVault(token), calls, {});
    assert L.Faithful(s, e);
    assert L.Count(s.trace, L.Executing, e.id) == L.Expected(s, L.Executing, e.id, {});
    L.ExecutedIsTraced(s.trace, e.id);
    PayoutIs(s.orders[e.id].deposit, L.PriceOf(s.trace, e.id));
    PayoutIs(s.orders[e.id].deposit, e.trigger);
  }

  /** A settlement that succeeds executes its order and moves exactly the payout
      from the vault to the order's owner. */
  lemma SettlementPays(cfg: Config, s: Vault, c: Call, price: nat, amount: nat, a: Address)
    requires c.Settle? && Balanced(s.token) && Exec(cfg, s, c).1
    requires PriceAgreement.AtSixDecimals(price, c.feed.value.value, c.feed.value.decimals)
    requires PaysOut(amount, s.orders[c.id].deposit, price)
    ensures var t, owner := Exec(cfg, s, c).0, s.orders[c.id].owner;
      && t.(token := s.token, trace := s.trace) == s.(orders := s.orders[c.id := s.orders[c.id].(status := STATUS_EXECUTED)])
      && BalanceOf(t.token, a) == BalanceOf(s.token, a)
           - (if a == cfg.self then amount else 0) + (if a == owner then amount else 0)
      && t.trace == s.trace + [OrderExecuted(c.id, price), Paid(c.id, owner, amount, c.trigger)]
  {
    var data, o := c.feed.value, s.orders[c.id];
    var own := ToPayoutDecimals(data.value, data.decimals).value;
    PriceAgreement.VaultPriceAtSixDecimals(data.value, data.decimals);
    PriceAgreement.OnePrice(price, own, data.value, data.decimals);
    PayoutIs(o.deposit, price);
    OneAmount(amount, Payout(o.deposit, price), o.deposit, price);
    MoveKeepsSupply(s.token, cfg.self, o.owner, amount);
    MoveExactly(s.token, cfg.self, o.owner, amount, a);
  }

  // ----- placements

  /** Exactly when an order is placed. */
  lemma PlaceSucceedsIff(cfg: Config, s: Vault, c: Call, inFlight: nat)
    requires c.PlaceOrder? && P.Solvent(s, inFlight)
    ensures Exec(cfg, s, c).1 <==>
      && c.ciphertextLength > 0 && c.value > cfg.fee && s.nextOrderId < MAX_UINT256
      && s.extensionId != 0 && c.teeIds && c.send.ok
  {
    if Placed(cfg, s, c).Some? {
      P.PlacedSolvent(cfg, s, c, inFlight);
      P.InstructionConserves(cfg, Placed(cfg, s, c).value, cfg.fee, c.teeIds, c.send, inFlight);
    }
  }

  /** As what: the next id, the caller's, with all of its value but the fee - and it
      is so whatever the registry's callee does. */
  lemma PlacedAs(cfg: Config, s: Vault, c: Call)
    requires c.PlaceOrder? && P.Shaped(s) && Exec(cfg, s, c).1
    ensures var t, id := Exec(cfg, s, c).0, s.nextOrderId + 1;
      && id !in s.orders && id in t.orders
      && t.orders[id].owner == c.sender && t.orders[id].deposit == c.value - cfg.fee
      && s.trace + [OrderPlaced(id, c.sender)] <= t.trace
  {
    L.InstructionAdvances(cfg, Placed(cfg, s, c).value, cfg.fee, c.teeIds, c.send);
  }

  /** And nothing else, if that callee calls nothing. */
  lemma PlacedOnly(cfg: Config, s: Vault, c: Call)
    requires c.PlaceOrder? && Exec(cfg, s, c).1 && c.send.nested == []
    ensures var id := s.nextOrderId + 1;
      Exec(cfg, s, c).0 == s.(
        orders := s.orders[id := VaultOrder(c.sender, c.value - cfg.fee, STATUS_OPEN)],
        nextOrderId := id,
        balance := s.balance + c.value - cfg.fee,
        trace := s.trace + [OrderPlaced(id, c.sender)])
  {
    var placed := Placed(cfg, s, c).value;
    assert CallOut(cfg, placed, cfg.fee, c.send) == (placed.(balance := placed.balance - cfg.fee), true);
  }

  /** A cancellation whose callees call nothing: the order is CANCELLED, its deposit
      leaves, and the value attached only passes through. */
  lemma CancelledOnly(cfg: Config, s: Vault, c: Call)
    requires c.CancelOrder? && Exec(cfg, s, c).1 && c.send.nested == [] && c.refund.nested == []
    ensures c.id in s.orders && s.orders[c.id].owner == c.sender && s.orders[c.id].deposit <= s.balance
    ensures var o := s.orders[c.id];
      Exec(cfg, s, c).0 == s.(
        orders := s.orders[c.id := o.(status := STATUS_CANCELLED)],
        balance := s.balance - o.deposit,
        trace := s.trace + [OrderCancelled(c.id), Refunded(c.id, c.sender, o.deposit)])
  {
    var o, cancelled := s.orders[c.id], Cancelled(s, c).value;
    var sent := cancelled.(balance := cancelled.balance - c.value);
    assert CallOut(cfg, cancelled, c.value, c.send) == (sent, true);
    var refunding := Refund(sent, c, o.deposit);
    assert CallOut(cfg, refunding, o.deposit, c.refund).0 == refunding.(balance := sent.balance - o.deposit);
    assert s.trace + [OrderCancelled(c.id)] + [Refunded(c.id, c.sender, o.deposit)]
        == s.trace + [OrderCancelled(c.id), Refunded(c.id, c.sender, o.deposit)];
  }

  // ----- reverts

  /** A call that fails changes nothing, whatever was called inside it. */
  lemma FailureChangesNothing(cfg: Config, s: Vault, c: Call)
    ensures !Exec(cfg, s, c).1 ==> Exec(cfg, s, c).0 == s
  {
  }

  // ----- who may change what

  /** The appointment is the owner's, and changes nothing else. */
  lemma ExecutorIs(cfg: Config, s: Vault, sender: Address, executor: Address)
    ensures Exec(cfg, s, SetTeeExecutor(sender, executor)) ==
      if sender == cfg.owner then (s.(teeExecutor := executor), true) else (s, false)
  {
  }

  /** A token call acts on the token alone. */
  lemma TokenCallIs(cfg: Config, s: Vault, call: TokenCall)
    ensures Exec(cfg, s, UseToken(call)).0.(token := s.token) == s
    ensures Exec(cfg, s, UseToken(call)).1 <==> PayoutToken.Call(s.token, call).Some?
  {
  }

  /** Does the call, or any call nested in it, satisfy `kind`? */
  ghost predicate Contains(c: Call, kind: Call -> bool) {
    || kind(c)
    || (c.PlaceOrder? && exists x <- c.send.nested :: Contains(x, kind))
    || (c.CancelOrder? && ((exists x <- c.send.nested :: Contains(x, kind)) || (exists x <- c.refund.nested :: Contains(x, kind))))
  }

  /** The owner's appointment of an executor. */
  function Appointment(cfg: Config): Call -> bool {
    (c: Call) => c.SetTeeExecutor? && c.sender == cfg.owner
  }

  /** The token owner's mint. */
  function Minting(owner: Address): Call -> bool {
    (c: Call) => c.UseToken? && c.call.MintCall? && c.call.sender == owner
  }

  /** The executor and the supply are the same, as far as no call in sight by their
      owners changes them, and an extension id that is set stays. */
  ghost predicate Kept(s: Vault, t: Vault, appointed: bool, minted: bool) {
    && t.token.owner == s.token.owner
    && (s.extensionId != 0 ==> t.extensionId == s.extensionId)
    && (!appointed ==> t.teeExecutor == s.teeExecutor)
    && (!minted ==> t.token.supply == s.token.supply)
  }

  lemma {:induction false} FirstSender(senders: seq<Address>, self: Address, from: nat)
    requires from <= |senders|
    ensures var found := FindSender(senders, self, from);
      forall k :: from <= k < |senders| && (found.Some? ==> k < found.value) ==> senders[k] != self
    decreases |senders| - from
  {
    if from < |senders| && senders[from] != self {
      FirstSender(senders, self, from + 1);
    }
  }

  /** The extension id is the vault's first place among the registered senders. */
  lemma ExtensionIdIs(cfg: Config, s: Vault, senders: seq<Address>)
    ensures var (t, ok) := Exec(cfg, s, SetExtensionId(senders));
      && (ok <==> s.extensionId == 0 && cfg.self in senders)
      && (ok ==> t.extensionId < |senders| && senders[t.extensionId] == cfg.self && cfg.self !in senders[..t.extensionId])
      && t.(extensionId := s.extensionId) == s
  {
    FirstSender(senders, cfg.self, 0);
  }

  /** Only the owner's appointment changes the executor, and only the token owner's
      mint the supply, however deep the calls nest. */
  lemma {:induction false} OnlyOwnersChange(cfg: Config, s: Vault, c: Call)
    ensures Kept(s, Exec(cfg, s, c).0, Contains(c, Appointment(cfg)), Contains(c, Minting(s.token.owner)))
    decreases c, 3
  {
    match c
    case PlaceOrder(_, _, _, teeIds, send) =>
      if Placed(cfg, s, c).Some? {
        OnlyOwnersInstruct(cfg, Placed(cfg, s, c).value, cfg.fee, teeIds, send);
      }
    case CancelOrder(_, value, id, teeIds, send, refund) =>
      if Cancelled(s, c).Some? {
        OnlyOwnersInstruct(cfg, Cancelled(s, c).value, value, teeIds, send);
        var (sent, ok) := SendInstruction(cfg, Cancelled(s, c).value, value, teeIds, send);
        var deposit := s.orders[id].deposit;
        OnlyOwnersCallOut(cfg, Refund(sent, c, deposit), deposit, refund);
      }
    case UseToken(call) => SupplyChange(s.token, call);
    case _ =>
  }

  ghost predicate AnyContains(calls: seq<Call>, kind: Call -> bool) {
    exists x <- calls :: Contains(x, kind)
  }

  lemma {:induction false} OnlyOwnersInstruct(cfg: Config, s: Vault, fee: nat, teeIds: bool, send: Reply)
    ensures Kept(s, SendInstruction(cfg, s, fee, teeIds, send).0,
                 AnyContains(send.nested, Appointment(cfg)), AnyContains(send.nested, Minting(s.token.owner)))
    decreases send, 2
  {
    OnlyOwnersCallOut(cfg, s, fee, send);
  }

  lemma {:induction false} OnlyOwnersCallOut(cfg: Config, s: Vault, amount: nat, reply: Reply)
    ensures Kept(s, CallOut(cfg, s, amount, reply).0,
                 AnyContains(reply.nested, Appointment(cfg)), AnyContains(reply.nested, Minting(s.token.owner)))
    decreases reply, 1
  {
    if s.balance >= amount {
      OnlyOwnersRun(cfg, s.(balance := s.balance - amount), reply.nested);
    }
  }

  lemma {:induction false} OnlyOwnersRun(cfg: Config, s: Vault, calls: seq<Call>)
    ensures Kept(s, ExecAll(cfg, s, calls),
                 AnyContains(calls, Appointment(cfg)), AnyContains(calls, Minting(s.token.owner)))
    decreases calls, 0
  {
    if calls != [] {
      OnlyOwnersChange(cfg, s, calls[0]);
      OnlyOwnersRun(cfg, Exec(cfg, s, calls[0]).0, calls[1..]);
      assert forall x <- calls[1..] :: x in calls;
      assert calls[0] in calls;
    }
  }
}
