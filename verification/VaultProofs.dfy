/** Conservation and lifecycle of the vault under arbitrarily nested calls. */
module VaultProofs {
  import opened PayoutToken
  import opened VaultSpec

  // ----- what the vault holds

  /** Deposits that stay in the vault: those of OPEN and of EXECUTED orders. */
  function HeldDeposit(o: VaultOrder): nat {
    if o.status == STATUS_OPEN || o.status == STATUS_EXECUTED then o.deposit else 0
  }

  function HeldUpTo(orders: map<nat, VaultOrder>, n: nat): nat {
    if n == 0 then 0 else HeldUpTo(orders, n - 1) + if n in orders then HeldDeposit(orders[n]) else 0
  }

  function Held(s: Vault): nat {
    HeldUpTo(s.orders, s.nextOrderId)
  }

  /** Order ids are exactly 1..nextOrderId and every order has a real status. */
  ghost predicate Shaped(s: Vault) {
    && (forall id :: id in s.orders <==> 1 <= id <= s.nextOrderId)
    && (forall id <- s.orders :: STATUS_OPEN <= s.orders[id].status <= STATUS_CANCELLED)
  }

  /** The balance is the held deposits plus what is in flight on the call stack. */
  ghost predicate Solvent(s: Vault, inFlight: nat) {
    Shaped(s) && s.balance == Held(s) + inFlight
  }

  lemma {:induction false} HeldFrame(orders: map<nat, VaultOrder>, other: map<nat, VaultOrder>, n: nat)
    requires forall id :: 1 <= id <= n ==> (id in orders <==> id in other)
    requires forall id :: 1 <= id <= n && id in orders ==> HeldDeposit(orders[id]) == HeldDeposit(other[id])
    ensures HeldUpTo(orders, n) == HeldUpTo(other, n)
  {
    if n > 0 {
      HeldFrame(orders, other, n - 1);
    }
  }

  /** Rewriting one order changes the sum by that order's difference. */
  lemma {:induction false} HeldUpdate(orders: map<nat, VaultOrder>, id: nat, o: VaultOrder, n: nat)
    requires id in orders && 1 <= id
    ensures HeldUpTo(orders[id := o], n)
         == HeldUpTo(orders, n) + (if id <= n then HeldDeposit(o) - HeldDeposit(orders[id]) else 0)
  {
    if n > 0 {
      HeldUpdate(orders, id, o, n - 1);
    }
  }

  /** An OPEN order's deposit is part of the sum. */
  lemma {:induction false} HeldCovers(orders: map<nat, VaultOrder>, id: nat, n: nat)
    requires id in orders && 1 <= id <= n
    ensures HeldDeposit(orders[id]) <= HeldUpTo(orders, n)
  {
    if id < n {
      HeldCovers(orders, id, n - 1);
    }
  }

  // ----- one step of each kind

  lemma PlacedSolvent(cfg: Config, s: Vault, c: Call, inFlight: nat)
    requires c.PlaceOrder? && Placed(cfg, s, c).Some? && Solvent(s, inFlight)
    ensures Solvent(Placed(cfg, s, c).value, inFlight + cfg.fee)
  {
    HeldFrame(s.orders, Placed(cfg, s, c).value.orders, s.nextOrderId);
  }

  lemma CancelledSolvent(s: Vault, c: Call, inFlight: nat)
    requires c.CancelOrder? && Cancelled(s, c).Some? && Solvent(s, inFlight)
    ensures Solvent(Cancelled(s, c).value, inFlight + s.orders[c.id].deposit + c.value)
  {
    HeldUpdate(s.orders, c.id, s.orders[c.id].(status := STATUS_CANCELLED), s.nextOrderId);
  }

  lemma SettledSolvent(cfg: Config, s: Vault, c: Call, inFlight: nat)
    requires c.Settle? && Solvent(s, inFlight)
    ensures Executed(s, c).Some? ==> Solvent(Executed(s, c).value.0, inFlight)
    ensures Solvent(SettleOrder(cfg, s, c).0, inFlight)
  {
    if StatusOf(s, c.id) == STATUS_OPEN {
      HeldUpdate(s.orders, c.id, s.orders[c.id].(status := STATUS_EXECUTED), s.nextOrderId);
    }
  }

  // ----- every call, nested to any depth

  /** A snapshot taken when control leaves the vault, with what is then in flight. */
  datatype Snapshot = Snapshot(state: Vault, inFlight: nat)

  /** Every call-out point reached by a call, nested ones included. */
  function CallOuts(cfg: Config, s: Vault, c: Call, inFlight: nat): seq<Snapshot>
    decreases c, 3
  {
    match c
    case PlaceOrder(_, _, _, teeIds, send) =>
      var placed := Placed(cfg, s, c);
      if placed.None? then [] else InstructionCallOuts(cfg, placed.value, cfg.fee, teeIds, send, inFlight)
    case CancelOrder(_, value, id, teeIds, send, refund) =>
      var cancelled := Cancelled(s, c);
      if cancelled.None? then []
      else
        var deposit := s.orders[id].deposit;
        var (sent, ok) := SendInstruction(cfg, cancelled.value, value, teeIds, send);
        InstructionCallOuts(cfg, cancelled.value, value, teeIds, send, inFlight + deposit)
        + (if ok then ValueCallOuts(cfg, Refund(sent, c, deposit), deposit, refund, inFlight) else [])
    case Settle(_, _, _, _, _, _) => SettleCallOuts(s, c, inFlight)
    case SetExtensionId(_) => if s.extensionId == 0 then [Snapshot(s, inFlight)] else []
    case _ => []
  }

  /** `settle` calls out twice: to the price feed, and to the payout token when the
      order is already EXECUTED. */
  function SettleCallOuts(s: Vault, c: Call, inFlight: nat): seq<Snapshot>
    requires c.Settle?
  {
    (if ReadsFeed(s, c) then [Snapshot(s, inFlight)] else [])
    + (match Executed(s, c) case Some((at, _)) => [Snapshot(at, inFlight)] case None => [])
  }

  /** `_sendInstruction` calls out twice: the read of the machine ids, while the
      fee is still here, and the send itself. */
  function InstructionCallOuts(cfg: Config, s: Vault, fee: nat, teeIds: bool, send: Reply, inFlight: nat): seq<Snapshot>
    decreases send, 2
  {
    if s.extensionId == 0 then []
    else [Snapshot(s, inFlight + fee)] + if teeIds then ValueCallOuts(cfg, s, fee, send, inFlight) else []
  }

  function ValueCallOuts(cfg: Config, s: Vault, amount: nat, reply: Reply, inFlight: nat): seq<Snapshot>
    decreases reply, 1
  {
    if s.balance < amount then []
    else
      var inside := s.(balance := s.balance - amount);
      [Snapshot(inside, inFlight)] + NestedCallOuts(cfg, inside, reply.nested, inFlight)
  }

  function NestedCallOuts(cfg: Config, s: Vault, calls: seq<Call>, inFlight: nat): seq<Snapshot>
    decreases calls, 0
  {
    if calls == [] then []
    else CallOuts(cfg, s, calls[0], inFlight) + NestedCallOuts(cfg, Exec(cfg, s, calls[0]).0, calls[1..], inFlight)
  }

  ghost predicate AllSolvent(points: seq<Snapshot>) {
    forall p <- points :: Solvent(p.state, p.inFlight)
  }

  /** Native-token conservation. At every call-out point of every call, however
      deeply nested, the balance is the deposits of OPEN and EXECUTED orders plus
      the fees and refunds in flight; and so it is when the call returns. */
  lemma {:induction false} Conservation(cfg: Config, s: Vault, c: Call, inFlight: nat)
    requires Solvent(s, inFlight)
    ensures AllSolvent(CallOuts(cfg, s, c, inFlight))
    ensures Solvent(Exec(cfg, s, c).0, inFlight)
    decreases c, 3
  {
    match c
    case PlaceOrder(_, _, _, teeIds, send) =>
      if Placed(cfg, s, c).Some? {
        PlacedSolvent(cfg, s, c, inFlight);
        InstructionConserves(cfg, Placed(cfg, s, c).value, cfg.fee, teeIds, send, inFlight);
      }
    case CancelOrder(_, _, _, _, _, _) =>
      if Cancelled(s, c).Some? {
        CancelConserves(cfg, s, c, inFlight);
      }
    case Settle(_, _, _, _, _, _) => SettledSolvent(cfg, s, c, inFlight);
    case _ =>
  }

  lemma {:induction false} CancelConserves(cfg: Config, s: Vault, c: Call, inFlight: nat)
    requires c.CancelOrder? && Cancelled(s, c).Some? && Solvent(s, inFlight)
    ensures AllSolvent(CallOuts(cfg, s, c, inFlight))
    ensures Solvent(Exec(cfg, s, c).0, inFlight)
    decreases c, 2
  {
    var cancelled, deposit := Cancelled(s, c).value, s.orders[c.id].deposit;
    CancelledSolvent(s, c, inFlight);
    InstructionConserves(cfg, cancelled, c.value, c.teeIds, c.send, inFlight + deposit);
    var (sent, ok) := SendInstruction(cfg, cancelled, c.value, c.teeIds, c.send);
    if ok {
      ValueConserves(cfg, Refund(sent, c, deposit), deposit, c.refund, inFlight);
    }
  }

  lemma {:induction false} InstructionConserves(cfg: Config, s: Vault, fee: nat, teeIds: bool, send: Reply, inFlight: nat)
    requires Solvent(s, inFlight + fee)
    ensures AllSolvent(InstructionCallOuts(cfg, s, fee, teeIds, send, inFlight))
    ensures var (after, ok) := SendInstruction(cfg, s, fee, teeIds, send);
      && ok == (s.extensionId != 0 && teeIds && send.ok)
      && (ok ==> Solvent(after, inFlight))
    decreases send, 2
  {
    ValueConserves(cfg, s, fee, send, inFlight);
  }

  lemma {:induction false} ValueConserves(cfg: Config, s: Vault, amount: nat, reply: Reply, inFlight: nat)
    requires Solvent(s, inFlight + amount)
    ensures AllSolvent(ValueCallOuts(cfg, s, amount, reply, inFlight))
    ensures var (after, ok) := CallOut(cfg, s, amount, reply);
      ok == reply.ok && Solvent(after, inFlight)
    decreases reply, 1
  {
    NestedConserve(cfg, s.(balance := s.balance - amount), reply.nested, inFlight);
  }

  lemma {:induction false} NestedConserve(cfg: Config, s: Vault, calls: seq<Call>, inFlight: nat)
    requires Solvent(s, inFlight)
    ensures AllSolvent(NestedCallOuts(cfg, s, calls, inFlight))
    ensures Solvent(ExecAll(cfg, s, calls), inFlight)
    decreases calls, 0
  {
    if calls != [] {
      Conservation(cfg, s, calls[0], inFlight);
      NestedConserve(cfg, Exec(cfg, s, calls[0]).0, calls[1..], inFlight);
    }
  }

  /** Any OPEN order's full refund is covered whenever the vault lets go of
      control. */
  lemma RefundAlwaysCovered(cfg: Config, s: Vault, c: Call, inFlight: nat, k: nat, id: nat)
    requires Solvent(s, inFlight) && k < |CallOuts(cfg, s, c, inFlight)|
    requires StatusOf(CallOuts(cfg, s, c, inFlight)[k].state, id) == STATUS_OPEN
    ensures var p := CallOuts(cfg, s, c, inFlight)[k];
      p.state.orders[id].deposit + p.inFlight <= p.state.balance
  {
    Conservation(cfg, s, c, inFlight);
    var p := CallOuts(cfg, s, c, inFlight)[k];
    assert p in CallOuts(cfg, s, c, inFlight);
    HeldCovers(p.state.orders, id, p.state.nextOrderId);
  }

  /** A cancellation can fail only for its caller, its order, the extension id or
      a callee - never for lack of funds. */
  lemma CancelSucceedsIff(cfg: Config, s: Vault, c: Call, inFlight: nat)
    requires c.CancelOrder? && Solvent(s, inFlight)
    ensures Exec(cfg, s, c).1 <==>
      && c.id in s.orders && s.orders[c.id].owner == c.sender && s.orders[c.id].status == STATUS_OPEN
      && s.extensionId != 0 && c.teeIds && c.send.ok && c.refund.ok
  {
    if Cancelled(s, c).Some? {
      var deposit := s.orders[c.id].deposit;
      var cancelled := Cancelled(s, c).value;
      CancelledSolvent(s, c, inFlight);
      InstructionConserves(cfg, cancelled, c.value, c.teeIds, c.send, inFlight + deposit);
      var (sent, ok) := SendInstruction(cfg, cancelled, c.value, c.teeIds, c.send);
      if ok {
        ValueConserves(cfg, Refund(sent, c, deposit), deposit, c.refund, inFlight);
      }
    }
  }

  /** A run of top-level transactions, with nothing in flight between them. */
  lemma RunsStaySolvent(cfg: Config, token: Token, calls: seq<Call>)
    ensures Solvent(ExecAll(cfg, InitialVault(token), calls), 0)
    ensures AllSolvent(NestedCallOuts(cfg, InitialVault(token), calls, 0))
  {
    NestedConserve(cfg, InitialVault(token), calls, 0);
  }
}
