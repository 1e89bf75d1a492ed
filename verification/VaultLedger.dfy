/** Order lifecycle and payout accounting over every run of the vault. */
module VaultLedger {
  import opened Numbers
  import opened PayoutToken
  import opened VaultSpec
  import P = VaultProofs

  // ----- lifecycle

  /** Orders only move forward: NONE to OPEN, OPEN to EXECUTED or CANCELLED, and
      there they stay, with the owner and the deposit they were placed with. */
  ghost predicate Advances(s: Vault, t: Vault) {
    && s.nextOrderId <= t.nextOrderId
    && s.trace <= t.trace
    && forall id <- s.orders ::
         && id in t.orders
         && t.orders[id].owner == s.orders[id].owner && t.orders[id].deposit == s.orders[id].deposit
         && (t.orders[id].status == s.orders[id].status || s.orders[id].status == STATUS_OPEN)
  }

  lemma AdvancesThen(s: Vault, t: Vault, u: Vault)
    requires Advances(s, t) && Advances(t, u)
    ensures Advances(s, u)
  {
  }

  /** Each call's own writes, before anything nests. */
  lemma OwnWritesAdvance(cfg: Config, s: Vault, c: Call)
    requires P.Shaped(s)
    ensures c.PlaceOrder? && Placed(cfg, s, c).Some? ==>
      P.Shaped(Placed(cfg, s, c).value) && Advances(s, Placed(cfg, s, c).value)
    ensures c.CancelOrder? && Cancelled(s, c).Some? ==>
      P.Shaped(Cancelled(s, c).value) && Advances(s, Cancelled(s, c).value)
    ensures c.Settle? ==> P.Shaped(SettleOrder(cfg, s, c).0) && Advances(s, SettleOrder(cfg, s, c).0)
  {
  }

  lemma {:induction false} ExecAdvances(cfg: Config, s: Vault, c: Call)
    requires P.Shaped(s)
    ensures P.Shaped(Exec(cfg, s, c).0) && Advances(s, Exec(cfg, s, c).0)
    decreases c, 3
  {
    OwnWritesAdvance(cfg, s, c);
    match c
    case PlaceOrder(_, _, _, teeIds, send) =>
      if Placed(cfg, s, c).Some? {
        var placed := Placed(cfg, s, c).value;
        InstructionAdvances(cfg, placed, cfg.fee, teeIds, send);
        AdvancesThen(s, placed, SendInstruction(cfg, placed, cfg.fee, teeIds, send).0);
      }
    case CancelOrder(_, _, _, _, _, _) =>
      if Cancelled(s, c).Some? {
        CancelAdvances(cfg, s, c);
      }
    case _ =>
  }

  lemma {:induction false} CancelAdvances(cfg: Config, s: Vault, c: Call)
    requires c.CancelOrder? && Cancelled(s, c).Some? && P.Shaped(s)
    ensures P.Shaped(Exec(cfg, s, c).0) && Advances(s, Exec(cfg, s, c).0)
    decreases c, 2
  {
    var cancelled, deposit := Cancelled(s, c).value, s.orders[c.id].deposit;
    OwnWritesAdvance(cfg, s, c);
    InstructionAdvances(cfg, cancelled, c.value, c.teeIds, c.send);
    var (sent, ok) := SendInstruction(cfg, cancelled, c.value, c.teeIds, c.send);
    AdvancesThen(s, cancelled, sent);
    if ok {
      CallOutAdvances(cfg, Refund(sent, c, deposit), deposit, c.refund);
      var after := CallOut(cfg, Refund(sent, c, deposit), deposit, c.refund).0;
      AdvancesThen(sent, Refund(sent, c, deposit), after);
      AdvancesThen(s, sent, after);
    }
  }

  lemma {:induction false} InstructionAdvances(cfg: Config, s: Vault, fee: nat, teeIds: bool, send: Reply)
    requires P.Shaped(s)
    ensures var t := SendInstruction(cfg, s, fee, teeIds, send).0; P.Shaped(t) && Advances(s, t)
    decreases send, 2
  {
    CallOutAdvances(cfg, s, fee, send);
  }

  lemma {:induction false} CallOutAdvances(cfg: Config, s: Vault, amount: nat, reply: Reply)
    requires P.Shaped(s)
    ensures var t := CallOut(cfg, s, amount, reply).0; P.Shaped(t) && Advances(s, t)
    decreases reply, 1
  {
    if s.balance >= amount {
      RunAdvances(cfg, s.(balance := s.balance - amount), reply.nested);
    }
  }

  lemma {:induction false} RunAdvances(cfg: Config, s: Vault, calls: seq<Call>)
    requires P.Shaped(s)
    ensures P.Shaped(ExecAll(cfg, s, calls)) && Advances(s, ExecAll(cfg, s, calls))
    decreases calls, 0
  {
    if calls != [] {
      ExecAdvances(cfg, s, calls[0]);
      RunAdvances(cfg, Exec(cfg, s, calls[0]).0, calls[1..]);
    }
  }

  // ----- the trace

  datatype Kind = Placing | Executing | Cancelling | Paying | Refunding

  function KindOf(e: VaultEvent): Kind {
    match e
    case OrderPlaced(_, _) => Placing
    case OrderExecuted(_, _) => Executing
    case OrderCancelled(_) => Cancelling
    case Paid(_, _, _, _) => Paying
    case Refunded(_, _, _) => Refunding
  }

  /** How often the trace records an event of this kind for this order. */
  function Count(trace: seq<VaultEvent>, kind: Kind, id: nat): nat {
    if trace == [] then 0
    else
      var e := trace[|trace| - 1];
      Count(trace[..|trace| - 1], kind, id) + if KindOf(e) == kind && e.id == id then 1 else 0
  }

  /** The price an order was executed at. */
  function PriceOf(trace: seq<VaultEvent>, id: nat): nat {
    if trace == [] then 0
    else
      var e := trace[|trace| - 1];
      if e.OrderExecuted? && e.id == id then e.price else PriceOf(trace[..|trace| - 1], id)
  }

  function TotalPaid(trace: seq<VaultEvent>): nat {
    if trace == [] then 0
    else
      var e := trace[|trace| - 1];
      TotalPaid(trace[..|trace| - 1]) + if e.Paid? then e.amount else 0
  }

  lemma Append(trace: seq<VaultEvent>, e: VaultEvent)
    ensures forall kind, id ::
      (Count(trace + [e], kind, id) == Count(trace, kind, id) + One(KindOf(e) == kind && e.id == id))
    ensures forall id :: PriceOf(trace + [e], id) == if e.OrderExecuted? && e.id == id then e.price else PriceOf(trace, id)
    ensures TotalPaid(trace + [e]) == TotalPaid(trace) + if e.Paid? then e.amount else 0
  {
    assert (trace + [e])[..|trace|] == trace;
  }

  lemma {:induction false} ExecutedIsTraced(trace: seq<VaultEvent>, id: nat)
    requires Count(trace, Executing, id) > 0
    ensures OrderExecuted(id, PriceOf(trace, id)) in trace
  {
    var e := trace[|trace| - 1];
    if KindOf(e) != Executing || e.id != id {
      ExecutedIsTraced(trace[..|trace| - 1], id);
    }
  }

  // ----- accounting

  function One(b: bool): nat {
    if b then 1 else 0
  }

  /** How many events of each kind an order must have, given its status and
      whether its refund is still to come on the call stack. */
  function Expected(s: Vault, kind: Kind, id: nat, refunding: set<nat>): nat {
    match kind
    case Placing => One(id in s.orders)
    case Executing => One(StatusOf(s, id) == STATUS_EXECUTED)
    case Cancelling => One(StatusOf(s, id) == STATUS_CANCELLED)
    case Paying => One(StatusOf(s, id) == STATUS_EXECUTED)
    case Refunding => One(StatusOf(s, id) == STATUS_CANCELLED && id !in refunding)
  }

  /** The details of a payment or a refund are the order's own. */
  ghost predicate Faithful(s: Vault, e: VaultEvent) {
    match e
    case Paid(id, to, amount, trigger) =>
      && id in s.orders && s.orders[id].status == STATUS_EXECUTED && to == s.orders[id].owner
      && amount == Payout(s.orders[id].deposit, PriceOf(s.trace, id)) && PriceOf(s.trace, id) <= trigger
    case Refunded(id, to, amount) =>
      id in s.orders && to == s.orders[id].owner && amount == s.orders[id].deposit
    case OrderPlaced(id, owner) => id in s.orders && owner == s.orders[id].owner
    case OrderExecuted(id, price) => id in s.orders && s.orders[id].status == STATUS_EXECUTED && price == PriceOf(s.trace, id)
    case OrderCancelled(id) => id in s.orders && s.orders[id].status == STATUS_CANCELLED
  }

  ghost predicate Accounted(s: Vault, refunding: set<nat>) {
    Tallied(s, refunding) && TotalPaid(s.trace) == PaidUpTo(s, s.nextOrderId)
  }

  ghost predicate Tallied(s: Vault, refunding: set<nat>) {
    P.Shaped(s) && Counted(s, refunding) && AllFaithful(s)
  }

  /** Every order has exactly the events that its status calls for. */
  ghost predicate Counted(s: Vault, refunding: set<nat>) {
    && (forall kind, id :: Count(s.trace, kind, id) == Expected(s, kind, id, refunding))
    && (forall id <- refunding :: StatusOf(s, id) == STATUS_CANCELLED)
  }

  ghost predicate AllFaithful(s: Vault) {
    forall e <- s.trace :: Faithful(s, e)
  }

  /** floor(deposit * price / 10^18) for an executed order, else nothing. */
  function PaidPart(s: Vault, id: nat): nat {
    if StatusOf(s, id) == STATUS_EXECUTED then Payout(s.orders[id].deposit, PriceOf(s.trace, id)) else 0
  }

  function PaidUpTo(s: Vault, n: nat): nat {
    if n == 0 then 0 else PaidUpTo(s, n - 1) + PaidPart(s, n)
  }

  lemma {:induction false} PaidChange(s: Vault, t: Vault, id: nat, n: nat)
    requires forall k :: k != id ==> PaidPart(t, k) == PaidPart(s, k)
    ensures PaidUpTo(t, n) == PaidUpTo(s, n) + if 1 <= id <= n then PaidPart(t, id) - PaidPart(s, id) else 0
  {
    if n > 0 {
      PaidChange(s, t, id, n - 1);
    }
  }

  /** One more event, for one kind and one order. */
  lemma CountAppend(trace: seq<VaultEvent>, e: VaultEvent, kind: Kind, id: nat)
    ensures Count(trace + [e], kind, id) == Count(trace, kind, id) + One(KindOf(e) == kind && e.id == id)
  {
    assert (trace + [e])[..|trace|] == trace;
  }

  lemma PlacedExpected(cfg: Config, s: Vault, c: Call, refunding: set<nat>, kind: Kind, id: nat)
    requires c.PlaceOrder? && Placed(cfg, s, c).Some? && P.Shaped(s)
    ensures Expected(Placed(cfg, s, c).value, kind, id, refunding)
         == Expected(s, kind, id, refunding) + One(kind == Placing && id == s.nextOrderId + 1)
  {
  }

  lemma PlacedCounted(cfg: Config, s: Vault, c: Call, refunding: set<nat>)
    requires c.PlaceOrder? && Placed(cfg, s, c).Some? && P.Shaped(s) && Counted(s, refunding)
    ensures Counted(Placed(cfg, s, c).value, refunding)
  {
    forall kind, id ensures Count(Placed(cfg, s, c).value.trace, kind, id) == Expected(Placed(cfg, s, c).value, kind, id, refunding) {
      CountAppend(s.trace, OrderPlaced(s.nextOrderId + 1, c.sender), kind, id);
      PlacedExpected(cfg, s, c, refunding, kind, id);
    }
  }

  lemma PlacedFaithful(cfg: Config, s: Vault, c: Call)
    requires c.PlaceOrder? && Placed(cfg, s, c).Some? && P.Shaped(s) && AllFaithful(s)
    ensures AllFaithful(Placed(cfg, s, c).value)
  {
    Append(s.trace, OrderPlaced(s.nextOrderId + 1, c.sender));
  }

  lemma PlacedTallied(cfg: Config, s: Vault, c: Call, refunding: set<nat>)
    requires c.PlaceOrder? && Placed(cfg, s, c).Some? && Tallied(s, refunding)
    ensures Tallied(Placed(cfg, s, c).value, refunding)
  {
    PlacedCounted(cfg, s, c, refunding);
    PlacedFaithful(cfg, s, c);
  }

  /** A placement pays nothing. */
  lemma PlacedPays(cfg: Config, s: Vault, c: Call)
    requires c.PlaceOrder? && Placed(cfg, s, c).Some? && P.Shaped(s)
    ensures var t := Placed(cfg, s, c).value;
      TotalPaid(t.trace) == TotalPaid(s.trace) && forall k :: PaidPart(t, k) == PaidPart(s, k)
  {
    Append(s.trace, OrderPlaced(s.nextOrderId + 1, c.sender));
  }

  lemma PlacedAccounted(cfg: Config, s: Vault, c: Call, refunding: set<nat>)
    requires c.PlaceOrder? && Placed(cfg, s, c).Some? && Accounted(s, refunding)
    ensures Accounted(Placed(cfg, s, c).value, refunding)
  {
    var t := Placed(cfg, s, c).value;
    PlacedTallied(cfg, s, c, refunding);
    PlacedPays(cfg, s, c);
    PaidChange(s, t, t.nextOrderId, s.nextOrderId);
    assert PaidUpTo(t, t.nextOrderId) == PaidUpTo(t, s.nextOrderId) + PaidPart(t, t.nextOrderId);
    assert PaidPart(s, t.nextOrderId) == 0;
  }

  lemma CancelledExpected(s: Vault, c: Call, refunding: set<nat>, kind: Kind, id: nat)
    requires c.CancelOrder? && Cancelled(s, c).Some? && c.id !in refunding
    ensures Expected(Cancelled(s, c).value, kind, id, refunding + {c.id})
         == Expected(s, kind, id, refunding) + One(kind == Cancelling && id == c.id)
  {
  }

  lemma CancelledCount(s: Vault, c: Call, refunding: set<nat>, kind: Kind, id: nat)
    requires c.CancelOrder? && Cancelled(s, c).Some? && Counted(s, refunding)
    ensures Count(Cancelled(s, c).value.trace, kind, id) == Expected(Cancelled(s, c).value, kind, id, refunding + {c.id})
  {
    assert c.id !in refunding;
    CountAppend(s.trace, OrderCancelled(c.id), kind, id);
    CancelledExpected(s, c, refunding, kind, id);
  }

  lemma CancelledCounted(s: Vault, c: Call, refunding: set<nat>)
    requires c.CancelOrder? && Cancelled(s, c).Some? && Counted(s, refunding)
    ensures Counted(Cancelled(s, c).value, refunding + {c.id})
  {
    var t := Cancelled(s, c).value;
    forall kind, id ensures Count(t.trace, kind, id) == Expected(t, kind, id, refunding + {c.id}) {
      CancelledCount(s, c, refunding, kind, id);
    }
    assert forall id <- refunding + {c.id} :: StatusOf(t, id) == STATUS_CANCELLED;
  }

  lemma CancelledTallied(s: Vault, c: Call, refunding: set<nat>)
    requires c.CancelOrder? && Cancelled(s, c).Some? && Tallied(s, refunding)
    ensures Tallied(Cancelled(s, c).value, refunding + {c.id})
  {
    CancelledCounted(s, c, refunding);
    Append(s.trace, OrderCancelled(c.id));
  }

  /** A cancellation pays nothing, and the order had not been paid. */
  lemma CancelledPays(s: Vault, c: Call)
    requires c.CancelOrder? && Cancelled(s, c).Some?
    ensures var t := Cancelled(s, c).value;
      TotalPaid(t.trace) == TotalPaid(s.trace) && forall k :: PaidPart(t, k) == PaidPart(s, k)
  {
    Append(s.trace, OrderCancelled(c.id));
  }

  lemma CancelledAccounted(s: Vault, c: Call, refunding: set<nat>)
    requires c.CancelOrder? && Cancelled(s, c).Some? && Accounted(s, refunding)
    ensures Accounted(Cancelled(s, c).value, refunding + {c.id})
  {
    CancelledTallied(s, c, refunding);
    CancelledPays(s, c);
    PaidChange(s, Cancelled(s, c).value, 0, s.nextOrderId);
  }

  lemma RefundAccounted(s: Vault, c: Call, refunding: set<nat>)
    requires c.CancelOrder? && c.id !in refunding && Accounted(s, refunding + {c.id})
    requires c.id in s.orders && s.orders[c.id].owner == c.sender
    ensures Accounted(Refund(s, c, s.orders[c.id].deposit), refunding)
  {
    var e := Refunded(c.id, c.sender, s.orders[c.id].deposit);
    var t := s.(trace := s.trace + [e]);
    Append(s.trace, e);
    assert StatusOf(s, c.id) == STATUS_CANCELLED;
    assert forall f <- s.trace :: Faithful(t, f);
    assert Faithful(t, e);
    assert forall f <- t.trace :: f in s.trace || f == e;
    PaidChange(s, t, c.id, s.nextOrderId);
  }

  /** The two events of a settlement, read back from the trace. */
  lemma SettledTrace(cfg: Config, s: Vault, c: Call)
    requires c.Settle? && SettleOrder(cfg, s, c).1
    ensures var t := SettleOrder(cfg, s, c).0;
      && (forall id :: id != c.id ==> PriceOf(t.trace, id) == PriceOf(s.trace, id))
      && TotalPaid(t.trace) == TotalPaid(s.trace) + PaidPart(t, c.id)
  {
    var t := SettleOrder(cfg, s, c).0;
    var executed, paid := t.trace[|s.trace|], t.trace[|s.trace| + 1];
    Append(s.trace, executed);
    Append(s.trace + [executed], paid);
    assert t.trace == s.trace + [executed] + [paid];
  }

  lemma SettledCount(cfg: Config, s: Vault, c: Call, kind: Kind, id: nat)
    requires c.Settle? && SettleOrder(cfg, s, c).1
    ensures Count(SettleOrder(cfg, s, c).0.trace, kind, id) ==
      Count(s.trace, kind, id) + One((kind == Executing || kind == Paying) && id == c.id)
  {
    var t := SettleOrder(cfg, s, c).0;
    var executed, paid := t.trace[|s.trace|], t.trace[|s.trace| + 1];
    CountAppend(s.trace, executed, kind, id);
    CountAppend(s.trace + [executed], paid, kind, id);
    assert t.trace == s.trace + [executed] + [paid];
  }

  lemma SettledCounted(cfg: Config, s: Vault, c: Call, refunding: set<nat>)
    requires c.Settle? && SettleOrder(cfg, s, c).1 && Counted(s, refunding)
    ensures Counted(SettleOrder(cfg, s, c).0, refunding)
  {
    forall kind, id
      ensures Count(SettleOrder(cfg, s, c).0.trace, kind, id) == Expected(SettleOrder(cfg, s, c).0, kind, id, refunding)
    {
      SettledCount(cfg, s, c, kind, id);
      SettledExpected(cfg, s, c, refunding, kind, id);
    }
  }

  lemma SettledExpected(cfg: Config, s: Vault, c: Call, refunding: set<nat>, kind: Kind, id: nat)
    requires c.Settle? && SettleOrder(cfg, s, c).1
    ensures Expected(SettleOrder(cfg, s, c).0, kind, id, refunding)
         == Expected(s, kind, id, refunding) + One((kind == Executing || kind == Paying) && id == c.id)
  {
  }

  lemma SettledFaithful(cfg: Config, s: Vault, c: Call)
    requires c.Settle? && SettleOrder(cfg, s, c).1 && AllFaithful(s)
    ensures AllFaithful(SettleOrder(cfg, s, c).0)
  {
    var t := SettleOrder(cfg, s, c).0;
    var executed, paid := t.trace[|s.trace|], t.trace[|s.trace| + 1];
    Append(s.trace, executed);
    Append(s.trace + [executed], paid);
    assert t.trace == s.trace + [executed] + [paid];
  }

  lemma SettledTallied(cfg: Config, s: Vault, c: Call, refunding: set<nat>)
    requires c.Settle? && Tallied(s, refunding)
    ensures Tallied(SettleOrder(cfg, s, c).0, refunding)
  {
    if SettleOrder(cfg, s, c).1 {
      SettledCounted(cfg, s, c, refunding);
      SettledFaithful(cfg, s, c);
    }
  }

  lemma SettledAccounted(cfg: Config, s: Vault, c: Call, refunding: set<nat>)
    requires c.Settle? && Accounted(s, refunding)
    ensures Accounted(SettleOrder(cfg, s, c).0, refunding)
  {
    SettledTallied(cfg, s, c, refunding);
    var (t, ok) := SettleOrder(cfg, s, c);
    if ok {
      SettledTrace(cfg, s, c);
      PaidChange(s, t, c.id, s.nextOrderId);
      assert PaidPart(s, c.id) == 0;
    }
  }

  /** The calls that touch neither orders nor trace. */
  lemma InertAccounted(s: Vault, t: Vault, refunding: set<nat>)
    requires Accounted(s, refunding)
    requires t.orders == s.orders && t.nextOrderId == s.nextOrderId && t.trace == s.trace
    ensures Accounted(t, refunding)
  {
    PaidChange(s, t, 0, s.nextOrderId);
  }

  /** Accounting through every call, nested to any depth. */
  lemma {:induction false} ExecAccounted(cfg: Config, s: Vault, c: Call, refunding: set<nat>)
    requires Accounted(s, refunding)
    ensures Accounted(Exec(cfg, s, c).0, refunding)
    decreases c, 3
  {
    match c
    case PlaceOrder(_, _, _, teeIds, send) =>
      if Placed(cfg, s, c).Some? {
        PlacedAccounted(cfg, s, c, refunding);
        InstructionAccounted(cfg, Placed(cfg, s, c).value, cfg.fee, teeIds, send, refunding);
      }
    case CancelOrder(_, value, id, teeIds, send, refund) =>
      if Cancelled(s, c).Some? {
        var cancelled := Cancelled(s, c).value;
        CancelledAccounted(s, c, refunding);
        InstructionAccounted(cfg, cancelled, value, teeIds, send, refunding + {id});
        var (sent, ok) := SendInstruction(cfg, cancelled, value, teeIds, send);
        var deposit := s.orders[id].deposit;
        SentRefundAccounted(cfg, s, c, refunding);
        CallOutAccounted(cfg, Refund(sent, c, deposit), deposit, refund, refunding);
      }
    case Settle(_, _, _, _, _, _) => SettledAccounted(cfg, s, c, refunding);
    case _ => InertAccounted(s, Exec(cfg, s, c).0, refunding);
  }

  lemma SentRefundAccounted(cfg: Config, s: Vault, c: Call, refunding: set<nat>)
    requires c.CancelOrder? && Cancelled(s, c).Some? && Accounted(s, refunding)
    requires var sent := SendInstruction(cfg, Cancelled(s, c).value, c.value, c.teeIds, c.send).0;
      Accounted(sent, refunding + {c.id})
    ensures var sent := SendInstruction(cfg, Cancelled(s, c).value, c.value, c.teeIds, c.send).0;
      Accounted(Refund(sent, c, s.orders[c.id].deposit), refunding)
  {
    var cancelled := Cancelled(s, c).value;
    InstructionAdvances(cfg, cancelled, c.value, c.teeIds, c.send);
    var sent := SendInstruction(cfg, cancelled, c.value, c.teeIds, c.send).0;
    assert c.id in cancelled.orders && c.id !in refunding;
    RefundAccounted(sent, c, refunding);
  }

  lemma {:induction false} InstructionAccounted(cfg: Config, s: Vault, fee: nat, teeIds: bool, send: Reply, refunding: set<nat>)
    requires Accounted(s, refunding)
    ensures Accounted(SendInstruction(cfg, s, fee, teeIds, send).0, refunding)
    decreases send, 2
  {
    CallOutAccounted(cfg, s, fee, send, refunding);
  }

  lemma {:induction false} CallOutAccounted(cfg: Config, s: Vault, amount: nat, reply: Reply, refunding: set<nat>)
    requires Accounted(s, refunding)
    ensures Accounted(CallOut(cfg, s, amount, reply).0, refunding)
    decreases reply, 1
  {
    if s.balance >= amount {
      InertAccounted(s, s.(balance := s.balance - amount), refunding);
      RunAccounted(cfg, s.(balance := s.balance - amount), reply.nested, refunding);
    }
  }

  lemma {:induction false} RunAccounted(cfg: Config, s: Vault, calls: seq<Call>, refunding: set<nat>)
    requires Accounted(s, refunding)
    ensures Accounted(ExecAll(cfg, s, calls), refunding)
    decreases calls, 0
  {
    if calls != [] {
      ExecAccounted(cfg, s, calls[0], refunding);
      RunAccounted(cfg, Exec(cfg, s, calls[0]).0, calls[1..], refunding);
    }
  }

  // ----- the theorems about whole runs

  /** From the empty vault on, every order is paid or refunded at most once and
      never both: an executed order is paid exactly once, a cancelled one
      refunded exactly once, any other neither. */
  lemma PaidOrRefundedOnce(cfg: Config, token: Token, calls: seq<Call>, id: nat)
    ensures var s := ExecAll(cfg, InitialVault(token), calls);
      && Count(s.trace, Paying, id) == One(StatusOf(s, id) == STATUS_EXECUTED)
      && Count(s.trace, Refunding, id) == One(StatusOf(s, id) == STATUS_CANCELLED)
      && Count(s.trace, Paying, id) + Count(s.trace, Refunding, id) <= 1
  {
    RunAccounted(cfg, InitialVault(token), calls, {});
  }

  /** Everything paid is the sum of floor(deposit * price / 10^18) over the
      executed orders. */
  lemma TotalIsTheSumOfPayouts(cfg: Config, token: Token, calls: seq<Call>)
    ensures var s := ExecAll(cfg, InitialVault(token), calls);
      TotalPaid(s.trace) == PaidUpTo(s, s.nextOrderId)
  {
    RunAccounted(cfg, InitialVault(token), calls, {});
  }

  lemma PayoutMonotone(deposit: nat, price: nat, trigger: nat)
    requires price <= trigger
    ensures Payout(deposit, price) <= Payout(deposit, trigger)
  {
    assert deposit * price <= deposit * trigger;
    FloorMonotone(deposit * price, deposit * trigger, ONE_NATIVE);
  }

  /** Each payment goes to the order's owner, for its deposit at its execution
      price, and is at most the deposit at the disclosed trigger. */
  lemma EveryPaymentIsBounded(cfg: Config, token: Token, calls: seq<Call>, k: nat)
    requires k < |ExecAll(cfg, InitialVault(token), calls).trace|
    requires ExecAll(cfg, InitialVault(token), calls).trace[k].Paid?
    ensures var s := ExecAll(cfg, InitialVault(token), calls);
      var e := s.trace[k];
      && e.id in s.orders && e.to == s.orders[e.id].owner
      && e.amount == Payout(s.orders[e.id].deposit, PriceOf(s.trace, e.id))
      && e.amount <= Payout(s.orders[e.id].deposit, e.trigger)
  {
    RunAccounted(cfg, InitialVault(token), calls, {});
    var s := ExecAll(cfg, InitialVault(token), calls);
    var e := s.trace[k];
    assert Faithful(s, e);
    PayoutMonotone(s.orders[e.id].deposit, PriceOf(s.trace, e.id), e.trigger);
  }

  lemma {:induction false} ExecAllAppend(cfg: Config, s: Vault, calls: seq<Call>, more: seq<Call>)
    ensures ExecAll(cfg, s, calls + more) == ExecAll(cfg, ExecAll(cfg, s, calls), more)
    decreases |calls|
  {
    if calls == [] {
      assert calls + more == more;
    } else {
      assert (calls + more)[1..] == calls[1..] + more;
      ExecAllAppend(cfg, Exec(cfg, s, calls[0]).0, calls[1..], more);
    }
  }

  /** Over every run each order only moves forward, and a final status stays. */
  lemma OrdersOnlyAdvance(cfg: Config, token: Token, calls: seq<Call>, more: seq<Call>)
    ensures Advances(ExecAll(cfg, InitialVault(token), calls), ExecAll(cfg, InitialVault(token), calls + more))
  {
    var s := ExecAll(cfg, InitialVault(token), calls);
    RunAccounted(cfg, InitialVault(token), calls, {});
    RunAdvances(cfg, s, more);
    ExecAllAppend(cfg, InitialVault(token), calls, more);
  }
}
