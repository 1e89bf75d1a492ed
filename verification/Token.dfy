/** MockUSDT0, the payout ledger: checked uint256 balances, where a failed
    `require` or a checked overflow reverts the whole call. */
module PayoutToken {
  import opened Numbers

  type Address = nat

  datatype Token = Token(owner: Address, supply: nat, balances: map<Address, nat>, allowances: map<(Address, Address), nat>)

  datatype TokenCall =
    | MintCall(sender: Address, to: Address, amount: nat)
    | TransferCall(sender: Address, to: Address, amount: nat)
    | TransferFromCall(sender: Address, from: Address, to: Address, amount: nat)
    | ApproveCall(sender: Address, spender: Address, amount: nat)

  function BalanceOf(t: Token, a: Address): nat {
    if a in t.balances then t.balances[a] else 0
  }

  function Allowance(t: Token, a: Address, spender: Address): nat {
    if (a, spender) in t.allowances then t.allowances[(a, spender)] else 0
  }

  /** `balanceOf[a] += amount`, reverting on overflow. */
  function Credit(t: Token, a: Address, amount: nat): Option<Token> {
    if BalanceOf(t, a) + amount > MAX_UINT256 then None
    else Some(t.(balances := t.balances[a := BalanceOf(t, a) + amount]))
  }

  function Mint(t: Token, sender: Address, to: Address, amount: nat): Option<Token> {
    if sender != t.owner || t.supply + amount > MAX_UINT256 then None
    else Credit(t.(supply := t.supply + amount), to, amount)
  }

  /** The internal `_transfer`: debit first, then credit, also to oneself. */
  function Move(t: Token, from: Address, to: Address, amount: nat): Option<Token> {
    if BalanceOf(t, from) < amount then None
    else Credit(t.(balances := t.balances[from := BalanceOf(t, from) - amount]), to, amount)
  }

  function TransferFrom(t: Token, sender: Address, from: Address, to: Address, amount: nat): Option<Token> {
    var allowed := Allowance(t, from, sender);
    if allowed < amount then None
    else if allowed == MAX_UINT256 then Move(t, from, to, amount)
    else Move(t.(allowances := t.allowances[(from, sender) := allowed - amount]), from, to, amount)
  }

  function Call(t: Token, c: TokenCall): Option<Token> {
    match c
    case MintCall(sender, to, amount) => Mint(t, sender, to, amount)
    case TransferCall(sender, to, amount) => Move(t, sender, to, amount)
    case TransferFromCall(sender, from, to, amount) => TransferFrom(t, sender, from, to, amount)
    case ApproveCall(sender, spender, amount) =>
      Some(t.(allowances := t.allowances[(sender, spender) := amount]))
  }

  // ----- supply equals the sum of balances

  ghost function Sum(m: map<Address, nat>): nat
    decreases |m|
  {
    if m == map[] then 0
    else
      var a :| a in m;
      m[a] + Sum(m - {a})
  }

  lemma {:induction false} SumWithout(m: map<Address, nat>, a: Address)
    requires a in m
    ensures Sum(m) == m[a] + Sum(m - {a})
    decreases |m|
  {
    var b :| b in m && Sum(m) == m[b] + Sum(m - {b});
    if a != b {
      SumWithout(m - {b}, a);
      SumWithout(m - {a}, b);
      assert m - {b} - {a} == m - {a} - {b};
    }
  }

  lemma SumUpdate(m: map<Address, nat>, a: Address, amount: nat)
    ensures Sum(m[a := amount]) == Sum(m) - (if a in m then m[a] else 0) + amount
  {
    SumWithout(m[a := amount], a);
    assert m[a := amount] - {a} == m - {a};
    if a in m {
      SumWithout(m, a);
    } else {
      assert m - {a} == m;
    }
  }

  ghost predicate Balanced(t: Token) {
    t.supply == Sum(t.balances) && t.supply <= MAX_UINT256
  }

  lemma CreditKeeps(t: Token, to: Address, amount: nat)
    requires Sum(t.balances) + amount <= MAX_UINT256
    ensures var credited := Credit(t, to, amount);
      && credited.Some? && credited.value.supply == t.supply
      && Sum(credited.value.balances) == Sum(t.balances) + amount
  {
    if to in t.balances {
      SumWithout(t.balances, to);
    }
    SumUpdate(t.balances, to, BalanceOf(t, to) + amount);
  }

  /** A transfer fails only for lack of balance - the credit never overflows -
      and keeps the supply, self-transfers included. */
  lemma MoveKeepsSupply(t: Token, from: Address, to: Address, amount: nat)
    requires Balanced(t)
    ensures Move(t, from, to, amount).Some? <==> BalanceOf(t, from) >= amount
    ensures Move(t, from, to, amount).Some? ==>
      Balanced(Move(t, from, to, amount).value) && Move(t, from, to, amount).value.supply == t.supply
  {
    if BalanceOf(t, from) >= amount {
      SumUpdate(t.balances, from, BalanceOf(t, from) - amount);
      CreditKeeps(t.(balances := t.balances[from := BalanceOf(t, from) - amount]), to, amount);
    }
  }

  /** A transfer moves exactly `amount` and touches nobody else. */
  lemma MoveExactly(t: Token, from: Address, to: Address, amount: nat, a: Address)
    requires Balanced(t) && BalanceOf(t, from) >= amount
    ensures var t' := Move(t, from, to, amount);
      && t'.Some?
      && BalanceOf(t'.value, a) == BalanceOf(t, a)
           - (if a == from then amount else 0) + (if a == to then amount else 0)
  {
    MoveKeepsSupply(t, from, to, amount);
  }

  lemma TransferFromKeeps(t: Token, c: TokenCall)
    requires Balanced(t) && c.TransferFromCall?
    ensures Call(t, c).Some? ==> Balanced(Call(t, c).value)
  {
    var allowed := Allowance(t, c.from, c.sender);
    MoveKeepsSupply(t, c.from, c.to, c.amount);
    if allowed >= c.amount {
      MoveKeepsSupply(t.(allowances := t.allowances[(c.from, c.sender) := allowed - c.amount]), c.from, c.to, c.amount);
    }
  }

  /** No call makes supply and balances disagree. */
  lemma CallKeepsBalanced(t: Token, c: TokenCall)
    requires Balanced(t)
    ensures Call(t, c).Some? ==> Balanced(Call(t, c).value)
  {
    match c
    case MintCall(sender, to, amount) =>
      if t.supply + amount <= MAX_UINT256 {
        CreditKeeps(t, to, amount);
      }
    case TransferCall(sender, to, amount) => MoveKeepsSupply(t, sender, to, amount);
    case TransferFromCall(_, _, _, _) => TransferFromKeeps(t, c);
    case ApproveCall(_, _, _) =>
  }

  // ----- who may change what

  lemma SupplyChange(t: Token, c: TokenCall)
    ensures Call(t, c).Some? ==> Call(t, c).value.owner == t.owner
    ensures Call(t, c).Some? && Call(t, c).value.supply != t.supply ==>
      c.MintCall? && c.sender == t.owner && Call(t, c).value.supply == t.supply + c.amount
  {
  }

  /** A balance falls only in a transfer by its owner, or by a spender within the
      allowance, which falls by the same amount unless it is unlimited; an allowance
      changes otherwise only in its owner's approval. */
  lemma OnlyOwnersSpend(t: Token, c: TokenCall, a: Address, spender: Address)
    requires Balanced(t) && Call(t, c).Some?
    ensures var u := Call(t, c).value;
      && (BalanceOf(u, a) < BalanceOf(t, a) ==>
            || (c.TransferCall? && c.sender == a && c.amount <= BalanceOf(t, a))
            || (c.TransferFromCall? && c.from == a && c.amount <= Allowance(t, a, c.sender)))
      && (Allowance(u, a, spender) != Allowance(t, a, spender) ==>
            || (c.ApproveCall? && c.sender == a && c.spender == spender && Allowance(u, a, spender) == c.amount)
            || (c.TransferFromCall? && c.from == a && c.sender == spender && Allowance(t, a, spender) != MAX_UINT256
                && Allowance(u, a, spender) == Allowance(t, a, spender) - c.amount))
      && (c.TransferFromCall? && Allowance(t, c.from, c.sender) != MAX_UINT256 ==>
            Allowance(u, c.from, c.sender) == Allowance(t, c.from, c.sender) - c.amount)
  {
  }

  /** What a transfer does to the balance of `a`. */
  predicate Moved(t: Token, u: Token, from: Address, to: Address, amount: nat, a: Address) {
    BalanceOf(u, a) == BalanceOf(t, a) - (if a == from then amount else 0) + (if a == to then amount else 0)
  }

  /** When each token call succeeds, and what it does to every balance. */
  lemma CallExactly(t: Token, c: TokenCall, a: Address)
    requires Balanced(t)
    ensures match c
      case MintCall(sender, to, amount) =>
        && (Call(t, c).Some? <==> sender == t.owner && t.supply + amount <= MAX_UINT256)
        && (Call(t, c).Some? ==> BalanceOf(Call(t, c).value, a) == BalanceOf(t, a) + if a == to then amount else 0)
      case TransferCall(sender, to, amount) =>
        && (Call(t, c).Some? <==> amount <= BalanceOf(t, sender))
        && (Call(t, c).Some? ==> Moved(t, Call(t, c).value, sender, to, amount, a))
      case TransferFromCall(sender, from, to, amount) =>
        && (Call(t, c).Some? <==> amount <= Allowance(t, from, sender) && amount <= BalanceOf(t, from))
        && (Call(t, c).Some? ==> Moved(t, Call(t, c).value, from, to, amount, a))
      case ApproveCall(sender, spender, amount) =>
        Call(t, c).Some? && Call(t, c).value.balances == t.balances && Allowance(Call(t, c).value, sender, spender) == amount
  {
    match c
    case MintCall(sender, to, amount) =>
      if t.supply + amount <= MAX_UINT256 {
        CreditKeeps(t, to, amount);
      }
    case TransferCall(sender, to, amount) => TransferExactly(t, sender, to, amount, a);
    case TransferFromCall(sender, from, to, amount) =>
      var left := if Allowance(t, from, sender) >= amount then Allowance(t, from, sender) - amount else 0;
      TransferExactly(t, from, to, amount, a);
      TransferExactly(t.(allowances := t.allowances[(from, sender) := left]), from, to, amount, a);
    case ApproveCall(_, _, _) =>
  }

  lemma TransferExactly(t: Token, from: Address, to: Address, amount: nat, a: Address)
    requires Balanced(t)
    ensures Move(t, from, to, amount).Some? <==> amount <= BalanceOf(t, from)
    ensures Move(t, from, to, amount).Some? ==> Moved(t, Move(t, from, to, amount).value, from, to, amount, a)
  {
    MoveKeepsSupply(t, from, to, amount);
    if amount <= BalanceOf(t, from) {
      MoveExactly(t, from, to, amount, a);
    }
  }

  // ----- the contract

  /** The contract's storage; a method that returns false has reverted. */
  class MockUsdt0 {
    const owner: Address
    var totalSupply: nat
    var balanceOf: map<Address, nat>
    var allowance: map<(Address, Address), nat>

    function View(): Token
      reads this
    {
      Token(owner, totalSupply, balanceOf, allowance)
    }

    constructor (sender: Address)
      ensures View() == Token(sender, 0, map[], map[]) && Balanced(View())
    {
      owner := sender;
      totalSupply, balanceOf, allowance := 0, map[], map[];
    }

    method Mint(sender: Address, to: Address, amount: nat) returns (ok: bool)
      requires Balanced(View())
      modifies this
      ensures Balanced(View())
      ensures var after := Call(old(View()), MintCall(sender, to, amount));
        ok == after.Some? && View() == if ok then after.value else old(View())
    {
      CallKeepsBalanced(View(), MintCall(sender, to, amount));
      if sender != owner || totalSupply + amount > MAX_UINT256 {
        return false;
      }
      var balance := if to in balanceOf then balanceOf[to] else 0;
      if balance + amount > MAX_UINT256 {
        return false;
      }
      totalSupply := totalSupply + amount;
      balanceOf := balanceOf[to := balance + amount];
      ok := true;
    }

    method Transfer(sender: Address, to: Address, amount: nat) returns (ok: bool)
      requires Balanced(View())
      modifies this
      ensures Balanced(View())
      ensures var after := Call(old(View()), TransferCall(sender, to, amount));
        ok == after.Some? && View() == if ok then after.value else old(View())
    {
      CallKeepsBalanced(View(), TransferCall(sender, to, amount));
      ok := MoveBalance(sender, to, amount);
    }

    method TransferFrom(sender: Address, from: Address, to: Address, amount: nat) returns (ok: bool)
      requires Balanced(View())
      modifies this
      ensures Balanced(View())
      ensures var after := Call(old(View()), TransferFromCall(sender, from, to, amount));
        ok == after.Some? && View() == if ok then after.value else old(View())
    {
      CallKeepsBalanced(View(), TransferFromCall(sender, from, to, amount));
      var before := allowance;
      var allowed := if (from, sender) in allowance then allowance[(from, sender)] else 0;
      if allowed < amount {
        return false;
      }
      if allowed != MAX_UINT256 {
        allowance := allowance[(from, sender) := allowed - amount];
      }
      ok := MoveBalance(from, to, amount);
      if !ok {
        allowance := before;
      }
    }

    /** The EVM undoes a reverted call's writes. */
    method Restore(t: Token)
      requires t.owner == owner
      modifies this
      ensures View() == t
    {
      totalSupply, balanceOf, allowance := t.supply, t.balances, t.allowances;
    }

    method Use(c: TokenCall) returns (ok: bool)
      requires Balanced(View())
      modifies this
      ensures Balanced(View())
      ensures var after := Call(old(View()), c);
        ok == after.Some? && View() == if ok then after.value else old(View())
    {
      CallKeepsBalanced(View(), c);
      match c
      case MintCall(sender, to, amount) => ok := Mint(sender, to, amount);
      case TransferCall(sender, to, amount) => ok := Transfer(sender, to, amount);
      case TransferFromCall(sender, from, to, amount) => ok := TransferFrom(sender, from, to, amount);
      case ApproveCall(sender, spender, amount) =>
        Approve(sender, spender, amount);
        ok := true;
    }

    method Approve(sender: Address, spender: Address, amount: nat)
      modifies this
      ensures Some(View()) == Call(old(View()), ApproveCall(sender, spender, amount))
    {
      allowance := allowance[(sender, spender) := amount];
    }

    method MoveBalance(from: Address, to: Address, amount: nat) returns (ok: bool)
      modifies this
      ensures var after := Move(old(View()), from, to, amount);
        ok == after.Some? && View() == if ok then after.value else old(View())
    {
      var before := balanceOf;
      var balance := if from in balanceOf then balanceOf[from] else 0;
      if balance < amount {
        return false;
      }
      balanceOf := balanceOf[from := balance - amount];
      var credited := if to in balanceOf then balanceOf[to] else 0;
      if credited + amount > MAX_UINT256 {
        balanceOf := before;
        return false;
      }
      balanceOf := balanceOf[to := credited + amount];
      ok := true;
    }
  }
}
