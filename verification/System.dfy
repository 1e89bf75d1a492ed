/** Store, watcher, chain and vault as one transition system. */
module DarkStopSystem {
  import opened Numbers
  import opened Settlement
  import opened PayoutToken
  import V = VaultSpec
  import PriceAgreement

  /** The vault's immutables, the watcher's own address, and every address that
      the vault's owner ever appoints as executor. */
  datatype World = World(cfg: V.Config, executor: Address, appointed: set<Address>)

  /** The canonical chain: the vault, the executor account's nonce, and the
      status of every mined settle by the executor. */
  datatype Chain = Chain(vault: V.Vault, nonce: nat, receipts: map<Tx, bool>)

  /** A broadcast is mined, somebody calls the vault or the token, or the executor
      account sends a transaction that is not the watcher's. A broadcast that runs
      out of gas is one whose feed read fails. */
  datatype ChainStep =
    | Mine(tx: Tx, feed: Option<V.FeedData>, now: nat)
    | Other(call: V.Call)
    | Spend(call: V.Call)

  /** The account nonce rule: only the transaction with the account's own nonce
      can be mined, once, and it uses that nonce up whether or not it reverts
      (section 6 of the Ethereum Yellow Paper). */
  ghost predicate Enabled(c: Chain, s: ChainStep, sent: set<Tx>) {
    s.Mine? ==> s.tx in sent && s.tx.nonce == c.nonce
  }

  ghost function Advance(world: World, c: Chain, s: ChainStep): Chain {
    match s
    case Mine(tx, feed, now) =>
      var (vault, ok) := V.Exec(world.cfg, c.vault, PriceAgreement.SettleCall(world.executor, tx, feed, now));
      Chain(vault, c.nonce + 1, c.receipts[tx := ok])
    case Other(call) => c.(vault := V.Exec(world.cfg, c.vault, call).0)
    case Spend(call) => c.(vault := V.Exec(world.cfg, c.vault, call).0, nonce := c.nonce + 1)
  }

  function Last(hist: seq<Chain>): Chain
    requires hist != []
  {
    hist[|hist| - 1]
  }

  /** The history of the chain, continued by `steps`. */
  ghost function Extend(world: World, hist: seq<Chain>, steps: seq<ChainStep>): (r: seq<Chain>)
    requires hist != []
    ensures hist <= r
    decreases |steps|
  {
    if steps == [] then hist else Extend(world, hist + [Advance(world, Last(hist), steps[0])], steps[1..])
  }

  ghost predicate AllEnabled(world: World, c: Chain, steps: seq<ChainStep>, sent: set<Tx>)
    decreases |steps|
  {
    steps == [] || (Enabled(c, steps[0], sent) && AllEnabled(world, Advance(world, c, steps[0]), steps[1..], sent))
  }

  // ----- what RPC may answer

  predicate MinedAs(c: Chain, tx: Tx, ok: bool) {
    tx in c.receipts && c.receipts[tx] == ok
  }

  ghost predicate TruthfulReceipts(receipt: Tx -> Answer<bool>, hist: seq<Chain>) {
    forall tx :: receipt(tx).Got? ==> exists k :: 0 <= k < |hist| && MinedAs(hist[k], tx, receipt(tx).value)
  }

  ghost predicate TruthfulReconciliation(r: Reconciliation, hist: seq<Chain>) {
    && TruthfulReceipts(r.receipt, hist)
    && (forall tx :: r.lookup(tx) == Got(false) ==> exists k :: 0 <= k < |hist| && tx in hist[k].receipts)
    && (forall o :: r.status(o).Got? ==> exists k :: 0 <= k < |hist| && V.StatusOf(hist[k].vault, o) == r.status(o).value)
  }

  /** Every receipt, mined transaction and order status that is reported was true
      at some state of the chain so far. Any call may also fail or find nothing,
      and prices, gas prices and account nonces are not constrained at all. */
  ghost predicate Truthful(i: TickInput, hist: seq<Chain>) {
    && (forall o :: TruthfulReconciliation(i.reconcile(o), hist))
    && (forall o, k :: TruthfulReceipts(i.submit(o).attempt(k).receipt, hist))
  }

  // ----- the system

  datatype System = System(enclave: State, hist: seq<Chain>)

  /** A tick, with what the chain does while it runs; an instruction; or a chain
      step between ticks. */
  datatype SystemStep =
    | TickStep(input: TickInput, during: seq<ChainStep>)
    | InstructionStep(instruction: Instruction)
    | ChainEvent(step: ChainStep)

  ghost function SentTxs(log: seq<Event>): set<Tx> {
    set e | e in log && e.Sent? :: e.tx
  }

  ghost function Next(world: World, sys: System, s: SystemStep): (r: System)
    requires sys.hist != []
    ensures sys.hist <= r.hist
  {
    match s
    case TickStep(i, during) => System(Tick(sys.enclave, i), Extend(world, sys.hist, during))
    case InstructionStep(x) => sys.(enclave := Instructed(sys.enclave, [x]))
    case ChainEvent(c) => sys.(hist := Extend(world, sys.hist, [c]))
  }

  /** While a tick runs the chain may mine anything the watcher has sent by the
      tick's end, and answers may be about any state up to then: this allows every
      interleaving of the tick's calls with the chain. */
  ghost predicate Legal(world: World, sys: System, s: SystemStep)
    requires sys.hist != []
  {
    match s
    case TickStep(i, during) =>
      && AllEnabled(world, Last(sys.hist), during, SentTxs(Tick(sys.enclave, i).log))
      && Truthful(i, Extend(world, sys.hist, during))
    case InstructionStep(x) => true
    case ChainEvent(c) => Enabled(Last(sys.hist), c, SentTxs(sys.enclave.log))
  }

  ghost function Run(world: World, sys: System, steps: seq<SystemStep>): (r: System)
    requires sys.hist != []
    ensures r.hist != []
    decreases |steps|
  {
    if steps == [] then sys else Run(world, Next(world, sys, steps[0]), steps[1..])
  }

  ghost predicate LegalRun(world: World, sys: System, steps: seq<SystemStep>)
    requires sys.hist != []
    decreases |steps|
  {
    steps == [] || (Legal(world, sys, steps[0]) && LegalRun(world, Next(world, sys, steps[0]), steps[1..]))
  }

  /** An empty vault and an executor account that may have been used before. */
  function Start(token: Token, nonce: nat): System {
    System(Initial, [Chain(V.InitialVault(token), nonce, map[])])
  }
}
