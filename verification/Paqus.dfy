/** The values a node handles, and what it relies on from the consensus crate.

    Hashes and addresses are fixed-width byte strings, ordered as the big-endian
    numbers they spell, so both are naturals here. A transaction or header carries
    its own hash; where a result needs hashing to be injective, it says so. */
module Paqus {

  type Hash = nat
  type Address = nat
  type Coin = nat

  const ZERO_HASH: Hash := 0
  const U64_MAX: nat := 0xFFFF_FFFF_FFFF_FFFF
  const U32_MAX: nat := 0xFFFF_FFFF

  datatype Option<+T> = None | Some(value: T)

  datatype Result<+T, +E> = Ok(value: T) | Err(error: E)

  type Positive = n: nat | 0 < n witness 1

  datatype Family = BatchTransfer | QCash

  datatype Tx = Tx(
    hash: Hash,
    family: Family,
    signer: Address,
    lastState: Hash,
    recipients: seq<Address>,
    coins: seq<Coin>,
    minerOutputs: nat,
    size: nat,
    virtualSize: nat,
    bounty: nat)

  datatype Header = Header(
    hash: Hash,
    height: nat,
    previous: Hash,
    work: Positive,
    stateRoot: Hash,
    miner: Address)

  datatype Coinbase = Coinbase(to: Address, amount: nat)

  datatype Body = Body(
    allocations: seq<Coinbase>,
    coinbase: Option<Coinbase>,
    txs: seq<Tx>)

  datatype Block = Block(header: Header, body: Body, nonce: nat)

  /** Some transaction of the block has the hash. */
  predicate Carries(b: Block, tx: Hash) {
    exists i :: 0 <= i < |b.body.txs| && b.body.txs[i].hash == tx
  }

  function SaturatingSub(a: nat, b: nat): nat {
    if a < b then 0 else a - b
  }

  function SaturatingAdd(a: nat, b: nat): nat {
    if a + b > U64_MAX then U64_MAX else a + b
  }

  function Min(a: int, b: int): int {
    if a < b then a else b
  }

  function Max(a: int, b: int): int {
    if a < b then b else a
  }

  ghost predicate NoRepeats<T>(s: seq<T>) {
    forall i, j :: 0 <= i < j < |s| ==> s[i] != s[j]
  }

  /** Accounts together with the QCash set: whatever the ledger rules compute. */
  type State(==, !new)

  datatype LedgerError = Refused | AlreadyApplied

  datatype Ledger = Ledger(state: State, chain: seq<Block>)

  /** The consensus crate, as far as the node can see it: deterministic functions of
      their arguments. A failed ledger step yields no state, so the caller keeps its own.
      `refresh` recomputes a header's commitments; a header takes the same room whatever it
      commits to, so size and weight depend on the body. */
  datatype Rules = Rules(
    finalityDepth: nat,
    genesisHash: Hash,
    genesisOk: Block -> bool,
    nextOk: (Block, Block) -> bool,
    execute: (State, seq<Block>, Block) -> Result<State, LedgerError>,
    rootAfter: (State, seq<Block>, Block) -> Result<Hash, LedgerError>,
    accountsOf: State -> State,
    applyTx: (State, Tx, nat) -> Option<State>,
    validAt: (Tx, nat) -> bool,
    proofOk: (Block, nat) -> bool,
    refresh: Block -> Header,
    blockSize: Body -> nat,
    blockWeight: Body -> nat)

  /** What the node relies on: an accepted successor is one higher than its parent, and
      executing the genesis block creates accounts only, so they alone rebuild its state. */
  ghost predicate Lawful(r: Rules) {
    && (forall b, p :: r.nextOk(b, p) ==> b.header.height == p.header.height + 1)
    && (forall s, b :: r.execute(s, [], b).Ok? ==>
         r.accountsOf(r.execute(s, [], b).value) == r.execute(s, [], b).value)
  }

  /** The state after replaying `chain` on top of the genesis accounts: the genesis block
      itself is only recorded, every later block is executed. */
  function Replay(r: Rules, genesis: State, chain: seq<Block>): Result<State, LedgerError>
    requires chain != []
  {
    if |chain| == 1 then Ok(genesis) else
    var before := chain[..|chain| - 1];
    match Replay(r, genesis, before)
    case Err(e) => Err(e)
    case Ok(s) => r.execute(s, before, chain[|chain| - 1])
  }
}
