/** Applying a block whose parent is known: extend, keep on the side, or switch branches. */
module ChainEngine {
  import opened Paqus
  import opened ForkTree
  import opened CoreCache
  import M = Mempool

  datatype NodeError =
    | ForkChoiceError(kind: InsertError)
    | LedgerFailure(reason: LedgerError)
    | InvalidStateRoot
    | ConsensusError
    | FinalityViolation
    | MissingForkNode
    | MissingForkBranch
    | MissingBestTip
    | MissingCommonAncestor
    | MissingStagedLedger
    | TransactionIndexOverflow
    | ProofError

  datatype Outcome = Done | Failed(error: NodeError)

  datatype Status =
    | Detected
    | Requeued
    | Reconfirmed(height: nat, block: Hash)
    | Conflict

  datatype Issue = Issue(
    tx: Tx,
    blockHeight: nat,
    blockHash: Hash,
    index: nat,
    detectedAt: nat,
    status: Status,
    attempts: nat)

  /** Issues are keyed by the disconnected block and the transaction. */
  type IssueKey = (Hash, Hash)

  datatype ProofContext = ProofContext(losing: seq<Header>, winning: seq<Header>, ancestor: Hash)

  datatype Disk = Disk(
    canonical: Option<Ledger>,
    blocks: map<Hash, Block>,
    issues: map<IssueKey, Issue>,
    contexts: set<ProofContext>)

  datatype Core = Core(
    ledger: Ledger,
    tree: Tree,
    cache: Cache,
    genesis: State,
    pool: M.Pool,
    disk: Disk,
    reorgs: nat)

  // ---- Validation against the parent ----

  function CheckHeader(r: Rules, s: Core, b: Block): Option<NodeError> {
    if b.header.height == 0 then
      if r.genesisOk(b) && b.header.hash == r.genesisHash then None else Some(ConsensusError)
    else if b.header.previous !in s.tree then Some(ForkChoiceError(MissingParent))
    else if !r.nextOk(b, s.tree[b.header.previous].block) then Some(ConsensusError)
    else None
  }

  function TipHash(l: Ledger): Hash
    requires l.chain != []
  {
    l.chain[|l.chain| - 1].header.hash
  }

  predicate ExtendsTip(l: Ledger, b: Block) {
    if l.chain == [] then b.header.height == 0 else b.header.previous == TipHash(l)
  }

  function LedgerForTip(r: Rules, s: Core, tip: Hash): Result<Ledger, NodeError> {
    var chain := ChainTo(s.tree, tip);
    if chain == [] then Err(MissingForkNode) else
    match Replay(r, s.genesis, chain)
    case Err(e) => Err(LedgerFailure(e))
    case Ok(state) => Ok(Ledger(state, chain))
  }

  function CheckRoot(r: Rules, l: Ledger, b: Block): Option<NodeError> {
    match r.rootAfter(l.state, l.chain, b)
    case Err(e) => Some(LedgerFailure(e))
    case Ok(root) =>
      if b.header.stateRoot != root then Some(InvalidStateRoot)
      else if b.header.height != 0 && b.header.stateRoot == ZERO_HASH then Some(InvalidStateRoot)
      else None
  }

  function ExecuteOn(r: Rules, l: Ledger, b: Block): Result<Ledger, NodeError> {
    match r.execute(l.state, l.chain, b)
    case Err(e) => Err(LedgerFailure(e))
    case Ok(state) => Ok(Ledger(state, l.chain + [b]))
  }

  /** The staged ledger when the block extends the active tip; nothing is staged otherwise. */
  function CheckState(r: Rules, s: Core, b: Block): Result<Option<Ledger>, NodeError> {
    if ExtendsTip(s.ledger, b) then
      match CheckRoot(r, s.ledger, b)
      case Some(e) => Err(e)
      case None =>
        match ExecuteOn(r, s.ledger, b)
        case Err(e) => Err(e)
        case Ok(l) => Ok(Some(l))
    else
      match LedgerForTip(r, s, b.header.previous)
      case Err(e) => Err(e)
      case Ok(l) =>
        match CheckRoot(r, l, b)
        case Some(e) => Err(e)
        case None => Ok(None)
  }

  // ---- Rollback issues ----

  function Located(chain: seq<Block>, tx: Hash): (at: Option<nat>)
    ensures at.Some? ==> at.value < |chain| && Carries(chain[at.value], tx)
    ensures at.None? ==> forall i :: 0 <= i < |chain| ==> !Carries(chain[i], tx)
  {
    if chain == [] then None
    else if Carries(chain[0], tx) then Some(0)
    else match Located(chain[1..], tx)
      case None => None
      case Some(i) => Some(i + 1)
  }

  datatype Recovery = Recovery(pool: M.Pool, issues: map<IssueKey, Issue>)

  /** Looks the transaction up in the new chain, or else resubmits it. */
  function Retry(r: Rules, l: Ledger, rec: Recovery, key: IssueKey, issue: Issue, now: nat): Recovery {
    var tried := issue.(attempts := Min(issue.attempts + 1, U32_MAX));
    match Located(l.chain, key.1)
    case Some(i) =>
      rec.(issues := rec.issues[key := tried.(status := Reconfirmed(i, l.chain[i].header.hash))])
    case None =>
      var (pool, result) := M.Insert(r, rec.pool, l, issue.tx, now);
      var requeued := result.Ok? || result.error == M.DuplicateTransaction;
      Recovery(pool, rec.issues[key := tried.(status := if requeued then Requeued else Conflict)])
  }

  function Opened(rec: Recovery, b: Block, i: nat, now: nat): Issue
    requires i < |b.body.txs|
  {
    var key := (b.header.hash, b.body.txs[i].hash);
    if key in rec.issues then rec.issues[key]
    else Issue(b.body.txs[i], b.header.height, b.header.hash, i, now, Detected, 0)
  }

  /** Recovers the transactions of `b` from the `i`-th on. */
  function RecoverTxs(r: Rules, l: Ledger, rec: Recovery, b: Block, i: nat, now: nat): (Recovery, Outcome)
    requires i <= |b.body.txs|
    decreases |b.body.txs| - i
  {
    if i == |b.body.txs| then (rec, Done)
    else if i > U32_MAX then (rec, Failed(TransactionIndexOverflow))
    else if !r.proofOk(b, i) then (rec, Failed(ProofError))
    else
      var key := (b.header.hash, b.body.txs[i].hash);
      RecoverTxs(r, l, Retry(r, l, rec, key, Opened(rec, b, i, now), now), b, i + 1, now)
  }

  /** Recovers the blocks of `blocks` that the new chain dropped. */
  function RecoverBlocks(r: Rules, l: Ledger, rec: Recovery, blocks: seq<Block>, now: nat): (Recovery, Outcome)
    decreases |blocks|
  {
    if blocks == [] then (rec, Done)
    else if OnChain(l.chain, blocks[0].header.hash) then RecoverBlocks(r, l, rec, blocks[1..], now)
    else
      var (next, outcome) := RecoverTxs(r, l, rec, blocks[0], 0, now);
      if outcome.Failed? then (next, outcome) else RecoverBlocks(r, l, next, blocks[1..], now)
  }

  function MarkReconfirmed(issues: map<IssueKey, Issue>, b: Block): map<IssueKey, Issue> {
    map k | k in issues ::
      if Carries(b, k.1) && !issues[k].status.Reconfirmed?
      then issues[k].(status := Reconfirmed(b.header.height, b.header.hash))
      else issues[k]
  }

  // ---- Steps ----

  function PruneFinalized(r: Rules, s: Core): Core {
    if s.ledger.chain == [] then s else
    var finalized := SaturatingSub(|s.ledger.chain| - 1, r.finalityDepth);
    s.(tree := Prune(s.tree, s.ledger.chain[finalized].header.hash))
  }

  function SaveLedger(d: Disk, l: Ledger): Disk {
    d.(canonical := Some(l),
       blocks := d.blocks + map h | h in BlockHashes(l.chain) :: BlockWithHash(l.chain, h))
  }

  function BlockHashes(chain: seq<Block>): set<Hash> {
    set i | 0 <= i < |chain| :: chain[i].header.hash
  }

  function BlockWithHash(chain: seq<Block>, h: Hash): Block
    requires h in BlockHashes(chain)
  {
    if chain[|chain| - 1].header.hash == h then chain[|chain| - 1]
    else
      assert forall i :: 0 <= i < |chain| - 1 ==> chain[..|chain| - 1][i] == chain[i];
      BlockWithHash(chain[..|chain| - 1], h)
  }

  predicate CrossesFinality(r: Rules, s: Core, ancestor: Hash) {
    ancestor in s.tree && Height(s.tree, ancestor) + r.finalityDepth < |s.ledger.chain| - 1
  }

  function Headers(chain: seq<Block>): seq<Header> {
    seq(|chain|, i requires 0 <= i < |chain| => chain[i].header)
  }

  function SwitchTo(s: Core, l: Ledger): Core {
    s.(ledger := l, cache := FromChain(l.chain), disk := SaveLedger(s.disk, l))
  }

  function Reorg(r: Rules, s: Core, now: nat): (Core, Outcome) {
    match BestTip(s.tree)
    case None => (s, Failed(MissingBestTip))
    case Some(best) =>
      if s.ledger.chain == [] then (s, Failed(MissingCommonAncestor)) else
      match CommonAncestor(s.tree, TipHash(s.ledger), best)
      case None => (s, Failed(MissingCommonAncestor))
      case Some(ancestor) =>
        if CrossesFinality(r, s, ancestor) then (s, Failed(FinalityViolation))
        else if BranchFrom(s.tree, ancestor, best).None? then (s, Failed(MissingForkBranch))
        else Switch(r, NoteContext(s, best, ancestor), best, now)
  }

  function NoteContext(s: Core, best: Hash, ancestor: Hash): Core
    requires s.ledger.chain != []
  {
    var context := ProofContext(Headers(ChainTo(s.tree, TipHash(s.ledger))),
                                Headers(ChainTo(s.tree, best)), ancestor);
    s.(disk := s.disk.(contexts := s.disk.contexts + {context}))
  }

  function Switch(r: Rules, s: Core, best: Hash, now: nat): (Core, Outcome) {
    match LedgerForTip(r, s, best)
    case Err(e) => (s, Failed(e))
    case Ok(l) => Recover(r, SwitchTo(s, l), s.ledger.chain, now)
  }

  function Recover(r: Rules, s: Core, losing: seq<Block>, now: nat): (Core, Outcome) {
    var (rec, outcome) := RecoverBlocks(r, s.ledger, Recovery(s.pool, s.disk.issues), losing, now);
    var recovered := s.(pool := rec.pool, disk := s.disk.(issues := rec.issues));
    if outcome.Failed? then (recovered, outcome)
    else (PruneFinalized(r, recovered.(reorgs := Min(s.reorgs + 1, U64_MAX))), Done)
  }

  /** The core just before pruning, after the extension took effect. */
  function Extended(r: Rules, s: Core, b: Block, staged: Ledger): Core {
    s.(ledger := staged,
       genesis := if b.header.height == 0 then r.accountsOf(staged.state) else s.genesis,
       pool := M.ConfirmAll(s.pool, b),
       cache := InsertBlock(s.cache, b),
       disk := SaveLedger(s.disk.(issues := MarkReconfirmed(s.disk.issues, b)), staged))
  }

  function Extend(r: Rules, s: Core, b: Block, staged: Ledger): Core {
    PruneFinalized(r, Extended(r, s, b, staged))
  }

  function Place(r: Rules, s: Core, b: Block, staged: Option<Ledger>, now: nat): (Core, Outcome) {
    if BestTip(s.tree) != Some(b.header.hash) then
      (s.(disk := s.disk.(blocks := s.disk.blocks[b.header.hash := b])), Done)
    else if !ExtendsTip(s.ledger, b) then Reorg(r, s, now)
    else if staged.None? then (s, Failed(MissingStagedLedger))
    else (Extend(r, s, b, staged.value), Done)
  }

  /** `apply_known_parent_block`. */
  function KnownParent(r: Rules, s: Core, b: Block, now: nat): (Core, Outcome) {
    match CheckHeader(r, s, b)
    case Some(e) => (s, Failed(e))
    case None =>
      match CheckState(r, s, b)
      case Err(e) => (s, Failed(e))
      case Ok(staged) =>
        match Insert(s.tree, b)
        case Err(e) => (s, Failed(ForkChoiceError(e)))
        case Ok(t) => Place(r, s.(tree := t), b, staged, now)
  }
}
