/** A refused insert that costs the pool an entry. */
module PoolExample {
  import opened Paqus
  import opened Ordering
  import opened Mempool

  /** Ledger rules that refuse transaction 2 and accept all others. */
  function Picky(): Rules {
    Rules(
      10, 1,
      (b: Block) => true,
      (b: Block, p: Block) => true,
      (s: State, c: seq<Block>, b: Block) => Ok(s),
      (s: State, c: seq<Block>, b: Block) => Ok(7),
      (s: State) => s,
      (s: State, t: Tx, h: nat) => if t.hash == 2 then None else Some(s),
      (t: Tx, h: nat) => true,
      (b: Block, i: nat) => true,
      (b: Block) => b.header,
      (b: Body) => 0,
      (b: Body) => 0)
  }

  /** Room for a single transaction. */
  function Tight(): Config {
    Config(1, 10, 0, 0, 0)
  }

  function Cheap(): Tx { Tx(1, BatchTransfer, 1, 0, [], [], 0, 1, 1, 0) }

  function Dear(): Tx { Tx(2, BatchTransfer, 2, 0, [], [], 0, 1, 1, 5) }

  function Full(): Pool { Admit(Empty(Tight()), Cheap(), 0) }

  lemma OneListed(tx: Tx)
    ensures PendingOrder(map[tx.hash := tx]) == [tx]
  {
    var m, key := map[tx.hash := tx], Key(tx.signer, tx.hash, tx.hash);
    var keys := set h | h in m :: Key(m[h].signer, h, h);
    assert tx.hash in m;
    assert keys == {key};
    SortedIsUnique({key}, [key]);
    assert Sorted(keys) == [key];
  }

  lemma CheapIsAccepted(ledger: Ledger)
    ensures Insert(Picky(), Empty(Tight()), ledger, Cheap(), 0) == (Full(), Ok(1))
    ensures Consistent(Full())
  {
    hide PendingOrder, Consistent;
    OneListed(Cheap());
    var p := Empty(Tight());
    assert p.txs[1 := Cheap()] == map[1 := Cheap()];
    assert Evict(p, Rate(Cheap()), 1) == (p, None);
    assert [Cheap()][1..] == [];
    assert ApplyAll(Picky(), ledger.state, [Cheap()], NextHeight(ledger)) == Some(ledger.state);
    assert Consistent(Empty(Tight())) by { PoolAlwaysConsistent(Picky(), Tight(), []); }
    InsertKeepsConsistent(Picky(), Empty(Tight()), ledger, Cheap(), 0);
  }

  lemma CheapMakesRoom()
    ensures Full().txs == map[1 := Cheap()]
    ensures Evict(Full(), 5, 1).1 == None && Evict(Full(), 5, 1).0.txs == map[]
    ensures Evict(Full(), 5, 1).0.reserved == map[]
  {
    var p := Full();
    assert p.txs == map[1 := Cheap()];
    assert p.txs.Keys == {1};
    assert LowestFeeCandidate(p).Some?;
    assert LowestFeeCandidate(p).value in p.txs.Keys;
    assert Remove(p, 1).txs == map[];
    assert Remove(p, 1).reserved == map[];
  }

  /** The full pool drops its only entry for a better paying one, which the ledger then refuses. */
  lemma RefusalEmptiesPool(ledger: Ledger, now: nat)
    ensures
      var (q, result) := Insert(Picky(), Full(), ledger, Dear(), now);
      Consistent(Full()) && result == Err(LedgerRefused) && Full().txs != map[] && q.txs == map[]
  {
    hide PendingOrder, Evict, Consistent;
    CheapIsAccepted(ledger);
    CheapMakesRoom();
    OneListed(Dear());
    var q := Evict(Full(), 5, 1).0;
    assert q.txs[2 := Dear()] == map[2 := Dear()];
    assert Rate(Dear()) == 5;
  }
}
