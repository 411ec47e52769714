/** An instance of order independence: two rival branches, delivered so that one order switches
    branches and the other keeps a block waiting for its parent. */
module OrderExample {
  import opened Paqus
  import opened ForkTree
  import opened ChainEngine
  import opened ChainSafety
  import opened OrphanPool
  import opened OrderIndependence
  import opened Samples

  const DEPTH: nat := 10
  const ROOT := Plain(1, 0, 0, 1, [])
  const LEFT := Plain(2, 1, 1, 1, [])
  const RIGHT := Plain(3, 1, 1, 1, [])
  const TOP := Plain(4, 2, 3, 1, [])

  function Rivals(): Tree {
    map[1 := Entry(ROOT, 1), 2 := Entry(LEFT, 2), 3 := Entry(RIGHT, 2), 4 := Entry(TOP, 3)]
  }

  function Start(genesis: State): NodeState {
    NodeState(
      Standing(genesis, [ROOT], map[1 := Entry(ROOT, 1)], map[]), Orphans(map[], map[]), Requests([], {}, map[]), 0)
  }

  lemma Chains()
    ensures WellFormed(Rivals())
    ensures ChainTo(Rivals(), 1) == [ROOT] && ChainTo(Rivals(), 3) == [ROOT, RIGHT]
  {
    assert ChainTo(Rivals(), 3) == ChainTo(Rivals(), 1) + [RIGHT];
  }

  lemma BlocksAreValid(genesis: State, h: Hash)
    requires h in Rivals() && h != 1
    ensures ValidBlock(Simple(DEPTH), Rivals(), genesis, h)
  {
    hide Replay;
    Chains();
    SimpleReplays(DEPTH, genesis, [ROOT]);
    SimpleReplays(DEPTH, genesis, [ROOT, RIGHT]);
  }

  lemma TreeIsValid(genesis: State)
    ensures ValidTree(Simple(DEPTH), Rivals(), genesis) && FitsBuffer(Rivals())
  {
    hide ValidBlock, WellFormed, Lawful;
    Chains();
    SimpleIsLawful(DEPTH);
    assert Rivals().Keys == {1, 2, 3, 4};
    forall h | h in Rivals() && h != 1 ensures ValidBlock(Simple(DEPTH), Rivals(), genesis, h) {
      BlocksAreValid(genesis, h);
    }
  }

  lemma StartIsFresh(genesis: State)
    ensures Fresh(Simple(DEPTH), Rivals(), genesis, Start(genesis))
  {
    var alone: Tree := map[1 := Entry(ROOT, 1)];
    assert ChainTo(alone, 1) == [ROOT];
    StandingIsSound(DEPTH, genesis, [ROOT], alone, map[]);
  }

  lemma BothReach(r: Rules, u: Tree, genesis: State, n: NodeState, ds: seq<(Block, nat)>, es: seq<(Block, nat)>,
      top: Hash)
    requires ValidTree(r, u, genesis) && FitsBuffer(u) && Fresh(r, u, genesis, n) && BestTip(u) == Some(top)
    requires Deliveries(r, u, ds) && Delivered(ds) + {r.genesisHash} == u.Keys
    requires forall i :: 0 <= i < |ds| ==> ds[i].1 == 0
    requires Deliveries(r, u, es) && Delivered(es) + {r.genesisHash} == u.Keys
    requires forall i :: 0 <= i < |es| ==> es[i].1 == 0
    ensures
      var a, b := Deliver(r, n, ds).core, Deliver(r, n, es).core;
      a.tree == b.tree == u && a.ledger == b.ledger && a.ledger.chain != [] && TipHash(a.ledger) == top
  {
    hide Deliver, ValidTree, Fresh, Deliveries, Delivered, Sound, BestTip, FitsBuffer, Rested, LimitsKept;
    FreshIsRested(r, u, genesis, n);
    NobodyWaits(r, u, genesis, n);
    SmallTreeKeepsLimits(r, u, genesis, n, ds, 0);
    DeliveryCompletes(r, u, genesis, n, ds);
    SmallTreeOrderDoesNotMatter(r, u, genesis, n, ds, es, 0, 0);
  }

  lemma NobodyWaits(r: Rules, u: Tree, genesis: State, n: NodeState)
    requires Fresh(r, u, genesis, n)
    ensures Recent(n, 0)
  {
  }

  function Switching(): seq<(Block, nat)> {
    [(LEFT, 0), (RIGHT, 0), (TOP, 0)]
  }

  function Late(): seq<(Block, nat)> {
    [(TOP, 0), (LEFT, 0), (TOP, 0), (RIGHT, 0)]
  }

  lemma HashesDelivered()
    ensures Delivered(Switching()) == {2, 3, 4} && Delivered(Late()) == {2, 3, 4}
  {
    var ds, es := Switching(), Late();
    assert ds[0].0.header.hash == 2 && ds[1].0.header.hash == 3 && ds[2].0.header.hash == 4;
    assert es[0].0.header.hash == 4 && es[1].0.header.hash == 2 && es[3].0.header.hash == 3;
  }

  lemma AllDelivered()
    ensures Deliveries(Simple(DEPTH), Rivals(), Switching()) && Delivered(Switching()) + {1} == Rivals().Keys
    ensures Deliveries(Simple(DEPTH), Rivals(), Late()) && Delivered(Late()) + {1} == Rivals().Keys
  {
    hide Delivered;
    HashesDelivered();
    assert Rivals().Keys == {1, 2, 3, 4};
  }

  lemma TopIsBest()
    ensures BestTip(Rivals()) == Some(4)
  {
    assert 4 in Rivals();
    assert IsBest(Rivals(), BestTip(Rivals()).value);
  }

  /** Both deliveries meet the premises of the theorem, so both end at the top of the right branch. */
  lemma BothOrdersReachTop(genesis: State)
    ensures
      var r := Simple(DEPTH);
      var a, b := Deliver(r, Start(genesis), Switching()).core, Deliver(r, Start(genesis), Late()).core;
      a.tree == b.tree == Rivals() && a.ledger == b.ledger && a.ledger.chain != [] && TipHash(a.ledger) == 4
  {
    hide Deliver, ValidTree, Fresh, Deliveries, Delivered, BestTip, Start, Rivals, FitsBuffer;
    TreeIsValid(genesis);
    StartIsFresh(genesis);
    AllDelivered();
    TopIsBest();
    BothReach(Simple(DEPTH), Rivals(), genesis, Start(genesis), Switching(), Late(), 4);
  }
}
