/** The block cache: height map, hash map and tip of the active chain. */
module CoreCache {
  import opened Paqus
  import opened ForkTree

  datatype Cache = Cache(
    byHeight: map<nat, Block>,
    byHash: map<Hash, Block>,
    tipHeight: Option<nat>,
    tipHash: Option<Hash>)

  const EMPTY: Cache := Cache(map[], map[], None, None)

  function InsertBlock(c: Cache, b: Block): Cache {
    Cache(c.byHeight[b.header.height := b], c.byHash[b.header.hash := b],
          Some(b.header.height), Some(b.header.hash))
  }

  function FromChain(chain: seq<Block>): Cache {
    if chain == [] then EMPTY
    else InsertBlock(FromChain(chain[..|chain| - 1]), chain[|chain| - 1])
  }

  /** Blocks sit at their own heights and have distinct hashes. */
  ghost predicate Numbered(chain: seq<Block>) {
    && (forall i :: 0 <= i < |chain| ==> chain[i].header.height == i)
    && (forall i, j :: 0 <= i < j < |chain| ==> chain[i].header.hash != chain[j].header.hash)
  }

  /** The cache holds exactly `chain`, under both keys, and points at its end. */
  ghost predicate Matches(c: Cache, chain: seq<Block>) {
    && (forall h: nat :: h in c.byHeight <==> h < |chain|)
    && (forall h: nat :: h in c.byHeight ==> c.byHeight[h] == chain[h])
    && (forall h :: h in c.byHash <==> OnChain(chain, h))
    && (forall i :: 0 <= i < |chain| ==>
         chain[i].header.hash in c.byHash && c.byHash[chain[i].header.hash] == chain[i])
    && c.tipHeight == (if chain == [] then None else Some(|chain| - 1))
    && c.tipHash == (if chain == [] then None else Some(chain[|chain| - 1].header.hash))
  }

  lemma InsertMatches(c: Cache, chain: seq<Block>, b: Block)
    requires Matches(c, chain) && Numbered(chain + [b])
    ensures Matches(InsertBlock(c, b), chain + [b])
  {
    var longer := chain + [b];
    assert longer[|chain|] == b;
    var d := InsertBlock(c, b);
    forall h ensures h in d.byHash <==> OnChain(longer, h) {
      if OnChain(chain, h) {
        var i :| 0 <= i < |chain| && chain[i].header.hash == h;
        assert longer[i].header.hash == h;
      }
      if OnChain(longer, h) {
        var i :| 0 <= i < |longer| && longer[i].header.hash == h;
        assert i < |chain| ==> chain[i].header.hash == h;
      }
    }
    forall i | 0 <= i < |longer|
      ensures longer[i].header.hash in d.byHash && d.byHash[longer[i].header.hash] == longer[i]
    {
      assert i < |chain| ==> longer[i] == chain[i] && longer[i].header.hash != longer[|chain|].header.hash;
    }
  }

  lemma {:induction false} FromChainMatches(chain: seq<Block>)
    requires Numbered(chain)
    ensures Matches(FromChain(chain), chain)
  {
    if chain != [] {
      var front := chain[..|chain| - 1];
      FromChainMatches(front);
      assert chain == front + [chain[|chain| - 1]];
      InsertMatches(FromChain(front), front, chain[|chain| - 1]);
    }
  }

  lemma ChainIsNumbered(t: Tree, h: Hash)
    requires WellFormed(t) && h in t
    ensures Numbered(ChainTo(t, h))
  {
    ChainShape(t, h);
  }
}
