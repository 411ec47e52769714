/** Fork choice: a finite, parent-closed tree of blocks keyed by hash. */
module ForkTree {
  import opened Paqus

  datatype Entry = Entry(block: Block, work: nat)

  type Tree = map<Hash, Entry>

  datatype InsertError = MissingParent | DuplicateBlock

  predicate Linked(t: Tree, h: Hash)
    requires h in t
  {
    var b := t[h].block.header;
    && b.hash == h
    && if b.height == 0 then t[h].work == b.work else
         && b.previous in t
         && t[b.previous].block.header.height + 1 == b.height
         && t[h].work == t[b.previous].work + b.work
  }

  /** Parent-closed, with work summed along every branch and a single root. */
  ghost predicate WellFormed(t: Tree) {
    && (forall h :: h in t ==> Linked(t, h))
    && (forall h, k :: h in t && k in t && Height(t, h) == 0 && Height(t, k) == 0 ==> h == k)
  }

  lemma EachLinked(t: Tree, h: Hash)
    requires WellFormed(t) && h in t
    ensures Linked(t, h)
  {
  }

  function Height(t: Tree, h: Hash): nat
    requires h in t
  {
    t[h].block.header.height
  }

  function Insert(t: Tree, b: Block): (r: Result<Tree, InsertError>)
  {
    if b.header.hash in t then Err(DuplicateBlock)
    else if b.header.height == 0 then Ok(t[b.header.hash := Entry(b, b.header.work)])
    else if b.header.previous !in t then Err(MissingParent)
    else Ok(t[b.header.hash := Entry(b, t[b.header.previous].work + b.header.work)])
  }

  // ---- The best tip: most work, then the lower hash ----

  predicate Beats(t: Tree, a: Hash, b: Hash)
    requires a in t && b in t
  {
    t[a].work > t[b].work || (t[a].work == t[b].work && a < b)
  }

  predicate IsBest(t: Tree, h: Hash) {
    h in t && forall k :: k in t && k != h ==> Beats(t, h, k)
  }

  lemma BestExists(t: Tree)
    requires t != map[]
    ensures exists h :: IsBest(t, h)
  {
    var h :| h in t;
    var rest := t - {h};
    if rest == map[] {
      assert forall k :: k in t && k != h ==> k in rest;
      assert IsBest(t, h);
    } else {
      BestExists(rest);
      var g :| IsBest(rest, g);
      assert forall k :: k in t && k != h ==> k in rest;
      if Beats(t, h, g) {
        assert IsBest(t, h);
      } else {
        assert IsBest(t, g);
      }
    }
  }

  function BestTip(t: Tree): (best: Option<Hash>)
    ensures t == map[] <==> best == None
    ensures best.Some? ==> IsBest(t, best.value)
  {
    if t == map[] then None else
    BestExists(t);
    var h :| IsBest(t, h);
    Some(h)
  }

  /** No block of the tree has more work than the best tip, and none with as much a lower hash. */
  lemma BestTipIs(t: Tree)
    requires t != map[]
    ensures
      var best := BestTip(t).value;
      && best in t
      && forall k :: k in t ==> t[k].work < t[best].work || (t[k].work == t[best].work && best <= k)
  {
    var best := BestTip(t).value;
    forall k | k in t ensures t[k].work < t[best].work || (t[k].work == t[best].work && best <= k) {
      if k != best { assert Beats(t, best, k); }
    }
  }

  /** A new block either takes over as best tip or leaves the old one in place. */
  lemma BestAfterInsert(t: Tree, b: Block, t': Tree)
    requires Insert(t, b) == Ok(t')
    requires BestTip(t') != Some(b.header.hash)
    ensures t != map[] && BestTip(t') == BestTip(t)
  {
    assert b.header.hash in t';
    var best := BestTip(t').value;
    assert best in t;
    assert IsBest(t, best) by {
      forall k | k in t && k != best ensures Beats(t, best, k) { assert Beats(t', best, k); }
    }
  }

  // ---- Branches ----

  /** The blocks from the root to `h`. */
  function ChainTo(t: Tree, h: Hash): seq<Block>
    decreases if h in t then Height(t, h) + 1 else 0
  {
    if h !in t then []
    else
      var b := t[h].block;
      var p := b.header.previous;
      if b.header.height == 0 || p !in t || Height(t, p) >= b.header.height then [b]
      else ChainTo(t, p) + [b]
  }

  /** Hashes from `h` down to the root, as `ancestor_hashes` lists them. */
  function Ancestors(t: Tree, h: Hash): seq<Hash> {
    Downward(ChainTo(t, h))
  }

  function Downward(c: seq<Block>): seq<Hash> {
    seq(|c|, i requires 0 <= i < |c| => c[|c| - 1 - i].header.hash)
  }

  predicate OnChain(c: seq<Block>, h: Hash) {
    exists i :: 0 <= i < |c| && c[i].header.hash == h
  }

  /** `BranchFrom` excludes the ancestor; there is no branch unless `a` lies below `tip`. */
  function BranchFrom(t: Tree, a: Hash, tip: Hash): Option<seq<Block>> {
    var c := ChainTo(t, tip);
    if a in t && Height(t, a) < |c| && c[Height(t, a)].header.hash == a
    then Some(c[Height(t, a) + 1..])
    else None
  }

  /** Every chain of a well-formed tree is its blocks by height, and each prefix of it is
      the chain to the block where the prefix ends. */
  lemma {:induction false} ChainShape(t: Tree, h: Hash)
    requires WellFormed(t) && h in t
    ensures |ChainTo(t, h)| == Height(t, h) + 1
    ensures ChainTo(t, h)[Height(t, h)] == t[h].block
    ensures forall i :: 0 <= i < |ChainTo(t, h)| ==>
      var b := ChainTo(t, h)[i];
      && b.header.height == i
      && b.header.hash in t && t[b.header.hash].block == b
      && ChainTo(t, b.header.hash) == ChainTo(t, h)[..i + 1]
    decreases Height(t, h)
  {
    var c := ChainTo(t, h);
    assert Linked(t, h);
    if Height(t, h) == 0 {
      assert c == [t[h].block] && c[..1] == c;
    } else {
      var p := t[h].block.header.previous;
      ChainShape(t, p);
      var d := ChainTo(t, p);
      assert c == d + [t[h].block];
      forall i | 0 <= i < |c|
        ensures var b := c[i];
          && b.header.height == i
          && b.header.hash in t && t[b.header.hash].block == b
          && ChainTo(t, b.header.hash) == c[..i + 1]
      {
        if i < |d| {
          assert c[i] == d[i] && c[..i + 1] == d[..i + 1];
        } else {
          assert c[..i + 1] == c;
        }
      }
    }
  }

  /** Each block of a chain names the one before it. */
  lemma ChainLinks(t: Tree, h: Hash, i: nat)
    requires WellFormed(t) && h in t
    requires 0 < i < |ChainTo(t, h)|
    ensures ChainTo(t, h)[i].header.previous == ChainTo(t, h)[i - 1].header.hash
  {
    ChainShape(t, h);
    var b := ChainTo(t, h)[i];
    assert Linked(t, b.header.hash);
    ChainShape(t, b.header.hash);
    var p := b.header.previous;
    ChainShape(t, p);
    assert ChainTo(t, b.header.hash) == ChainTo(t, p) + [b];
    assert ChainTo(t, h)[i - 1] == ChainTo(t, h)[..i + 1][i - 1] == ChainTo(t, p)[i - 1];
  }

  ghost predicate Within(t: Tree, u: Tree) {
    forall h :: h in t ==> h in u && u[h] == t[h]
  }

  /** Growing a tree changes no chain it already had. */
  lemma {:induction false} ChainStable(t: Tree, u: Tree, h: Hash)
    requires WellFormed(t) && Within(t, u) && h in t
    ensures ChainTo(u, h) == ChainTo(t, h)
    decreases Height(t, h)
  {
    assert Linked(t, h);
    if Height(t, h) > 0 {
      ChainStable(t, u, t[h].block.header.previous);
    }
  }

  /** Inserting keeps the tree well formed and hangs the new block under its parent. */
  lemma InsertGrows(t: Tree, b: Block, t': Tree)
    requires WellFormed(t) && Insert(t, b) == Ok(t')
    requires b.header.height == 0 ==> t == map[]
    requires b.header.height > 0 && b.header.previous in t ==>
      b.header.height == Height(t, b.header.previous) + 1
    ensures WellFormed(t') && Within(t, t')
    ensures t'.Keys == t.Keys + {b.header.hash} && t'[b.header.hash].block == b
    ensures b.header.height == 0 ==> ChainTo(t', b.header.hash) == [b]
    ensures b.header.height > 0 ==>
      && b.header.previous in t
      && ChainTo(t', b.header.hash) == ChainTo(t, b.header.previous) + [b]
  {
    assert Within(t, t');
    forall h | h in t' ensures Linked(t', h) {
      if h in t { assert Linked(t, h); }
    }
    forall h, k | h in t' && k in t' && Height(t', h) == 0 && Height(t', k) == 0
      ensures h == k
    {
      if h in t && k in t { assert Height(t, h) == 0 && Height(t, k) == 0; }
    }
    if b.header.height > 0 {
      ChainStable(t, t', b.header.previous);
    }
  }

  // ---- Common ancestors ----

  /** Length of the longest common prefix of two chains. */
  function Shared(c: seq<Block>, d: seq<Block>): (n: nat)
    ensures n <= |c| && n <= |d| && c[..n] == d[..n]
    ensures n < |c| && n < |d| ==> c[n] != d[n]
  {
    if c == [] || d == [] || c[0] != d[0] then 0
    else
      var n := Shared(c[1..], d[1..]);
      assert c[..n + 1] == [c[0]] + c[1..][..n] && d[..n + 1] == [d[0]] + d[1..][..n];
      n + 1
  }

  /** The first of `news` that is also among `olds`: how `common_ancestor` searches. */
  function FirstIn(news: seq<Hash>, olds: set<Hash>): Option<Hash> {
    if news == [] then None
    else if news[0] in olds then Some(news[0])
    else FirstIn(news[1..], olds)
  }

  function CommonAncestor(t: Tree, oldTip: Hash, newTip: Hash): Option<Hash> {
    var olds := Ancestors(t, oldTip);
    FirstIn(Ancestors(t, newTip), set i | 0 <= i < |olds| :: olds[i])
  }

  lemma {:induction false} FirstInFinds(news: seq<Hash>, olds: set<Hash>, k: nat)
    requires k < |news| && news[k] in olds
    requires forall j :: 0 <= j < k ==> news[j] !in olds
    ensures FirstIn(news, olds) == Some(news[k])
  {
    if k > 0 {
      assert news[0] !in olds;
      FirstInFinds(news[1..], olds, k - 1);
    }
  }

  lemma SharedAtLeast(c: seq<Block>, d: seq<Block>, k: nat)
    requires k <= |c| && k <= |d| && c[..k] == d[..k]
    ensures Shared(c, d) >= k
  {
    assert forall i :: 0 <= i < k ==> c[i] == c[..k][i] && d[i] == d[..k][i];
  }

  /** Two chains of one tree agree on a hash exactly below their longest common prefix. */
  lemma SharedIffOnChain(t: Tree, a: Hash, b: Hash, i: nat)
    requires WellFormed(t) && a in t && b in t
    requires i < |ChainTo(t, b)|
    ensures OnChain(ChainTo(t, a), ChainTo(t, b)[i].header.hash)
      <==> i < Shared(ChainTo(t, a), ChainTo(t, b))
  {
    hide ChainTo, Shared, WellFormed;
    var c, d := ChainTo(t, a), ChainTo(t, b);
    var n := Shared(c, d);
    if i < n {
      assert c[i] == c[..n][i] == d[..n][i] == d[i];
    }
    if OnChain(c, d[i].header.hash) {
      var j :| 0 <= j < |c| && c[j].header.hash == d[i].header.hash;
      SameBlockSamePrefix(t, a, b, j, i);
      SharedAtLeast(c, d, i + 1);
    }
  }

  /** Two chains that hold the same block agree up to it. */
  lemma SameBlockSamePrefix(t: Tree, a: Hash, b: Hash, j: nat, i: nat)
    requires WellFormed(t) && a in t && b in t && j < |ChainTo(t, a)| && i < |ChainTo(t, b)|
    requires ChainTo(t, a)[j].header.hash == ChainTo(t, b)[i].header.hash
    ensures i == j && ChainTo(t, a)[..i + 1] == ChainTo(t, b)[..i + 1]
  {
    hide ChainTo, Linked;
    ChainShape(t, a);
    ChainShape(t, b);
  }

  /** The search finds the highest common block: the last one of the common prefix. */
  lemma CommonAncestorIsHighest(t: Tree, a: Hash, b: Hash)
    requires WellFormed(t) && a in t && b in t
    ensures var n := Shared(ChainTo(t, a), ChainTo(t, b));
      && n > 0
      && CommonAncestor(t, a, b) == Some(ChainTo(t, b)[n - 1].header.hash)
      && ChainTo(t, b)[n - 1] == ChainTo(t, a)[n - 1]
  {
    var c, d := ChainTo(t, a), ChainTo(t, b);
    ChainShape(t, a);
    ChainShape(t, b);
    var n := Shared(c, d);
    hide ChainTo, Shared, Linked, Downward, FirstIn;
    assert Height(t, c[0].header.hash) == 0 && Height(t, d[0].header.hash) == 0;
    assert c[0] == d[0];
    assert n > 0;
    assert d[n - 1] == d[..n][n - 1] == c[..n][n - 1] == c[n - 1];
    assert OnChain(c, d[n - 1].header.hash);
    forall i | n <= i < |d| ensures !OnChain(c, d[i].header.hash) {
      SharedIffOnChain(t, a, b, i);
    }
    LastCommonFound(c, d, n - 1);
  }

  /** Searching one chain from its tip for hashes of another finds the last common one. */
  lemma LastCommonFound(c: seq<Block>, d: seq<Block>, m: nat)
    requires m < |d| && OnChain(c, d[m].header.hash)
    requires forall i :: m < i < |d| ==> !OnChain(c, d[i].header.hash)
    ensures
      var olds := Downward(c);
      FirstIn(Downward(d), set i | 0 <= i < |olds| :: olds[i]) == Some(d[m].header.hash)
  {
    var olds, news := Downward(c), Downward(d);
    var oldSet := set i | 0 <= i < |olds| :: olds[i];
    forall h ensures h in oldSet <==> OnChain(c, h) {
      if OnChain(c, h) {
        var i :| 0 <= i < |c| && c[i].header.hash == h;
        assert olds[|c| - 1 - i] == h;
      }
      if h in oldSet {
        var i :| 0 <= i < |olds| && olds[i] == h;
        assert c[|c| - 1 - i].header.hash == h;
      }
    }
    FirstInFinds(news, oldSet, |d| - 1 - m);
  }

  // ---- Pruning ----

  /** Keeps the finalized block's ancestors and descendants. */
  function Prune(t: Tree, finalized: Hash): Tree {
    map h | h in t && (OnChain(ChainTo(t, finalized), h) || OnChain(ChainTo(t, h), finalized)) :: t[h]
  }

  /** Pruning keeps the tree well formed, every surviving chain, and everything on a chain
      through the finalized block. */
  lemma PruneKeeps(t: Tree, finalized: Hash)
    requires WellFormed(t) && finalized in t
    ensures WellFormed(Prune(t, finalized)) && Within(Prune(t, finalized), t)
    ensures forall h :: h in t && OnChain(ChainTo(t, h), finalized) ==> h in Prune(t, finalized)
    ensures forall h :: h in Prune(t, finalized) ==>
      ChainTo(Prune(t, finalized), h) == ChainTo(t, h)
  {
    var p := Prune(t, finalized);
    forall h | h in p ensures Linked(p, h) {
      assert Linked(t, h);
      if Height(t, h) > 0 {
        ParentSurvives(t, finalized, h);
      }
    }
    forall h, k | h in p && k in p && Height(p, h) == 0 && Height(p, k) == 0 ensures h == k {
      assert Height(t, h) == 0 && Height(t, k) == 0;
    }
    forall h | h in p ensures ChainTo(p, h) == ChainTo(t, h) {
      ChainStable(p, t, h);
    }
  }

  lemma ParentSurvives(t: Tree, finalized: Hash, h: Hash)
    requires WellFormed(t) && finalized in t
    requires h in Prune(t, finalized) && Height(t, h) > 0
    ensures t[h].block.header.previous in Prune(t, finalized)
  {
    assert Linked(t, h);
    var p := t[h].block.header.previous;
    ChainShape(t, h);
    ChainShape(t, p);
    assert ChainTo(t, h) == ChainTo(t, p) + [t[h].block];
    var f := ChainTo(t, finalized);
    ChainShape(t, finalized);
    if OnChain(f, h) {
      var i :| 0 <= i < |f| && f[i].header.hash == h;
      ChainLinks(t, finalized, i);
      assert f[i - 1].header.hash == p;
    } else {
      var c := ChainTo(t, h);
      var i :| 0 <= i < |c| && c[i].header.hash == finalized;
      assert f[|f| - 1].header.hash == finalized;
      assert i < |c| - 1;
      assert ChainTo(t, p)[i] == c[i];
    }
  }

  /** Below the finality depth nothing is dropped: the root lies under every block. */
  lemma PruneAtRoot(t: Tree, root: Hash)
    requires WellFormed(t) && root in t && Height(t, root) == 0
    ensures Prune(t, root) == t
  {
    forall h | h in t ensures OnChain(ChainTo(t, h), root) {
      ChainShape(t, h);
      var first := ChainTo(t, h)[0];
      assert Height(t, first.header.hash) == 0;
    }
  }
}
