/** The block locator: dense near the tip, then exponentially sparser, ending at genesis. */
module BlockLocator {
  import opened Paqus
  import opened ForkTree

  const MAX_LOCATOR_HASHES: nat := 32

  function Pow2(k: nat): nat {
    if k == 0 then 1 else 2 * Pow2(k - 1)
  }

  /** How far the `i`-th entry lies below the tip, and the step from it to the next one. */
  function Depth(i: nat): nat {
    if i < 10 then i else 8 + Pow2(i - 9)
  }

  function Step(i: nat): nat {
    if i < 10 then 1 else Pow2(i - 9)
  }

  lemma DepthSteps(i: nat)
    ensures Depth(i + 1) == Depth(i) + Step(i)
    ensures Step(i) >= 1
  {
    if i >= 10 { Pow2Positive(i - 9); }
  }

  lemma Pow2Positive(k: nat)
    ensures Pow2(k) >= 1
  {
  }

  lemma {:induction false} Pow2Grows(a: nat, b: nat)
    requires a <= b
    ensures Pow2(a) <= Pow2(b)
    decreases b
  {
    if a < b { Pow2Grows(a, b - 1); }
  }

  lemma {:induction false} Pow2Adds(a: nat, b: nat)
    ensures Pow2(a + b) == Pow2(a) * Pow2(b)
    decreases a
  {
    if a > 0 {
      Pow2Adds(a - 1, b);
      assert (2 * Pow2(a - 1)) * Pow2(b) == 2 * (Pow2(a - 1) * Pow2(b)) by { Regroup(2, Pow2(a - 1), Pow2(b)); }
    }
  }

  lemma Regroup(x: nat, y: nat, z: nat)
    ensures (x * y) * z == x * (y * z)
  {
  }

  lemma Pow2Of22()
    ensures Pow2(22) == 4_194_304
  {
    assert Pow2(2) == 4;
    Pow2Adds(2, 2);
    Pow2Adds(4, 4);
    Pow2Adds(8, 8);
    Pow2Adds(16, 4);
    Pow2Adds(20, 2);
  }

  /** The heights a locator for `tip` names from its `i`-th entry on. */
  function HeightsFrom(tip: nat, i: nat): seq<nat>
    requires i < MAX_LOCATOR_HASHES
    decreases MAX_LOCATOR_HASHES - i
  {
    var h := SaturatingSub(tip, Depth(i));
    if h == 0 then [h]
    else if i + 1 == MAX_LOCATOR_HASHES then [h, 0]
    else [h] + HeightsFrom(tip, i + 1)
  }

  function Heights(tip: nat): seq<nat> {
    HeightsFrom(tip, 0)
  }

  /** The node's header at each height; heights may be missing. */
  type HeaderChain = map<nat, Header>

  ghost predicate Complete(chain: HeaderChain, tip: nat) {
    && (forall h: nat :: h <= tip ==> h in chain)
    && (forall h: nat, k: nat :: h < k <= tip ==> chain[h].hash != chain[k].hash)
  }

  ghost function HashesAt(chain: HeaderChain, heights: seq<nat>): seq<Hash>
    requires forall i :: 0 <= i < |heights| ==> heights[i] in chain
  {
    seq(|heights|, i requires 0 <= i < |heights| => chain[heights[i]].hash)
  }

  lemma {:induction false} HeightsInChain(tip: nat, i: nat)
    requires i < MAX_LOCATOR_HASHES
    ensures forall k :: 0 <= k < |HeightsFrom(tip, i)| ==> HeightsFrom(tip, i)[k] <= tip
    decreases MAX_LOCATOR_HASHES - i
  {
    if SaturatingSub(tip, Depth(i)) > 0 && i + 1 < MAX_LOCATOR_HASHES { HeightsInChain(tip, i + 1); }
  }

  /** On a complete chain the loop names exactly `Heights(tip)`. With headers missing it still
      names at most 33 headers the node has, strictly downward from the tip, and ends at genesis
      if the node has it. */
  method BlockLocator(chain: HeaderChain, tipHeight: Option<nat>) returns (locator: seq<Hash>, ghost named: seq<nat>)
    requires tipHeight.Some? ==> tipHeight.value <= U64_MAX
    ensures tipHeight.None? ==> locator == []
    ensures Names(chain, named, locator) && |locator| <= MAX_LOCATOR_HASHES + 1 && Falls(named)
    ensures tipHeight.Some? && tipHeight.value in chain ==> named != [] && named[0] == tipHeight.value
    ensures tipHeight.Some? && 0 in chain ==> locator != [] && locator[|locator| - 1] == chain[0].hash
    ensures tipHeight.Some? && Complete(chain, tipHeight.value) ==>
      (forall k :: 0 <= k < |Heights(tipHeight.value)| ==> Heights(tipHeight.value)[k] in chain)
      && locator == HashesAt(chain, Heights(tipHeight.value))
  {
    hide Underway, Visited, Located, Complete, Heights, HashesAt, Names, Falls, NextStep;
    locator, named := [], [];
    if tipHeight.None? {
      NothingNamed(chain);
      return;
    }
    var tip := tipHeight.value;
    var height := tip;
    var step := 1;
    StartsUnderway(chain, tip);
    while true
      invariant height <= tip && 1 <= step && |locator| < MAX_LOCATOR_HASHES
      invariant Underway(chain, tip, named, locator, height, step)
      decreases height
    {
      Visit(chain, tip, named, locator, height, step);
      if height in chain {
        locator := locator + [chain[height].hash];
        named := named + [height];
      }
      if height == 0 || |locator| >= MAX_LOCATOR_HASHES {
        break;
      }
      height := SaturatingSub(height, step);
      step := NextStep(step, |locator|);
    }
    VisitedMeans(chain, tip, named, locator);
    if locator != [] && 0 in chain && chain[0].hash != locator[|locator| - 1] {
      locator := locator + [chain[0].hash];
      named := named + [0];
    }
    LocatedMeans(chain, tip, named, locator);
  }

  /** The step doubles from the tenth entry on. */
  function NextStep(step: nat, entries: nat): (next: nat)
    ensures 1 <= step ==> 1 <= next
  {
    if entries < 10 then step else if step * 2 > U64_MAX then U64_MAX else step * 2
  }

  /** A finished locator. */
  ghost predicate Located(chain: HeaderChain, tip: nat, named: seq<nat>, locator: seq<Hash>) {
    && Names(chain, named, locator) && Falls(named)
    && (tip in chain ==> named != [] && named[0] == tip)
    && (0 in chain ==> locator != [] && locator[|locator| - 1] == chain[0].hash)
    && (Complete(chain, tip) ==> named == Heights(tip))
  }

  /** What is named once the loop stops, to be ended with genesis. */
  ghost predicate Visited(chain: HeaderChain, tip: nat, named: seq<nat>, locator: seq<Hash>) {
    && |locator| <= MAX_LOCATOR_HASHES
    && if locator != [] && 0 in chain && chain[0].hash != locator[|locator| - 1]
       then Located(chain, tip, named + [0], locator + [chain[0].hash])
       else Located(chain, tip, named, locator)
  }

  /** What the loop keeps: the trail behind it, and on a complete chain its exact place. */
  ghost predicate Underway(
    chain: HeaderChain, tip: nat, named: seq<nat>, locator: seq<Hash>, height: nat, step: nat)
  {
    && Trail(chain, tip, named, locator, height)
    && (Complete(chain, tip) ==> Halfway(chain, tip, named, locator, height, step))
  }

  lemma NothingNamed(chain: HeaderChain)
    ensures Names(chain, [], []) && Falls([])
  {
  }

  lemma StartsUnderway(chain: HeaderChain, tip: nat)
    ensures Underway(chain, tip, [], [], tip, 1)
  {
    hide Complete;
  }

  lemma VisitedMeans(chain: HeaderChain, tip: nat, named: seq<nat>, locator: seq<Hash>)
    requires Visited(chain, tip, named, locator)
    ensures |locator| <= MAX_LOCATOR_HASHES
    ensures
      if locator != [] && 0 in chain && chain[0].hash != locator[|locator| - 1]
      then Located(chain, tip, named + [0], locator + [chain[0].hash])
      else Located(chain, tip, named, locator)
  {
    hide Located;
  }

  lemma LocatedMeans(chain: HeaderChain, tip: nat, named: seq<nat>, locator: seq<Hash>)
    requires Located(chain, tip, named, locator)
    ensures Names(chain, named, locator) && Falls(named)
    ensures tip in chain ==> named != [] && named[0] == tip
    ensures 0 in chain ==> locator != [] && locator[|locator| - 1] == chain[0].hash
    ensures Complete(chain, tip) ==>
      (forall k :: 0 <= k < |Heights(tip)| ==> Heights(tip)[k] in chain) && locator == HashesAt(chain, Heights(tip))
  {
    hide Complete, Heights;
  }

  /** One turn of the loop: it stops with everything named or goes on from the next height. */
  lemma Visit(chain: HeaderChain, tip: nat, named: seq<nat>, locator: seq<Hash>, height: nat, step: nat)
    requires Underway(chain, tip, named, locator, height, step)
    requires height <= tip && 1 <= step && |locator| < MAX_LOCATOR_HASHES
    ensures
      var named' := if height in chain then named + [height] else named;
      var locator' := if height in chain then locator + [chain[height].hash] else locator;
      if height == 0 || |locator'| >= MAX_LOCATOR_HASHES then Visited(chain, tip, named', locator')
      else Underway(chain, tip, named', locator', SaturatingSub(height, step), NextStep(step, |locator'|))
  {
    hide Complete, Halfway, Heights, Names, Falls, Trail;
    TrailEnds(chain, tip, named, locator, height);
    if height > 0 { TrailMoves(chain, tip, named, locator, height, SaturatingSub(height, step)); }
    if Complete(chain, tip) { HalfwayMoves(chain, tip, named, locator, height, step); }
  }

  /** What the loop has named so far, and the height and step it goes on with. */
  ghost predicate Halfway(
    chain: HeaderChain, tip: nat, named: seq<nat>, locator: seq<Hash>, height: nat, step: nat)
  {
    && |locator| < MAX_LOCATOR_HASHES
    && named + HeightsFrom(tip, |locator|) == Heights(tip)
    && Names(chain, named, locator)
    && height == SaturatingSub(tip, Depth(|locator|)) && step == Step(|locator|)
  }

  ghost predicate Falls(named: seq<nat>) {
    forall a, b :: 0 <= a < b < |named| ==> named[a] > named[b]
  }

  /** The headers named before `height` is visited, all of them above it and from the tip on. */
  ghost predicate Trail(chain: HeaderChain, tip: nat, named: seq<nat>, locator: seq<Hash>, height: nat) {
    && Names(chain, named, locator) && Falls(named)
    && (forall a :: 0 <= a < |named| ==> named[a] > height)
    && if height == tip then named == [] else tip in chain ==> named != [] && named[0] == tip
  }

  lemma TrailMoves(chain: HeaderChain, tip: nat, named: seq<nat>, locator: seq<Hash>, height: nat, next: nat)
    requires Trail(chain, tip, named, locator, height) && next < height <= tip
    ensures
      if height in chain then Trail(chain, tip, named + [height], locator + [chain[height].hash], next)
      else Trail(chain, tip, named, locator, next)
  {
  }

  /** Where the loop stops after visiting `height`, adding genesis finishes the locator. */
  lemma TrailEnds(chain: HeaderChain, tip: nat, named: seq<nat>, locator: seq<Hash>, height: nat)
    requires Trail(chain, tip, named, locator, height) && height <= tip
    ensures
      var n := if height in chain then named + [height] else named;
      var l := if height in chain then locator + [chain[height].hash] else locator;
      && Names(chain, n, l) && Falls(n) && |n| == |l|
      && (tip in chain ==> n != [] && n[0] == tip)
      && (0 in chain && l != [] && l[|l| - 1] != chain[0].hash ==>
           Names(chain, n + [0], l + [chain[0].hash]) && Falls(n + [0]))
      && (height == 0 && 0 in chain ==> l != [])
  {
    hide Names;
    var n := if height in chain then named + [height] else named;
    var l := if height in chain then locator + [chain[height].hash] else locator;
    NamesLength(chain, named, locator);
    if height in chain { NamesGrow(chain, named, locator, height); }
    if 0 in chain && l != [] && l[|l| - 1] != chain[0].hash {
      NamesGrow(chain, n, l, 0);
      assert n[|n| - 1] != 0 by { LastNamed(chain, n, l); }
    }
  }

  lemma NamesLength(chain: HeaderChain, named: seq<nat>, locator: seq<Hash>)
    requires Names(chain, named, locator)
    ensures |named| == |locator|
  {
  }

  lemma LastNamed(chain: HeaderChain, named: seq<nat>, locator: seq<Hash>)
    requires Names(chain, named, locator) && |named| == |locator| > 0
    ensures named[|named| - 1] in chain && locator[|named| - 1] == chain[named[|named| - 1]].hash
  {
  }

  lemma HalfwayMoves(chain: HeaderChain, tip: nat, named: seq<nat>, locator: seq<Hash>, height: nat, step: nat)
    requires Complete(chain, tip) && Halfway(chain, tip, named, locator, height, step) && height <= tip
    ensures height in chain && 0 in chain
    ensures
      var named', locator' := named + [height], locator + [chain[height].hash];
      && Names(chain, named', locator') && Names(chain, named' + [0], locator' + [chain[0].hash])
      && (chain[0].hash == locator'[|locator'| - 1] <==> height == 0)
      && (height == 0 ==> named' == Heights(tip))
      && (height > 0 && |locator'| == MAX_LOCATOR_HASHES ==> named' + [0] == Heights(tip))
      && (height > 0 && |locator'| < MAX_LOCATOR_HASHES ==>
           Halfway(chain, tip, named', locator', SaturatingSub(height, step), NextStep(step, |locator'|)))
  {
    hide Names, HeightsFrom, Depth, Step;
    var i := |locator|;
    DepthSteps(i);
    StepFits(i);
    HeightsUnfold(tip, i);
    NamesGrow(chain, named, locator, height);
    NamesGrow(chain, named + [height], locator + [chain[height].hash], 0);
    if height > 0 && i + 1 < MAX_LOCATOR_HASHES {
      assert named + ([height] + HeightsFrom(tip, i + 1)) == named + [height] + HeightsFrom(tip, i + 1);
    } else if height > 0 {
      assert named + ([height] + [0]) == named + [height] + [0];
    }
  }

  lemma HeightsUnfold(tip: nat, i: nat)
    requires i < MAX_LOCATOR_HASHES
    ensures
      var h := SaturatingSub(tip, Depth(i));
      HeightsFrom(tip, i) == [h] +
        (if h == 0 then [] else if i + 1 == MAX_LOCATOR_HASHES then [0] else HeightsFrom(tip, i + 1))
  {
  }

  lemma NamesGrow(chain: HeaderChain, named: seq<nat>, locator: seq<Hash>, h: nat)
    requires Names(chain, named, locator) && h in chain
    ensures Names(chain, named + [h], locator + [chain[h].hash])
  {
  }

  ghost predicate Names(chain: HeaderChain, named: seq<nat>, locator: seq<Hash>) {
    && |named| == |locator|
    && forall k :: 0 <= k < |named| ==> named[k] in chain && locator[k] == chain[named[k]].hash
  }

  lemma StepFits(i: nat)
    ensures i < MAX_LOCATOR_HASHES ==> Step(i) * 2 <= U64_MAX
    ensures Step(i + 1) == if i + 1 >= 10 then Step(i) * 2 else Step(i)
  {
    if 10 <= i < MAX_LOCATOR_HASHES {
      Pow2Grows(i - 9, 22);
      Pow2Of22();
    }
  }

  // ---- What the heights promise ----

  /** At most 33 entries, strictly descending, ending at genesis. */
  lemma {:induction false} HeightsDescend(tip: nat, i: nat)
    requires i < MAX_LOCATOR_HASHES
    ensures
      var hs := HeightsFrom(tip, i);
      && 1 <= |hs| <= MAX_LOCATOR_HASHES + 1 - i
      && hs[0] == SaturatingSub(tip, Depth(i)) && hs[|hs| - 1] == 0
      && forall a, b :: 0 <= a < b < |hs| ==> hs[a] > hs[b]
    decreases MAX_LOCATOR_HASHES - i
  {
    DepthSteps(i);
    if SaturatingSub(tip, Depth(i)) > 0 && i + 1 < MAX_LOCATOR_HASHES {
      HeightsDescend(tip, i + 1);
    }
  }

  /** The first entry at or below `shared`: what a peer sharing exactly those heights answers. */
  function FirstShared(heights: seq<nat>, shared: nat): nat {
    if heights == [] then 0
    else if heights[0] <= shared then heights[0]
    else FirstShared(heights[1..], shared)
  }

  lemma {:induction false} CoverageFrom(tip: nat, d: nat, i: nat)
    requires d <= tip && i < MAX_LOCATOR_HASHES && (i > 0 ==> Depth(i - 1) < d)
    ensures
      var found := FirstShared(HeightsFrom(tip, i), tip - d);
      && found <= tip - d
      && (d <= 10 ==> found == tip - d)
      && (10 < d <= Depth(31) ==> tip - found <= 2 * d - 10)
      && (Depth(31) < d ==> found == 0)
    decreases MAX_LOCATOR_HASHES - i
  {
    var h := SaturatingSub(tip, Depth(i));
    var hs := HeightsFrom(tip, i);
    if i > 0 { DepthSteps(i - 1); }
    if h <= tip - d {
      assert hs[0] == h;
      DepthRises(i, 31);
    } else if i + 1 == MAX_LOCATOR_HASHES {
      assert hs[1..] == [0];
    } else {
      assert hs[1..] == HeightsFrom(tip, i + 1);
      CoverageFrom(tip, d, i + 1);
    }
  }

  lemma {:induction false} DepthRises(a: nat, b: nat)
    requires a <= b
    ensures Depth(a) <= Depth(b)
    decreases b
  {
    if a < b {
      DepthRises(a, b - 1);
      DepthSteps(b - 1);
    }
  }

  /** A peer whose highest shared block lies `d` below the tip finds it exactly when `d <= 10`,
      overshoots to at most twice that depth within 8 + 2^22, and falls back to genesis beyond. */
  lemma LocatorCoverage(tip: nat, d: nat)
    requires d <= tip
    ensures
      var found := FirstShared(Heights(tip), tip - d);
      && found <= tip - d
      && (d <= 10 ==> found == tip - d)
      && (10 < d <= 8 + 4_194_304 ==> tip - found <= 2 * d - 10)
      && (8 + 4_194_304 < d ==> found == 0)
  {
    Pow2Of22();
    CoverageFrom(tip, d, 0);
  }

  /** The peer's handler answers with the first locator hash it has indexed. */
  function CommonAncestorReply(locator: seq<Hash>, indexed: Tree): Option<Hash> {
    FirstIn(locator, indexed.Keys)
  }

  lemma {:induction false} ReplyIsFirstShared(chain: HeaderChain, heights: seq<nat>, indexed: Tree, shared: nat)
    requires forall i :: 0 <= i < |heights| ==> heights[i] in chain
    requires forall i :: 0 <= i < |heights| ==> (chain[heights[i]].hash in indexed <==> heights[i] <= shared)
    requires heights != [] && heights[|heights| - 1] <= shared
    ensures FirstShared(heights, shared) in chain
    ensures CommonAncestorReply(HashesAt(chain, heights), indexed) == Some(chain[FirstShared(heights, shared)].hash)
  {
    var hashes := HashesAt(chain, heights);
    assert hashes[0] == chain[heights[0]].hash;
    if heights[0] > shared {
      assert |heights| > 1;
      assert hashes[1..] == HashesAt(chain, heights[1..]);
      ReplyIsFirstShared(chain, heights[1..], indexed, shared);
    }
  }

  /** End to end: against a peer indexing exactly the blocks up to `d` below our tip, the answer
      is a shared block within the coverage bounds. */
  lemma PeerFindsAncestor(chain: HeaderChain, tip: nat, indexed: Tree, d: nat) returns (found: nat)
    requires Complete(chain, tip) && d <= tip
    requires forall h: nat :: h <= tip ==> (chain[h].hash in indexed <==> h <= tip - d)
    ensures forall k :: 0 <= k < |Heights(tip)| ==> Heights(tip)[k] in chain
    ensures found <= tip - d
    ensures CommonAncestorReply(HashesAt(chain, Heights(tip)), indexed) == Some(chain[found].hash)
    ensures d <= 10 ==> found == tip - d
    ensures 10 < d <= 8 + 4_194_304 ==> tip - found <= 2 * d - 10
    ensures 8 + 4_194_304 < d ==> found == 0
  {
    hide HeightsFrom, Depth, FirstShared;
    HeightsInChain(tip, 0);
    HeightsDescend(tip, 0);
    LocatorCoverage(tip, d);
    found := FirstShared(Heights(tip), tip - d);
    ReplyIsFirstShared(chain, Heights(tip), indexed, tip - d);
  }
}
