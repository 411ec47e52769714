/** Choosing pool transactions for a block, and packing them into it. */
module BlockSelection {
  import opened Paqus
  import opened Ordering
  import opened Mempool

  function SelectionKey(h: Hash, tx: Tx): Key {
    Key(0 - Rate(tx), tx.signer, h)
  }

  function SelectionKeys(txs: map<Hash, Tx>): set<Key> {
    set h | h in txs :: SelectionKey(h, txs[h])
  }

  /** Ordered by rate, highest first, then signer, then hash. */
  function SelectionOrder(txs: map<Hash, Tx>): seq<Tx> {
    Listed(txs, SelectionKeys(txs))
  }

  /** Every transaction is kept under its own hash, as in a consistent pool. */
  ghost predicate Keyed(txs: map<Hash, Tx>) {
    forall h :: h in txs ==> txs[h].hash == h
  }

  /** `a` comes before `b`: it pays the higher rate, or the same and has the lower signer, or that
      too and has the lower hash. */
  predicate Precedes(a: Tx, b: Tx) {
    || Rate(a) > Rate(b)
    || (Rate(a) == Rate(b) && (a.signer < b.signer || (a.signer == b.signer && a.hash < b.hash)))
  }

  ghost predicate Lined(q: seq<Tx>) {
    forall i, j :: 0 <= i < j < |q| ==> Precedes(q[i], q[j])
  }

  /** The order holds every transaction of the pool once and no other, the best paying first. */
  lemma SelectionIsLined(txs: map<Hash, Tx>)
    requires Keyed(txs)
    ensures Lined(SelectionOrder(txs))
    ensures forall tx :: tx in SelectionOrder(txs) <==> tx.hash in txs && txs[tx.hash] == tx
  {
    hide Listed, Sorted, Rate;
    var keys := SelectionKeys(txs);
    var order, q := Sorted(keys), SelectionOrder(txs);
    ListedAt(txs, keys);
    forall i | 0 <= i < |order| ensures order[i] == SelectionKey(q[i].hash, q[i]) && q[i].hash in txs {
      assert order[i] in keys;
    }
    forall h | h in txs ensures txs[h] in q {
      assert SelectionKey(h, txs[h]) in keys;
    }
  }

  predicate Eligible(r: Rules, tx: Tx, height: nat, minRate: nat) {
    Rate(tx) >= minRate && r.validAt(tx, height)
  }

  /** One pass: take every eligible transaction that applies to the state reached so far. */
  function Greedy(r: Rules, state: State, height: nat, limit: nat, minRate: nat, txs: seq<Tx>): seq<Tx>
    decreases |txs|
  {
    if txs == [] || limit == 0 then []
    else if !Eligible(r, txs[0], height, minRate) then
      Greedy(r, state, height, limit, minRate, txs[1..])
    else match r.applyTx(state, txs[0], height)
      case None => Greedy(r, state, height, limit, minRate, txs[1..])
      case Some(next) => [txs[0]] + Greedy(r, next, height, limit - 1, minRate, txs[1..])
  }

  /** With `chosen` so far, `rest` completes `target`. */
  ghost predicate Completes(target: seq<Tx>, chosen: seq<Tx>, rest: seq<Tx>) {
    target == chosen + rest
  }

  lemma NothingChosen(target: seq<Tx>)
    ensures Completes(target, [], target)
  {
  }

  lemma NothingLeft(target: seq<Tx>, chosen: seq<Tx>)
    requires Completes(target, chosen, [])
    ensures chosen == target
  {
  }

  /** What the transaction at position `i` adds to the transactions chosen before. */
  lemma GreedyAt(r: Rules, state: State, height: nat, limit: nat, minRate: nat, txs: seq<Tx>, i: nat,
      chosen: seq<Tx>, target: seq<Tx>)
    requires limit > 0 && i < |txs|
    requires Completes(target, chosen, Greedy(r, state, height, limit, minRate, txs[i..]))
    ensures
      var tx, rest := txs[i], txs[i + 1..];
      if Rate(tx) >= minRate && r.validAt(tx, height) && r.applyTx(state, tx, height).Some? then
        var next := r.applyTx(state, tx, height).value;
        Completes(target, chosen + [tx], Greedy(r, next, height, limit - 1, minRate, rest))
      else Completes(target, chosen, Greedy(r, state, height, limit, minRate, rest))
  {
    assert txs[i..][0] == txs[i] && txs[i..][1..] == txs[i + 1..];
  }

  lemma GreedyEnds(r: Rules, state: State, height: nat, limit: nat, minRate: nat, txs: seq<Tx>)
    requires txs == [] || limit == 0
    ensures Greedy(r, state, height, limit, minRate, txs) == []
  {
  }

  /** The nested deferral loop of `select_for_block`: a deferred transaction is only ever one
      met after the limit was reached, so the loop amounts to a single greedy pass. */
  method SelectForBlock(r: Rules, txs: map<Hash, Tx>, state: State, height: nat, limit: nat, minRate: nat)
    returns (candidates: seq<Tx>)
    ensures candidates == Greedy(r, state, height, limit, minRate, SelectionOrder(txs))
    ensures Keyed(txs) ==> Chosen(r, txs, state, height, limit, minRate, candidates)
  {
    hide Greedy, Chosen, Keyed, SelectionOrder, Rate, Completes;
    var remaining := SelectionOrder(txs);
    ghost var target := Greedy(r, state, height, limit, minRate, remaining);
    var staged := state;
    candidates := [];
    NothingChosen(target);
    while remaining != [] && |candidates| < limit
      invariant |candidates| <= limit
      invariant Completes(target, candidates, Greedy(r, staged, height, limit - |candidates|, minRate, remaining))
      decreases limit - |candidates|
    {
      var progressed := false;
      var deferred := [];
      var i := 0;
      ghost var before := |candidates|;
      assert remaining[i..] == remaining;
      while i < |remaining|
        invariant 0 <= i <= |remaining|
        invariant before <= |candidates| <= limit
        invariant progressed <==> before < |candidates|
        invariant deferred != [] ==> |candidates| == limit
        invariant Completes(
          target, candidates, Greedy(r, staged, height, limit - |candidates|, minRate, remaining[i..]))
      {
        var tx := remaining[i];
        i := i + 1;
        if |candidates| == limit {
          GreedyEnds(r, staged, height, 0, minRate, remaining[i - 1..]);
          GreedyEnds(r, staged, height, 0, minRate, remaining[i..]);
          deferred := deferred + [tx];
          continue;
        }
        GreedyAt(r, staged, height, limit - |candidates|, minRate, remaining, i - 1, candidates, target);
        if Rate(tx) < minRate {
          continue;
        }
        if !r.validAt(tx, height) {
          continue;
        }
        var applied := r.applyTx(staged, tx, height);
        if applied.None? {
          continue;
        }
        staged := applied.value;
        candidates := candidates + [tx];
        progressed := true;
      }
      GreedyEnds(r, staged, height, limit - |candidates|, minRate, remaining[i..]);
      if |candidates| == limit || deferred == [] {
        GreedyEnds(r, staged, height, limit - |candidates|, minRate, deferred);
      }
      remaining := deferred;
      if !progressed {
        break;
      }
    }
    GreedyEnds(r, staged, height, limit - |candidates|, minRate, remaining);
    NothingLeft(target, candidates);
    if Keyed(txs) { GreedyChooses(r, txs, state, height, limit, minRate); }
  }

  /** What the selection is, read off the pool: its entries come from the pool in the order of
      payment, and every pool transaction is taken exactly when fewer than `limit` better ones were and
      it is eligible and applies to the state those lead to. Nothing is passed over for a later one
      without such a cause. */
  ghost predicate Chosen(
    r: Rules, txs: map<Hash, Tx>, state: State, height: nat, limit: nat, minRate: nat, chosen: seq<Tx>)
  {
    && Lined(chosen) && |chosen| <= limit
    && (forall tx :: tx in chosen ==> tx.hash in txs && txs[tx.hash] == tx)
    && forall h :: h in txs ==> Judged(r, state, height, limit, minRate, chosen, txs[h])
  }

  /** Where `tx` belongs in `chosen`, it stands there exactly when there was room and it passed. */
  ghost predicate Judged(
    r: Rules, state: State, height: nat, limit: nat, minRate: nat, chosen: seq<Tx>, tx: Tx)
  {
    exists k :: BelongsAt(chosen, tx, k) &&
      (tx in chosen <==> k < limit && Passes(r, state, chosen[..k], tx, height, minRate))
  }

  /** Exactly the first `k` of `chosen` come before `tx`. */
  ghost predicate BelongsAt(chosen: seq<Tx>, tx: Tx, k: int) {
    && 0 <= k <= |chosen|
    && (forall i :: 0 <= i < k ==> Precedes(chosen[i], tx))
    && (forall i :: k <= i < |chosen| ==> chosen[i] == tx || Precedes(tx, chosen[i]))
  }

  lemma GreedyChooses(r: Rules, txs: map<Hash, Tx>, state: State, height: nat, limit: nat, minRate: nat)
    requires Keyed(txs)
    ensures Chosen(r, txs, state, height, limit, minRate,
      Greedy(r, state, height, limit, minRate, SelectionOrder(txs)))
  {
    hide Greedy, SelectionOrder, Judged, Precedes, Eligible;
    var order := SelectionOrder(txs);
    var chosen := Greedy(r, state, height, limit, minRate, order);
    SelectionIsLined(txs);
    GreedyReplays(r, state, height, limit, minRate, order);
    GreedyIsLined(r, state, height, limit, minRate, order);
    forall h | h in txs ensures Judged(r, state, height, limit, minRate, chosen, txs[h]) {
      assert txs[h] in order;
      var j :| 0 <= j < |order| && order[j] == txs[h];
      GreedyJudges(r, state, height, limit, minRate, order, j);
    }
  }

  lemma {:induction false} GreedyIsLined(r: Rules, state: State, height: nat, limit: nat, minRate: nat, txs: seq<Tx>)
    requires Lined(txs)
    ensures Lined(Greedy(r, state, height, limit, minRate, txs))
    decreases |txs|
  {
    hide Precedes, Eligible;
    if txs != [] && limit > 0 {
      var rest := txs[1..];
      GreedyIsLined(r, state, height, limit, minRate, rest);
      var applied := r.applyTx(state, txs[0], height);
      if applied.Some? {
        GreedyIsLined(r, applied.value, height, limit - 1, minRate, rest);
        GreedyReplays(r, applied.value, height, limit - 1, minRate, rest);
        AheadOfAll(txs, Greedy(r, applied.value, height, limit - 1, minRate, rest));
      }
    }
  }

  lemma {:induction false} GreedyJudges(
      r: Rules, state: State, height: nat, limit: nat, minRate: nat, txs: seq<Tx>, j: nat)
    requires Lined(txs) && j < |txs|
    ensures Judged(r, state, height, limit, minRate, Greedy(r, state, height, limit, minRate, txs), txs[j])
    decreases |txs|
  {
    hide Precedes;
    var tx, rest := txs[j], txs[1..];
    var chosen := Greedy(r, state, height, limit, minRate, txs);
    if limit == 0 {
      assert BelongsAt(chosen, tx, 0);
    } else {
      var taken := Eligible(r, txs[0], height, minRate) && r.applyTx(state, txs[0], height).Some?;
      var next := if taken then r.applyTx(state, txs[0], height).value else state;
      var left := if taken then limit - 1 else limit;
      var tail := Greedy(r, next, height, left, minRate, rest);
      GreedyReplays(r, next, height, left, minRate, rest);
      if j == 0 {
        AheadOfAll(txs, tail);
        assert chosen[..0] == [];
        assert BelongsAt(chosen, tx, 0);
      } else {
        GreedyJudges(r, next, height, left, minRate, rest, j - 1);
        var k :| BelongsAt(tail, tx, k) &&
          (tx in tail <==> k < left && Passes(r, next, tail[..k], tx, height, minRate));
        if taken {
          assert Precedes(txs[0], tx);
          assert chosen == [txs[0]] + tail && chosen[..k + 1] == [txs[0]] + tail[..k];
          assert ([txs[0]] + tail[..k])[1..] == tail[..k];
          NotItself(txs[0], tx);
          assert BelongsAt(chosen, tx, k + 1);
        }
      }
    }
  }

  lemma NotItself(a: Tx, b: Tx)
    requires Precedes(a, b)
    ensures a != b
  {
  }

  lemma AheadOfAll(txs: seq<Tx>, tail: seq<Tx>)
    requires Lined(txs) && txs != [] && forall tx :: tx in tail ==> tx in txs[1..]
    ensures forall i :: 0 <= i < |tail| ==> Precedes(txs[0], tail[i])
    ensures txs[0] !in tail
  {
    forall i | 0 <= i < |tail| ensures Precedes(txs[0], tail[i]) {
      assert tail[i] in txs[1..];
    }
  }

  /** `tx` could follow the transactions chosen so far. */
  ghost predicate Passes(r: Rules, state: State, chosen: seq<Tx>, tx: Tx, height: nat, minRate: nat) {
    && Rate(tx) >= minRate && r.validAt(tx, height)
    && ApplyAll(r, state, chosen, height).Some?
    && r.applyTx(ApplyAll(r, state, chosen, height).value, tx, height).Some?
  }

  /** The selection respects the limit and the rate floor, and replays from the ledger. */
  lemma {:induction false} GreedyReplays(r: Rules, state: State, height: nat, limit: nat, minRate: nat, txs: seq<Tx>)
    ensures
      var chosen := Greedy(r, state, height, limit, minRate, txs);
      && |chosen| <= limit
      && (forall tx :: tx in chosen ==> tx in txs && Eligible(r, tx, height, minRate))
      && ApplyAll(r, state, chosen, height).Some?
    decreases |txs|
  {
    if txs != [] && limit > 0 {
      var rest := txs[1..];
      if Eligible(r, txs[0], height, minRate) && r.applyTx(state, txs[0], height).Some? {
        var next := r.applyTx(state, txs[0], height).value;
        GreedyReplays(r, next, height, limit - 1, minRate, rest);
        var tail := Greedy(r, next, height, limit - 1, minRate, rest);
        assert ([txs[0]] + tail)[1..] == tail;
      } else {
        GreedyReplays(r, state, height, limit, minRate, rest);
      }
    }
  }

  /** Nothing is skipped without cause: below the limit, the next transaction in order joins
      the selection exactly when it is eligible and applies to the state the selection reached. */
  lemma {:induction false} GreedySkipsForCause(r: Rules, state: State, height: nat, limit: nat, minRate: nat,
      txs: seq<Tx>, tx: Tx)
    ensures
      var chosen := Greedy(r, state, height, limit, minRate, txs);
      Greedy(r, state, height, limit, minRate, txs + [tx]) ==
        if |chosen| < limit && Passes(r, state, chosen, tx, height, minRate)
        then chosen + [tx] else chosen
    decreases |txs|
  {
    if limit > 0 {
      if txs == [] {
        assert ([tx])[1..] == [] && txs + [tx] == [tx];
        assert Greedy(r, state, height, limit, minRate, [tx][1..]) == [];
      } else {
        var rest := txs[1..];
        assert (txs + [tx])[1..] == rest + [tx];
        if Eligible(r, txs[0], height, minRate) && r.applyTx(state, txs[0], height).Some? {
          var next := r.applyTx(state, txs[0], height).value;
          GreedySkipsForCause(r, next, height, limit - 1, minRate, rest, tx);
          var tail := Greedy(r, next, height, limit - 1, minRate, rest);
          assert ([txs[0]] + tail)[1..] == tail;
        } else {
          GreedySkipsForCause(r, state, height, limit, minRate, rest, tx);
        }
      }
    }
  }

  // ---- Packing ----

  const MAX_BLOCK_SIZE: nat := 5 * 1024 * 1024
  const MAX_BLOCK_WEIGHT: nat := 5 * 1024 * 1024

  predicate Fits(r: Rules, body: Body) {
    r.blockSize(body) <= MAX_BLOCK_SIZE && r.blockWeight(body) <= MAX_BLOCK_WEIGHT
  }

  function With(body: Body, tx: Tx): Body {
    body.(txs := body.txs + [tx])
  }

  /** What of `selected` is appended: each transaction that still fits where it is reached. */
  function Packed(r: Rules, body: Body, selected: seq<Tx>): seq<Tx>
    decreases |selected|
  {
    if selected == [] then []
    else if Fits(r, With(body, selected[0])) then
      [selected[0]] + Packed(r, With(body, selected[0]), selected[1..])
    else Packed(r, body, selected[1..])
  }

  /** The header's commitments were computed for the final body. */
  ghost predicate Refreshed(r: Rules, b: Block) {
    exists h: Header :: RefreshedFrom(r, b, h)
  }

  ghost predicate RefreshedFrom(r: Rules, b: Block, h: Header) {
    b.header == r.refresh(Block(h, b.body, b.nonce))
  }

  method AppendSelected(r: Rules, block: Block, selected: seq<Tx>) returns (b: Block)
    ensures b.body == block.body.(txs := block.body.txs + Packed(r, block.body, selected))
    ensures b.nonce == block.nonce && Refreshed(r, b)
    ensures Fits(r, block.body) ==> Fits(r, b.body)
  {
    b := block;
    var i := 0;
    ghost var target := block.body.txs + Packed(r, block.body, selected);
    while i < |selected|
      invariant 0 <= i <= |selected|
      invariant b.body == block.body.(txs := b.body.txs) && b.nonce == block.nonce
      invariant b.body.txs + Packed(r, b.body, selected[i..]) == target
      invariant Fits(r, block.body) ==> Fits(r, b.body)
    {
      var tx := selected[i];
      ghost var before := b.body;
      assert selected[i..][1..] == selected[i + 1..];
      b := b.(body := With(b.body, tx));
      b := b.(header := r.refresh(b));
      if r.blockSize(b.body) > MAX_BLOCK_SIZE || r.blockWeight(b.body) > MAX_BLOCK_WEIGHT {
        b := b.(body := b.body.(txs := b.body.txs[..|b.body.txs| - 1]));
        assert b.body == before;
        b := b.(header := r.refresh(b));
      }
      i := i + 1;
    }
    ghost var stale := b.header;
    b := b.(header := r.refresh(b));
    assert RefreshedFrom(r, b, stale);
  }

  ghost predicate Subsequence<T>(a: seq<T>, b: seq<T>)
    decreases |b|
  {
    || a == []
    || (b != [] && (Subsequence(a, b[1..]) || (a[0] == b[0] && Subsequence(a[1..], b[1..]))))
  }

  /** The body with the transactions appended. */
  function WithAll(body: Body, txs: seq<Tx>): Body {
    body.(txs := body.txs + txs)
  }

  /** Packing leaves out only what did not fit: the next transaction joins exactly when the block with
      all that was packed so far and it is within the limits. */
  lemma {:induction false} PackedForCause(r: Rules, body: Body, selected: seq<Tx>, tx: Tx)
    ensures
      var packed := Packed(r, body, selected);
      Packed(r, body, selected + [tx]) ==
        if r.blockSize(WithAll(body, packed + [tx])) <= 5 * 1024 * 1024
          && r.blockWeight(WithAll(body, packed + [tx])) <= 5 * 1024 * 1024
        then packed + [tx] else packed
    decreases |selected|
  {
    if selected == [] {
      assert selected + [tx] == [tx] && [tx][1..] == [];
      assert WithAll(body, [] + [tx]) == With(body, tx);
      assert Packed(r, With(body, tx), []) == [] && Packed(r, body, []) == [];
    } else {
      var first, rest := selected[0], selected[1..];
      assert (selected + [tx])[1..] == rest + [tx];
      if Fits(r, With(body, first)) {
        PackedForCause(r, With(body, first), rest, tx);
        var packed := Packed(r, With(body, first), rest);
        assert [first] + (packed + [tx]) == ([first] + packed) + [tx];
        assert WithAll(With(body, first), packed + [tx]) == WithAll(body, ([first] + packed) + [tx]);
      } else {
        PackedForCause(r, body, rest, tx);
      }
    }
  }

  /** Nothing selected, nothing packed. */
  lemma PackedNothing(r: Rules, body: Body)
    ensures Packed(r, body, []) == []
  {
  }

  /** Packing keeps the selection's order. */
  lemma {:induction false} PackedIsSubsequence(r: Rules, b: Body, selected: seq<Tx>)
    ensures Subsequence(Packed(r, b, selected), selected)
    decreases |selected|
  {
    if selected != [] {
      if Fits(r, With(b, selected[0])) {
        PackedIsSubsequence(r, With(b, selected[0]), selected[1..]);
        var rest := Packed(r, With(b, selected[0]), selected[1..]);
        assert ([selected[0]] + rest)[1..] == rest;
      } else {
        PackedIsSubsequence(r, b, selected[1..]);
      }
    }
  }
}
