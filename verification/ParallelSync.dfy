/** Header-first parallel block download from several peers, none of them trusted. */
module ParallelSync {
  import opened Paqus
  import O = Ordering

  const MAX_BLOCKS_PER_BATCH: nat := 32
  const MIN_BLOCKS_PER_SYNC: nat := 32
  const MAX_BLOCKS_PER_SYNC: nat := 256

  type Peer = nat

  datatype TipInfo = TipInfo(height: nat, hash: Hash, work: nat)

  datatype Candidate = Candidate(peer: Peer, tip: TipInfo)

  /** What a peer answers to successive range requests: anything at all. */
  datatype Reply<T> = Items(items: seq<T>) | Unexpected | Lost

  /** How contacting a peer for one range goes. */
  datatype Attempt = Unreachable | NoHandshake | Serves(replies: seq<Reply<Block>>)

  datatype SyncError = HeadersFailed | DownloadFailed | HeightMismatch

  datatype SyncRange = SyncRange(peer: Peer, start: nat, target: nat, headers: seq<Header>)

  datatype Fetched = Fetched(start: nat, blocks: seq<Block>)

  // ---- Headers from the leader ----

  /** Headers at consecutive heights from `start`, each naming the one before it. */
  ghost predicate LinkedFrom(headers: seq<Header>, start: nat, anchor: Hash) {
    && (forall i :: 0 <= i < |headers| ==> headers[i].height == start + i)
    && Chained(headers, anchor)
  }

  ghost predicate Chained(headers: seq<Header>, anchor: Hash) {
    && (headers != [] ==> headers[0].previous == anchor)
    && (forall i, j :: 0 <= i && j == i + 1 && j < |headers| ==> headers[j].previous == headers[i].hash)
  }

  /** The first `n` replies are non-empty batches that together link up from the anchor and only
      just reach `target`. The greatest height is never passed by the saturating counter, so no
      number of batches satisfies a request up to it. */
  ghost predicate Suffice(replies: seq<Reply<Header>>, n: nat, start: nat, target: nat, anchor: Hash) {
    && target < U64_MAX && n <= |replies| && Batches(replies[..n])
    && start + |Sent(replies[..n])| > target
    && (n > 0 ==> start + |Sent(replies[..n - 1])| <= target)
    && AlmostLinked(Sent(replies[..n]), start, anchor)
  }

  /** Some number of replies suffices. */
  ghost predicate Linkable(replies: seq<Reply<Header>>, start: nat, target: nat, anchor: Hash) {
    exists n: nat :: Suffice(replies, n, start, target, anchor)
  }

  ghost predicate Batches<T>(replies: seq<Reply<T>>) {
    forall k :: 0 <= k < |replies| ==> replies[k].Items? && replies[k].items != []
  }

  /** Accepts header batches exactly while heights and parent hashes line up, until the target is
      reached. The peer may send more than asked for, never less. */
  method RequestHeaders(replies: seq<Reply<Header>>, start: nat, target: nat, anchor: Hash)
    returns (result: Result<seq<Header>, SyncError>, ghost used: nat)
    requires start <= target <= U64_MAX
    ensures result.Err? ==> result == Err(HeadersFailed)
    ensures result.Ok? <==> Linkable(replies, start, target, anchor)
    ensures result.Ok? ==>
      && target < U64_MAX && Suffice(replies, used, start, target, anchor) && result.value == Sent(replies[..used])
      && |result.value| >= target - start + 1 && LinkedFrom(result.value[..target - start + 1], start, anchor)
  {
    hide AlmostLinked, Batches;
    NoBatches(replies);
    used := 0;
    var nextHeight, previous := start, anchor;
    var headers: seq<Header> := [];
    var asked := 0;
    NothingLinked(start, anchor);
    while nextHeight <= target
      invariant asked <= |replies| && nextHeight == Min(start + |headers|, U64_MAX)
      invariant previous == if headers == [] then anchor else headers[|headers| - 1].hash
      invariant AlmostLinked(headers, start, anchor)
      invariant headers == Sent(replies[..asked]) && Batches(replies[..asked])
      invariant asked > 0 && target < U64_MAX ==> start + |Sent(replies[..asked - 1])| <= target
      decreases |replies| - asked
    {
      if asked == |replies| || !replies[asked].Items? || replies[asked].items == [] {
        NoneSuffices(replies, asked, start, target, anchor);
        return Err(HeadersFailed), 0;
      }
      var batch := replies[asked].items;
      SentGrows(replies, asked);
      var ok;
      ok, nextHeight, previous := CheckBatch(batch, headers, nextHeight, previous, start, anchor);
      if !ok {
        NoneSuffices(replies, asked, start, target, anchor);
        return Err(HeadersFailed), 0;
      }
      BatchesExtend(replies, asked);
      headers := headers + batch;
      asked := asked + 1;
      assert replies[..asked][..asked - 1] == replies[..asked - 1];
    }
    LinksSuffice(headers, start, target, anchor);
    assert Suffice(replies, asked, start, target, anchor);
    result, used := Ok(headers), asked;
  }

  /** Walks a batch that continues `headers`; every header must have the next height and name the
      one before it. */
  method CheckBatch(batch: seq<Header>, headers: seq<Header>, height: nat, parent: Hash, start: nat, anchor: Hash)
    returns (ok: bool, nextHeight: nat, previous: Hash)
    requires AlmostLinked(headers, start, anchor) && height == Min(start + |headers|, U64_MAX)
    requires parent == if headers == [] then anchor else headers[|headers| - 1].hash
    ensures ok <==> AlmostLinked(headers + batch, start, anchor)
    ensures ok ==> nextHeight == Min(start + |headers| + |batch|, U64_MAX)
    ensures ok && batch != [] ==> previous == batch[|batch| - 1].hash
  {
    hide AlmostLinked;
    nextHeight, previous := height, parent;
    assert headers + batch[..0] == headers;
    for i := 0 to |batch|
      invariant nextHeight == Min(start + |headers| + i, U64_MAX)
      invariant previous == if i > 0 then batch[i - 1].hash else parent
      invariant AlmostLinked(headers + batch[..i], start, anchor)
    {
      var header := batch[i];
      if header.height != nextHeight || header.previous != previous {
        LinkBreaks(headers + batch[..i], headers + batch, start, anchor);
        return false, nextHeight, previous;
      }
      LinkGrows(headers + batch[..i], header, start, anchor);
      assert headers + batch[..i + 1] == headers + batch[..i] + [header];
      previous := header.hash;
      nextHeight := SaturatingAdd(nextHeight, 1);
    }
    assert batch[..|batch|] == batch;
    ok := true;
  }

  /** Everything a peer sent in its replies, end to end. */
  ghost function Sent<T>(replies: seq<Reply<T>>): seq<T> {
    if replies == [] then []
    else
      var last := replies[|replies| - 1];
      Sent(replies[..|replies| - 1]) + (if last.Items? then last.items else [])
  }

  lemma SentGrows<T>(replies: seq<Reply<T>>, n: nat)
    requires n < |replies| && replies[n].Items?
    ensures Sent(replies[..n + 1]) == Sent(replies[..n]) + replies[n].items
  {
    assert replies[..n + 1][..n] == replies[..n];
  }

  lemma NoBatches<T>(replies: seq<Reply<T>>)
    ensures Batches(replies[..0]) && Sent(replies[..0]) == []
  {
  }

  lemma BatchesExtend<T>(replies: seq<Reply<T>>, n: nat)
    requires n < |replies| && Batches(replies[..n]) && replies[n].Items? && replies[n].items != []
    ensures Batches(replies[..n + 1])
  {
    assert forall k :: 0 <= k < n ==> replies[..n + 1][k] == replies[..n][k];
  }

  lemma {:induction false} SentExtends<T>(replies: seq<Reply<T>>, m: nat, n: nat)
    requires m <= n <= |replies|
    ensures Sent(replies[..m]) <= Sent(replies[..n])
    decreases n
  {
    if m < n {
      SentExtends(replies, m, n - 1);
      assert replies[..n][..n - 1] == replies[..n - 1];
    }
  }

  /** Once a batch is missing, empty or breaks the link, no number of replies will do. */
  lemma NoneSuffices(replies: seq<Reply<Header>>, asked: nat, start: nat, target: nat, anchor: Hash)
    requires asked <= |replies| && (target < U64_MAX ==> start + |Sent(replies[..asked])| <= target)
    requires asked == |replies| || !replies[asked].Items? || replies[asked].items == []
      || !AlmostLinked(Sent(replies[..asked + 1]), start, anchor)
    ensures forall n: nat :: !Suffice(replies, n, start, target, anchor)
  {
    hide AlmostLinked;
    forall n: nat | Suffice(replies, n, start, target, anchor)
      ensures false
    {
      if n <= asked {
        SentExtends(replies, n, asked);
      } else {
        assert replies[..n][asked] == replies[asked];
        SentExtends(replies, asked + 1, n);
        assert Sent(replies[..n])[..|Sent(replies[..asked + 1])|] == Sent(replies[..asked + 1]);
        PrefixLinked(Sent(replies[..n]), |Sent(replies[..asked + 1])|, start, anchor);
      }
      assert false;
    }
  }

  lemma PrefixLinked(headers: seq<Header>, k: nat, start: nat, anchor: Hash)
    requires AlmostLinked(headers, start, anchor) && k <= |headers|
    ensures AlmostLinked(headers[..k], start, anchor)
  {
  }

  lemma LinkBreaks(headers: seq<Header>, all: seq<Header>, start: nat, anchor: Hash)
    requires |headers| < |all| && headers == all[..|headers|]
    requires
      var next := all[|headers|];
      || next.height != Min(start + |headers|, U64_MAX)
      || next.previous != (if headers == [] then anchor else headers[|headers| - 1].hash)
    ensures !AlmostLinked(all, start, anchor)
  {
  }

  lemma NothingLinked(start: nat, anchor: Hash)
    ensures AlmostLinked([], start, anchor)
  {
  }

  lemma LinkGrows(headers: seq<Header>, header: Header, start: nat, anchor: Hash)
    requires AlmostLinked(headers, start, anchor)
    requires header.height == Min(start + |headers|, U64_MAX)
    requires header.previous == if headers == [] then anchor else headers[|headers| - 1].hash
    ensures AlmostLinked(headers + [header], start, anchor)
  {
  }

  lemma LinksSuffice(headers: seq<Header>, start: nat, target: nat, anchor: Hash)
    requires AlmostLinked(headers, start, anchor) && start <= target < U64_MAX
    requires |headers| >= target - start + 1
    ensures LinkedFrom(headers[..target - start + 1], start, anchor)
  {
  }

  /** As `LinkedFrom`, with heights as the saturating counter gives them. */
  ghost predicate AlmostLinked(headers: seq<Header>, start: nat, anchor: Hash) {
    && (forall i :: 0 <= i < |headers| ==> headers[i].height == Min(start + i, U64_MAX))
    && Chained(headers, anchor)
  }

  // ---- Splitting the work ----

  predicate Better(a: TipInfo, b: TipInfo) {
    a.work > b.work || (a.work == b.work && a.hash < b.hash)
  }

  /** The candidates at or above `target`, in their order. */
  function Reaching(candidates: seq<Candidate>, target: nat): seq<Candidate> {
    if candidates == [] then [] else
    var last := candidates[|candidates| - 1];
    Reaching(candidates[..|candidates| - 1], target) + (if last.tip.height >= target then [last] else [])
  }

  lemma {:induction false} ReachingMeans(candidates: seq<Candidate>, target: nat)
    ensures forall c :: c in Reaching(candidates, target) <==> c in candidates && c.tip.height >= target
  {
    if candidates != [] {
      ReachingMeans(candidates[..|candidates| - 1], target);
      assert candidates == candidates[..|candidates| - 1] + [candidates[|candidates| - 1]];
    }
  }

  /** `a` has the more work, or as much and a hash no higher. */
  ghost predicate AtLeast(a: TipInfo, b: TipInfo) {
    a.work > b.work || (a.work == b.work && a.hash <= b.hash)
  }

  ghost predicate BestFirst(order: seq<Candidate>) {
    forall i, j :: 0 <= i < j < |order| ==> AtLeast(order[i].tip, order[j].tip)
  }

  /** Best tip first: most work, then the lower hash. */
  function TipOrder(c: Candidate): O.Key {
    O.Key(0 - c.tip.work, 0, c.tip.hash)
  }

  /** The candidates that reach `target`, all of them and best tip first. */
  method Available(candidates: seq<Candidate>, target: nat) returns (order: seq<Candidate>)
    ensures multiset(order) == multiset(Reaching(candidates, target)) && BestFirst(order)
  {
    order := O.SortBy(Reaching(candidates, target), TipOrder);
    O.SortKeeps(Reaching(candidates, target), TipOrder);
    assert forall a: Candidate, b: Candidate :: AtLeast(a.tip, b.tip) <==> !O.Less(TipOrder(b), TipOrder(a));
  }

  /** Range `k` starts where range `k - 1` stopped and carries its slice of the headers. */
  ghost predicate TileAt(ranges: seq<SyncRange>, k: nat, start: nat, headers: seq<Header>)
    requires k < |ranges|
  {
    && start <= ranges[k].start <= ranges[k].target
    && ranges[k].start == Reached(ranges, start, k)
    && ranges[k].target + 1 - start <= |headers|
    && ranges[k].headers == headers[ranges[k].start - start..ranges[k].target + 1 - start]
  }

  ghost predicate Tiles(ranges: seq<SyncRange>, start: nat, next: nat, headers: seq<Header>) {
    && (forall k :: 0 <= k < |ranges| ==>
         && start <= ranges[k].start <= ranges[k].target
         && ranges[k].start == (if k == 0 then start else ranges[k - 1].target + 1)
         && ranges[k].target + 1 - start <= |headers|
         && ranges[k].headers == headers[ranges[k].start - start..ranges[k].target + 1 - start])
    && next == if ranges == [] then start else ranges[|ranges| - 1].target + 1
  }

  lemma TileOf(ranges: seq<SyncRange>, k: nat, start: nat, next: nat, headers: seq<Header>)
    requires Tiles(ranges, start, next, headers) && k < |ranges|
    ensures TileAt(ranges, k, start, headers)
  {
  }

  lemma TilesFrom(ranges: seq<SyncRange>, start: nat, headers: seq<Header>)
    requires forall k: nat :: k < |ranges| ==> TileAt(ranges, k, start, headers)
    ensures Tiles(ranges, start, Reached(ranges, start, |ranges|), headers)
  {
    forall k | 0 <= k < |ranges|
      ensures start <= ranges[k].start <= ranges[k].target && ranges[k].target + 1 - start <= |headers|
      ensures ranges[k].start == if k == 0 then start else ranges[k - 1].target + 1
      ensures ranges[k].headers == headers[ranges[k].start - start..ranges[k].target + 1 - start]
    {
      assert TileAt(ranges, k, start, headers);
    }
  }

  /** Every range but the last is a full batch. */
  ghost predicate FullBatches(ranges: seq<SyncRange>, target: nat) {
    forall k :: 0 <= k < |ranges| ==> ranges[k].target == Min(ranges[k].start + MAX_BLOCKS_PER_BATCH - 1, target)
  }

  /** Cuts the heights into full batches, handed round robin to the candidates that reach the
      target, best tip first. */
  method PlanRanges(start: nat, target: nat, headers: seq<Header>, candidates: seq<Candidate>)
    returns (ranges: seq<SyncRange>, ghost order: seq<Candidate>)
    requires start <= target < U64_MAX && |headers| >= target - start + 1
    ensures multiset(order) == multiset(Reaching(candidates, target)) && BestFirst(order)
    ensures order == [] ==> ranges == []
    ensures order != [] ==> ranges != [] && Tiles(ranges, start, target + 1, headers) && FullBatches(ranges, target)
    ensures order != [] ==> RoundRobin(ranges, order)
  {
    hide Tiles, FullBatches, RoundRobin, BestFirst, Reaching;
    var available := Available(candidates, target);
    order := available;
    ranges := [];
    if available == [] {
      return;
    }
    var nextHeight := start;
    var headerIndex := 0;
    NothingPlanned(start, target, headers, available);
    while nextHeight <= target
      invariant start <= nextHeight <= target + 1 && headerIndex == nextHeight - start
      invariant ranges == [] ==> nextHeight == start
      invariant Tiles(ranges, start, nextHeight, headers) && FullBatches(ranges, target)
      invariant RoundRobin(ranges, available)
    {
      var remaining := SaturatingAdd(SaturatingSub(target, nextHeight), 1);
      var count: nat := Min(remaining, MAX_BLOCKS_PER_BATCH);
      var peer := available[|ranges| % |available|].peer;
      var last := SaturatingSub(SaturatingAdd(nextHeight, count), 1);
      var range := SyncRange(peer, nextHeight, last, headers[headerIndex..headerIndex + count]);
      TilesGrow(ranges, range, start, headers, count);
      BatchesGrow(ranges, range, target, available);
      ranges := ranges + [range];
      nextHeight := SaturatingAdd(nextHeight, count);
      headerIndex := headerIndex + count;
    }
  }

  ghost predicate RoundRobin(ranges: seq<SyncRange>, order: seq<Candidate>)
    requires order != []
  {
    forall k :: 0 <= k < |ranges| ==> ranges[k].peer == order[k % |order|].peer
  }

  lemma NothingPlanned(start: nat, target: nat, headers: seq<Header>, order: seq<Candidate>)
    requires order != []
    ensures Tiles([], start, start, headers) && FullBatches([], target) && RoundRobin([], order)
  {
  }

  lemma BatchesGrow(ranges: seq<SyncRange>, range: SyncRange, target: nat, order: seq<Candidate>)
    requires order != [] && FullBatches(ranges, target) && RoundRobin(ranges, order)
    requires range.target == Min(range.start + MAX_BLOCKS_PER_BATCH - 1, target)
    requires range.peer == order[|ranges| % |order|].peer
    ensures FullBatches(ranges + [range], target) && RoundRobin(ranges + [range], order)
  {
  }

  lemma TilesGrow(ranges: seq<SyncRange>, range: SyncRange, start: nat, headers: seq<Header>, count: nat)
    requires Tiles(ranges, start, range.start, headers) && count > 0
    requires range.target + 1 == range.start + count && start <= range.start
    requires range.start - start + count <= |headers|
    requires range.headers == headers[range.start - start..range.start - start + count]
    ensures Tiles(ranges + [range], start, range.target + 1, headers)
  {
    hide TileAt, Tiles;
    TilesEnd(ranges, start, range.start, headers);
    forall k: nat | k <= |ranges| ensures TileAt(ranges + [range], k, start, headers) {
      if k < |ranges| { TileOf(ranges, k, start, range.start, headers); }
      TileStays(ranges, range, k, start, headers);
    }
    TilesFrom(ranges + [range], start, headers);
  }

  lemma TilesEnd(ranges: seq<SyncRange>, start: nat, next: nat, headers: seq<Header>)
    requires Tiles(ranges, start, next, headers)
    ensures next == Reached(ranges, start, |ranges|)
  {
  }

  lemma TileStays(ranges: seq<SyncRange>, range: SyncRange, k: nat, start: nat, headers: seq<Header>)
    requires k <= |ranges|
    requires if k < |ranges| then TileAt(ranges, k, start, headers) else
      && start <= range.start <= range.target && range.start == Reached(ranges, start, |ranges|)
      && range.target + 1 - start <= |headers|
      && range.headers == headers[range.start - start..range.target + 1 - start]
    ensures TileAt(ranges + [range], k, start, headers)
  {
    assert k > 0 ==> (ranges + [range])[k - 1] == ranges[k - 1];
  }

  // ---- Downloading one range ----

  ghost function HeadersOf(blocks: seq<Block>): seq<Header> {
    seq(|blocks|, i requires 0 <= i < |blocks| => blocks[i].header)
  }

  /** The first `n` replies are non-empty batches holding blocks with exactly these headers. */
  ghost predicate Delivers(replies: seq<Reply<Block>>, n: nat, headers: seq<Header>) {
    n <= |replies| && Batches(replies[..n]) && HeadersOf(Sent(replies[..n])) == headers
  }

  ghost predicate Numbered(headers: seq<Header>, start: nat) {
    forall i :: 0 <= i < |headers| ==> headers[i].height == start + i
  }

  /** A batch that is missing, empty or departs from the headers spoils the delivery. */
  lemma NoneDelivers(replies: seq<Reply<Block>>, asked: nat, headers: seq<Header>)
    requires asked <= |replies| && |Sent(replies[..asked])| < |headers|
    requires asked == |replies| || !replies[asked].Items? || replies[asked].items == []
      || !(HeadersOf(Sent(replies[..asked + 1])) <= headers)
    ensures forall n: nat :: !Delivers(replies, n, headers)
  {
    forall n: nat | Delivers(replies, n, headers)
      ensures false
    {
      assert |Sent(replies[..n])| == |headers|;
      if n <= asked {
        SentExtends(replies, n, asked);
      } else {
        assert replies[..n][asked] == replies[asked];
        SentExtends(replies, asked + 1, n);
        PrefixHeaders(Sent(replies[..asked + 1]), Sent(replies[..n]));
      }
      assert false;
    }
  }

  lemma PrefixHeaders(a: seq<Block>, b: seq<Block>)
    requires a <= b
    ensures HeadersOf(a) <= HeadersOf(b)
  {
  }

  /** Walks a batch that continues `downloaded`; every block must have the next height and the
      next header. */
  method CheckBlocks(blocks: seq<Block>, downloaded: seq<Block>, height: nat, headers: seq<Header>, start: nat)
    returns (ok: bool, nextHeight: nat)
    requires height == start + |downloaded| && start + |headers| <= U64_MAX
    requires HeadersOf(downloaded) <= headers && Numbered(HeadersOf(downloaded), start)
    ensures ok <==> HeadersOf(downloaded + blocks) <= headers && Numbered(HeadersOf(downloaded + blocks), start)
    ensures ok ==> nextHeight == start + |downloaded| + |blocks|
  {
    hide Numbered;
    nextHeight := height;
    assert downloaded + blocks[..0] == downloaded;
    for i := 0 to |blocks|
      invariant nextHeight == start + |downloaded| + i
      invariant HeadersOf(downloaded + blocks[..i]) <= headers && Numbered(HeadersOf(downloaded + blocks[..i]), start)
    {
      var block, so := blocks[i], downloaded + blocks[..i];
      BlockFollows(so, block, blocks[i + 1..], headers, start);
      assert so + [block] == downloaded + blocks[..i + 1];
      assert so + [block] + blocks[i + 1..] == downloaded + blocks;
      var n := |downloaded| + i;
      if block.header.height != nextHeight || n >= |headers| || block.header != headers[n] {
        return false, nextHeight;
      }
      nextHeight := SaturatingAdd(nextHeight, 1);
    }
    assert blocks[..|blocks|] == blocks;
    ok := true;
  }

  lemma BlockFollows(so: seq<Block>, block: Block, rest: seq<Block>, headers: seq<Header>, start: nat)
    requires HeadersOf(so) <= headers && Numbered(HeadersOf(so), start)
    ensures
      var fits := block.header.height == start + |so| && |so| < |headers| && block.header == headers[|so|];
      && (fits ==> HeadersOf(so + [block]) <= headers && Numbered(HeadersOf(so + [block]), start))
      && (!fits ==> !(HeadersOf(so + [block] + rest) <= headers && Numbered(HeadersOf(so + [block] + rest), start)))
  {
    HeadersJoin(so, [block]);
    HeadersJoin(so + [block], rest);
    var all := HeadersOf(so + [block] + rest);
    assert all[|so|] == block.header;
    assert HeadersOf([block]) == [block.header];
  }

  /** Downloads blocks one by one, and succeeds exactly when the peer delivers blocks with these
      headers at consecutive heights. */
  method FetchBlocks(replies: seq<Reply<Block>>, start: nat, target: nat, headers: seq<Header>)
    returns (result: Result<seq<Block>, SyncError>)
    requires start <= target < U64_MAX
    requires |headers| == target - start + 1
    ensures result.Ok? ==> HeadersOf(result.value) == headers
    ensures result.Ok? <==> Numbered(headers, start) && exists n: nat :: Delivers(replies, n, headers)
  {
    var downloaded: seq<Block> := [];
    var nextHeight := start;
    var asked := 0;
    while nextHeight <= target
      invariant asked <= |replies| && |downloaded| <= |headers| && nextHeight == start + |downloaded|
      invariant HeadersOf(downloaded) <= headers && Numbered(HeadersOf(downloaded), start)
      invariant downloaded == Sent(replies[..asked]) && Batches(replies[..asked])
      decreases target + 1 - nextHeight
    {
      if asked == |replies| || !replies[asked].Items? || replies[asked].items == [] {
        NoneDelivers(replies, asked, headers);
        return Err(DownloadFailed);
      }
      var blocks := replies[asked].items;
      SentGrows(replies, asked);
      var ok;
      ok, nextHeight := CheckBlocks(blocks, downloaded, nextHeight, headers, start);
      if !ok {
        if !(HeadersOf(downloaded + blocks) <= headers) { NoneDelivers(replies, asked, headers); }
        return Err(DownloadFailed);
      }
      downloaded := downloaded + blocks;
      asked := asked + 1;
    }
    assert HeadersOf(downloaded) == headers;
    assert Delivers(replies, asked, headers);
    result := Ok(downloaded);
  }

  /** A peer that is asked for a range: the assigned one or any candidate that reaches it. */
  ghost predicate Asked(range: SyncRange, candidates: seq<Candidate>, peer: Peer) {
    peer == range.peer || exists c :: c in candidates && c.peer == peer && c.tip.height >= range.target
  }

  ghost predicate Provides(attempt: Attempt, headers: seq<Header>) {
    attempt.Serves? && exists n: nat :: Delivers(attempt.replies, n, headers)
  }

  /** Tries the assigned peer, then every other candidate that reaches the range, and succeeds
      exactly when one of them provides it. */
  method FetchRangeWithRetries(range: SyncRange, candidates: seq<Candidate>, contact: Peer -> Attempt)
    returns (result: Result<Fetched, SyncError>)
    requires range.start <= range.target < U64_MAX
    requires |range.headers| == range.target - range.start + 1
    ensures result.Ok? ==> result.value.start == range.start && HeadersOf(result.value.blocks) == range.headers
    ensures result.Ok? <==>
      && Numbered(range.headers, range.start)
      && exists p :: Asked(range, candidates, p) && Provides(contact(p), range.headers)
  {
    hide Numbered, Delivers;
    var peers := [range.peer];
    for i := 0 to |candidates|
      invariant forall p :: p in peers <==> Asked(range, candidates[..i], p)
    {
      assert candidates[..i + 1] == candidates[..i] + [candidates[i]];
      if candidates[i].peer != range.peer && candidates[i].tip.height >= range.target {
        peers := peers + [candidates[i].peer];
      }
    }
    assert candidates[..|candidates|] == candidates;
    for i := 0 to |peers|
      invariant Numbered(range.headers, range.start) ==>
        forall k :: 0 <= k < i ==> !Provides(contact(peers[k]), range.headers)
    {
      var attempt := contact(peers[i]);
      if attempt.Serves? {
        var blocks := FetchBlocks(attempt.replies, range.start, range.target, range.headers);
        if blocks.Ok? {
          assert peers[i] in peers;
          return Ok(Fetched(range.start, blocks.value));
        }
      }
    }
    result := Err(DownloadFailed);
  }

  // ---- Putting the ranges together ----

  /** `results[k]` answers `ranges[k]`. */
  ghost predicate Answers(results: seq<Fetched>, ranges: seq<SyncRange>) {
    && |results| == |ranges|
    && forall k :: 0 <= k < |ranges| ==>
         results[k].start == ranges[k].start && HeadersOf(results[k].blocks) == ranges[k].headers
  }

  lemma StartsAscend(ranges: seq<SyncRange>, start: nat, next: nat, headers: seq<Header>, a: nat, b: nat)
    requires Tiles(ranges, start, next, headers) && a < b < |ranges|
    ensures ranges[a].start < ranges[b].start
    decreases b
  {
    if a < b - 1 { StartsAscend(ranges, start, next, headers, a, b - 1); }
  }

  /** Collects worker results, in whatever order they arrive, keyed by start height. */
  method Collect(arrived: seq<Fetched>) returns (downloaded: map<nat, seq<Block>>)
    requires forall i, j :: 0 <= i < |arrived| && 0 <= j < |arrived| && arrived[i].start == arrived[j].start ==>
      arrived[i] == arrived[j]
    ensures forall f :: f in arrived ==> f.start in downloaded && downloaded[f.start] == f.blocks
    ensures forall s :: s in downloaded ==> exists f :: f in arrived && f.start == s
  {
    downloaded := map[];
    var i := 0;
    while i < |arrived|
      invariant 0 <= i <= |arrived|
      invariant forall k :: 0 <= k < i ==>
        arrived[k].start in downloaded && downloaded[arrived[k].start] == arrived[k].blocks
      invariant forall s :: s in downloaded ==> exists f :: f in arrived && f.start == s
    {
      downloaded := downloaded[arrived[i].start := arrived[i].blocks];
      assert arrived[i] in arrived;
      i := i + 1;
    }
  }

  lemma LeastKeyExists(m: map<nat, seq<Block>>)
    requires m != map[]
    ensures exists s :: s in m && forall t :: t in m ==> s <= t
  {
    var s :| s in m;
    LeastBelow(m, s);
  }

  lemma LeastBelow(m: map<nat, seq<Block>>, s: nat)
    requires s in m
    ensures exists r :: r in m && forall t :: t in m ==> r <= t
    decreases s
  {
    if t :| t in m && t < s {
      LeastBelow(m, t);
    }
  }

  function LeastKey(m: map<nat, seq<Block>>): nat
    requires m != map[]
  {
    LeastKeyExists(m);
    var s :| s in m && forall t :: t in m ==> s <= t;
    s
  }

  /** Hands the blocks to the node in key order, checking each height on the way. */
  method Assemble(downloaded: map<nat, seq<Block>>, start: nat, ghost ranges: seq<SyncRange>, ghost next: nat,
      ghost headers: seq<Header>, ghost anchor: Hash)
    returns (result: Result<seq<Block>, SyncError>)
    requires Tiles(ranges, start, next, headers) && next <= U64_MAX && next - start <= |headers|
    requires LinkedFrom(headers[..next - start], start, anchor)
    requires forall s :: s in downloaded <==> exists k :: 0 <= k < |ranges| && ranges[k].start == s
    requires forall k :: 0 <= k < |ranges| ==>
      ranges[k].start in downloaded && HeadersOf(downloaded[ranges[k].start]) == ranges[k].headers
    ensures result.Ok? && HeadersOf(result.value) == headers[..next - start]
  {
    hide Tiles, LinkedFrom, Rest, HeadersOf;
    var remaining := downloaded;
    var expected := start;
    var handed: seq<Block> := [];
    ghost var k := 0;
    NothingTaken(downloaded, ranges, start, headers);
    while remaining != map[]
      invariant 0 <= k <= |ranges| && remaining == Rest(downloaded, ranges, k)
      invariant expected == Reached(ranges, start, k) && 0 <= expected - start <= |headers|
      invariant HeadersOf(handed) == headers[..expected - start]
      decreases |remaining|
    {
      var s := LeastKey(remaining);
      NextRange(downloaded, ranges, start, next, headers, anchor, k);
      var blocks := remaining[s];
      var reached := CheckHeights(blocks, expected, ranges[k].headers);
      if reached.None? {
        return Err(HeightMismatch);
      }
      HeadersJoin(handed, blocks);
      handed := handed + blocks;
      expected := reached.value;
      remaining := remaining - {s};
      k := k + 1;
    }
    AllTaken(downloaded, ranges, start, next, headers, k);
    result := Ok(handed);
  }

  /** The height reached once the first `k` ranges were handed over. */
  ghost function Reached(ranges: seq<SyncRange>, start: nat, k: nat): nat
    requires k <= |ranges|
  {
    if k == 0 then start else ranges[k - 1].target + 1
  }

  lemma NothingTaken(downloaded: map<nat, seq<Block>>, ranges: seq<SyncRange>, start: nat, headers: seq<Header>)
    requires forall s :: s in downloaded <==> exists k :: 0 <= k < |ranges| && ranges[k].start == s
    ensures downloaded == Rest(downloaded, ranges, 0) && HeadersOf([]) == headers[..0]
  {
  }

  /** The least remaining key is the next range, whose blocks continue the header chain. */
  lemma NextRange(downloaded: map<nat, seq<Block>>, ranges: seq<SyncRange>, start: nat, next: nat,
      headers: seq<Header>, anchor: Hash, k: nat)
    requires Tiles(ranges, start, next, headers) && k <= |ranges| && Rest(downloaded, ranges, k) != map[]
    requires next - start <= |headers| && LinkedFrom(headers[..next - start], start, anchor)
    requires forall j :: 0 <= j < |ranges| ==>
      ranges[j].start in downloaded && HeadersOf(downloaded[ranges[j].start]) == ranges[j].headers
    ensures k < |ranges|
    ensures
      var s, r := LeastKey(Rest(downloaded, ranges, k)), ranges[k];
      && s == r.start == Reached(ranges, start, k)
      && s in Rest(downloaded, ranges, k) && Rest(downloaded, ranges, k)[s] == downloaded[s]
      && |downloaded[s]| == |r.headers| == r.target + 1 - r.start
      && r.target + 1 <= next && HeadersOf(downloaded[s]) == r.headers
      && (forall i :: 0 <= i < |r.headers| ==> r.headers[i].height == r.start + i)
      && 0 <= r.start - start <= r.target + 1 - start <= |headers|
      && headers[..r.start - start] + r.headers == headers[..r.target + 1 - start]
      && Rest(downloaded, ranges, k) - {s} == Rest(downloaded, ranges, k + 1)
  {
    hide LinkedFrom, LeastKey, Rest;
    NextKey(downloaded, ranges, start, next, headers, k);
    TargetBelow(ranges, start, next, headers, k);
    RangeFollows(ranges, start, next, headers, anchor, k);
    RestShrinks(downloaded, ranges, start, next, headers, k);
    RestHas(downloaded, ranges, k);
    assert |HeadersOf(downloaded[ranges[k].start])| == |downloaded[ranges[k].start]|;
  }

  /** Checks that blocks sit at consecutive heights from `expected`; where the check stops the run,
      the result is empty. */
  method CheckHeights(blocks: seq<Block>, expected: nat, ghost headers: seq<Header>) returns (reached: Option<nat>)
    requires expected + |blocks| <= U64_MAX && HeadersOf(blocks) == headers
    ensures reached == if (forall i :: 0 <= i < |blocks| ==> headers[i].height == expected + i)
      then Some(expected + |blocks|) else None
  {
    var next := expected;
    var i := 0;
    while i < |blocks|
      invariant 0 <= i <= |blocks| && next == expected + i
      invariant forall j :: 0 <= j < i ==> headers[j].height == expected + j
    {
      assert HeadersOf(blocks)[i] == headers[i];
      if blocks[i].header.height != next {
        return None;
      }
      next := SaturatingAdd(next, 1);
      i := i + 1;
    }
    reached := Some(next);
  }

  lemma RangeFollows(ranges: seq<SyncRange>, start: nat, next: nat, headers: seq<Header>, anchor: Hash, k: nat)
    requires Tiles(ranges, start, next, headers) && k < |ranges| && ranges[k].target + 1 <= next
    requires next - start <= |headers| && LinkedFrom(headers[..next - start], start, anchor)
    ensures |ranges[k].headers| == ranges[k].target + 1 - ranges[k].start
    ensures forall i :: 0 <= i < |ranges[k].headers| ==> ranges[k].headers[i].height == ranges[k].start + i
  {
    forall i | 0 <= i < |ranges[k].headers| ensures ranges[k].headers[i].height == ranges[k].start + i {
      assert ranges[k].headers[i] == headers[..next - start][ranges[k].start - start + i];
    }
  }

  lemma HeadersJoin(a: seq<Block>, b: seq<Block>)
    ensures HeadersOf(a + b) == HeadersOf(a) + HeadersOf(b)
  {
  }

  /** The part of the download still to be handed over once `k` ranges were. */
  ghost function Rest(downloaded: map<nat, seq<Block>>, ranges: seq<SyncRange>, k: nat): map<nat, seq<Block>>
    requires k <= |ranges|
  {
    map s | s in downloaded && exists j :: k <= j < |ranges| && ranges[j].start == s :: downloaded[s]
  }

  lemma NextKey(downloaded: map<nat, seq<Block>>, ranges: seq<SyncRange>, start: nat, next: nat, headers: seq<Header>,
      k: nat)
    requires Tiles(ranges, start, next, headers) && k <= |ranges| && Rest(downloaded, ranges, k) != map[]
    requires forall j :: 0 <= j < |ranges| ==> ranges[j].start in downloaded
    ensures k < |ranges| && LeastKey(Rest(downloaded, ranges, k)) == ranges[k].start
  {
    hide Tiles;
    var rest := Rest(downloaded, ranges, k);
    var s :| s in rest;
    assert k < |ranges|;
    assert ranges[k].start in rest;
    forall t | t in rest ensures ranges[k].start <= t {
      var j :| k <= j < |ranges| && ranges[j].start == t;
      if k < j { StartsAscend(ranges, start, next, headers, k, j); }
    }
    LeastKeyExists(rest);
  }

  lemma RestShrinks(downloaded: map<nat, seq<Block>>, ranges: seq<SyncRange>, start: nat, next: nat,
      headers: seq<Header>, k: nat)
    requires Tiles(ranges, start, next, headers) && k < |ranges|
    ensures Rest(downloaded, ranges, k) - {ranges[k].start} == Rest(downloaded, ranges, k + 1)
  {
    forall j | k < j < |ranges| ensures ranges[j].start != ranges[k].start {
      StartsAscend(ranges, start, next, headers, k, j);
    }
  }

  lemma RestHas(downloaded: map<nat, seq<Block>>, ranges: seq<SyncRange>, k: nat)
    requires k < |ranges| && ranges[k].start in downloaded
    ensures ranges[k].start in Rest(downloaded, ranges, k)
    ensures Rest(downloaded, ranges, k)[ranges[k].start] == downloaded[ranges[k].start]
  {
  }

  lemma AllTaken(downloaded: map<nat, seq<Block>>, ranges: seq<SyncRange>, start: nat, next: nat, headers: seq<Header>,
      k: nat)
    requires Tiles(ranges, start, next, headers)
    requires k <= |ranges| && Rest(downloaded, ranges, k) == map[]
    requires forall j :: 0 <= j < |ranges| ==> ranges[j].start in downloaded
    ensures k == |ranges| && Reached(ranges, start, k) == next
  {
    if k < |ranges| {
      RestHas(downloaded, ranges, k);
      assert false;
    }
  }

  lemma {:induction false} TargetBelow(ranges: seq<SyncRange>, start: nat, next: nat, headers: seq<Header>, k: nat)
    requires Tiles(ranges, start, next, headers) && k < |ranges|
    ensures ranges[k].target + 1 <= next
    decreases |ranges| - k
  {
    if k + 1 < |ranges| {
      TargetBelow(ranges, start, next, headers, k + 1);
    }
  }

  // ---- The whole run ----

  /** The leader stands at position `at`: no candidate has a better tip, and none after it as good a
      one. */
  ghost predicate LeadsAt(candidates: seq<Candidate>, at: int, leader: Candidate) {
    && 0 <= at < |candidates| && candidates[at] == leader
    && (forall k :: 0 <= k < |candidates| ==> AtLeast(leader.tip, candidates[k].tip))
    && (forall k :: at < k < |candidates| ==> !AtLeast(candidates[k].tip, leader.tip))
  }

  ghost predicate Leads(leader: Candidate, candidates: seq<Candidate>) {
    exists at :: LeadsAt(candidates, at, leader)
  }

  method PickLeader(candidates: seq<Candidate>) returns (leader: Option<Candidate>)
    ensures leader.None? <==> candidates == []
    ensures leader.Some? ==> Leads(leader.value, candidates)
  {
    if candidates == [] {
      return None;
    }
    var best := candidates[0];
    ghost var at := 0;
    var i := 1;
    while i < |candidates|
      invariant 1 <= i <= |candidates|
      invariant LeadsAt(candidates[..i], at, best)
    {
      if !Better(best.tip, candidates[i].tip) {
        best, at := candidates[i], i;
      }
      i := i + 1;
    }
    assert candidates[..i] == candidates;
    leader := Some(best);
  }

  /** Some peer asked for the range provides it. */
  ghost predicate Obtainable(range: SyncRange, candidates: seq<Candidate>, contact: (nat, Peer) -> Attempt) {
    exists p :: Asked(range, candidates, p) && Provides(contact(range.start, p), range.headers)
  }

  method FetchAll(ranges: seq<SyncRange>, candidates: seq<Candidate>, contact: (nat, Peer) -> Attempt)
    returns (results: Result<seq<Fetched>, SyncError>)
    requires forall k :: 0 <= k < |ranges| ==>
      && ranges[k].start <= ranges[k].target < U64_MAX && |ranges[k].headers| == ranges[k].target - ranges[k].start + 1
      && Numbered(ranges[k].headers, ranges[k].start)
    ensures results.Ok? ==> Answers(results.value, ranges)
    ensures results.Ok? <==> forall k :: 0 <= k < |ranges| ==> Obtainable(ranges[k], candidates, contact)
    ensures results.Err? ==> results == Err(DownloadFailed)
  {
    hide Numbered, Asked, Provides;
    var done: seq<Fetched> := [];
    for k := 0 to |ranges|
      invariant Answers(done, ranges[..k])
      invariant forall j :: 0 <= j < k ==> Obtainable(ranges[j], candidates, contact)
    {
      var start := ranges[k].start;
      var ask := (p: Peer) => contact(start, p);
      var fetched := FetchRangeWithRetries(ranges[k], candidates, ask);
      assert forall p :: ask(p) == contact(start, p);
      if fetched.Err? {
        assert !Obtainable(ranges[k], candidates, contact);
        return Err(DownloadFailed);
      }
      done := done + [fetched.value];
    }
    assert ranges[..|ranges|] == ranges;
    results := Ok(done);
  }

  /** How far one run goes: to the leader's tip, but no further than the clamped window. */
  function TargetOf(leader: Candidate, ancestor: TipInfo, window: nat): nat {
    Min(leader.tip.height, SaturatingAdd(ancestor.height, Max(MIN_BLOCKS_PER_SYNC, Min(window, MAX_BLOCKS_PER_SYNC))))
  }

  /** A candidate that reaches the target and serves every batch of these headers on request. */
  ghost predicate Honest(c: Candidate, contact: (nat, Peer) -> Attempt, start: nat, target: nat, headers: seq<Header>)
    requires start <= target && |headers| > target - start
  {
    && c.tip.height >= target
    && forall s: nat :: start <= s <= target ==> ServesBatch(c, contact, start, s, target, headers)
  }

  ghost predicate ServesBatch(c: Candidate, contact: (nat, Peer) -> Attempt, start: nat, s: nat, target: nat,
      headers: seq<Header>)
    requires start <= s <= target && |headers| > target - start
  {
    Provides(contact(s, c.peer), headers[s - start..Min(s + MAX_BLOCKS_PER_BATCH - 1, target) + 1 - start])
  }

  /** Whichever peers serve the ranges, whatever they send, and in whatever order the workers
      finish: the target is the leader's tip within the window, and the blocks handed to the node
      are exactly those of the leader's header chain from the common ancestor to the target, once
      each and in height order. The height check on the way can never fail; the headers are
      refused exactly when no run of batches links up to the target; and with one honest
      candidate that reaches the target the download succeeds. */
  method SyncFromPeers(
    candidates: seq<Candidate>, ancestor: TipInfo, window: nat, headerReplies: seq<Reply<Header>>,
    contact: (nat, Peer) -> Attempt, arrival: seq<Fetched> -> seq<Fetched>)
    returns (result: Result<seq<Block>, SyncError>, leader: Option<Candidate>, target: nat, ghost used: nat)
    requires forall fs: seq<Fetched> :: multiset(arrival(fs)) == multiset(fs)
    ensures leader.None? <==> candidates == []
    ensures leader.None? ==> result == Ok([])
    ensures leader.Some? ==> Leads(leader.value, candidates)
    ensures leader.Some? ==>
      target == Min(leader.value.tip.height, Min(ancestor.height + Max(32, Min(window, 256)), U64_MAX))
    ensures leader.Some? && target <= ancestor.height ==> result == Ok([])
    ensures leader.Some? && target > ancestor.height ==>
      (result == Err(HeadersFailed) <==> !Linkable(headerReplies, ancestor.height + 1, target, ancestor.hash))
    ensures leader.Some? && target > ancestor.height && result.Ok? ==>
      && Suffice(headerReplies, used, ancestor.height + 1, target, ancestor.hash)
      && |result.value| == target - ancestor.height
      && HeadersOf(result.value) <= Sent(headerReplies[..used])
      && LinkedFrom(HeadersOf(result.value), ancestor.height + 1, ancestor.hash)
    ensures leader.Some? && target > ancestor.height && result.Err? && result != Err(HeadersFailed) ==>
      && result == Err(DownloadFailed)
      && Suffice(headerReplies, used, ancestor.height + 1, target, ancestor.hash)
      && forall c :: c in candidates ==> !Honest(c, contact, ancestor.height + 1, target, Sent(headerReplies[..used]))
  {
    hide Suffice, Linkable, Honest, LinkedFrom;
    target, used := 0, 0;
    leader := PickLeader(candidates);
    if leader.None? {
      return Ok([]), leader, 0, 0;
    }
    target := TargetOf(leader.value, ancestor, window);
    if target <= ancestor.height {
      return Ok([]), leader, target, 0;
    }
    var start := SaturatingAdd(ancestor.height, 1);
    var headers;
    headers, used := RequestHeaders(headerReplies, start, target, ancestor.hash);
    if headers.Err? {
      return Err(headers.error), leader, target, used;
    }
    result := DownloadChain(candidates, start, target, headers.value, ancestor.hash, contact, arrival);
  }

  /** Splits, downloads and reassembles the part of a header chain from `start` to `target`. */
  method DownloadChain(
    candidates: seq<Candidate>, start: nat, target: nat, headers: seq<Header>, ghost anchor: Hash,
    contact: (nat, Peer) -> Attempt, arrival: seq<Fetched> -> seq<Fetched>)
    returns (result: Result<seq<Block>, SyncError>)
    requires exists c :: c in candidates && c.tip.height >= target
    requires start <= target < U64_MAX && |headers| >= target - start + 1
    requires LinkedFrom(headers[..target - start + 1], start, anchor)
    requires forall fs: seq<Fetched> :: multiset(arrival(fs)) == multiset(fs)
    ensures result.Ok? ==> HeadersOf(result.value) == headers[..target - start + 1]
    ensures result.Err? ==>
      result == Err(DownloadFailed) && forall c :: c in candidates ==> !Honest(c, contact, start, target, headers)
  {
    hide Tiles, LinkedFrom, Answers, Honest, Obtainable, BestFirst;
    ReachingMeans(candidates, target);
    var ranges, order := PlanRanges(start, target, headers, candidates);
    SomeoneReaches(candidates, target, order);
    RangesFit(ranges, start, target + 1, headers);
    RangesNumbered(ranges, start, target + 1, headers, anchor);
    var results := FetchAll(ranges, candidates, contact);
    if results.Err? {
      ghost var k :| 0 <= k < |ranges| && !Obtainable(ranges[k], candidates, contact);
      NobodyHonest(ranges, k, candidates, contact, start, target, headers);
      return Err(results.error);
    }
    var arrived := arrival(results.value);
    ArrivalsDistinct(results.value, ranges, start, target + 1, headers, arrived);
    var downloaded := Collect(arrived);
    CollectedMatches(downloaded, results.value, ranges, arrived);
    result := Assemble(downloaded, start, ranges, target + 1, headers, anchor);
  }

  lemma SomeoneReaches(candidates: seq<Candidate>, target: nat, order: seq<Candidate>)
    requires multiset(order) == multiset(Reaching(candidates, target))
    requires exists c :: c in candidates && c.tip.height >= target
    ensures order != []
  {
    ReachingMeans(candidates, target);
    var c :| c in candidates && c.tip.height >= target;
    assert c in Reaching(candidates, target);
    assert c in multiset(order);
  }

  lemma RangesNumbered(ranges: seq<SyncRange>, start: nat, next: nat, headers: seq<Header>, anchor: Hash)
    requires Tiles(ranges, start, next, headers) && next - start <= |headers|
    requires LinkedFrom(headers[..next - start], start, anchor)
    ensures forall k :: 0 <= k < |ranges| ==> Numbered(ranges[k].headers, ranges[k].start)
  {
    hide Tiles, LinkedFrom;
    forall k | 0 <= k < |ranges| ensures Numbered(ranges[k].headers, ranges[k].start) {
      TargetBelow(ranges, start, next, headers, k);
      RangeFollows(ranges, start, next, headers, anchor, k);
    }
  }

  lemma NobodyHonest(ranges: seq<SyncRange>, k: nat, candidates: seq<Candidate>, contact: (nat, Peer) -> Attempt,
      start: nat, target: nat, headers: seq<Header>)
    requires start <= target && |headers| > target - start && k < |ranges|
    requires Tiles(ranges, start, target + 1, headers) && FullBatches(ranges, target)
    requires !Obtainable(ranges[k], candidates, contact)
    ensures forall c :: c in candidates ==> !Honest(c, contact, start, target, headers)
  {
    hide Provides;
    var r := ranges[k];
    TargetBelow(ranges, start, target + 1, headers, k);
    forall c | c in candidates && c.tip.height >= target
      ensures !ServesBatch(c, contact, start, r.start, target, headers)
    {
      assert Asked(r, candidates, c.peer);
    }
  }

  lemma RangesFit(ranges: seq<SyncRange>, start: nat, next: nat, headers: seq<Header>)
    requires Tiles(ranges, start, next, headers)
    ensures forall k :: 0 <= k < |ranges| ==>
      && ranges[k].start <= ranges[k].target < next
      && |ranges[k].headers| == ranges[k].target - ranges[k].start + 1
  {
    forall k | 0 <= k < |ranges| ensures ranges[k].target < next {
      TargetBelow(ranges, start, next, headers, k);
    }
  }

  lemma ArrivalsDistinct(results: seq<Fetched>, ranges: seq<SyncRange>, start: nat, next: nat, headers: seq<Header>,
      arrived: seq<Fetched>)
    requires Answers(results, ranges) && Tiles(ranges, start, next, headers) && multiset(arrived) == multiset(results)
    ensures forall i, j :: 0 <= i < |arrived| && 0 <= j < |arrived| && arrived[i].start == arrived[j].start ==>
      arrived[i] == arrived[j]
  {
    forall i, j | 0 <= i < |arrived| && 0 <= j < |arrived| && arrived[i].start == arrived[j].start
      ensures arrived[i] == arrived[j]
    {
      var a := WhereFrom(arrived, results, i);
      var b := WhereFrom(arrived, results, j);
      if a < b { StartsAscend(ranges, start, next, headers, a, b); }
      if b < a { StartsAscend(ranges, start, next, headers, b, a); }
    }
  }

  lemma WhereFrom(arrived: seq<Fetched>, results: seq<Fetched>, i: nat) returns (k: nat)
    requires multiset(arrived) == multiset(results) && i < |arrived|
    ensures k < |results| && results[k] == arrived[i]
  {
    assert arrived[i] in multiset(results);
    k :| 0 <= k < |results| && results[k] == arrived[i];
  }

  lemma CollectedMatches(downloaded: map<nat, seq<Block>>, results: seq<Fetched>, ranges: seq<SyncRange>,
      arrived: seq<Fetched>)
    requires Answers(results, ranges) && multiset(arrived) == multiset(results)
    requires forall f :: f in arrived ==> f.start in downloaded && downloaded[f.start] == f.blocks
    requires forall s :: s in downloaded ==> exists f :: f in arrived && f.start == s
    ensures forall s :: s in downloaded <==> exists k :: 0 <= k < |ranges| && ranges[k].start == s
    ensures forall k :: 0 <= k < |ranges| ==>
      ranges[k].start in downloaded && HeadersOf(downloaded[ranges[k].start]) == ranges[k].headers
  {
    forall k | 0 <= k < |ranges|
      ensures ranges[k].start in downloaded && HeadersOf(downloaded[ranges[k].start]) == ranges[k].headers
    {
      var i := WhereFrom(results, arrived, k);
      assert arrived[i] in arrived;
    }
    forall s | s in downloaded ensures exists k :: 0 <= k < |ranges| && ranges[k].start == s {
      var f :| f in arrived && f.start == s;
      var i :| 0 <= i < |arrived| && arrived[i] == f;
      var k := WhereFrom(arrived, results, i);
      assert ranges[k].start == s;
    }
  }
}
