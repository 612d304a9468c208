/** The cache and the index fed by one node, over whole runs of roll-forwards, rollbacks, replays and queries. */
module EndToEnd {
  import opened Options
  import opened Bytes
  import opened Lists
  import opened Keys
  import opened Ledger
  import opened Chain
  import opened Upgrades
  import opened IndexTables
  import opened IndexRuns

  function TxFeeds(slot: u64, txs: seq<Tx>): (r: seq<Feed>)
    ensures |r| == |txs|
  {
    seq(|txs|, i requires 0 <= i < |txs| => Feed(txs[i], Some(slot)))
  }

  function BlockFeed(b: Block): seq<Feed> { TxFeeds(b.slot, ValidTxs(b)) }

  function FeedLists(blocks: seq<Block>): (r: seq<seq<Feed>>)
    ensures |r| == |blocks|
  {
    seq(|blocks|, i requires 0 <= i < |blocks| => BlockFeed(blocks[i]))
  }

  /** The transactions of a chain of blocks, in order, each at its block's slot. */
  function BlockFeeds(blocks: seq<Block>): seq<Feed> { Flat(FeedLists(blocks)) }

  lemma FeedListsSplit(a: seq<Block>, b: seq<Block>)
    ensures FeedLists(a + b) == FeedLists(a) + FeedLists(b)
  {
  }

  lemma BlockFeedsSplit(a: seq<Block>, b: seq<Block>)
    ensures BlockFeeds(a + b) == BlockFeeds(a) + BlockFeeds(b)
  {
    FeedListsSplit(a, b);
    FlatSplit(FeedLists(a), FeedLists(b));
  }

  lemma BlockFeedsSnoc(a: seq<Block>, b: Block)
    ensures BlockFeeds(a + [b]) == BlockFeeds(a) + BlockFeed(b)
  {
    FeedListsSplit(a, [b]);
    assert FeedLists([b]) == [BlockFeed(b)];
    FlatSnoc(FeedLists(a), BlockFeed(b));
  }

  // ---- events at the level of rows ----

  function HandleRows(m: Rows, e: LedgerTxEvent): Rows {
    match e
    case TxApplied(tx, slot, _, _) => ApplyRows(m, tx, Some(slot))
    case TxUnapplied(tx, _, _, _) => UnapplyRows(m, tx)
  }

  function HandleAllRows(m: Rows, events: seq<LedgerTxEvent>): Rows {
    if events == [] then m else HandleRows(HandleAllRows(m, events[..|events| - 1]), events[|events| - 1])
  }

  lemma {:induction false} HandleAllIsRows(t: Tables, events: seq<LedgerTxEvent>)
    requires Coherent(t)
    ensures HandleAll(t, events).txo == HandleAllRows(t.txo, events)
    ensures Coherent(HandleAll(t, events))
    ensures forall u :: Sentinel(u) in HandleAll(t, events).unit ==> Sentinel(u) in t.unit
  {
    if events != [] {
      var n := |events| - 1;
      HandleAllIsRows(t, events[..n]);
      var before := HandleAll(t, events[..n]);
      match events[n]
      case TxApplied(tx, slot, _, _) =>
        ApplyIsPointwise(before, tx, Some(slot));
        StepCoherent(before, Applied(tx, Some(slot)));
        forall u { ApplyAddsNoSentinel(before, tx, Some(slot), u); }
      case TxUnapplied(tx, _, _, _) =>
        UnapplyIsPointwise(before, tx);
        StepCoherent(before, Unapplied(tx));
        forall u { UnapplySentinel(before, tx, u); }
    }
  }

  lemma {:induction false} HandleSplit(m: Rows, a: seq<LedgerTxEvent>, b: seq<LedgerTxEvent>)
    ensures HandleAllRows(m, a + b) == HandleAllRows(HandleAllRows(m, a), b)
  {
    if b == [] {
      assert a + b == a;
    } else {
      HandleSplit(m, a, b[..|b| - 1]);
      ConcatLast(a, b);
    }
  }

  lemma {:induction false} AppliedIsRun(m: Rows, b: Block, txs: seq<Tx>)
    ensures HandleAllRows(m, AppliedEvents(b, txs)) == RunRows(m, TxFeeds(b.slot, txs))
  {
    if txs != [] {
      var n := |txs| - 1;
      AppliedIsRun(m, b, txs[..n]);
      TxFeedsPrefix(b, txs);
    }
  }

  lemma TxFeedsPrefix(b: Block, txs: seq<Tx>)
    requires txs != []
    ensures TxFeeds(b.slot, txs)[..|txs| - 1] == TxFeeds(b.slot, txs[..|txs| - 1])
    ensures AppliedEvents(b, txs)[..|txs| - 1] == AppliedEvents(b, txs[..|txs| - 1])
  {
  }

  ghost predicate FreshFeeds(m: Rows, feeds: seq<Feed>) {
    forall i :: 0 <= i < |feeds| ==> Fresh(RunRows(m, feeds[..i]), feeds[i].tx)
  }

  lemma FreshFeedsSplit(m: Rows, a: seq<Feed>, b: seq<Feed>)
    requires FreshFeeds(m, a + b)
    ensures FreshFeeds(m, a) && FreshFeeds(RunRows(m, a), b)
  {
    forall i | 0 <= i < |a| ensures Fresh(RunRows(m, a[..i]), a[i].tx) {
      assert (a + b)[..i] == a[..i] && (a + b)[i] == a[i];
    }
    forall i | 0 <= i < |b| ensures Fresh(RunRows(RunRows(m, a), b[..i]), b[i].tx) {
      ConcatPrefix(a, b, i);
      RunSplit(m, a, b[..i]);
    }
  }

  /** The inverse events of a block, handled after the block, give back the rows below it. */
  lemma {:induction false} UnappliedRestores(m: Rows, b: Block, txs: seq<Tx>)
    requires FreshFeeds(m, TxFeeds(b.slot, txs))
    ensures HandleAllRows(RunRows(m, TxFeeds(b.slot, txs)), UnappliedEvents(b, txs)) == m
  {
    if txs != [] {
      var n := |txs| - 1;
      TxFeedsPrefix(b, txs);
      var feeds := TxFeeds(b.slot, txs);
      FreshFeedsPrefix(m, feeds);
      UnappliedRestores(m, b, txs[..n]);
      UndoRestoresIff(RunRows(m, feeds[..n]), txs[n], Some(b.slot));
      HandleCons(RunRows(m, feeds), TxUnapplied(txs[n], b.slot, b.number, b.hash), UnappliedEvents(b, txs[..n]));
    }
  }

  lemma FreshFeedsPrefix(m: Rows, feeds: seq<Feed>)
    requires FreshFeeds(m, feeds) && feeds != []
    ensures FreshFeeds(m, feeds[..|feeds| - 1])
    ensures Fresh(RunRows(m, feeds[..|feeds| - 1]), feeds[|feeds| - 1].tx)
  {
    var n := |feeds| - 1;
    forall i | 0 <= i < n ensures Fresh(RunRows(m, feeds[..n][..i]), feeds[..n][i].tx) {
      assert feeds[..n][..i] == feeds[..i];
    }
  }

  lemma HandleCons(m: Rows, e: LedgerTxEvent, rest: seq<LedgerTxEvent>)
    ensures HandleAllRows(m, [e] + rest) == HandleAllRows(HandleRows(m, e), rest)
  {
    HandleSplit(m, [e], rest);
    assert [e][..0] == [];
    assert HandleAllRows(m, [e]) == HandleRows(HandleAllRows(m, []), e);
  }

  lemma UndoneCons(b: Block, rest: seq<Block>)
    ensures UndoneEvents([b] + rest) == InverseEvents(b) + UndoneEvents(rest)
  {
    var lists := InverseLists(rest);
    assert InverseLists([b] + rest) == [InverseEvents(b)] + lists;
    assert ([InverseEvents(b)] + lists)[1..] == lists;
  }

  /** The events of a rollback, handled on top of the blocks it undoes, leave the rows below them. */
  lemma {:induction false} UndoneRestores(m: Rows, blocks: seq<Block>)
    requires FreshFeeds(m, BlockFeeds(blocks))
    ensures HandleAllRows(RunRows(m, BlockFeeds(blocks)), UndoneEvents(Reverse(blocks))) == m
  {
    if blocks != [] {
      var n := |blocks| - 1;
      var below, b := blocks[..n], blocks[n];
      assert blocks == below + [b];
      BlockFeedsSnoc(below, b);
      FreshFeedsSplit(m, BlockFeeds(below), BlockFeed(b));
      RunSplit(m, BlockFeeds(below), BlockFeed(b));
      UndoneCons(b, Reverse(below));
      UnappliedRestores(RunRows(m, BlockFeeds(below)), b, ValidTxs(b));
      HandleSplit(RunRows(m, BlockFeeds(blocks)), InverseEvents(b), UndoneEvents(Reverse(below)));
      UndoneRestores(m, below);
    }
  }

  // ---- valid chains ----

  ghost predicate DistinctTxs(feeds: seq<Feed>) {
    forall i, j :: 0 <= i < j < |feeds| ==> feeds[i].tx.hash != feeds[j].tx.hash
  }

  /** What the ledger guarantees of a chain: hashes are unique, inputs follow their producers, and each
      transaction spends only unspent outputs and creates new ones. */
  ghost predicate ValidFeeds(feeds: seq<Feed>) {
    DistinctTxs(feeds) && Causal(feeds) && FreshFeeds(map[], feeds)
  }

  lemma CausalPrefix(a: seq<Feed>, b: seq<Feed>)
    requires Causal(a + b)
    ensures Causal(a)
  {
    var all := a + b;
    forall i, o | 0 <= i < |a| && Consumes(a[i].tx, o) && ProducedIn(a, o) ensures ProducedIn(a[..i], o) {
      var j :| 0 <= j < |a| && Produces(a[j].tx, o);
      assert all[j] == a[j] && all[i] == a[i];
      assert ProducedIn(all, o);
      assert all[..i] == a[..i];
    }
  }

  lemma ValidFeedsPrefix(a: seq<Feed>, b: seq<Feed>)
    requires ValidFeeds(a + b)
    ensures ValidFeeds(a)
  {
    FreshFeedsSplit(map[], a, b);
    CausalPrefix(a, b);
    forall i, j | 0 <= i < j < |a| ensures a[i].tx.hash != a[j].tx.hash {
      assert (a + b)[i] == a[i] && (a + b)[j] == a[j];
    }
  }

  /** Every transaction of a valid chain is settled at its own slot. */
  lemma ChainIsSettled(feeds: seq<Feed>, i: nat)
    requires ValidFeeds(feeds) && i < |feeds|
    ensures HashConsistent(feeds) && Settled(feeds, feeds[i])
  {
    assert forall j :: i < j < |feeds| && feeds[j].tx == feeds[i].tx ==> feeds[j].slot == feeds[i].slot;
  }

  // ---- the machine and the chain it should agree with ----

  datatype Input = FromNode(upgrade: Upgrade) | UnitQuery(unit: seq<byte>)

  datatype Machine = Machine(cache: Cache, tables: Tables)

  function Advance(s: Machine, threshold: u64, input: Input): Machine {
    match input
    case FromNode(upgrade) =>
      var (cache, events) := Process(s.cache, upgrade, threshold);
      Machine(cache, HandleAll(s.tables, events))
    case UnitQuery(unit) => s.(tables := EnsureUnit(s.tables, AsciiLower(unit)))
  }

  function AdvanceAll(s: Machine, threshold: u64, inputs: seq<Input>): Machine {
    if inputs == [] then s
    else Advance(AdvanceAll(s, threshold, inputs[..|inputs| - 1]), threshold, inputs[|inputs| - 1])
  }

  /** The node's chain above the point the index starts from: blocks up to the rollback threshold, then the
      indexed blocks that are cached. Below them the cache may hold older blocks that the index leaves out;
      `ground` is the cache's point below all cached blocks. */
  datatype NodeChain = NodeChain(
    start: Point, ground: Point, below: seq<Block>, settled: seq<Block>, recent: seq<Block>)
  {
    function Blocks(): seq<Block> { settled + recent }
    function Cached(): seq<Block> { below + recent }
  }

  ghost predicate Contains(blocks: seq<Block>, b: Block) { exists i :: 0 <= i < |blocks| && blocks[i] == b }

  ghost predicate HasPoint(blocks: seq<Block>, p: Point) { exists i :: 0 <= i < |blocks| && PointOf(blocks[i]) == p }

  /** Where the chain stands against the threshold and its start. */
  ghost predicate Placed(n: NodeChain, threshold: u64) {
    && (forall i :: 0 <= i < |n.settled| ==> n.settled[i].slot <= threshold)
    && (n.settled != [] ==> n.start.Slot() <= threshold && n.below == [])
    && (n.below != [] ==> n.start == PointOf(n.below[|n.below| - 1]))
    && !HasPoint(n.recent, n.start)
  }

  /** The point is where the chain has `k` blocks; at 0 it is the start, or some older point. */
  ghost predicate IsAt(n: NodeChain, p: Point, k: int) {
    && 0 <= k <= |n.Blocks()|
    && (p == PointAt(n.start, n.Blocks(), k) || (k == 0 && p.Slot() <= n.start.Slot() && !HasPoint(n.recent, p)))
  }

  /** The chain cut back to a point where it has `k` blocks; a point older than the start cuts into what is
      cached below and becomes the start. */
  function CutBack(n: NodeChain, p: Point, k: nat): NodeChain
    requires |n.settled| <= k <= |n.Blocks()|
  {
    if k == 0 then n.(start := p, below := UpTo(n.below, p), recent := [])
    else n.(recent := n.recent[..k - |n.settled|])
  }

  /** How the node's own chain moves with each input it sends. */
  ghost predicate NodeMoves(n: NodeChain, threshold: u64, input: Input, n': NodeChain) {
    match input
    case UnitQuery(_) => n' == n
    case FromNode(RollForward(b, true)) => Contains(n.Blocks(), b) && n' == n
    case FromNode(RollForward(b, false)) =>
      && !HasPoint(n.Cached(), PointOf(b)) && PointOf(b) != n.ground && PointOf(b) != n.start
      && n.start.Slot() <= b.slot && ValidFeeds(BlockFeeds(n.Blocks() + [b]))
      && (if b.slot > threshold then n' == n.(recent := n.recent + [b])
          else n.Cached() == [] && n' == NodeChain(n.start, PointOf(b), [], n.settled + [b], []))
    case FromNode(RollBackward(p)) => exists k :: HandledAt(n, threshold, p, k) && n' == CutBack(n, p, k)
  }

  /** A rollback that the code handles: above the threshold, or to where the chain stands already. */
  ghost predicate HandledAt(n: NodeChain, threshold: u64, p: Point, k: int) {
    && IsAt(n, p, k) && |n.settled| <= k
    && (p.Slot() > threshold || (k == |n.Blocks()| && (k > 0 || p == n.start || n.below == [])))
  }

  /** The tables hold what a valid chain of blocks leaves. */
  ghost predicate Indexes(t: Tables, blocks: seq<Block>) {
    Coherent(t) && ValidFeeds(BlockFeeds(blocks)) && t.txo == RunRows(map[], BlockFeeds(blocks))
  }

  /** The index and the cache hold what the node's chain says. */
  ghost predicate Agrees(n: NodeChain, s: Machine) {
    OnChain(s.cache, n.ground, n.Cached()) && Indexes(s.tables, n.Blocks())
  }

  lemma ForwardRows(blocks: seq<Block>, b: Block, t: Tables)
    requires Coherent(t) && t.txo == RunRows(map[], BlockFeeds(blocks))
    ensures var t' := HandleAll(t, AppliedEvents(b, ValidTxs(b)));
            Coherent(t') && t'.txo == RunRows(map[], BlockFeeds(blocks + [b]))
  {
    HandleAllIsRows(t, AppliedEvents(b, ValidTxs(b)));
    AppliedIsRun(t.txo, b, ValidTxs(b));
    BlockFeedsSnoc(blocks, b);
    RunSplit(map[], BlockFeeds(blocks), BlockFeed(b));
  }

  lemma ForwardCache(n: NodeChain, c: Cache, b: Block)
    requires OnChain(c, n.ground, n.Cached()) && !HasPoint(n.Cached(), PointOf(b)) && PointOf(b) != n.ground
    ensures OnChain(CacheBlock(c, b), n.ground, n.Cached() + [b])
    ensures n.Cached() == [] ==> OnChain(CachePoint(c, b), PointOf(b), [])
  {
    if PointOf(b) in c.blocks {
      var i := LinksOnly(c.blocks, TipPoint(c), n.ground, n.Cached(), PointOf(b));
    }
    CacheBlockExtends(c, n.ground, n.Cached(), b);
    if n.Cached() == [] { CachePointMoves(c, n.ground, b); }
  }

  lemma ForwardBlocks(n: NodeChain, threshold: u64, b: Block, n': NodeChain)
    requires NodeMoves(n, threshold, FromNode(RollForward(b, false)), n')
    ensures n'.Blocks() == n.Blocks() + [b] && ValidFeeds(BlockFeeds(n'.Blocks()))
    ensures b.slot > threshold ==> n'.Cached() == n.Cached() + [b]
    ensures b.slot <= threshold ==> n'.Cached() == []
  {
  }

  /** A block above the threshold is cached, one at or below it only moves the tip. */
  lemma ForwardStep(n: NodeChain, c: Cache, threshold: u64, b: Block, n': NodeChain)
    requires OnChain(c, n.ground, n.Cached()) && NodeMoves(n, threshold, FromNode(RollForward(b, false)), n')
    ensures OnChain(Process(c, RollForward(b, false), threshold).0, n'.ground, n'.Cached())
  {
    ForwardBlocks(n, threshold, b, n');
    ForwardCache(n, c, b);
  }

  lemma ForwardAgrees(n: NodeChain, s: Machine, threshold: u64, b: Block, n': NodeChain)
    requires Agrees(n, s) && NodeMoves(n, threshold, FromNode(RollForward(b, false)), n')
    ensures Agrees(n', Advance(s, threshold, FromNode(RollForward(b, false))))
  {
    ForwardStep(n, s.cache, threshold, b, n');
    ForwardBlocks(n, threshold, b, n');
    ForwardRows(n.Blocks(), b, s.tables);
  }

  lemma BlockIsSettled(blocks: seq<Block>, b: Block)
    requires ValidFeeds(BlockFeeds(blocks)) && Contains(blocks, b)
    ensures forall j :: 0 <= j < |BlockFeed(b)| ==> Settled(BlockFeeds(blocks), BlockFeed(b)[j])
  {
    var i :| 0 <= i < |blocks| && blocks[i] == b;
    var start := FlatAt(FeedLists(blocks), i);
    forall j | 0 <= j < |BlockFeed(b)| ensures Settled(BlockFeeds(blocks), BlockFeed(b)[j]) {
      ChainIsSettled(BlockFeeds(blocks), start + j);
    }
  }

  lemma ReplayedRows(blocks: seq<Block>, b: Block)
    requires ValidFeeds(BlockFeeds(blocks)) && Contains(blocks, b)
    ensures var m := RunRows(map[], BlockFeeds(blocks)); RunRows(m, BlockFeed(b)) == m
  {
    var feeds := BlockFeeds(blocks);
    BlockIsSettled(blocks, b);
    assert HashConsistent(feeds) by {
      if feeds != [] { ChainIsSettled(feeds, 0); }
    }
    ReplayIsNoOp(feeds, BlockFeed(b));
  }

  lemma ReplayAgrees(n: NodeChain, s: Machine, threshold: u64, b: Block)
    requires Agrees(n, s) && Contains(n.Blocks(), b)
    ensures Agrees(n, Advance(s, threshold, FromNode(RollForward(b, true))))
    ensures Advance(s, threshold, FromNode(RollForward(b, true))).cache == s.cache
    ensures Advance(s, threshold, FromNode(RollForward(b, true))).tables.txo == s.tables.txo
  {
    HandleAllIsRows(s.tables, AppliedEvents(b, ValidTxs(b)));
    AppliedIsRun(s.tables.txo, b, ValidTxs(b));
    ReplayedRows(n.Blocks(), b);
  }

  lemma UndoneBlocks(kept: seq<Block>, upper: seq<Block>, t: Tables)
    requires ValidFeeds(BlockFeeds(kept + upper)) && Coherent(t)
    requires t.txo == RunRows(map[], BlockFeeds(kept + upper))
    ensures var t' := HandleAll(t, UndoneEvents(Reverse(upper)));
            ValidFeeds(BlockFeeds(kept)) && Coherent(t') && t'.txo == RunRows(map[], BlockFeeds(kept))
  {
    BlockFeedsSplit(kept, upper);
    ValidFeedsPrefix(BlockFeeds(kept), BlockFeeds(upper));
    FreshFeedsSplit(map[], BlockFeeds(kept), BlockFeeds(upper));
    RunSplit(map[], BlockFeeds(kept), BlockFeeds(upper));
    HandleAllIsRows(t, UndoneEvents(Reverse(upper)));
    UndoneRestores(RunRows(map[], BlockFeeds(kept)), upper);
  }

  lemma SplitBlocks(n: NodeChain, p: Point, k: nat)
    requires |n.settled| <= k <= |n.Blocks()|
    ensures CutBack(n, p, k).Blocks() == n.Blocks()[..k]
    ensures n.Blocks() == CutBack(n, p, k).Blocks() + n.recent[k - |n.settled|..]
  {
  }

  /** The cached blocks a rollback takes off: indexed ones, and below them some that are not. */
  function CutOff(n: NodeChain, p: Point, k: nat): seq<Block>
    requires |n.settled| <= k <= |n.Blocks()|
  {
    (if k == 0 then n.below[|UpTo(n.below, p)|..] else []) + n.recent[k - |n.settled|..]
  }

  lemma {:induction false} UpToBelow(below: seq<Block>, recent: seq<Block>, p: Point)
    requires !HasPoint(recent, p)
    ensures UpTo(below + recent, p) == UpTo(below, p)
  {
    if recent == [] {
      assert below + recent == below;
    } else {
      var n := |recent| - 1;
      ConcatLast(below, recent);
      assert PointOf(recent[n]) != p;
      assert !HasPoint(recent[..n], p);
      UpToBelow(below, recent[..n], p);
    }
  }

  lemma CutOffBelow(n: NodeChain, p: Point)
    requires n.settled == [] && !HasPoint(n.recent, p)
    ensures UpTo(n.Cached(), p) == CutBack(n, p, 0).Cached()
    ensures n.Cached()[|UpTo(n.Cached(), p)|..] == CutOff(n, p, 0)
  {
    UpToBelow(n.below, n.recent, p);
    ConcatDrop(n.below, n.recent, |UpTo(n.below, p)|);
    assert n.recent[0..] == n.recent && UpTo(n.below, p) + [] == UpTo(n.below, p);
  }

  lemma CutBelow(n: NodeChain, c: Cache, p: Point)
    requires OnChain(c, n.ground, n.Cached()) && n.settled == [] && !HasPoint(n.recent, p)
    ensures var (c', undone) := Rollback(c, p);
            undone == Reverse(CutOff(n, p, 0)) && OnChain(c', n.ground, CutBack(n, p, 0).Cached())
  {
    RollbackUpTo(c, n.ground, n.Cached(), p);
    CutOffBelow(n, p);
  }

  lemma CutRecent(n: NodeChain, c: Cache, p: Point, k: nat)
    requires OnChain(c, n.ground, n.Cached()) && 0 < k && |n.settled| < k <= |n.Blocks()|
    requires p == PointOf(n.recent[k - |n.settled| - 1])
    ensures var (c', undone) := Rollback(c, p);
            undone == Reverse(CutOff(n, p, k)) && OnChain(c', n.ground, CutBack(n, p, k).Cached())
  {
    var at := |n.below| + k - |n.settled|;
    assert n.Cached()[at - 1] == n.recent[k - |n.settled| - 1];
    RollbackToPoint(c, n.ground, n.Cached(), at);
    assert n.Cached()[at..] == CutOff(n, p, k) && n.Cached()[..at] == CutBack(n, p, k).Cached();
  }

  /** Rolling the cache back to any point of the chain that is not settled undoes exactly the blocks above it:
      a point below all cached blocks is never met, so all of them go. */
  lemma BackwardCache(n: NodeChain, c: Cache, threshold: u64, p: Point, k: nat)
    requires OnChain(c, n.ground, n.Cached()) && Placed(n, threshold) && IsAt(n, p, k) && p.Slot() > threshold
    ensures |n.settled| <= k
    ensures var (c', undone) := Rollback(c, p);
            undone == Reverse(CutOff(n, p, k)) && OnChain(c', n.ground, CutBack(n, p, k).Cached())
  {
    if k == 0 {
      CutBelow(n, c, p);
    } else {
      assert p == PointOf(n.Blocks()[k - 1]);
      CutRecent(n, c, p, k);
    }
  }

  lemma {:induction false} ReverseConcat(a: seq<Block>, b: seq<Block>)
    ensures Reverse(a + b) == Reverse(b) + Reverse(a)
  {
    if b == [] {
      assert a + b == a;
    } else {
      ConcatLast(a, b);
      ReverseConcat(a, b[..|b| - 1]);
    }
  }

  lemma UndoneConcat(a: seq<Block>, b: seq<Block>)
    ensures UndoneEvents(a + b) == UndoneEvents(a) + UndoneEvents(b)
  {
    assert InverseLists(a + b) == InverseLists(a) + InverseLists(b);
    FlatSplit(InverseLists(a), InverseLists(b));
  }

  lemma {:induction false} UnappliedOnEmpty(b: Block, txs: seq<Tx>)
    ensures HandleAllRows(map[], UnappliedEvents(b, txs)) == map[]
  {
    if txs != [] {
      var n := |txs| - 1;
      UnappliedOnEmpty(b, txs[..n]);
      HandleCons(map[], TxUnapplied(txs[n], b.slot, b.number, b.hash), UnappliedEvents(b, txs[..n]));
    }
  }

  /** Undoing blocks the index never had leaves an empty index empty. */
  lemma {:induction false} UndoneOnEmpty(blocks: seq<Block>)
    ensures HandleAllRows(map[], UndoneEvents(blocks)) == map[]
  {
    if blocks != [] {
      UndoneCons(blocks[0], blocks[1..]);
      assert [blocks[0]] + blocks[1..] == blocks;
      HandleSplit(map[], InverseEvents(blocks[0]), UndoneEvents(blocks[1..]));
      UnappliedOnEmpty(blocks[0], ValidTxs(blocks[0]));
      UndoneOnEmpty(blocks[1..]);
    }
  }

  lemma EmptiedRows(below: seq<Block>, recent: seq<Block>, t: Tables)
    requires ValidFeeds(BlockFeeds(recent)) && Coherent(t) && t.txo == RunRows(map[], BlockFeeds(recent))
    ensures var t' := HandleAll(t, UndoneEvents(Reverse(below + recent))); Coherent(t') && t'.txo == map[]
  {
    ReverseConcat(below, recent);
    UndoneConcat(Reverse(recent), Reverse(below));
    HandleAllIsRows(t, UndoneEvents(Reverse(below + recent)));
    HandleSplit(t.txo, UndoneEvents(Reverse(recent)), UndoneEvents(Reverse(below)));
    UndoneRestores(map[], recent);
    UndoneOnEmpty(Reverse(below));
  }

  lemma NoFeeds()
    ensures BlockFeeds([]) == [] && ValidFeeds(BlockFeeds([]))
  {
  }

  lemma BackwardRows(n: NodeChain, t: Tables, p: Point, k: nat)
    requires |n.settled| <= k <= |n.Blocks()|
    requires Indexes(t, n.Blocks())
    ensures Indexes(HandleAll(t, UndoneEvents(Reverse(CutOff(n, p, k)))), CutBack(n, p, k).Blocks())
  {
    SplitBlocks(n, p, k);
    if k == 0 {
      assert n.Blocks() == n.recent && CutBack(n, p, k).Blocks() == [];
      assert n.recent[0..] == n.recent;
      EmptiedRows(n.below[|UpTo(n.below, p)|..], n.recent, t);
      NoFeeds();
    } else {
      assert CutOff(n, p, k) == n.recent[k - |n.settled|..];
      UndoneBlocks(CutBack(n, p, k).Blocks(), n.recent[k - |n.settled|..], t);
    }
  }

  /** A rollback to where the chain stands already cuts nothing off. */
  lemma Standstill(n: NodeChain, p: Point)
    requires |n.Blocks()| > 0 || p == n.start || n.below == []
    requires n.below != [] ==> n.start == PointOf(n.below[|n.below| - 1])
    ensures var n' := CutBack(n, p, |n.Blocks()|);
            n'.ground == n.ground && n'.Cached() == n.Cached() && n'.Blocks() == n.Blocks()
  {
    assert n.recent[..|n.recent|] == n.recent;
  }

  lemma BackwardHandled(n: NodeChain, s: Machine, threshold: u64, p: Point, k: nat)
    requires Agrees(n, s) && Placed(n, threshold) && IsAt(n, p, k) && |n.settled| <= k && p.Slot() > threshold
    ensures Agrees(CutBack(n, p, k), Advance(s, threshold, FromNode(RollBackward(p))))
  {
    BackwardCache(n, s.cache, threshold, p, k);
    BackwardRows(n, s.tables, p, k);
  }

  lemma IgnoredChangesNothing(s: Machine, threshold: u64, p: Point)
    requires p.Slot() <= threshold
    ensures Advance(s, threshold, FromNode(RollBackward(p))) == s
  {
  }

  lemma BackwardAgrees(n: NodeChain, s: Machine, threshold: u64, p: Point, k: nat)
    requires Agrees(n, s) && Placed(n, threshold) && HandledAt(n, threshold, p, k)
    ensures Agrees(CutBack(n, p, k), Advance(s, threshold, FromNode(RollBackward(p))))
  {
    if p.Slot() > threshold {
      BackwardHandled(n, s, threshold, p, k);
    } else {
      IgnoredChangesNothing(s, threshold, p);
      Standstill(n, p);
    }
  }

  lemma MovesKeepPlaced(n: NodeChain, threshold: u64, input: Input, n': NodeChain)
    requires Placed(n, threshold) && NodeMoves(n, threshold, input, n')
    ensures Placed(n', threshold)
  {
  }

  lemma AdvanceAgrees(n: NodeChain, s: Machine, threshold: u64, input: Input, n': NodeChain)
    requires Agrees(n, s) && Placed(n, threshold) && NodeMoves(n, threshold, input, n')
    ensures Agrees(n', Advance(s, threshold, input))
  {
    match input
    case UnitQuery(unit) =>
      LowerIdempotent(unit);
      EnsureUnitCoherent(s.tables, AsciiLower(unit));
    case FromNode(RollForward(b, true)) => ReplayAgrees(n, s, threshold, b);
    case FromNode(RollForward(b, false)) => ForwardAgrees(n, s, threshold, b, n');
    case FromNode(RollBackward(p)) =>
      var k :| HandledAt(n, threshold, p, k) && n' == CutBack(n, p, k);
      BackwardAgrees(n, s, threshold, p, k);
  }

  lemma StepAgrees(n: NodeChain, s: Machine, threshold: u64, input: Input, n': NodeChain)
    requires Agrees(n, s) && Placed(n, threshold) && NodeMoves(n, threshold, input, n')
    ensures Agrees(n', Advance(s, threshold, input)) && Placed(n', threshold)
  {
    AdvanceAgrees(n, s, threshold, input, n');
    MovesKeepPlaced(n, threshold, input, n');
  }

  /** The chains the node goes through while it sends the inputs. */
  ghost predicate NodeRun(chains: seq<NodeChain>, threshold: u64, inputs: seq<Input>) {
    && |chains| == |inputs| + 1
    && forall i :: 0 <= i < |inputs| ==> NodeMoves(chains[i], threshold, inputs[i], chains[i + 1])
  }

  lemma RunPrefix(chains: seq<NodeChain>, threshold: u64, inputs: seq<Input>)
    requires NodeRun(chains, threshold, inputs) && inputs != []
    ensures var n := |inputs| - 1;
            && NodeRun(chains[..n + 1], threshold, inputs[..n]) && chains[..n + 1][0] == chains[0]
            && chains[..n + 1][n] == chains[n] && NodeMoves(chains[n], threshold, inputs[n], chains[n + 1])
  {
  }

  /** A fresh index, and a cache without blocks. The node is asked to start from the cached tip or, if there is
      none, from the configured starting point, whatever it is. */
  ghost predicate FreshStart(s: Machine, n: NodeChain) {
    && s.tables == EMPTY && s.cache.blocks == map[] && n.below == [] && n.settled == [] && n.recent == []
    && n.ground == TipPoint(s.cache) && (s.cache.tip.Some? ==> n.start == s.cache.tip.value)
  }

  lemma FreshAgrees(s: Machine, n: NodeChain, threshold: u64)
    requires FreshStart(s, n)
    ensures Agrees(n, s) && Placed(n, threshold)
  {
    EveryRunCoherent([]);
    NoFeeds();
  }

  /** Every run keeps the machine and the node's chain in agreement, from a fresh start, a rebuilt index or after
      any earlier session. */
  lemma {:induction false} RunAgrees(s: Machine, chains: seq<NodeChain>, threshold: u64, inputs: seq<Input>)
    requires NodeRun(chains, threshold, inputs) && Agrees(chains[0], s) && Placed(chains[0], threshold)
    ensures Agrees(chains[|inputs|], AdvanceAll(s, threshold, inputs)) && Placed(chains[|inputs|], threshold)
  {
    if inputs != [] {
      var n := |inputs| - 1;
      RunPrefix(chains, threshold, inputs);
      RunAgrees(s, chains[..n + 1], threshold, inputs[..n]);
      StepAgrees(chains[n], AdvanceAll(s, threshold, inputs[..n]), threshold, inputs[n], chains[n + 1]);
    }
  }

  /** The tables are those of applying these blocks only, in order, but for sentinels and event keys. */
  ghost predicate BuiltFrom(t: Tables, blocks: seq<Block>) {
    var built := Run(EMPTY, FeedEvents(BlockFeeds(blocks)));
    && t.txo == built.txo
    && t.payment.unspent == built.payment.unspent
    && t.stake.unspent == built.stake.unspent
    && (forall u, o :: Entry(u, o) in t.unit <==> Entry(u, o) in built.unit)
  }

  lemma AgreesIsBuilt(n: NodeChain, s: Machine)
    requires Agrees(n, s)
    ensures BuiltFrom(s.tables, n.Blocks())
  {
    RunFeeds(BlockFeeds(n.Blocks()));
    SameRowsSameIndexes(s.tables, Run(EMPTY, FeedEvents(BlockFeeds(n.Blocks()))));
  }

  /** After any run of roll-forwards, rollbacks, replays and queries, the index equals the one built by applying
      only the surviving chain's transactions in order: the same rows, slots included, the same unspent tables
      and the same unit entries; and the cache holds exactly the recent part of that chain, linked. */
  lemma SurvivingChainIndex(s: Machine, chains: seq<NodeChain>, threshold: u64, inputs: seq<Input>)
    requires NodeRun(chains, threshold, inputs) && FreshStart(s, chains[0])
    ensures var last, n := AdvanceAll(s, threshold, inputs), chains[|inputs|];
            OnChain(last.cache, n.ground, n.Cached()) && BuiltFrom(last.tables, n.Blocks())
  {
    FreshAgrees(s, chains[0], threshold);
    RunAgrees(s, chains, threshold, inputs);
    AgreesIsBuilt(chains[|inputs|], AdvanceAll(s, threshold, inputs));
  }

  // ---- rollbacks the code ignores ----

  /** The transaction stores nothing and spends no stored output. */
  ghost predicate LeavesRows(m: Rows, tx: Tx) {
    tx.outputs == [] && forall o :: o in m ==> !Consumes(tx, o)
  }

  ghost predicate Inert(m: Rows, feeds: seq<Feed>) {
    forall i :: 0 <= i < |feeds| ==> LeavesRows(m, feeds[i].tx)
  }

  /** Applies never forget an output and never clear a flag. */
  lemma {:induction false} RunGrows(m: Rows, feeds: seq<Feed>, o: OutputRef)
    requires o in m
    ensures o in RunRows(m, feeds) && (m[o].spent ==> RunRows(m, feeds)[o].spent)
  {
    if feeds != [] { RunGrows(m, feeds[..|feeds| - 1], o); }
  }

  lemma {:induction false} InertChangesNothing(m: Rows, feeds: seq<Feed>)
    requires Inert(m, feeds)
    ensures RunRows(m, feeds) == m
  {
    if feeds != [] {
      var n := |feeds| - 1;
      InertChangesNothing(m, feeds[..n]);
      assert ApplyRows(m, feeds[n].tx, feeds[n].slot) == m;
    }
  }

  /** The transaction stores the output, or spends it while it is stored. */
  predicate Marks(m: Rows, tx: Tx, o: OutputRef) { Produces(tx, o) || (o in m && Consumes(tx, o)) }

  /** What a fresh transaction stores or spends shows in the rows for good. */
  lemma MarkStays(m: Rows, below: seq<Feed>, f: Feed, above: seq<Feed>, o: OutputRef)
    requires Fresh(RunRows(m, below), f.tx) && Marks(m, f.tx, o)
    ensures RunRows(RunRows(m, below + [f]), above) != m
  {
    assert (below + [f])[..|below|] == below;
    if o in m { RunGrows(m, below, o); }
    ApplyRowAt(RunRows(m, below), f.tx, f.slot, o);
    RunGrows(RunRows(m, below + [f]), above, o);
  }

  lemma MarkOf(m: Rows, tx: Tx) returns (o: OutputRef)
    requires !LeavesRows(m, tx)
    ensures Marks(m, tx, o)
  {
    if tx.outputs != [] {
      o := OutputRef(tx.hash, 0);
    } else {
      o :| o in m && Consumes(tx, o);
    }
  }

  lemma SplitAround<T>(s: seq<T>, i: nat)
    requires i < |s|
    ensures s == s[..i] + [s[i]] + s[i + 1..]
  {
  }

  lemma MarkAt(m: Rows, feeds: seq<Feed>, i: nat, o: OutputRef)
    requires i < |feeds| && Fresh(RunRows(m, feeds[..i]), feeds[i].tx) && Marks(m, feeds[i].tx, o)
    ensures RunRows(m, feeds) != m
  {
    SplitAround(feeds, i);
    RunSplit(m, feeds[..i] + [feeds[i]], feeds[i + 1..]);
    MarkStays(m, feeds[..i], feeds[i], feeds[i + 1..], o);
  }

  lemma InertIff(m: Rows, feeds: seq<Feed>)
    requires FreshFeeds(m, feeds)
    ensures RunRows(m, feeds) == m <==> Inert(m, feeds)
  {
    if Inert(m, feeds) {
      InertChangesNothing(m, feeds);
    } else {
      var i :| 0 <= i < |feeds| && !LeavesRows(m, feeds[i].tx);
      var o := MarkOf(m, feeds[i].tx);
      MarkAt(m, feeds, i, o);
    }
  }

  /** A rollback to any point of the node's chain, or to one below it, leaves the rows of the blocks that remain
      exactly when the point is above the threshold or the blocks it removes neither stored an output nor spent
      a stored one: at or below the threshold the code ignores it. */
  lemma RollbackAgreesIff(n: NodeChain, s: Machine, threshold: u64, p: Point, k: nat)
    requires Agrees(n, s) && Placed(n, threshold) && IsAt(n, p, k)
    ensures var kept := RunRows(map[], BlockFeeds(n.Blocks()[..k]));
            Advance(s, threshold, FromNode(RollBackward(p))).tables.txo == kept <==>
            p.Slot() > threshold || Inert(kept, BlockFeeds(n.Blocks()[k..]))
  {
    if p.Slot() > threshold {
      BackwardCache(n, s.cache, threshold, p, k);
      SplitBlocks(n, p, k);
      BackwardRows(n, s.tables, p, k);
    } else {
      assert n.Blocks() == n.Blocks()[..k] + n.Blocks()[k..];
      KeptIffInert(n.Blocks()[..k], n.Blocks()[k..]);
    }
  }

  lemma KeptIffInert(kept: seq<Block>, upper: seq<Block>)
    requires ValidFeeds(BlockFeeds(kept + upper))
    ensures var m := RunRows(map[], BlockFeeds(kept));
            RunRows(map[], BlockFeeds(kept + upper)) == m <==> Inert(m, BlockFeeds(upper))
  {
    BlockFeedsSplit(kept, upper);
    FreshFeedsSplit(map[], BlockFeeds(kept), BlockFeeds(upper));
    RunSplit(map[], BlockFeeds(kept), BlockFeeds(upper));
    InertIff(RunRows(map[], BlockFeeds(kept)), BlockFeeds(upper));
  }

  /** The same after any run: the index is the one built from what is left of the chain exactly under that
      condition. */
  lemma RollbackAfterRunIff(s: Machine, chains: seq<NodeChain>, threshold: u64, inputs: seq<Input>, p: Point, k: nat)
    requires NodeRun(chains, threshold, inputs) && FreshStart(s, chains[0]) && IsAt(chains[|inputs|], p, k)
    ensures var blocks := chains[|inputs|].Blocks();
            var last := Advance(AdvanceAll(s, threshold, inputs), threshold, FromNode(RollBackward(p)));
            var built := Run(EMPTY, FeedEvents(BlockFeeds(blocks[..k])));
            && (last.tables.txo == built.txo <==>
                p.Slot() > threshold || Inert(built.txo, BlockFeeds(blocks[k..])))
            && (last.tables.txo == built.txo ==>
                && last.tables.payment.unspent == built.payment.unspent
                && last.tables.stake.unspent == built.stake.unspent
                && forall u, o :: Entry(u, o) in last.tables.unit <==> Entry(u, o) in built.unit)
  {
    var before := AdvanceAll(s, threshold, inputs);
    var kept := BlockFeeds(chains[|inputs|].Blocks()[..k]);
    FreshAgrees(s, chains[0], threshold);
    RunAgrees(s, chains, threshold, inputs);
    RunFeeds(kept);
    RollbackAgreesIff(chains[|inputs|], before, threshold, p, k);
    HandleAllIsRows(before.tables, Process(before.cache, RollBackward(p), threshold).1);
    var last := Advance(before, threshold, FromNode(RollBackward(p)));
    if last.tables.txo == Run(EMPTY, FeedEvents(kept)).txo {
      SameRowsSameIndexes(last.tables, Run(EMPTY, FeedEvents(kept)));
    }
  }

  /** A failing run: a block at the threshold, one above it that stores an output, and a rollback to the first. */
  lemma IgnoredRollback(h: Hash32, g: Hash32, out: TxOut)
    requires h != g
    ensures var tx := Tx(h, [], [out]);
            var low, high := Block(Conway, 10, 1, g, [], {}), Block(Conway, 11, 2, h, [tx], {});
            var s, n := Machine(EMPTY_CACHE, EMPTY), NodeChain(Origin, Origin, [], [], []);
            var n1 := NodeChain(Origin, PointOf(low), [], [low], []);
            var n2 := n1.(recent := [high]);
            var inputs := [FromNode(RollForward(low, false)), FromNode(RollForward(high, false))];
            && FreshStart(s, n) && NodeRun([n, n1, n2], 10, inputs) && IsAt(n2, PointOf(low), 1)
            && var last := Advance(AdvanceAll(s, 10, inputs), 10, FromNode(RollBackward(PointOf(low))));
               last.tables.txo != RunRows(map[], BlockFeeds([low]))
  {
    var tx := Tx(h, [], [out]);
    var low, high := Block(Conway, 10, 1, g, [], {}), Block(Conway, 11, 2, h, [tx], {});
    var s, n := Machine(EMPTY_CACHE, EMPTY), NodeChain(Origin, Origin, [], [], []);
    var n1 := NodeChain(Origin, PointOf(low), [], [low], []);
    var n2 := n1.(recent := [high]);
    var inputs := [FromNode(RollForward(low, false)), FromNode(RollForward(high, false))];
    OneTxFeeds(low, high, tx);
    assert n.Blocks() + [low] == [low] && n1.Blocks() + [high] == [low, high];
    assert NodeMoves(n, 10, inputs[0], n1) && NodeMoves(n1, 10, inputs[1], n2);
    assert NodeRun([n, n1, n2], 10, inputs);
    RollbackAfterRunIff(s, [n, n1, n2], 10, inputs, PointOf(low), 1);
    assert n2.Blocks()[..1] == [low] && n2.Blocks()[1..] == [high];
    RunFeeds(BlockFeeds([low]));
    assert !LeavesRows(Run(EMPTY, FeedEvents(BlockFeeds([low]))).txo, BlockFeeds([high])[0].tx);
  }

  lemma OneTxFeeds(low: Block, high: Block, tx: Tx)
    requires ValidTxs(low) == [] && ValidTxs(high) == [tx] && tx.inputs == []
    ensures BlockFeeds([low]) == [] && BlockFeeds([high]) == [Feed(tx, Some(high.slot))] == BlockFeeds([low, high])
    ensures ValidFeeds(BlockFeeds([low])) && ValidFeeds(BlockFeeds([low, high]))
  {
    FlatOne(BlockFeed(low));
    FlatOne(BlockFeed(high));
    assert FeedLists([low]) == [BlockFeed(low)] && FeedLists([high]) == [BlockFeed(high)];
    BlockFeedsSplit([low], [high]);
    assert [low] + [high] == [low, high];
  }

  // ---- restart ----

  function ReplayInputs(sent: seq<LinkedBlock>): (r: seq<Input>)
    ensures |r| == |sent|
  {
    seq(|sent|, i requires 0 <= i < |sent| => FromNode(RollForward(sent[i].block, true)))
  }

  ghost predicate IsReplay(n: NodeChain, input: Input) {
    input.FromNode? && input.upgrade.RollForward? && input.upgrade.replayed && Contains(n.Blocks(), input.upgrade.blk)
  }

  lemma {:induction false} ReplayedInputs(n: NodeChain, s: Machine, threshold: u64, inputs: seq<Input>)
    requires Agrees(n, s) && forall i :: 0 <= i < |inputs| ==> IsReplay(n, inputs[i])
    ensures var s' := AdvanceAll(s, threshold, inputs);
            Agrees(n, s') && s'.cache == s.cache && s'.tables.txo == s.tables.txo
  {
    if inputs != [] {
      var k := |inputs| - 1;
      ReplayedInputs(n, s, threshold, inputs[..k]);
      ReplayAgrees(n, AdvanceAll(s, threshold, inputs[..k]), threshold, inputs[k].upgrade.blk);
    }
  }

  lemma LinkedBlocksContained(n: NodeChain, i: nat, sent: seq<LinkedBlock>)
    requires i < |n.recent| && sent == LinkedFrom(n.ground, n.Cached(), |n.below| + i)
    ensures |sent| == |n.recent| - i
    ensures forall j :: 0 <= j < |sent| ==> sent[j].block == n.recent[i + j] && Contains(n.Blocks(), sent[j].block)
  {
    forall j | 0 <= j < |sent| ensures sent[j].block == n.recent[i + j] && Contains(n.Blocks(), sent[j].block) {
      assert n.Blocks()[|n.settled| + i + j] == sent[j].block;
    }
  }

  lemma ReplaySends(n: NodeChain, c: Cache, i: nat)
    requires OnChain(c, n.ground, n.Cached()) && SlotsIncrease(n.Cached()) && i < |n.recent|
    ensures var sent := Chain.Replay(c, PointOf(n.recent[i]));
            && |sent| == |n.recent| - i
            && forall j :: 0 <= j < |sent| ==> sent[j].block == n.recent[i + j] && Contains(n.Blocks(), sent[j].block)
  {
    assert n.Cached()[|n.below| + i] == n.recent[i];
    ReplayFromPoint(c, n.ground, n.Cached(), |n.below| + i);
    LinkedBlocksContained(n, i, Chain.Replay(c, PointOf(n.recent[i])));
  }

  /** Restarting with a replay from any indexed and cached point re-applies the blocks from there on and changes
      neither the cache nor the rows, the unspent tables or the unit entries. */
  lemma RestartReplayIsNoOp(n: NodeChain, s: Machine, threshold: u64, i: nat)
    requires Agrees(n, s) && SlotsIncrease(n.Cached()) && i < |n.recent|
    ensures var sent := Chain.Replay(s.cache, PointOf(n.recent[i]));
            var s' := AdvanceAll(s, threshold, ReplayInputs(sent));
            && |sent| == |n.recent| - i && (forall j :: 0 <= j < |sent| ==> sent[j].block == n.recent[i + j])
            && s'.cache == s.cache && s'.tables.txo == s.tables.txo
            && s'.tables.payment.unspent == s.tables.payment.unspent
            && s'.tables.stake.unspent == s.tables.stake.unspent
            && (forall u, o :: Entry(u, o) in s'.tables.unit <==> Entry(u, o) in s.tables.unit)
  {
    var sent := Chain.Replay(s.cache, PointOf(n.recent[i]));
    ReplaySends(n, s.cache, i);
    ReplayedInputs(n, s, threshold, ReplayInputs(sent));
    SameRowsSameIndexes(AdvanceAll(s, threshold, ReplayInputs(sent)).tables, s.tables);
  }

  // ---- rebuilding a fresh index from a filled cache ----

  function BlocksOf(sent: seq<LinkedBlock>): (r: seq<Block>)
    ensures |r| == |sent|
  {
    seq(|sent|, i requires 0 <= i < |sent| => sent[i].block)
  }

  lemma ReplaySnoc(s: Machine, threshold: u64, sent: seq<LinkedBlock>)
    requires sent != []
    ensures var n := |sent| - 1;
            && AdvanceAll(s, threshold, ReplayInputs(sent)) ==
               Advance(AdvanceAll(s, threshold, ReplayInputs(sent[..n])), threshold,
                       FromNode(RollForward(sent[n].block, true)))
            && BlocksOf(sent) == BlocksOf(sent[..n]) + [sent[n].block]
  {
    assert ReplayInputs(sent)[..|sent| - 1] == ReplayInputs(sent[..|sent| - 1]);
  }

  lemma {:induction false} ReplayBuilds(s: Machine, threshold: u64, sent: seq<LinkedBlock>)
    requires s.tables == EMPTY
    ensures var s' := AdvanceAll(s, threshold, ReplayInputs(sent));
            s'.cache == s.cache && Coherent(s'.tables) && s'.tables.txo == RunRows(map[], BlockFeeds(BlocksOf(sent)))
  {
    if sent == [] {
      EveryRunCoherent([]);
      NoFeeds();
    } else {
      var n := |sent| - 1;
      ReplayBuilds(s, threshold, sent[..n]);
      ReplaySnoc(s, threshold, sent);
      ForwardRows(BlocksOf(sent[..n]), sent[n].block, AdvanceAll(s, threshold, ReplayInputs(sent[..n])).tables);
    }
  }

  lemma SentBlocks(c: Cache, n: NodeChain)
    requires OnChain(c, n.ground, n.Cached()) && SlotsIncrease(n.Cached()) && n.recent != []
    ensures BlocksOf(Chain.Replay(c, PointOf(n.recent[0]))) == n.recent
  {
    ReplaySends(n, c, 0);
  }

  /** The cache holds a linked chain, of which the index is to have the recent part. */
  ghost predicate Rebuildable(c: Cache, n: NodeChain) {
    && OnChain(c, n.ground, n.Cached()) && SlotsIncrease(n.Cached()) && ValidFeeds(BlockFeeds(n.recent))
    && n.settled == [] && n.recent != [] && n.start == PointAt(n.ground, n.Cached(), |n.below|)
  }

  function Rebuilt(c: Cache, from: Point, threshold: u64): Machine {
    AdvanceAll(Machine(c, EMPTY), threshold, ReplayInputs(Chain.Replay(c, from)))
  }

  /** Replaying a filled cache from any cached point into a fresh index builds exactly the chain from that point
      on, leaves the cache as it was, and puts the machine in agreement with the node's chain, so that every live
      run from there on is covered. */
  lemma RebuildAgrees(c: Cache, n: NodeChain, threshold: u64)
    requires Rebuildable(c, n)
    ensures var s' := Rebuilt(c, PointOf(n.recent[0]), threshold);
            s'.cache == c && BuiltFrom(s'.tables, n.recent) && Agrees(n, s') && Placed(n, threshold)
  {
    SentBlocks(c, n);
    ReplayBuilds(Machine(c, EMPTY), threshold, Chain.Replay(c, PointOf(n.recent[0])));
    StartIsNotRecent(c, n);
    assert n.Blocks() == n.recent && (n.below != [] ==> n.Cached()[|n.below| - 1] == n.below[|n.below| - 1]);
    AgreesIsBuilt(n, Rebuilt(c, PointOf(n.recent[0]), threshold));
  }

  lemma StartIsNotRecent(c: Cache, n: NodeChain)
    requires OnChain(c, n.ground, n.Cached()) && SlotsIncrease(n.Cached())
    requires n.start == PointAt(n.ground, n.Cached(), |n.below|)
    ensures !HasPoint(n.recent, n.start)
  {
    forall i | 0 <= i < |n.recent| ensures PointOf(n.recent[i]) != n.start {
      LinksAt(c.blocks, TipPoint(c), n.ground, n.Cached(), |n.below| + i);
      assert n.Cached()[|n.below| + i] == n.recent[i];
    }
  }

  /** After a rebuild and any run, the index is the one built from what survives of the rebuilt chain. */
  lemma RebuiltChainIndex(c: Cache, chains: seq<NodeChain>, threshold: u64, inputs: seq<Input>)
    requires NodeRun(chains, threshold, inputs) && Rebuildable(c, chains[0])
    ensures var last := AdvanceAll(Rebuilt(c, PointOf(chains[0].recent[0]), threshold), threshold, inputs);
            var n := chains[|inputs|];
            OnChain(last.cache, n.ground, n.Cached()) && BuiltFrom(last.tables, n.Blocks())
  {
    var rebuilt := Rebuilt(c, PointOf(chains[0].recent[0]), threshold);
    RebuildAgrees(c, chains[0], threshold);
    RunAgrees(rebuilt, chains, threshold, inputs);
    AgreesIsBuilt(chains[|inputs|], AdvanceAll(rebuilt, threshold, inputs));
  }

  /** Each new block has a later slot than the blocks it may be rolled back with. */
  ghost predicate SlotsAdvance(chains: seq<NodeChain>, inputs: seq<Input>)
    requires |chains| == |inputs| + 1
  {
    forall i :: 0 <= i < |inputs| ==> SlotAdvances(chains[i], inputs[i])
  }

  ghost predicate SlotAdvances(n: NodeChain, input: Input) {
    match input
    case FromNode(RollForward(b, false)) => forall j :: 0 <= j < |n.Cached()| ==> n.Cached()[j].slot < b.slot
    case _ => true
  }

  lemma CutBackIsPrefix(n: NodeChain, p: Point, k: nat)
    requires |n.settled| <= k <= |n.Blocks()|
    ensures CutBack(n, p, k).Cached() <= n.Cached()
  {
  }

  lemma MovesKeepSlots(n: NodeChain, threshold: u64, input: Input, n': NodeChain)
    requires NodeMoves(n, threshold, input, n') && SlotAdvances(n, input) && SlotsIncrease(n.Cached())
    ensures SlotsIncrease(n'.Cached())
  {
    match input
    case FromNode(RollForward(b, false)) =>
      if b.slot > threshold { assert n'.Cached() == n.Cached() + [b]; }
    case FromNode(RollBackward(p)) =>
      var k :| HandledAt(n, threshold, p, k) && n' == CutBack(n, p, k);
      CutBackIsPrefix(n, p, k);
    case _ =>
  }

  lemma {:induction false} RunKeepsSlots(chains: seq<NodeChain>, threshold: u64, inputs: seq<Input>, n: nat)
    requires NodeRun(chains, threshold, inputs) && SlotsAdvance(chains, inputs) && n <= |inputs|
    requires SlotsIncrease(chains[0].Cached())
    ensures SlotsIncrease(chains[n].Cached())
  {
    if n > 0 {
      RunKeepsSlots(chains, threshold, inputs, n - 1);
      assert SlotAdvances(chains[n - 1], inputs[n - 1]);
      MovesKeepSlots(chains[n - 1], threshold, inputs[n - 1], chains[n]);
    }
  }

  /** After any run of roll-forwards and rollbacks, a replay from a cached point sends exactly the chain from that
      point on, in chain order and linked. */
  lemma ReplayAfterRun(s: Machine, chains: seq<NodeChain>, threshold: u64, inputs: seq<Input>, i: nat)
    requires NodeRun(chains, threshold, inputs) && FreshStart(s, chains[0]) && SlotsAdvance(chains, inputs)
    requires i < |chains[|inputs|].Cached()|
    ensures var n := chains[|inputs|];
            Chain.Replay(AdvanceAll(s, threshold, inputs).cache, PointOf(n.Cached()[i])) ==
            LinkedFrom(n.ground, n.Cached(), i)
  {
    var n := chains[|inputs|];
    FreshAgrees(s, chains[0], threshold);
    RunAgrees(s, chains, threshold, inputs);
    RunKeepsSlots(chains, threshold, inputs, |inputs|);
    ReplayFromPoint(AdvanceAll(s, threshold, inputs).cache, n.ground, n.Cached(), i);
  }
}
