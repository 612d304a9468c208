/** The index fed by the ledger and the mempool at once: what is live after any run, and when the flags say so. */
module MempoolRuns {
  import opened Options
  import opened Bytes
  import opened Keys
  import opened Ledger
  import opened Chain
  import opened Lists
  import opened Upgrades
  import opened IndexTables
  import opened IndexRuns
  import opened UndoRuns
  import opened EndToEnd

  datatype Signal = Upgraded(upgrade: Upgrade) | Accepted(tx: Tx) | Dropped(tx: Tx) | Queried(unit: seq<byte>)

  function Serve(s: Machine, threshold: u64, sig: Signal): Machine {
    match sig
    case Upgraded(upgrade) => Advance(s, threshold, FromNode(upgrade))
    case Accepted(tx) => s.(tables := Apply(s.tables, tx, None))
    case Dropped(tx) => s.(tables := Unapply(s.tables, tx))
    case Queried(unit) => Advance(s, threshold, UnitQuery(unit))
  }

  function ServeAll(s: Machine, threshold: u64, signals: seq<Signal>): Machine {
    if signals == [] then s
    else Serve(ServeAll(s, threshold, signals[..|signals| - 1]), threshold, signals[|signals| - 1])
  }

  /** An output that a mempool accept stores has no slot yet; one that a block stores has the block's. */
  lemma StoredSlots(t: Tables, tx: Tx, slot: u64, o: OutputRef)
    requires Produces(tx, o)
    ensures var m := Serve(Machine(EMPTY_CACHE, t), 0, Accepted(tx)).tables.txo;
            o in m && m[o].settledAt == None && m[o].out == tx.outputs[o.index]
    ensures var m := Handle(t, TxApplied(tx, slot, 0, tx.hash)).txo;
            o in m && m[o].settledAt == Some(slot) && m[o].out == tx.outputs[o.index]
  {
    ApplyIsPointwise(t, tx, None);
    ApplyIsPointwise(t, tx, Some(slot));
    ApplyRowAt(t.txo, tx, None, o);
    ApplyRowAt(t.txo, tx, Some(slot), o);
  }

  // ---- the run as index events ----

  function IndexEvent(e: LedgerTxEvent): Event {
    match e
    case TxApplied(tx, slot, _, _) => Applied(tx, Some(slot))
    case TxUnapplied(tx, _, _, _) => Unapplied(tx)
  }

  function IndexEvents(events: seq<LedgerTxEvent>): (r: seq<Event>)
    ensures |r| == |events|
  {
    seq(|events|, i requires 0 <= i < |events| => IndexEvent(events[i]))
  }

  function Emitted(c: Cache, threshold: u64, sig: Signal): seq<Event> {
    match sig
    case Upgraded(upgrade) => IndexEvents(Process(c, upgrade, threshold).1)
    case Accepted(tx) => [Applied(tx, None)]
    case Dropped(tx) => [Unapplied(tx)]
    case Queried(unit) => [UnitQueried(unit)]
  }

  /** Everything the index has been told, in order. */
  function History(s: Machine, threshold: u64, signals: seq<Signal>): seq<Event> {
    if signals == [] then []
    else
      var n := |signals| - 1;
      History(s, threshold, signals[..n]) + Emitted(ServeAll(s, threshold, signals[..n]).cache, threshold, signals[n])
  }

  lemma {:induction false} RunConcat(t: Tables, a: seq<Event>, b: seq<Event>)
    ensures Run(t, a + b) == Run(Run(t, a), b)
  {
    if b == [] {
      assert a + b == a;
    } else {
      RunConcat(t, a, b[..|b| - 1]);
      ConcatLast(a, b);
    }
  }

  lemma {:induction false} HandleAllIsRun(t: Tables, events: seq<LedgerTxEvent>)
    ensures HandleAll(t, events) == Run(t, IndexEvents(events))
  {
    if events != [] {
      var n := |events| - 1;
      HandleAllIsRun(t, events[..n]);
      assert IndexEvents(events)[..n] == IndexEvents(events[..n]);
    }
  }

  lemma RunOne(t: Tables, e: Event)
    ensures Run(t, [e]) == Step(t, e)
  {
    assert [e][..0] == [];
    assert Run(t, [e]) == Step(Run(t, []), e);
  }

  lemma ServeIsRun(s: Machine, threshold: u64, sig: Signal)
    ensures Serve(s, threshold, sig).tables == Run(s.tables, Emitted(s.cache, threshold, sig))
  {
    match sig
    case Upgraded(upgrade) => HandleAllIsRun(s.tables, Process(s.cache, upgrade, threshold).1);
    case Accepted(tx) => RunOne(s.tables, Applied(tx, None));
    case Dropped(tx) => RunOne(s.tables, Unapplied(tx));
    case Queried(unit) => RunOne(s.tables, UnitQueried(unit));
  }

  lemma {:induction false} HistoryIsRun(s: Machine, threshold: u64, signals: seq<Signal>)
    ensures ServeAll(s, threshold, signals).tables == Run(s.tables, History(s, threshold, signals))
  {
    if signals != [] {
      var n := |signals| - 1;
      var before := ServeAll(s, threshold, signals[..n]);
      HistoryIsRun(s, threshold, signals[..n]);
      ServeIsRun(before, threshold, signals[n]);
      RunConcat(s.tables, History(s, threshold, signals[..n]), Emitted(before.cache, threshold, signals[n]));
    }
  }

  // ---- which transactions an event sequence leaves live ----

  ghost predicate Undoes(events: seq<Event>, tx: Tx) {
    exists i :: 0 <= i < |events| && events[i] == Unapplied(tx)
  }

  lemma LiveSplit(a: seq<Event>, b: seq<Event>, tx: Tx)
    ensures Live(a + b, tx) <==> Live(b, tx) || (Live(a, tx) && !Undoes(b, tx))
  {
    var all := a + b;
    if Live(all, tx) {
      var i :| LiveAt(all, i) && all[i].tx == tx;
      LiveInEither(a, b, tx, i);
    }
    if Live(b, tx) {
      var i :| LiveAt(b, i) && b[i].tx == tx;
      forall j | |a| + i < j < |all| ensures all[j] != Unapplied(tx) { assert all[j] == b[j - |a|]; }
      assert LiveAt(all, |a| + i);
    }
    if Live(a, tx) && !Undoes(b, tx) {
      var i :| LiveAt(a, i) && a[i].tx == tx;
      forall j | i < j < |all| ensures all[j] != Unapplied(tx) {
        if j < |a| { assert all[j] == a[j]; } else { assert all[j] == b[j - |a|]; }
      }
      assert LiveAt(all, i);
    }
  }

  lemma LiveInEither(a: seq<Event>, b: seq<Event>, tx: Tx, i: nat)
    requires LiveAt(a + b, i) && (a + b)[i].tx == tx
    ensures Live(b, tx) || (Live(a, tx) && !Undoes(b, tx))
  {
    if i < |a| {
      assert forall j :: 0 <= j < |a| ==> a[j] == (a + b)[j];
      assert forall j :: 0 <= j < |b| ==> b[j] == (a + b)[|a| + j];
      assert LiveAt(a, i) && a[i].tx == tx;
    } else {
      assert forall j :: 0 <= j < |b| ==> b[j] == (a + b)[|a| + j];
      assert LiveAt(b, i - |a|) && b[i - |a|].tx == tx;
    }
  }

  lemma AppliedAreLive(b: Block, tx: Tx)
    ensures var events := IndexEvents(AppliedEvents(b, ValidTxs(b)));
            (Live(events, tx) <==> tx in TxsOf(BlockFeed(b))) && !Undoes(events, tx)
  {
    var events, txs := IndexEvents(AppliedEvents(b, ValidTxs(b))), ValidTxs(b);
    assert forall i :: 0 <= i < |txs| ==> events[i] == Applied(txs[i], Some(b.slot)) && BlockFeed(b)[i].tx == txs[i];
    if tx in TxsOf(BlockFeed(b)) {
      var i :| 0 <= i < |txs| && BlockFeed(b)[i].tx == tx;
      assert LiveAt(events, i) && events[i].tx == tx;
    }
  }

  lemma LiveAfterBlock(events: seq<Event>, b: Block, tx: Tx)
    ensures Live(events + IndexEvents(AppliedEvents(b, ValidTxs(b))), tx) <==>
            Live(events, tx) || tx in TxsOf(BlockFeed(b))
  {
    AppliedAreLive(b, tx);
    LiveSplit(events, IndexEvents(AppliedEvents(b, ValidTxs(b))), tx);
  }

  /** The events undo exactly these transactions and apply none. */
  ghost predicate UndoExactly(events: seq<Event>, txs: set<Tx>) {
    && (forall i :: 0 <= i < |events| ==> events[i].Unapplied?)
    && forall tx :: Undoes(events, tx) <==> tx in txs
  }

  lemma UndoExactlyConcat(a: seq<Event>, b: seq<Event>, s: set<Tx>, t: set<Tx>)
    requires UndoExactly(a, s) && UndoExactly(b, t)
    ensures UndoExactly(a + b, s + t)
  {
    forall i | 0 <= i < |a + b| ensures (a + b)[i].Unapplied? {
      assert (a + b)[i] == if i < |a| then a[i] else b[i - |a|];
    }
    forall tx ensures Undoes(a + b, tx) <==> Undoes(a, tx) || Undoes(b, tx) {
      if i :| 0 <= i < |a| && a[i] == Unapplied(tx) { assert (a + b)[i] == a[i]; }
      if i :| 0 <= i < |b| && b[i] == Unapplied(tx) { assert (a + b)[|a| + i] == b[i]; }
    }
  }

  function TxSet(txs: seq<Tx>): set<Tx> { set i | 0 <= i < |txs| :: txs[i] }

  lemma {:induction false} UnappliedUndo(b: Block, txs: seq<Tx>)
    ensures UndoExactly(IndexEvents(UnappliedEvents(b, txs)), TxSet(txs))
  {
    if txs != [] {
      var n := |txs| - 1;
      UnappliedUndo(b, txs[..n]);
      var first := [Unapplied(txs[n])];
      assert first[0] == Unapplied(txs[n]);
      assert IndexEvents(UnappliedEvents(b, txs)) == first + IndexEvents(UnappliedEvents(b, txs[..n]));
      assert UndoExactly(first, {txs[n]});
      UndoExactlyConcat(first, IndexEvents(UnappliedEvents(b, txs[..n])), {txs[n]}, TxSet(txs[..n]));
      assert TxSet(txs) == {txs[n]} + TxSet(txs[..n]) by { TxSetStep(txs); }
    }
  }

  lemma TxSetStep(txs: seq<Tx>)
    requires txs != []
    ensures TxSet(txs) == {txs[|txs| - 1]} + TxSet(txs[..|txs| - 1])
  {
    var n := |txs| - 1;
    forall tx ensures tx in TxSet(txs) <==> tx == txs[n] || tx in TxSet(txs[..n]) {
      if tx in TxSet(txs[..n]) {
        var i :| 0 <= i < n && txs[..n][i] == tx;
        assert txs[i] == tx;
      }
      if i :| 0 <= i < n && txs[i] == tx { assert txs[..n][i] == tx; }
    }
  }

  lemma BlockTxs(b: Block)
    ensures TxSet(ValidTxs(b)) == TxsOf(BlockFeed(b))
  {
    assert forall i :: 0 <= i < |ValidTxs(b)| ==> BlockFeed(b)[i].tx == ValidTxs(b)[i];
  }

  lemma TxsOfConcat(a: seq<Feed>, b: seq<Feed>)
    ensures TxsOf(a + b) == TxsOf(a) + TxsOf(b)
  {
    forall tx ensures tx in TxsOf(a + b) <==> tx in TxsOf(a) || tx in TxsOf(b) {
      if i :| 0 <= i < |a| && a[i].tx == tx { assert (a + b)[i] == a[i]; }
      if i :| 0 <= i < |b| && b[i].tx == tx { assert (a + b)[|a| + i] == b[i]; }
    }
  }

  lemma IndexEventsConcat(a: seq<LedgerTxEvent>, b: seq<LedgerTxEvent>)
    ensures IndexEvents(a + b) == IndexEvents(a) + IndexEvents(b)
  {
  }

  lemma InverseUndoes(b: Block)
    ensures UndoExactly(IndexEvents(InverseEvents(b)), TxsOf(BlockFeed(b)))
  {
    UnappliedUndo(b, ValidTxs(b));
    BlockTxs(b);
  }

  lemma TxsOfSnoc(below: seq<Block>, b: Block)
    ensures TxsOf(BlockFeeds(below + [b])) == TxsOf(BlockFeeds(below)) + TxsOf(BlockFeed(b))
  {
    BlockFeedsSnoc(below, b);
    TxsOfConcat(BlockFeeds(below), BlockFeed(b));
  }

  lemma ReverseSnoc(below: seq<Block>, b: Block)
    ensures Reverse(below + [b]) == [b] + Reverse(below)
  {
    assert (below + [b])[..|below|] == below;
  }

  lemma {:induction false} RollbackUndoes(blocks: seq<Block>)
    ensures UndoExactly(IndexEvents(UndoneEvents(Reverse(blocks))), TxsOf(BlockFeeds(blocks)))
  {
    if blocks != [] {
      var n := |blocks| - 1;
      var below, b := blocks[..n], blocks[n];
      RollbackUndoes(below);
      UndoesSnoc(below, b);
      assert blocks == below + [b];
    }
  }

  lemma UndoesSnoc(below: seq<Block>, b: Block)
    requires UndoExactly(IndexEvents(UndoneEvents(Reverse(below))), TxsOf(BlockFeeds(below)))
    ensures UndoExactly(IndexEvents(UndoneEvents(Reverse(below + [b]))), TxsOf(BlockFeeds(below + [b])))
  {
    var rest := UndoneEvents(Reverse(below));
    InverseUndoes(b);
    ReverseSnoc(below, b);
    UndoneCons(b, Reverse(below));
    IndexEventsConcat(InverseEvents(b), rest);
    UndoExactlyConcat(IndexEvents(InverseEvents(b)), IndexEvents(rest), TxsOf(BlockFeed(b)), TxsOf(BlockFeeds(below)));
    TxsOfSnoc(below, b);
    assert TxsOf(BlockFeed(b)) + TxsOf(BlockFeeds(below)) == TxsOf(BlockFeeds(below + [b]));
  }

  // ---- the node's view: its chain and what is pending besides ----

  /** `dropped` are the transactions of the chain that were reported as dropped all the same. */
  datatype View = View(chain: NodeChain, pending: set<Tx>, dropped: set<Tx>) {
    ghost function Txs(): set<Tx> { TxsOf(BlockFeeds(chain.Blocks())) }
    ghost function LiveTxs(): set<Tx> { Txs() - dropped + pending }
  }

  /** A block confirms pending transactions; a rollback takes its transactions off the chain and leaves the
      pending ones pending; any transaction may be accepted or dropped at any time. */
  ghost predicate ViewMoves(v: View, threshold: u64, sig: Signal, v': View) {
    match sig
    case Upgraded(RollForward(b, replayed)) =>
      && NodeMoves(v.chain, threshold, FromNode(RollForward(b, replayed)), v'.chain)
      && v'.pending == v.pending - TxsOf(BlockFeed(b)) && v'.dropped == v.dropped - TxsOf(BlockFeed(b))
    case Upgraded(RollBackward(p)) =>
      && NodeMoves(v.chain, threshold, FromNode(RollBackward(p)), v'.chain)
      && v'.pending == v.pending && v'.dropped == v.dropped * v'.Txs()
    case Accepted(tx) =>
      v' == if tx in v.Txs() then v.(dropped := v.dropped - {tx}) else v.(pending := v.pending + {tx})
    case Dropped(tx) =>
      v' == if tx in v.Txs() then v.(dropped := v.dropped + {tx}) else v.(pending := v.pending - {tx})
    case Queried(_) => v' == v
  }

  /** Live are exactly the chain's transactions, but for dropped ones, and the pending ones. */
  ghost predicate Tracks(v: View, threshold: u64, c: Cache, events: seq<Event>) {
    && OnChain(c, v.chain.ground, v.chain.Cached()) && v.chain.below == [] && Placed(v.chain, threshold)
    && LiveIs(v, events)
  }

  ghost predicate LiveIs(v: View, events: seq<Event>) {
    && ValidFeeds(BlockFeeds(v.chain.Blocks())) && v.pending !! v.Txs() && v.dropped <= v.Txs()
    && forall tx :: Live(events, tx) <==> tx in v.LiveTxs()
  }

  lemma ForwardTxs(v: View, threshold: u64, b: Block, v': View)
    requires ViewMoves(v, threshold, Upgraded(RollForward(b, false)), v')
    requires ValidFeeds(BlockFeeds(v.chain.Blocks())) && v.dropped <= v.Txs()
    ensures ValidFeeds(BlockFeeds(v'.chain.Blocks())) && v'.Txs() == v.Txs() + TxsOf(BlockFeed(b))
    ensures v'.dropped == v.dropped
  {
    ForwardBlocks(v.chain, threshold, b, v'.chain);
    TxsOfSnoc(v.chain.Blocks(), b);
    BlockFeedsSnoc(v.chain.Blocks(), b);
    DistinctApart(BlockFeeds(v.chain.Blocks()), BlockFeed(b));
  }

  lemma ForwardTracks(v: View, threshold: u64, c: Cache, events: seq<Event>, b: Block, v': View)
    requires Tracks(v, threshold, c, events) && ViewMoves(v, threshold, Upgraded(RollForward(b, false)), v')
    ensures Tracks(v', threshold, Process(c, RollForward(b, false), threshold).0,
                   events + IndexEvents(AppliedEvents(b, ValidTxs(b))))
  {
    ForwardStep(v.chain, c, threshold, b, v'.chain);
    MovesKeepPlaced(v.chain, threshold, FromNode(RollForward(b, false)), v'.chain);
    ForwardTxs(v, threshold, b, v');
    forall tx { LiveAfterBlock(events, b, tx); }
  }

  lemma ContainedTxs(blocks: seq<Block>, b: Block)
    requires Contains(blocks, b)
    ensures TxsOf(BlockFeed(b)) <= TxsOf(BlockFeeds(blocks))
  {
    var i :| 0 <= i < |blocks| && blocks[i] == b;
    assert blocks == blocks[..i] + [b] + blocks[i + 1..];
    BlockFeedsSnoc(blocks[..i], b);
    BlockFeedsSplit(blocks[..i] + [b], blocks[i + 1..]);
    TxsOfConcat(BlockFeeds(blocks[..i]), BlockFeed(b));
    TxsOfConcat(BlockFeeds(blocks[..i] + [b]), BlockFeeds(blocks[i + 1..]));
  }

  lemma ReplayTracks(v: View, threshold: u64, c: Cache, events: seq<Event>, b: Block, v': View)
    requires Tracks(v, threshold, c, events) && ViewMoves(v, threshold, Upgraded(RollForward(b, true)), v')
    ensures v'.chain == v.chain && Tracks(v', threshold, c, events + IndexEvents(AppliedEvents(b, ValidTxs(b))))
  {
    ContainedTxs(v.chain.Blocks(), b);
    forall tx { LiveAfterBlock(events, b, tx); }
  }

  lemma DistinctApart(a: seq<Feed>, b: seq<Feed>)
    requires DistinctTxs(a + b)
    ensures TxsOf(a) !! TxsOf(b)
  {
    forall i, j | 0 <= i < |a| && 0 <= j < |b| ensures a[i].tx != b[j].tx {
      assert (a + b)[i] == a[i] && (a + b)[|a| + j] == b[j];
    }
  }

  lemma LiveAfterUndo(events: seq<Event>, undo: seq<Event>, txs: set<Tx>, tx: Tx)
    requires UndoExactly(undo, txs)
    ensures Live(events + undo, tx) <==> Live(events, tx) && tx !in txs
  {
    LiveSplit(events, undo, tx);
  }

  lemma CutKeepsPlaced(n: NodeChain, threshold: u64, p: Point, k: nat)
    requires Placed(n, threshold) && HandledAt(n, threshold, p, k)
    ensures Placed(CutBack(n, p, k), threshold)
  {
    assert NodeMoves(n, threshold, FromNode(RollBackward(p)), CutBack(n, p, k));
    MovesKeepPlaced(n, threshold, FromNode(RollBackward(p)), CutBack(n, p, k));
  }

  /** The view after a rollback. */
  ghost function CutView(v: View, p: Point, k: nat): View
    requires |v.chain.settled| <= k <= |v.chain.Blocks()|
  {
    var n := CutBack(v.chain, p, k);
    View(n, v.pending, v.dropped * TxsOf(BlockFeeds(n.Blocks())))
  }

  lemma StandstillView(v: View, p: Point, threshold: u64, events: seq<Event>)
    requires LiveIs(v, events) && Placed(v.chain, threshold) && v.chain.below == []
    requires HandledAt(v.chain, threshold, p, |v.chain.Blocks()|)
    ensures var v' := CutView(v, p, |v.chain.Blocks()|);
            && v'.chain.ground == v.chain.ground && v'.chain.Cached() == v.chain.Cached()
            && v'.chain.Blocks() == v.chain.Blocks() && v'.LiveTxs() == v.LiveTxs() && LiveIs(v', events)
  {
    Standstill(v.chain, p);
    assert CutView(v, p, |v.chain.Blocks()|).dropped == v.dropped;
  }

  lemma StandstillTracks(v: View, p: Point, threshold: u64, c: Cache, events: seq<Event>)
    requires Tracks(v, threshold, c, events) && HandledAt(v.chain, threshold, p, |v.chain.Blocks()|)
    requires p.Slot() <= threshold
    ensures Tracks(CutView(v, p, |v.chain.Blocks()|), threshold, c, events + IndexEvents([]))
    ensures CutView(v, p, |v.chain.Blocks()|).chain.Blocks() == v.chain.Blocks()
  {
    StandstillView(v, p, threshold, events);
    CutKeepsPlaced(v.chain, threshold, p, |v.chain.Blocks()|);
    NothingBelow(v.chain, p, |v.chain.Blocks()|);
    assert events + IndexEvents([]) == events;
  }

  lemma NothingBelow(n: NodeChain, p: Point, k: nat)
    requires n.below == [] && |n.settled| <= k <= |n.Blocks()|
    ensures CutOff(n, p, k) == n.recent[k - |n.settled|..] && CutBack(n, p, k).below == []
  {
  }

  lemma CutTracks(v: View, threshold: u64, c: Cache, events: seq<Event>, p: Point, k: nat)
    requires Tracks(v, threshold, c, events) && HandledAt(v.chain, threshold, p, k) && p.Slot() > threshold
    ensures var (c', undone) := Rollback(c, p);
            Tracks(CutView(v, p, k), threshold, c', events + IndexEvents(UndoneEvents(undone)))
  {
    var (c', undone) := Rollback(c, p);
    CutKeepsPlaced(v.chain, threshold, p, k);
    NothingBelow(v.chain, p, k);
    assert undone == Reverse(CutOff(v.chain, p, k)) && OnChain(c', v.chain.ground, CutBack(v.chain, p, k).Cached()) by {
      BackwardCache(v.chain, c, threshold, p, k);
    }
    UndoneTracks(v, p, k, events);
  }

  lemma BackwardTracks(v: View, threshold: u64, c: Cache, events: seq<Event>, p: Point, k: nat)
    requires Tracks(v, threshold, c, events) && HandledAt(v.chain, threshold, p, k)
    ensures var (c', undone) := Process(c, RollBackward(p), threshold);
            Tracks(CutView(v, p, k), threshold, c', events + IndexEvents(undone))
  {
    if p.Slot() > threshold {
      CutTracks(v, threshold, c, events, p, k);
    } else {
      StandstillTracks(v, p, threshold, c, events);
    }
  }

  lemma UndoneTracks(v: View, p: Point, k: nat, events: seq<Event>)
    requires |v.chain.settled| <= k <= |v.chain.Blocks()| && LiveIs(v, events)
    ensures var undone := UndoneEvents(Reverse(v.chain.recent[k - |v.chain.settled|..]));
            LiveIs(CutView(v, p, k), events + IndexEvents(undone))
  {
    var kept, upper := CutBack(v.chain, p, k).Blocks(), v.chain.recent[k - |v.chain.settled|..];
    SplitBlocks(v.chain, p, k);
    BlockFeedsSplit(kept, upper);
    ValidFeedsPrefix(BlockFeeds(kept), BlockFeeds(upper));
    TxsOfConcat(BlockFeeds(kept), BlockFeeds(upper));
    DistinctApart(BlockFeeds(kept), BlockFeeds(upper));
    RollbackUndoes(upper);
    forall tx ensures Live(events + IndexEvents(UndoneEvents(Reverse(upper))), tx) <==>
                      tx in CutView(v, p, k).LiveTxs()
    {
      LiveAfterUndo(events, IndexEvents(UndoneEvents(Reverse(upper))), TxsOf(BlockFeeds(upper)), tx);
    }
  }

  lemma StepTracks(v: View, threshold: u64, c: Cache, events: seq<Event>, sig: Signal, v': View)
    requires Tracks(v, threshold, c, events) && ViewMoves(v, threshold, sig, v')
    ensures Tracks(v', threshold, if sig.Upgraded? then Process(c, sig.upgrade, threshold).0 else c,
                   events + Emitted(c, threshold, sig))
  {
    match sig
    case Upgraded(RollForward(b, true)) => ReplayTracks(v, threshold, c, events, b, v');
    case Upgraded(RollForward(b, false)) => ForwardTracks(v, threshold, c, events, b, v');
    case Upgraded(RollBackward(p)) =>
      var k :| HandledAt(v.chain, threshold, p, k) && v'.chain == CutBack(v.chain, p, k);
      BackwardTracks(v, threshold, c, events, p, k);
    case Accepted(t) => forall tx { LiveSnoc(events, Applied(t, None), tx); }
    case Dropped(t) => forall tx { LiveSnoc(events, Unapplied(t), tx); }
    case Queried(unit) => forall tx { LiveSnoc(events, UnitQueried(unit), tx); }
  }

  ghost predicate ViewRun(views: seq<View>, threshold: u64, signals: seq<Signal>) {
    && |views| == |signals| + 1 && views[0].pending == {} && views[0].dropped == {}
    && forall i :: 0 <= i < |signals| ==> ViewMoves(views[i], threshold, signals[i], views[i + 1])
  }

  lemma ServedCache(s: Machine, threshold: u64, sig: Signal)
    ensures Serve(s, threshold, sig).cache ==
            if sig.Upgraded? then Process(s.cache, sig.upgrade, threshold).0 else s.cache
  {
  }

  lemma ViewPrefix(views: seq<View>, threshold: u64, signals: seq<Signal>)
    requires ViewRun(views, threshold, signals) && signals != []
    ensures var n := |signals| - 1;
            && ViewRun(views[..n + 1], threshold, signals[..n]) && views[..n + 1][0] == views[0]
            && views[..n + 1][n] == views[n] && ViewMoves(views[n], threshold, signals[n], views[n + 1])
  {
  }

  lemma {:induction false} RunTracks(s: Machine, views: seq<View>, threshold: u64, signals: seq<Signal>)
    requires ViewRun(views, threshold, signals) && FreshStart(s, views[0].chain)
    ensures Tracks(views[|signals|], threshold, ServeAll(s, threshold, signals).cache, History(s, threshold, signals))
  {
    if signals == [] {
      FreshAgrees(s, views[0].chain, threshold);
    } else {
      var n := |signals| - 1;
      var before := ServeAll(s, threshold, signals[..n]);
      ViewPrefix(views, threshold, signals);
      RunTracks(s, views[..n + 1], threshold, signals[..n]);
      StepTracks(views[n], threshold, before.cache, History(s, threshold, signals[..n]), signals[n], views[n + 1]);
      ServedCache(before, threshold, signals[n]);
    }
  }

  /** Nothing was ever applied or undone under a hash but one transaction. */
  ghost predicate HashesAgree(events: seq<Event>) {
    forall i, j :: 0 <= i < |events| && 0 <= j < |events| && !events[i].UnitQueried? && !events[j].UnitQueried? ==>
      (events[i].tx.hash == events[j].tx.hash ==> events[i].tx == events[j].tx)
  }

  lemma StoredIffLiveProducer(events: seq<Event>, o: OutputRef)
    requires HashesAgree(events)
    ensures StoredAfter(events, o) <==> exists tx :: Live(events, tx) && Produces(tx, o)
  {
    if StoredAfter(events, o) {
      var i :| AddedAt(events, o, i);
      assert LiveAt(events, i);
      assert Live(events, events[i].tx) && Produces(events[i].tx, o);
    }
    if tx :| Live(events, tx) && Produces(tx, o) {
      var i :| LiveAt(events, i) && events[i].tx == tx;
      forall j | i < j < |events| ensures !Removes(events[j], o) {
        assert events[j] != Unapplied(tx);
      }
      assert AddedAt(events, o, i);
    }
  }

  ghost predicate NoConflicts(txs: set<Tx>) {
    forall a, b, o :: a in txs && b in txs && Consumes(a, o) && Consumes(b, o) ==> a == b
  }

  /** Each transaction was applied after the producers of the stored outputs it consumes were last undone. */
  ghost predicate NoneLost(events: seq<Event>, txs: set<Tx>, rows: Rows) {
    forall tx, o :: tx in txs && Consumes(tx, o) && o in rows ==> SeenSince(events, tx, o)
  }

  ghost predicate Consumed(txs: set<Tx>, o: OutputRef) { exists tx :: tx in txs && Consumes(tx, o) }

  /** The flags of the stored outputs say what these transactions consume. */
  ghost predicate FlagsSay(rows: Rows, txs: set<Tx>) {
    forall o :: o in rows ==> (rows[o].spent <==> Consumed(txs, o))
  }

  lemma ConsumedIsLive(events: seq<Event>, txs: set<Tx>)
    requires forall tx :: Live(events, tx) <==> tx in txs
    ensures forall o :: LiveConsumer(events, o) <==> Consumed(txs, o)
    ensures FlagsRight(events) <==> FlagsSay(Run(EMPTY, events).txo, txs)
  {
    forall o ensures LiveConsumer(events, o) <==> Consumed(txs, o) {
      if LiveConsumer(events, o) {
        var tx :| Live(events, tx) && Consumes(tx, o);
        assert tx in txs;
      }
    }
  }

  lemma FlagsRightMeans(s: Machine, views: seq<View>, threshold: u64, signals: seq<Signal>)
    requires ViewRun(views, threshold, signals) && FreshStart(s, views[0].chain)
    ensures ServeAll(s, threshold, signals).tables == Run(EMPTY, History(s, threshold, signals))
    ensures forall tx :: Live(History(s, threshold, signals), tx) <==> tx in views[|signals|].LiveTxs()
    ensures FlagsRight(History(s, threshold, signals)) <==>
            FlagsSay(ServeAll(s, threshold, signals).tables.txo, views[|signals|].LiveTxs())
  {
    HistoryIsRun(s, threshold, signals);
    RunTracks(s, views, threshold, signals);
    ConsumedIsLive(History(s, threshold, signals), views[|signals|].LiveTxs());
  }

  /** After any run of ledger upgrades, mempool accepts and drops and unit queries, exactly the outputs of live
      transactions are stored: those of the surviving chain that were not dropped, and the pending ones. Their
      flags say what live transactions consume exactly when each of those was applied after every stored output
      it consumes was last undone. */
  lemma MempoolAndLedger(s: Machine, views: seq<View>, threshold: u64, signals: seq<Signal>)
    requires ViewRun(views, threshold, signals) && FreshStart(s, views[0].chain)
    requires HashesAgree(History(s, threshold, signals))
    requires KnownInputs(History(s, threshold, signals)) && NoRivalUndone(History(s, threshold, signals))
    requires NoConflicts(views[|signals|].LiveTxs())
    ensures var rows := ServeAll(s, threshold, signals).tables.txo;
            var all := views[|signals|].LiveTxs();
            && (forall o :: o in rows <==> exists tx :: tx in all && Produces(tx, o))
            && (FlagsSay(rows, all) <==> NoneLost(History(s, threshold, signals), all, rows))
  {
    var events := History(s, threshold, signals);
    StoredIsProduced(s, views, threshold, signals);
    FlagsRightMeans(s, views, threshold, signals);
    PendingFlagsIff(events);
    forall o ensures o in Run(EMPTY, events).txo <==> StoredAfter(events, o) { RunWithUndo(events, o); }
  }

  lemma StoredIsProduced(s: Machine, views: seq<View>, threshold: u64, signals: seq<Signal>)
    requires ViewRun(views, threshold, signals) && FreshStart(s, views[0].chain)
    requires HashesAgree(History(s, threshold, signals))
    ensures forall o :: o in ServeAll(s, threshold, signals).tables.txo <==>
              exists tx :: tx in views[|signals|].LiveTxs() && Produces(tx, o)
  {
    FlagsRightMeans(s, views, threshold, signals);
    forall o
      ensures o in ServeAll(s, threshold, signals).tables.txo <==>
              exists tx :: tx in views[|signals|].LiveTxs() && Produces(tx, o)
    {
      RunWithUndo(History(s, threshold, signals), o);
      StoredIffLiveProducer(History(s, threshold, signals), o);
    }
  }

  // ---- conflicts included: what each signal may do, known before it ----

  lemma AcceptedIff(events: seq<Event>, live: set<Tx>, tx: Tx)
    requires (forall b :: Live(events, b) <==> b in live) && FlagsSay(Run(EMPTY, events).txo, live)
    ensures FlagsSay(Apply(Run(EMPTY, events), tx, None).txo, live + {tx}) <==>
            forall o :: Produces(tx, o) && o !in Run(EMPTY, events).txo ==> !Consumed(live + {tx}, o)
  {
    var after := events + [Applied(tx, None)];
    ConsumedIsLive(events, live);
    forall b { LiveSnoc(events, Applied(tx, None), b); }
    ConsumedIsLive(after, live + {tx});
    RunConcat(EMPTY, events, [Applied(tx, None)]);
    RunOne(Run(EMPTY, events), Applied(tx, None));
    ApplyKeepsFlagsIff(events, tx, None);
    forall o ensures Consumed(live + {tx}, o) <==> LiveConsumer(events, o) || Consumes(tx, o) {
      if Consumes(tx, o) { assert tx in live + {tx}; }
    }
  }

  lemma DroppedIff(events: seq<Event>, live: set<Tx>, tx: Tx)
    requires (forall b :: Live(events, b) <==> b in live) && FlagsSay(Run(EMPTY, events).txo, live)
    ensures FlagsSay(Unapply(Run(EMPTY, events), tx).txo, live - {tx}) <==>
            forall o :: o in Run(EMPTY, events).txo && Consumes(tx, o) && !Produces(tx, o) ==> !Consumed(live - {tx}, o)
  {
    var after := events + [Unapplied(tx)];
    ConsumedIsLive(events, live);
    forall b { LiveSnoc(events, Unapplied(tx), b); }
    ConsumedIsLive(after, live - {tx});
    RunConcat(EMPTY, events, [Unapplied(tx)]);
    RunOne(Run(EMPTY, events), Unapplied(tx));
    StepKeepsFlagsIff(events, Unapplied(tx));
    forall o ensures Rival(events, tx, o) <==> Consumed(live - {tx}, o) {
      ConsumerSnoc(events, Unapplied(tx), o);
    }
  }

  /** Accepting a transaction keeps the flags right exactly when no output it newly stores is consumed already,
      by a live transaction or by itself. */
  lemma AcceptKeepsFlagsIff(s: Machine, views: seq<View>, threshold: u64, signals: seq<Signal>, tx: Tx)
    requires ViewRun(views, threshold, signals) && FreshStart(s, views[0].chain)
    requires FlagsSay(ServeAll(s, threshold, signals).tables.txo, views[|signals|].LiveTxs())
    ensures var before, live := ServeAll(s, threshold, signals), views[|signals|].LiveTxs() + {tx};
            FlagsSay(Serve(before, threshold, Accepted(tx)).tables.txo, live) <==>
            forall o :: Produces(tx, o) && o !in before.tables.txo ==> !Consumed(live, o)
  {
    FlagsRightMeans(s, views, threshold, signals);
    AcceptedIff(History(s, threshold, signals), views[|signals|].LiveTxs(), tx);
  }

  /** Dropping a transaction, from the mempool or off the chain, keeps the flags right exactly when no other live
      transaction consumes a remaining output that it consumes. */
  lemma DropKeepsFlagsIff(s: Machine, views: seq<View>, threshold: u64, signals: seq<Signal>, tx: Tx)
    requires ViewRun(views, threshold, signals) && FreshStart(s, views[0].chain)
    requires FlagsSay(ServeAll(s, threshold, signals).tables.txo, views[|signals|].LiveTxs())
    ensures var before, rest := ServeAll(s, threshold, signals), views[|signals|].LiveTxs() - {tx};
            FlagsSay(Serve(before, threshold, Dropped(tx)).tables.txo, rest) <==>
            forall o :: o in before.tables.txo && Consumes(tx, o) && !Produces(tx, o) ==> !Consumed(rest, o)
  {
    FlagsRightMeans(s, views, threshold, signals);
    DroppedIff(History(s, threshold, signals), views[|signals|].LiveTxs(), tx);
  }

  lemma {:induction false} HistoryPrefix(s: Machine, threshold: u64, signals: seq<Signal>, m: nat)
    requires m <= |signals|
    ensures History(s, threshold, signals[..m]) <= History(s, threshold, signals)
    decreases |signals| - m
  {
    if m == |signals| {
      assert signals[..m] == signals;
    } else {
      HistoryPrefix(s, threshold, signals, m + 1);
      assert signals[..m + 1][..m] == signals[..m];
    }
  }

  lemma ViewsPrefix(views: seq<View>, threshold: u64, signals: seq<Signal>, m: nat)
    requires ViewRun(views, threshold, signals) && m <= |signals|
    ensures ViewRun(views[..m + 1], threshold, signals[..m])
    ensures views[..m + 1][0] == views[0] && views[..m + 1][m] == views[m]
  {
  }

  /** Over any run, conflicts and drops of confirmed transactions included: the flags are right after every single
      index event exactly when each met its guard, and then they are right after every signal. */
  lemma GuardedRunIsRight(s: Machine, views: seq<View>, threshold: u64, signals: seq<Signal>)
    requires ViewRun(views, threshold, signals) && FreshStart(s, views[0].chain)
    ensures AlwaysRight(History(s, threshold, signals)) <==> AlwaysGuarded(History(s, threshold, signals))
    ensures AlwaysGuarded(History(s, threshold, signals)) ==>
              forall m :: 0 <= m <= |signals| ==>
                FlagsSay(ServeAll(s, threshold, signals[..m]).tables.txo, views[m].LiveTxs())
  {
    var events := History(s, threshold, signals);
    AlwaysRightIff(events);
    if AlwaysRight(events) {
      forall m | 0 <= m <= |signals|
        ensures FlagsSay(ServeAll(s, threshold, signals[..m]).tables.txo, views[m].LiveTxs())
      {
        HistoryPrefix(s, threshold, signals, m);
        ViewsPrefix(views, threshold, signals, m);
        FlagsRightMeans(s, views[..m + 1], threshold, signals[..m]);
        assert History(s, threshold, signals[..m]) == events[..|History(s, threshold, signals[..m])|];
      }
    }
  }

  /** A transaction of the chain that is dropped all the same: its outputs are gone and what it consumed is
      unspent, though it is still on the chain. */
  lemma DroppedConfirmedIsLost(s: Machine, views: seq<View>, threshold: u64, signals: seq<Signal>, tx: Tx, o: OutputRef)
    requires ViewRun(views, threshold, signals) && FreshStart(s, views[0].chain) && tx in views[|signals|].Txs()
    ensures var before := ServeAll(s, threshold, signals);
            var rows := Serve(before, threshold, Dropped(tx)).tables.txo;
            && (Produces(tx, o) ==> o !in rows)
            && (Consumes(tx, o) && !Produces(tx, o) && o in before.tables.txo ==> o in rows && !rows[o].spent)
    ensures var v := views[|signals|];
            ViewMoves(v, threshold, Dropped(tx), v.(dropped := v.dropped + {tx}))
  {
    StepRowAt(ServeAll(s, threshold, signals).tables, Unapplied(tx), o);
  }

  // ---- only pending spends can be lost ----

  /** The transaction at this place of the chain was applied at `k`, and nothing up to it was undone since. */
  ghost predicate StandsAt(events: seq<Event>, feeds: seq<Feed>, i: int, k: int) {
    && 0 <= i < |feeds| && 0 <= k < |events| && events[k].Applied? && events[k].tx == feeds[i].tx
    && forall j, below :: k < j < |events| && 0 <= below <= i ==> events[j] != Unapplied(feeds[below].tx)
  }

  ghost predicate Stands(events: seq<Event>, feeds: seq<Feed>) {
    forall i :: 0 <= i < |feeds| ==> StandsFor(events, feeds, i)
  }

  ghost predicate StandsFor(events: seq<Event>, feeds: seq<Feed>, i: int) { exists k :: StandsAt(events, feeds, i, k) }

  lemma StandsExtend(events: seq<Event>, more: seq<Event>, feeds: seq<Feed>)
    requires Stands(events, feeds) && forall i :: 0 <= i < |feeds| ==> !Undoes(more, feeds[i].tx)
    ensures Stands(events + more, feeds)
  {
    forall i | 0 <= i < |feeds| ensures StandsFor(events + more, feeds, i) {
      assert StandsFor(events, feeds, i);
      var k :| StandsAt(events, feeds, i, k);
      forall j, below | k < j < |events + more| && 0 <= below <= i
        ensures (events + more)[j] != Unapplied(feeds[below].tx)
      {
        if j >= |events| { assert (events + more)[j] == more[j - |events|]; }
      }
      assert StandsAt(events + more, feeds, i, k);
    }
  }

  lemma StandsForward(events: seq<Event>, feeds: seq<Feed>, b: Block)
    requires Stands(events, feeds)
    ensures Stands(events + IndexEvents(AppliedEvents(b, ValidTxs(b))), feeds + BlockFeed(b))
  {
    var more := IndexEvents(AppliedEvents(b, ValidTxs(b)));
    var all, longer := events + more, feeds + BlockFeed(b);
    forall i | 0 <= i < |feeds| ensures !Undoes(more, feeds[i].tx) { AppliedAreLive(b, feeds[i].tx); }
    StandsExtend(events, more, feeds);
    forall i | 0 <= i < |longer| ensures StandsFor(all, longer, i) {
      if i < |feeds| {
        assert StandsFor(all, feeds, i);
        var k :| StandsAt(all, feeds, i, k);
        assert forall below :: 0 <= below <= i ==> longer[below] == feeds[below];
        assert StandsAt(all, longer, i, k);
      } else {
        var k := |events| + (i - |feeds|);
        assert all[k] == more[i - |feeds|] && longer[i] == BlockFeed(b)[i - |feeds|];
        assert forall j :: k < j < |all| ==> all[j] == more[j - |events|] && all[j].Applied?;
        assert StandsAt(all, longer, i, k);
      }
    }
  }

  lemma StandsPrefix(events: seq<Event>, a: seq<Feed>, b: seq<Feed>)
    requires Stands(events, a + b)
    ensures Stands(events, a)
  {
    forall i | 0 <= i < |a| ensures StandsFor(events, a, i) {
      assert forall below :: 0 <= below <= i ==> (a + b)[below] == a[below];
      assert StandsFor(events, a + b, i);
      var k :| StandsAt(events, a + b, i, k);
      assert StandsAt(events, a, i, k);
    }
  }

  lemma StandsCut(v: View, p: Point, k: nat, events: seq<Event>)
    requires |v.chain.settled| <= k <= |v.chain.Blocks()| && ValidFeeds(BlockFeeds(v.chain.Blocks()))
    requires Stands(events, BlockFeeds(v.chain.Blocks()))
    ensures var undone := UndoneEvents(Reverse(v.chain.recent[k - |v.chain.settled|..]));
            Stands(events + IndexEvents(undone), BlockFeeds(CutBack(v.chain, p, k).Blocks()))
  {
    var kept, upper := CutBack(v.chain, p, k).Blocks(), v.chain.recent[k - |v.chain.settled|..];
    var more := IndexEvents(UndoneEvents(Reverse(upper)));
    SplitBlocks(v.chain, p, k);
    BlockFeedsSplit(kept, upper);
    DistinctApart(BlockFeeds(kept), BlockFeeds(upper));
    StandsPrefix(events, BlockFeeds(kept), BlockFeeds(upper));
    RollbackUndoes(upper);
    forall i | 0 <= i < |BlockFeeds(kept)| ensures !Undoes(more, BlockFeeds(kept)[i].tx) {
      assert BlockFeeds(kept)[i].tx in TxsOf(BlockFeeds(kept));
    }
    StandsExtend(events, more, BlockFeeds(kept));
  }

  lemma StandsBackward(v: View, threshold: u64, c: Cache, events: seq<Event>, p: Point, k: nat)
    requires Tracks(v, threshold, c, events) && HandledAt(v.chain, threshold, p, k)
    requires Stands(events, BlockFeeds(v.chain.Blocks()))
    ensures Stands(events + Emitted(c, threshold, Upgraded(RollBackward(p))),
                   BlockFeeds(CutBack(v.chain, p, k).Blocks()))
  {
    if p.Slot() > threshold {
      NothingBelow(v.chain, p, k);
      BackwardCache(v.chain, c, threshold, p, k);
      StandsCut(v, p, k, events);
    } else {
      StandstillTracks(v, p, threshold, c, events);
      assert events + IndexEvents([]) == events;
    }
  }

  lemma StandsOne(events: seq<Event>, e: Event, feeds: seq<Feed>)
    requires Stands(events, feeds) && (e.Unapplied? ==> e.tx !in TxsOf(feeds))
    ensures Stands(events + [e], feeds)
  {
    forall i | 0 <= i < |feeds| ensures !Undoes([e], feeds[i].tx) {
      assert feeds[i].tx in TxsOf(feeds);
    }
    StandsExtend(events, [e], feeds);
  }

  /** Only transactions that are not on the chain are dropped. */
  ghost predicate SparesChain(v: View, sig: Signal) { sig.Dropped? ==> sig.tx !in v.Txs() }

  ghost predicate SparesChains(views: seq<View>, signals: seq<Signal>)
    requires |signals| < |views|
  {
    forall i :: 0 <= i < |signals| ==> SparesChain(views[i], signals[i])
  }

  lemma StepStands(v: View, threshold: u64, c: Cache, events: seq<Event>, sig: Signal, v': View)
    requires Tracks(v, threshold, c, events) && ViewMoves(v, threshold, sig, v')
    requires Stands(events, BlockFeeds(v.chain.Blocks())) && SparesChain(v, sig)
    ensures Stands(events + Emitted(c, threshold, sig), BlockFeeds(v'.chain.Blocks()))
  {
    var feeds := BlockFeeds(v.chain.Blocks());
    match sig
    case Upgraded(RollForward(b, true)) =>
      var more := IndexEvents(AppliedEvents(b, ValidTxs(b)));
      forall i | 0 <= i < |feeds| ensures !Undoes(more, feeds[i].tx) { AppliedAreLive(b, feeds[i].tx); }
      StandsExtend(events, more, feeds);
    case Upgraded(RollForward(b, false)) =>
      ForwardBlocks(v.chain, threshold, b, v'.chain);
      BlockFeedsSnoc(v.chain.Blocks(), b);
      StandsForward(events, feeds, b);
    case Upgraded(RollBackward(p)) =>
      var k :| HandledAt(v.chain, threshold, p, k) && v'.chain == CutBack(v.chain, p, k);
      StandsBackward(v, threshold, c, events, p, k);
    case Accepted(t) => StandsOne(events, Applied(t, None), feeds);
    case Dropped(t) => StandsOne(events, Unapplied(t), feeds);
    case Queried(unit) => StandsOne(events, UnitQueried(unit), feeds);
  }

  lemma {:induction false} RunStands(s: Machine, views: seq<View>, threshold: u64, signals: seq<Signal>)
    requires ViewRun(views, threshold, signals) && FreshStart(s, views[0].chain) && SparesChains(views, signals)
    ensures Stands(History(s, threshold, signals), BlockFeeds(views[|signals|].chain.Blocks()))
    ensures views[|signals|].dropped == {}
  {
    if signals == [] {
      assert views[0].chain.Blocks() == [];
    } else {
      var n := |signals| - 1;
      ViewPrefix(views, threshold, signals);
      SparesPrefix(views, signals);
      RunStands(s, views[..n + 1], threshold, signals[..n]);
      RunTracks(s, views[..n + 1], threshold, signals[..n]);
      StepStands(views[n], threshold, ServeAll(s, threshold, signals[..n]).cache,
                 History(s, threshold, signals[..n]), signals[n], views[n + 1]);
      NoneDropped(views[n], threshold, signals[n], views[n + 1]);
    }
  }

  lemma SparesPrefix(views: seq<View>, signals: seq<Signal>)
    requires |views| == |signals| + 1 && signals != [] && SparesChains(views, signals)
    ensures SparesChains(views[..|signals|], signals[..|signals| - 1])
    ensures SparesChain(views[|signals| - 1], signals[|signals| - 1])
  {
    var n := |signals| - 1;
    forall i | 0 <= i < n ensures SparesChain(views[..n + 1][i], signals[..n][i]) {
      assert SparesChain(views[i], signals[i]);
    }
  }

  lemma NoneDropped(v: View, threshold: u64, sig: Signal, v': View)
    requires ViewMoves(v, threshold, sig, v') && SparesChain(v, sig) && v.dropped == {}
    ensures v'.dropped == {}
  {
  }

  /** A transaction of the chain that spends an output of the chain is seen since that output was last undone. */
  lemma ChainSeen(events: seq<Event>, feeds: seq<Feed>, i: nat, o: OutputRef)
    requires Stands(events, feeds) && Causal(feeds) && HashesAgree(events)
    requires i < |feeds| && Consumes(feeds[i].tx, o) && ProducedIn(feeds, o)
    ensures SeenSince(events, feeds[i].tx, o)
  {
    assert ProducedIn(feeds[..i], o);
    var below :| 0 <= below < i && Produces(feeds[..i][below].tx, o);
    var producer := feeds[below].tx;
    assert StandsFor(events, feeds, i) && StandsFor(events, feeds, below);
    var k :| StandsAt(events, feeds, i, k);
    var at :| StandsAt(events, feeds, below, at);
    forall j | k < j < |events| ensures !Removes(events[j], o) {
      assert events[j] != Unapplied(producer);
      assert events[at].tx == producer;
    }
    assert SeenAt(events, feeds[i].tx, o, k);
  }

  /** Blocks spend outputs of blocks only. */
  ghost predicate ChainClosed(v: View) {
    forall c, p, o :: c in v.Txs() && p in v.pending && Consumes(c, o) ==> !Produces(p, o)
  }

  /** So, while no confirmed transaction is dropped, the spends that can be lost are pending ones: the flags are
      right exactly when every pending transaction was accepted, or accepted again, after each stored output it
      consumes was last undone. */
  lemma OnlyPendingSpendsAreLost(s: Machine, views: seq<View>, threshold: u64, signals: seq<Signal>)
    requires ViewRun(views, threshold, signals) && FreshStart(s, views[0].chain) && SparesChains(views, signals)
    requires HashesAgree(History(s, threshold, signals))
    requires KnownInputs(History(s, threshold, signals)) && NoRivalUndone(History(s, threshold, signals))
    requires NoConflicts(views[|signals|].LiveTxs()) && ChainClosed(views[|signals|])
    ensures var rows := ServeAll(s, threshold, signals).tables.txo;
            FlagsSay(rows, views[|signals|].LiveTxs()) <==>
            NoneLost(History(s, threshold, signals), views[|signals|].pending, rows)
  {
    var events, v := History(s, threshold, signals), views[|signals|];
    var rows := ServeAll(s, threshold, signals).tables.txo;
    MempoolAndLedger(s, views, threshold, signals);
    RunTracks(s, views, threshold, signals);
    RunStands(s, views, threshold, signals);
    assert v.LiveTxs() == v.Txs() + v.pending;
    forall tx, o | tx in v.Txs() && Consumes(tx, o) && o in rows ensures SeenSince(events, tx, o) {
      var p :| p in v.LiveTxs() && Produces(p, o);
      ChainSpendSeen(events, v, tx, p, o);
    }
  }

  lemma ChainSpendSeen(events: seq<Event>, v: View, tx: Tx, p: Tx, o: OutputRef)
    requires Stands(events, BlockFeeds(v.chain.Blocks())) && ValidFeeds(BlockFeeds(v.chain.Blocks()))
    requires HashesAgree(events) && ChainClosed(v)
    requires tx in v.Txs() && Consumes(tx, o) && p in v.Txs() + v.pending && Produces(p, o)
    ensures SeenSince(events, tx, o)
  {
    var feeds := BlockFeeds(v.chain.Blocks());
    assert p in v.Txs();
    var i :| 0 <= i < |feeds| && feeds[i].tx == tx;
    var j :| 0 <= j < |feeds| && feeds[j].tx == p;
    assert ProducedIn(feeds, o);
    ChainSeen(events, feeds, i, o);
  }

  /** What the service is for: whenever the flags are right, the credential tables list exactly the outputs of
      live transactions that no live transaction consumes. */
  lemma UnspentIsSpendable(s: Machine, views: seq<View>, threshold: u64, signals: seq<Signal>, cred: Credential,
                           kind: CredentialKind, o: OutputRef)
    requires ViewRun(views, threshold, signals) && FreshStart(s, views[0].chain)
    requires HashesAgree(History(s, threshold, signals))
    requires FlagsSay(ServeAll(s, threshold, signals).tables.txo, views[|signals|].LiveTxs())
    ensures var all := views[|signals|].LiveTxs();
            CredKey(cred, o) in ServeAll(s, threshold, signals).tables.Index(kind).unspent <==>
            (exists tx :: tx in all && Produces(tx, o) && cred in CredsOf(tx.outputs[o.index].address, kind)) &&
            !Consumed(all, o)
  {
    var events := History(s, threshold, signals);
    var all := views[|signals|].LiveTxs();
    var t := ServeAll(s, threshold, signals).tables;
    StoredIsProduced(s, views, threshold, signals);
    FlagsRightMeans(s, views, threshold, signals);
    EveryRunCoherent(events);
    assert CredKey(cred, o) in t.Index(kind).unspent <==>
           o in t.txo && !t.txo[o].spent && cred in CredsOf(t.txo[o].out.address, kind);
    forall tx | o in t.txo && tx in all && Produces(tx, o) ensures t.txo[o].out == tx.outputs[o.index] {
      ContentOfLive(events, tx, o);
    }
  }

  lemma ContentOfLive(events: seq<Event>, tx: Tx, o: OutputRef)
    requires HashesAgree(events) && Live(events, tx) && Produces(tx, o) && o in Run(EMPTY, events).txo
    ensures Run(EMPTY, events).txo[o].out == tx.outputs[o.index]
  {
    var k := RunContent(events, o);
    var i :| LiveAt(events, i) && events[i].tx == tx;
    assert events[i].tx.hash == events[k].tx.hash;
  }
}
