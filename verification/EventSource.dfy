/** The ledger cache, the event source that drives it and the handler that feeds the index, updated in place. */
module EventSource {
  import opened Options
  import opened Lists
  import opened Keys
  import opened Chain
  import opened Upgrades
  import opened Index

  /** The ledger cache: one tip entry and one entry per cached block. */
  class LedgerCacheDb {
    var tip: Option<Point>
    var blocks: map<Point, LinkedBlock>

    function View(): Cache
      reads this
    {
      Cache(tip, blocks)
    }

    constructor ()
      ensures View() == EMPTY_CACHE
    {
      tip, blocks := None, map[];
    }

    method SetTip(point: Point)
      modifies `tip
      ensures tip == Some(point)
    {
      tip := Some(point);
    }

    method PutBlock(point: Point, block: LinkedBlock)
      modifies `blocks
      ensures blocks == old(blocks)[point := block]
    {
      blocks := blocks[point := block];
    }

    method GetBlock(point: Point) returns (r: Option<LinkedBlock>)
      ensures r == if point in blocks then Some(blocks[point]) else None
    {
      r := if point in blocks then Some(blocks[point]) else None;
    }

    method Delete(point: Point) returns (deleted: bool)
      modifies `blocks
      ensures deleted && blocks == old(blocks) - {point}
    {
      blocks := blocks - {point};
      deleted := true;
    }

    /** Send every linked block stored at or after the point, in key order. */
    method ReplayFrom(from: Point) returns (sent: seq<LinkedBlock>)
      ensures sent == Chain.Replay(View(), from)
    {
      var iter := ReplayKeys(View(), from);
      sent := [];
      for i := 0 to |iter|
        invariant sent == Flat(DecodedLists(View(), iter)[..i])
      {
        FlatPrefix(DecodedLists(View(), iter), i);
        var p := PointOfKey(iter[i]);
        if PointKey(p) == iter[i] && p in blocks {
          sent := sent + [blocks[p]];
        }
      }
      assert DecodedLists(View(), iter)[..|iter|] == DecodedLists(View(), iter);
    }
  }

  class LedgerEvents {
    const cache: LedgerCacheDb
    const handleRollbacksAfter: u64
    var rollbackInProgress: bool

    constructor (cache: LedgerCacheDb, handleRollbacksAfter: u64)
      ensures this.cache == cache && this.handleRollbacksAfter == handleRollbacksAfter && !rollbackInProgress
    {
      this.cache, this.handleRollbacksAfter, rollbackInProgress := cache, handleRollbacksAfter, false;
    }

    method CacheNewBlock(blk: Block)
      modifies cache
      ensures cache.View() == CacheBlock(old(cache.View()), blk)
    {
      var point := PointOf(blk);
      var prevPoint := if cache.tip.Some? then cache.tip.value else Origin;
      cache.SetTip(point);
      cache.PutBlock(point, LinkedBlock(blk, prevPoint));
    }

    method CacheOnlyPoint(blk: Block)
      modifies cache
      ensures cache.View() == CachePoint(old(cache.View()), blk)
    {
      cache.SetTip(PointOf(blk));
    }

    /** Walk back from the tip, deleting each block before it is handed on; the beacon is lowered at the end. */
    method RollbackTo(toPoint: Point) returns (undone: seq<Block>)
      modifies this, cache
      ensures (cache.View(), undone) == Rollback(old(cache.View()), toPoint)
      ensures !rollbackInProgress
    {
      undone := [];
      ghost var all := Rollback(cache.View(), toPoint);
      assert [] + all.1 == all.1;
      while true
        invariant all.0 == Rollback(cache.View(), toPoint).0
        invariant all.1 == undone + Rollback(cache.View(), toPoint).1
        decreases |cache.blocks|
      {
        rollbackInProgress := true;
        if cache.tip.Some? {
          var tip := cache.tip.value;
          if tip != toPoint {
            var found := cache.GetBlock(tip);
            if found.Some? {
              ghost var before := cache.View();
              RemoveShrinks(cache.blocks, tip);
              var _ := cache.Delete(tip);
              cache.SetTip(found.value.prev);
              assert cache.View() == Undo(before);
              ghost var rest, b := Rollback(cache.View(), toPoint).1, found.value.block;
              assert undone + ([b] + rest) == (undone + [b]) + rest;
              undone := undone + [found.value.block];
              continue;
            }
          }
        }
        rollbackInProgress := false;
        assert Rollback(cache.View(), toPoint) == (cache.View(), []) && undone + [] == undone;
        break;
      }
    }

    method ProcessUpstreamByTxs(u: Upgrade) returns (events: seq<LedgerTxEvent>)
      modifies this, cache
      ensures (cache.View(), events) == Process(old(cache.View()), u, handleRollbacksAfter)
    {
      match u {
        case RollForward(blk, replayed) =>
          if !replayed {
            if blk.slot > handleRollbacksAfter {
              CacheNewBlock(blk);
            } else {
              CacheOnlyPoint(blk);
            }
          }
          events := AppliedEvents(blk, ValidTxs(blk));
        case RollBackward(point) =>
          events := [];
          if point.Slot() > handleRollbacksAfter {
            var undone := RollbackTo(point);
            events := Inverses(undone);
          }
      }
    }

    /** The inverse events of each undone block, block after block. */
    method Inverses(undone: seq<Block>) returns (events: seq<LedgerTxEvent>)
      ensures events == UndoneEvents(undone)
    {
      events := [];
      for i := 0 to |undone|
        invariant events == Flat(InverseLists(undone)[..i])
      {
        FlatPrefix(InverseLists(undone), i);
        events := events + UnappliedEvents(undone[i], ValidTxs(undone[i]));
      }
      assert InverseLists(undone)[..|undone|] == InverseLists(undone);
    }
  }

  /** The handler that feeds ledger events to the index. */
  class TxHandler {
    const index: UtxoIndexDb

    constructor (index: UtxoIndexDb)
      ensures this.index == index
    {
      this.index := index;
    }

    method TryHandle(ev: LedgerTxEvent)
      modifies index
      ensures index.View() == Handle(old(index.View()), ev)
    {
      match ev {
        case TxApplied(tx, slot, _, _) => index.Apply(tx, Some(slot));
        case TxUnapplied(tx, _, _, _) => index.Unapply(tx);
      }
    }

    method HandleEvents(events: seq<LedgerTxEvent>)
      modifies index
      ensures index.View() == HandleAll(old(index.View()), events)
    {
      for i := 0 to |events|
        invariant index.View() == HandleAll(old(index.View()), events[..i])
      {
        assert events[..i + 1][..i] == events[..i];
        TryHandle(events[i]);
      }
      assert events[..|events|] == events;
    }
  }
}
