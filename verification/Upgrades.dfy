/** From node upgrades to transaction events, as values. */
module Upgrades {
  import opened Options
  import opened Lists
  import opened Keys
  import opened Ledger
  import opened Chain
  import opened IndexTables

  datatype Upgrade = RollForward(blk: Block, replayed: bool) | RollBackward(point: Point)

  datatype LedgerTxEvent =
    | TxApplied(tx: Tx, slot: u64, number: u64, hash: Hash32)
    | TxUnapplied(tx: Tx, slot: u64, number: u64, hash: Hash32)

  function AppliedEvents(b: Block, txs: seq<Tx>): (r: seq<LedgerTxEvent>)
    ensures |r| == |txs|
  {
    seq(|txs|, i requires 0 <= i < |txs| => TxApplied(txs[i], b.slot, b.number, b.hash))
  }

  /** Inverse events of a block, last transaction first. */
  function UnappliedEvents(b: Block, txs: seq<Tx>): seq<LedgerTxEvent> {
    if txs == [] then []
    else [TxUnapplied(txs[|txs| - 1], b.slot, b.number, b.hash)] + UnappliedEvents(b, txs[..|txs| - 1])
  }

  function InverseEvents(b: Block): seq<LedgerTxEvent> { UnappliedEvents(b, ValidTxs(b)) }

  function InverseLists(undone: seq<Block>): (r: seq<seq<LedgerTxEvent>>)
    ensures |r| == |undone|
  {
    seq(|undone|, i requires 0 <= i < |undone| => InverseEvents(undone[i]))
  }

  function UndoneEvents(undone: seq<Block>): seq<LedgerTxEvent> { Flat(InverseLists(undone)) }

  /** One upgrade's effect on the cache and the events it emits. */
  function Process(c: Cache, u: Upgrade, threshold: u64): (Cache, seq<LedgerTxEvent>) {
    match u
    case RollForward(blk, replayed) =>
      var c' := if replayed then c else if blk.slot > threshold then CacheBlock(c, blk) else CachePoint(c, blk);
      (c', AppliedEvents(blk, ValidTxs(blk)))
    case RollBackward(point) =>
      if point.Slot() > threshold then
        var (c', undone) := Rollback(c, point);
        (c', UndoneEvents(undone))
      else (c, [])
  }

  lemma {:induction false} UnappliedAt(b: Block, txs: seq<Tx>, k: nat)
    requires k < |txs|
    ensures |UnappliedEvents(b, txs)| == |txs|
    ensures UnappliedEvents(b, txs)[k] == TxUnapplied(txs[|txs| - 1 - k], b.slot, b.number, b.hash)
  {
    if k > 0 {
      UnappliedAt(b, txs[..|txs| - 1], k - 1);
    } else if |txs| > 1 {
      UnappliedAt(b, txs[..|txs| - 1], 0);
    }
  }

  lemma UndoneOne(b: Block)
    ensures UndoneEvents([b]) == InverseEvents(b)
  {
    assert InverseLists([b]) == [InverseEvents(b)];
    FlatOne(InverseEvents(b));
  }

  lemma UndoneLength(b: Block)
    ensures |InverseEvents(b)| == |ValidTxs(b)|
  {
    if ValidTxs(b) != [] { UnappliedAt(b, ValidTxs(b), 0); }
  }

  lemma ValidTxsPositions(b: Block) returns (ps: seq<nat>)
    ensures b.era == Babbage || b.era == Conway ==> ValidPositions(ps, b.bodies, b.invalid)
    ensures b.era == OtherEra ==> ps == []
    ensures |ValidTxs(b)| == |ps|
    ensures forall k :: 0 <= k < |ps| ==> ps[k] < |b.bodies| && ValidTxs(b)[k] == b.bodies[ps[k]]
  {
    if b.era.OtherEra? { ps := []; } else { ps := ValidFromPositions(b.bodies, b.invalid); }
  }

  /** Rolling a Babbage or Conway block forward reports its valid transactions in block order, each with the
      block's slot, number and hash; undoing the block reports the same transactions in reverse. A block of any
      other era reports nothing either way. */
  lemma BlockEventsInOrder(c: Cache, b: Block, replayed: bool, threshold: u64) returns (ps: seq<nat>)
    ensures b.era == Babbage || b.era == Conway ==> ValidPositions(ps, b.bodies, b.invalid)
    ensures b.era == OtherEra ==> ps == []
    ensures var events, undo := Process(c, RollForward(b, replayed), threshold).1, UndoneEvents([b]);
            && |events| == |undo| == |ps|
            && forall k :: 0 <= k < |ps| ==>
                 && ps[k] < |b.bodies| && events[k] == TxApplied(b.bodies[ps[k]], b.slot, b.number, b.hash)
                 && undo[|ps| - 1 - k] == TxUnapplied(b.bodies[ps[k]], b.slot, b.number, b.hash)
  {
    ps := ValidTxsPositions(b);
    UndoneOne(b);
    UndoneLength(b);
    forall k | 0 <= k < |ps|
      ensures UndoneEvents([b])[|ps| - 1 - k] == TxUnapplied(b.bodies[ps[k]], b.slot, b.number, b.hash)
    {
      UnappliedAt(b, ValidTxs(b), |ps| - 1 - k);
    }
  }

  /** The handler's effect on the index tables. */
  function Handle(t: Tables, e: LedgerTxEvent): Tables {
    match e
    case TxApplied(tx, slot, _, _) => Apply(t, tx, Some(slot))
    case TxUnapplied(tx, _, _, _) => Unapply(t, tx)
  }

  function HandleAll(t: Tables, events: seq<LedgerTxEvent>): Tables {
    if events == [] then t else Handle(HandleAll(t, events[..|events| - 1]), events[|events| - 1])
  }
}
