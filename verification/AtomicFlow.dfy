/** The flow that hands blocks to a committing consumer, one await at a time, with a crash possible anywhere. */
module AtomicFlow {
  import opened Options
  import opened Chain

  datatype Batch = Forward(block: Block) | Backward(block: Block)

  /** Where the flow stands between two awaits. */
  datatype Phase =
    | Idle
    | AwaitForward(block: Block)
    | ForwardDone(block: Block)
    | TipMoved(block: Block, prev: Point)
    | RollingBack(to: Point)
    | AwaitBackward(to: Point, tip: Point, prev: Point)
    | BackwardDone(to: Point, tip: Point, prev: Point)
    | BlockDeleted(to: Point, tip: Point, prev: Point)

  /** `committed` is the consumer's own chain above the ground; `links` remembers every link ever stored. */
  datatype Flow = Flow(
    cache: Cache, phase: Phase, outstanding: seq<Batch>, committed: seq<Block>, links: map<Point, Point>, crashed: bool)

  datatype Action =
    | ReceiveForward(block: Block) | ReceiveBackward(to: Point)
    | Commit | Acknowledge | MoveTip | PutBlock | TopOfLoop | DeleteBlock | MoveTipBack | Crash

  predicate Enabled(s: Flow, ground: Point, a: Action) {
    && !s.crashed
    && match a
       case ReceiveForward(b) => s.phase.Idle? && PointOf(b) !in s.cache.blocks && PointOf(b) != ground
       case ReceiveBackward(_) => s.phase.Idle?
       case Commit => s.outstanding != []
       case Acknowledge => (s.phase.AwaitForward? || s.phase.AwaitBackward?) && s.outstanding == []
       case MoveTip => s.phase.ForwardDone?
       case PutBlock => s.phase.TipMoved?
       case TopOfLoop => s.phase.RollingBack?
       case DeleteBlock => s.phase.BackwardDone?
       case MoveTipBack => s.phase.BlockDeleted?
       case Crash => true
  }

  /** What a committed batch does to the consumer's chain. */
  function Committed(chain: seq<Block>, b: Batch): seq<Block> {
    match b
    case Forward(block) => chain + [block]
    case Backward(_) => if chain == [] then [] else chain[..|chain| - 1]
  }

  function Next(s: Flow, ground: Point, a: Action): Flow
    requires Enabled(s, ground, a)
  {
    match a
    case ReceiveForward(b) => s.(phase := AwaitForward(b), outstanding := s.outstanding + [Forward(b)])
    case ReceiveBackward(to) => s.(phase := RollingBack(to))
    case Commit => s.(committed := Committed(s.committed, s.outstanding[0]), outstanding := s.outstanding[1..])
    case Acknowledge =>
      if s.phase.AwaitForward? then s.(phase := ForwardDone(s.phase.block))
      else s.(phase := BackwardDone(s.phase.to, s.phase.tip, s.phase.prev))
    case MoveTip =>
      s.(phase := TipMoved(s.phase.block, TipPoint(s.cache)), cache := s.cache.(tip := Some(PointOf(s.phase.block))))
    case PutBlock =>
      var (b, prev) := (s.phase.block, s.phase.prev);
      s.(phase := Idle, links := s.links[PointOf(b) := prev],
         cache := s.cache.(blocks := s.cache.blocks[PointOf(b) := LinkedBlock(b, prev)]))
    case TopOfLoop =>
      if CanUndo(s.cache, s.phase.to) then
        var found := s.cache.blocks[s.cache.tip.value];
        s.(phase := AwaitBackward(s.phase.to, s.cache.tip.value, found.prev),
           outstanding := s.outstanding + [Backward(found.block)])
      else s.(phase := Idle)
    case DeleteBlock =>
      s.(phase := BlockDeleted(s.phase.to, s.phase.tip, s.phase.prev),
         cache := s.cache.(blocks := s.cache.blocks - {s.phase.tip}))
    case MoveTipBack => s.(phase := RollingBack(s.phase.to), cache := s.cache.(tip := Some(s.phase.prev)))
    case Crash => s.(crashed := true)
  }

  function Last(chain: seq<Block>): Block
    requires chain != []
  {
    chain[|chain| - 1]
  }

  function Popped(chain: seq<Block>): seq<Block> { if chain == [] then [] else chain[..|chain| - 1] }

  /** The recorded chain, what the consumer had when it was last in step with the flow, and the batch in flight,
      phase by phase. */
  ghost predicate Holds(s: Flow, ground: Point, chain: seq<Block>, told: seq<Block>) {
    match s.phase
    case Idle => OnChain(s.cache, ground, chain) && s.outstanding == [] && s.committed == told
    case RollingBack(_) => OnChain(s.cache, ground, chain) && s.outstanding == [] && s.committed == told
    case AwaitForward(b) =>
      && OnChain(s.cache, ground, chain) && PointOf(b) !in s.cache.blocks && PointOf(b) != ground
      && ((s.outstanding == [Forward(b)] && s.committed == told) ||
          (s.outstanding == [] && s.committed == told + [b]))
    case ForwardDone(b) =>
      && OnChain(s.cache, ground, chain) && PointOf(b) !in s.cache.blocks && PointOf(b) != ground
      && s.outstanding == [] && s.committed == told + [b]
    case TipMoved(b, prev) =>
      && Links(s.cache.blocks, prev, ground, chain) && PointOf(b) !in s.cache.blocks && PointOf(b) != ground
      && s.cache.tip == Some(PointOf(b)) && s.outstanding == [] && s.committed == told + [b]
    case AwaitBackward(_, tip, prev) =>
      && OnChain(s.cache, ground, chain) && chain != [] && s.cache.tip == Some(tip) && s.cache.blocks[tip].prev == prev
      && ((s.outstanding == [Backward(Last(chain))] && s.committed == told) ||
          (s.outstanding == [] && s.committed == Popped(told)))
    case BackwardDone(_, tip, prev) =>
      && OnChain(s.cache, ground, chain) && chain != [] && s.cache.tip == Some(tip) && s.cache.blocks[tip].prev == prev
      && s.outstanding == [] && s.committed == Popped(told)
    case BlockDeleted(_, tip, prev) =>
      && Links(s.cache.blocks, prev, ground, chain) && tip !in s.cache.blocks && tip != ground
      && s.cache.tip == Some(tip) && s.outstanding == [] && s.committed == told
      && tip in s.links && s.links[tip] == prev
  }

  ghost predicate LinksRecorded(s: Flow) {
    forall p :: p in s.cache.blocks ==> p in s.links && s.links[p] == s.cache.blocks[p].prev
  }

  ghost predicate Inv(s: Flow, ground: Point) {
    LinksRecorded(s) && exists chain :: Holds(s, ground, chain, chain)
  }

  /** A session starts on any linked cache, empty or left by an earlier session, with the consumer in step. */
  ghost predicate Initial(s: Flow, ground: Point) {
    s.phase.Idle? && !s.crashed && s.outstanding == [] && OnChain(s.cache, ground, s.committed) && LinksRecorded(s)
  }

  lemma ReceiveForwardHolds(s: Flow, ground: Point, b: Block, chain: seq<Block>, told: seq<Block>)
    requires Enabled(s, ground, ReceiveForward(b)) && Holds(s, ground, chain, told)
    ensures Holds(Next(s, ground, ReceiveForward(b)), ground, chain, told)
  {
  }

  /** Storing the block completes the link the moved tip announced. */
  lemma PutBlockHolds(s: Flow, ground: Point, chain: seq<Block>, told: seq<Block>)
    requires Enabled(s, ground, PutBlock) && Holds(s, ground, chain, told)
    ensures Holds(Next(s, ground, PutBlock), ground, chain + [s.phase.block], told + [s.phase.block])
  {
    var b := s.phase.block;
    var s' := Next(s, ground, PutBlock);
    assert s'.cache.blocks - {PointOf(b)} == s.cache.blocks;
    assert (chain + [b])[..|chain|] == chain;
  }

  lemma DeleteBlockHolds(s: Flow, ground: Point, chain: seq<Block>, told: seq<Block>)
    requires Enabled(s, ground, DeleteBlock) && Holds(s, ground, chain, told) && LinksRecorded(s)
    ensures Holds(Next(s, ground, DeleteBlock), ground, Popped(chain), Popped(told))
  {
  }

  lemma TopOfLoopHolds(s: Flow, ground: Point, chain: seq<Block>, told: seq<Block>)
    requires Enabled(s, ground, TopOfLoop) && Holds(s, ground, chain, told)
    ensures Holds(Next(s, ground, TopOfLoop), ground, chain, told)
  {
    if CanUndo(s.cache, s.phase.to) {
      assert chain != [];
      assert [] + [Backward(Last(chain))] == [Backward(Last(chain))];
    }
  }

  /** The recorded chain, or the consumer's, after a step. */
  ghost function ChainAfter(s: Flow, a: Action, chain: seq<Block>): seq<Block> {
    match a
    case PutBlock => if s.phase.TipMoved? then chain + [s.phase.block] else chain
    case DeleteBlock => Popped(chain)
    case _ => chain
  }

  lemma WaitingStepHolds(s: Flow, ground: Point, a: Action, chain: seq<Block>, told: seq<Block>)
    requires Enabled(s, ground, a) && Holds(s, ground, chain, told)
    requires a.ReceiveBackward? || a.Commit? || a.Acknowledge? || a.Crash?
    ensures Holds(Next(s, ground, a), ground, chain, told)
  {
  }

  lemma MoveTipHolds(s: Flow, ground: Point, a: Action, chain: seq<Block>, told: seq<Block>)
    requires Enabled(s, ground, a) && Holds(s, ground, chain, told) && (a.MoveTip? || a.MoveTipBack?)
    ensures Holds(Next(s, ground, a), ground, chain, told)
  {
  }

  lemma StepHolds(s: Flow, ground: Point, a: Action, chain: seq<Block>, told: seq<Block>)
    requires Enabled(s, ground, a) && Holds(s, ground, chain, told) && LinksRecorded(s)
    ensures Holds(Next(s, ground, a), ground, ChainAfter(s, a, chain), ChainAfter(s, a, told))
  {
    match a {
      case PutBlock => PutBlockHolds(s, ground, chain, told);
      case DeleteBlock => DeleteBlockHolds(s, ground, chain, told);
      case TopOfLoop => TopOfLoopHolds(s, ground, chain, told);
      case ReceiveForward(b) => ReceiveForwardHolds(s, ground, b, chain, told);
      case MoveTip => MoveTipHolds(s, ground, a, chain, told);
      case MoveTipBack => MoveTipHolds(s, ground, a, chain, told);
      case _ => WaitingStepHolds(s, ground, a, chain, told);
    }
  }

  lemma StepRecordsLinks(s: Flow, ground: Point, a: Action)
    requires Enabled(s, ground, a) && LinksRecorded(s)
    ensures LinksRecorded(Next(s, ground, a))
  {
  }

  /** Every step of the flow or of its consumer keeps the invariant. */
  lemma StepKeepsInv(s: Flow, ground: Point, a: Action)
    requires Enabled(s, ground, a) && Inv(s, ground)
    ensures Inv(Next(s, ground, a), ground)
  {
    var chain :| Holds(s, ground, chain, chain);
    StepHolds(s, ground, a, chain, chain);
    StepRecordsLinks(s, ground, a);
  }

  ghost predicate Steps(states: seq<Flow>, ground: Point, actions: seq<Action>) {
    && |states| == |actions| + 1
    && forall i :: 0 <= i < |actions| ==>
         Enabled(states[i], ground, actions[i]) && states[i + 1] == Next(states[i], ground, actions[i])
  }

  ghost predicate Trace(states: seq<Flow>, ground: Point, actions: seq<Action>) {
    Steps(states, ground, actions) && Initial(states[0], ground)
  }

  lemma {:induction false} TraceInv(states: seq<Flow>, ground: Point, actions: seq<Action>, n: nat)
    requires Trace(states, ground, actions) && n < |states|
    ensures Inv(states[n], ground)
  {
    if n == 0 {
      assert Holds(states[0], ground, states[0].committed, states[0].committed);
    } else {
      TraceInv(states, ground, actions, n - 1);
      StepKeepsInv(states[n - 1], ground, actions[n - 1]);
    }
  }

  // ---- what the invariant means ----

  function Head(s: Flow, ground: Point): Point { PointAt(ground, s.committed, |s.committed|) }

  /** The consumer's head is the recorded tip, a child of it, or its parent. */
  ghost predicate HeadNearTip(s: Flow, ground: Point) {
    var tip := TipPoint(s.cache);
    || Head(s, ground) == tip
    || (s.committed != [] && PointAt(ground, s.committed, |s.committed| - 1) == tip)
    || (tip in s.links && s.links[tip] == Head(s, ground))
  }

  lemma LinksTip(blocks: map<Point, LinkedBlock>, tip: Point, ground: Point, chain: seq<Block>)
    requires Links(blocks, tip, ground, chain)
    ensures tip == PointAt(ground, chain, |chain|)
    ensures chain != [] ==> blocks[tip].prev == PointAt(ground, chain, |chain| - 1)
  {
    if chain != [] { LinksAt(blocks, tip, ground, chain, |chain| - 1); }
  }

  /** In every reachable state, crashed or not, at most one batch is in flight and the consumer is at most one
      block away from the recorded tip. */
  lemma AlwaysNear(states: seq<Flow>, ground: Point, actions: seq<Action>, n: nat)
    requires Trace(states, ground, actions) && n < |states|
    ensures |states[n].outstanding| <= 1 && HeadNearTip(states[n], ground)
  {
    TraceInv(states, ground, actions, n);
    var s := states[n];
    var chain :| Holds(s, ground, chain, chain);
    match s.phase {
      case TipMoved(b, prev) => assert s.committed[|s.committed| - 1] == b;
      case BlockDeleted(_, tip, prev) => LinksTip(s.cache.blocks, prev, ground, chain);
      case AwaitForward(b) => PointAfter(ground, chain, b); LinksTip(s.cache.blocks, TipPoint(s.cache), ground, chain);
      case ForwardDone(b) => PointAfter(ground, chain, b); LinksTip(s.cache.blocks, TipPoint(s.cache), ground, chain);
      case AwaitBackward(_, _, _) =>
        PointBefore(ground, chain);
        LinksTip(s.cache.blocks, TipPoint(s.cache), ground, chain);
      case BackwardDone(_, _, _) =>
        PointBefore(ground, chain);
        LinksTip(s.cache.blocks, TipPoint(s.cache), ground, chain);
      case _ => LinksTip(s.cache.blocks, TipPoint(s.cache), ground, chain);
    }
  }

  lemma PointAfter(ground: Point, chain: seq<Block>, b: Block)
    ensures PointAt(ground, chain + [b], |chain|) == PointAt(ground, chain, |chain|)
  {
  }

  lemma PointBefore(ground: Point, chain: seq<Block>)
    requires chain != []
    ensures PointAt(ground, chain[..|chain| - 1], |chain| - 1) == PointAt(ground, chain, |chain| - 1)
  {
  }

  /** A stopped flow can resume: the cache still holds a linked chain below its tip. */
  ghost predicate Resumable(s: Flow, ground: Point) {
    exists chain :: OnChain(s.cache, ground, chain)
  }

  /** A crash leaves the cache linked exactly when it does not fall between moving the tip and storing its
      block, or between deleting a block and moving the tip back. */
  lemma ResumableIff(states: seq<Flow>, ground: Point, actions: seq<Action>, n: nat)
    requires Trace(states, ground, actions) && n < |states|
    ensures Resumable(states[n], ground) <==> !states[n].phase.TipMoved? && !states[n].phase.BlockDeleted?
  {
    TraceInv(states, ground, actions, n);
    var s := states[n];
    var chain :| Holds(s, ground, chain, chain);
    if s.phase.TipMoved? || s.phase.BlockDeleted? {
      forall other ensures !OnChain(s.cache, ground, other) {
      }
    } else {
      assert OnChain(s.cache, ground, chain);
    }
  }

  /** After a crash in one of those two windows no rollback undoes anything any more, though the consumer holds
      whatever it has committed. */
  lemma LostLinkStopsRollback(states: seq<Flow>, ground: Point, actions: seq<Action>, n: nat, to: Point)
    requires Trace(states, ground, actions) && n < |states| && !Resumable(states[n], ground)
    ensures Rollback(states[n].cache, to) == (states[n].cache, [])
  {
    ResumableIff(states, ground, actions, n);
    TraceInv(states, ground, actions, n);
    var chain :| Holds(states[n], ground, chain, chain);
  }

  /** In any other state a rollback to a recorded point undoes exactly the blocks above it, and what the consumer
      has committed is what the cache records, give or take the one block in flight. */
  lemma ResumedRollback(states: seq<Flow>, ground: Point, actions: seq<Action>, n: nat) returns (chain: seq<Block>)
    requires Trace(states, ground, actions) && n < |states| && Resumable(states[n], ground)
    ensures OnChain(states[n].cache, ground, chain)
    ensures var done := states[n].committed;
            || done == chain
            || (done != [] && done[..|done| - 1] == chain)
            || (chain != [] && chain[..|chain| - 1] == done)
    ensures forall k :: 0 <= k <= |chain| ==>
              Rollback(states[n].cache, PointAt(ground, chain, k)).1 == Reverse(chain[k..])
  {
    ResumableIff(states, ground, actions, n);
    TraceInv(states, ground, actions, n);
    chain :| Holds(states[n], ground, chain, chain);
    var done := states[n].committed;
    if done != chain && |done| > |chain| { assert done[..|done| - 1] == chain; }
    forall k | 0 <= k <= |chain| ensures Rollback(states[n].cache, PointAt(ground, chain, k)).1 == Reverse(chain[k..]) {
      RollbackToPoint(states[n].cache, ground, chain, k);
    }
  }

  // ---- a rollback of the flow, from the node's request to the end of its loop ----

  /** The batches handed over between two states: one per growth of the queue. */
  function SentOver(states: seq<Flow>): seq<Batch> {
    if |states| < 2 then []
    else
      var n := |states| - 1;
      var before, after := states[n - 1].outstanding, states[n].outstanding;
      SentOver(states[..n]) + if |after| > |before| then [after[|after| - 1]] else []
  }

  /** Undo requests for these blocks, newest first. */
  function Backwards(blocks: seq<Block>): (r: seq<Batch>)
    ensures |r| == |blocks| && forall i :: 0 <= i < |r| ==> r[i] == Backward(blocks[|blocks| - 1 - i])
  {
    seq(|blocks|, i requires 0 <= i < |blocks| => Backward(blocks[|blocks| - 1 - i]))
  }

  /** A run that starts with the node's request and receives nothing after it. */
  ghost predicate RollbackRun(states: seq<Flow>, ground: Point, actions: seq<Action>, to: Point) {
    && Steps(states, ground, actions) && actions != [] && actions[0] == ReceiveBackward(to)
    && forall i :: 1 <= i < |actions| ==> !actions[i].ReceiveForward? && !actions[i].ReceiveBackward?
  }

  /** Some blocks are off the record already, none at or below the target; what was sent are their undos, and in
      two phases that of one more block. */
  ghost predicate Midway(s: Flow, ground: Point, start: seq<Block>, to: Point, left: seq<Block>, sent: seq<Batch>) {
    && Holds(s, ground, left, left) && left <= start && UpTo(left, to) == UpTo(start, to)
    && match s.phase
       case RollingBack(p) => p == to && sent == Backwards(start[|left|..])
       case AwaitBackward(p, _, _) => p == to && PendingBlock(start, to, left, sent)
       case BackwardDone(p, _, _) => p == to && PendingBlock(start, to, left, sent)
       case BlockDeleted(p, _, _) => p == to && sent == Backwards(start[|left|..])
       case Idle => left == UpTo(start, to) && sent == Backwards(start[|left|..])
       case _ => false
  }

  ghost predicate PendingBlock(start: seq<Block>, to: Point, left: seq<Block>, sent: seq<Batch>) {
    && left != [] && left <= start && PointOf(Last(left)) != to
    && sent == Backwards(start[|left| - 1..])
  }

  lemma BackwardsMore(start: seq<Block>, left: seq<Block>)
    requires left != [] && left <= start
    ensures Backwards(start[|left| - 1..]) == Backwards(start[|left|..]) + [Backward(Last(left))]
  {
    var n := |left| - 1;
    assert start[n..] == [left[n]] + start[n + 1..];
  }

  /** At the top of the loop either the target is reached and the loop ends, or the next undo is sent. */
  lemma TopMidway(s: Flow, ground: Point, start: seq<Block>, to: Point, left: seq<Block>, sent: seq<Batch>)
    requires Enabled(s, ground, TopOfLoop) && Midway(s, ground, start, to, left, sent)
    ensures var s' := Next(s, ground, TopOfLoop);
            Midway(s', ground, start, to, left,
                   if |s'.outstanding| > 0 then sent + [s'.outstanding[|s'.outstanding| - 1]] else sent)
  {
    TopOfLoopHolds(s, ground, left, left);
    if CanUndo(s.cache, to) {
      BackwardsMore(start, left);
    }
  }

  lemma DeleteMidway(s: Flow, ground: Point, start: seq<Block>, to: Point, left: seq<Block>, sent: seq<Batch>)
    requires Enabled(s, ground, DeleteBlock) && LinksRecorded(s) && Midway(s, ground, start, to, left, sent)
    ensures Midway(Next(s, ground, DeleteBlock), ground, start, to, Popped(left), sent)
  {
    DeleteBlockHolds(s, ground, left, left);
  }

  lemma OtherMidway(s: Flow, ground: Point, a: Action, start: seq<Block>, to: Point, left: seq<Block>, sent: seq<Batch>)
    requires Enabled(s, ground, a) && LinksRecorded(s) && Midway(s, ground, start, to, left, sent)
    requires a.Commit? || a.Acknowledge? || a.MoveTipBack? || a.Crash?
    ensures Midway(Next(s, ground, a), ground, start, to, left, sent)
    ensures |Next(s, ground, a).outstanding| <= |s.outstanding|
  {
    StepHolds(s, ground, a, left, left);
  }

  lemma MidwayStep(s: Flow, ground: Point, a: Action, start: seq<Block>, to: Point, left: seq<Block>, sent: seq<Batch>)
    returns (left': seq<Block>)
    requires Enabled(s, ground, a) && LinksRecorded(s) && Midway(s, ground, start, to, left, sent)
    requires !a.ReceiveForward? && !a.ReceiveBackward?
    ensures var s' := Next(s, ground, a);
            Midway(s', ground, start, to, left',
                   if |s'.outstanding| > |s.outstanding| then sent + [s'.outstanding[|s'.outstanding| - 1]] else sent)
  {
    left' := if a.DeleteBlock? then Popped(left) else left;
    match a {
      case TopOfLoop => TopMidway(s, ground, start, to, left, sent);
      case DeleteBlock => DeleteMidway(s, ground, start, to, left, sent);
      case Commit => OtherMidway(s, ground, a, start, to, left, sent);
      case Acknowledge => OtherMidway(s, ground, a, start, to, left, sent);
      case MoveTipBack => OtherMidway(s, ground, a, start, to, left, sent);
      case Crash => OtherMidway(s, ground, a, start, to, left, sent);
      case _ =>
    }
  }

  lemma {:induction false} RollbackMidway(states: seq<Flow>, ground: Point, actions: seq<Action>, to: Point, n: nat)
    returns (left: seq<Block>)
    requires RollbackRun(states, ground, actions, to) && Initial(states[0], ground) && 1 <= n < |states|
    ensures LinksRecorded(states[n])
    ensures Midway(states[n], ground, states[0].committed, to, left, SentOver(states[..n + 1]))
  {
    var start := states[0].committed;
    assert states[..n + 1][..n] == states[..n];
    StepRecordsLinks(states[0], ground, actions[0]);
    if n == 1 {
      left := start;
      assert start[|start|..] == [];
    } else {
      var before := RollbackMidway(states, ground, actions, to, n - 1);
      StepRecordsLinks(states[n - 1], ground, actions[n - 1]);
      left := MidwayStep(states[n - 1], ground, actions[n - 1], start, to, before, SentOver(states[..n]));
    }
  }

  /** Whatever the target, when the flow is idle again after the node's request, record and consumer are the chain
      up to the target, or nothing if the target is not on it, and the batches handed over were the undos of
      exactly the blocks above it, newest first, one by one. */
  lemma RollbackEndsAtTarget(states: seq<Flow>, ground: Point, actions: seq<Action>, to: Point)
    requires RollbackRun(states, ground, actions, to) && Initial(states[0], ground)
    requires states[|actions|].phase.Idle?
    ensures var start, last := states[0].committed, states[|actions|];
            && OnChain(last.cache, ground, UpTo(start, to)) && last.committed == UpTo(start, to)
            && SentOver(states) == Backwards(start[|UpTo(start, to)|..])
  {
    var left := RollbackMidway(states, ground, actions, to, |actions|);
    assert states[..|actions| + 1] == states;
  }

  /** For a point of the recorded chain that is the chain's first `k` blocks. */
  lemma RollbackEndsAtPoint(states: seq<Flow>, ground: Point, actions: seq<Action>, k: nat)
    requires Steps(states, ground, actions) && Initial(states[0], ground) && k <= |states[0].committed|
    requires RollbackRun(states, ground, actions, PointAt(ground, states[0].committed, k))
    requires states[|actions|].phase.Idle?
    ensures var start, last := states[0].committed, states[|actions|];
            && OnChain(last.cache, ground, start[..k]) && last.committed == start[..k]
            && SentOver(states) == Backwards(start[k..])
  {
    var start := states[0].committed;
    RollbackEndsAtTarget(states, ground, actions, PointAt(ground, start, k));
    UpToPoint(states[0].cache.blocks, TipPoint(states[0].cache), ground, start, k);
  }

  // ---- the crash windows are reachable ----

  /** Any new block can be lost in the first window, whatever is recorded below it. */
  lemma CrashBeforeBlockStored(s: Flow, ground: Point, b: Block) returns (states: seq<Flow>)
    requires Initial(s, ground) && PointOf(b) !in s.cache.blocks && PointOf(b) != ground
    ensures Trace(states, ground, [ReceiveForward(b), Commit, Acknowledge, MoveTip, Crash]) && states[0] == s
    ensures states[5].phase.TipMoved? && states[5].crashed && !Resumable(states[5], ground)
  {
    var actions := [ReceiveForward(b), Commit, Acknowledge, MoveTip, Crash];
    var s1 := Next(s, ground, actions[0]);
    var s2 := Next(s1, ground, actions[1]);
    var s3 := Next(s2, ground, actions[2]);
    var s4 := Next(s3, ground, actions[3]);
    states := [s, s1, s2, s3, s4, Next(s4, ground, actions[4])];
    ResumableIff(states, ground, actions, 5);
  }

  /** Any rollback of a recorded block can be interrupted in the second. */
  lemma CrashBeforeTipMovedBack(s: Flow, ground: Point, to: Point) returns (states: seq<Flow>)
    requires Initial(s, ground) && CanUndo(s.cache, to)
    ensures Trace(states, ground, [ReceiveBackward(to), TopOfLoop, Commit, Acknowledge, DeleteBlock, Crash])
    ensures states[0] == s && states[6].phase.BlockDeleted? && states[6].crashed && !Resumable(states[6], ground)
  {
    var actions := [ReceiveBackward(to), TopOfLoop, Commit, Acknowledge, DeleteBlock, Crash];
    var s1 := Next(s, ground, actions[0]);
    var s2 := Next(s1, ground, actions[1]);
    var s3 := Next(s2, ground, actions[2]);
    var s4 := Next(s3, ground, actions[3]);
    var s5 := Next(s4, ground, actions[4]);
    states := [s, s1, s2, s3, s4, s5, Next(s5, ground, actions[5])];
    ResumableIff(states, ground, actions, 6);
  }

  // ---- consumers that are not in step: one session ----

  function PoppedBy(chain: seq<Block>, d: nat): seq<Block> { if d <= |chain| then chain[..|chain| - d] else [] }

  /** Both chains have lost the same number of blocks since and gained the same ones. */
  ghost predicate Lockstep(r0: seq<Block>, c0: seq<Block>, chain: seq<Block>, told: seq<Block>) {
    exists d: nat, f :: Locked(r0, c0, chain, told, d, f)
  }

  ghost predicate Locked(r0: seq<Block>, c0: seq<Block>, chain: seq<Block>, told: seq<Block>, d: nat, f: seq<Block>) {
    d <= |r0| && chain == PoppedBy(r0, d) + f && told == PoppedBy(c0, d) + f
  }

  lemma LockedExtends(r0: seq<Block>, c0: seq<Block>, chain: seq<Block>, told: seq<Block>, d: nat, f: seq<Block>,
                      b: Block)
    requires Locked(r0, c0, chain, told, d, f)
    ensures Locked(r0, c0, chain + [b], told + [b], d, f + [b])
  {
  }

  lemma LockedPops(r0: seq<Block>, c0: seq<Block>, chain: seq<Block>, told: seq<Block>, d: nat, f: seq<Block>)
    requires Locked(r0, c0, chain, told, d, f) && chain != []
    ensures Lockstep(r0, c0, Popped(chain), Popped(told))
  {
    if f != [] {
      assert Locked(r0, c0, Popped(chain), Popped(told), d, f[..|f| - 1]);
    } else {
      assert Locked(r0, c0, Popped(chain), Popped(told), d + 1, []);
    }
  }

  lemma StepLocked(s: Flow, ground: Point, a: Action, r0: seq<Block>, c0: seq<Block>, chain: seq<Block>,
                   told: seq<Block>)
    requires Enabled(s, ground, a) && Holds(s, ground, chain, told) && Lockstep(r0, c0, chain, told)
    ensures Lockstep(r0, c0, ChainAfter(s, a, chain), ChainAfter(s, a, told))
  {
    var d: nat, f :| Locked(r0, c0, chain, told, d, f);
    match a {
      case PutBlock => LockedExtends(r0, c0, chain, told, d, f, s.phase.block);
      case DeleteBlock => LockedPops(r0, c0, chain, told, d, f);
      case _ =>
    }
  }

  ghost predicate HoldsFrom(s: Flow, ground: Point, r0: seq<Block>, c0: seq<Block>) {
    LinksRecorded(s) && exists chain, told :: Holds(s, ground, chain, told) && Lockstep(r0, c0, chain, told)
  }

  /** A session that starts with any recorded chain and any consumer, in step or not, moves both alike: at every
      step the record is the initial one with some blocks taken off and others put on, and the consumer, up to the
      batch in flight, is its own initial chain with as many taken off and the same ones put on. */
  lemma {:induction false} SessionKeepsDrift(states: seq<Flow>, ground: Point, actions: seq<Action>, n: nat,
                                             r0: seq<Block>, c0: seq<Block>)
    requires Steps(states, ground, actions) && n < |states| && LinksRecorded(states[0])
    requires states[0].phase.Idle? && states[0].outstanding == []
    requires OnChain(states[0].cache, ground, r0) && states[0].committed == c0
    ensures HoldsFrom(states[n], ground, r0, c0)
  {
    if n == 0 {
      assert Locked(r0, c0, r0, c0, 0, []);
      assert Holds(states[0], ground, r0, c0);
    } else {
      SessionKeepsDrift(states, ground, actions, n - 1, r0, c0);
      var s, a := states[n - 1], actions[n - 1];
      var chain, told :| Holds(s, ground, chain, told) && Lockstep(r0, c0, chain, told);
      StepHolds(s, ground, a, chain, told);
      StepRecordsLinks(s, ground, a);
      StepLocked(s, ground, a, r0, c0, chain, told);
    }
  }

  // ---- many sessions ----

  /** A new session over the same cache and consumer. */
  function Restarted(s: Flow): Flow { s.(phase := Idle, outstanding := [], crashed := false) }

  /** A step of the flow or its consumer, or a restart after a crash that left the cache linked. */
  ghost predicate Moves(s: Flow, ground: Point, step: Option<Action>, s': Flow) {
    match step
    case Some(a) => Enabled(s, ground, a) && s' == Next(s, ground, a)
    case None => s.crashed && !s.phase.TipMoved? && !s.phase.BlockDeleted? && s' == Restarted(s)
  }

  ghost predicate Sessions(states: seq<Flow>, ground: Point, steps: seq<Option<Action>>) {
    && |states| == |steps| + 1 && Initial(states[0], ground)
    && forall i :: 0 <= i < |steps| ==> Moves(states[i], ground, steps[i], states[i + 1])
  }

  function Restarts(steps: seq<Option<Action>>): nat {
    if steps == [] then 0 else Restarts(steps[..|steps| - 1]) + if steps[|steps| - 1].None? then 1 else 0
  }

  function Drift(told: seq<Block>, chain: seq<Block>): nat {
    if |told| < |chain| then |chain| - |told| else |told| - |chain|
  }

  ghost predicate Drifted(s: Flow, ground: Point, bound: nat) {
    LinksRecorded(s) && exists chain, told :: Holds(s, ground, chain, told) && Drift(told, chain) <= bound
  }

  lemma MoveDrifts(s: Flow, ground: Point, step: Option<Action>, s': Flow, bound: nat)
    requires Moves(s, ground, step, s') && Drifted(s, ground, bound)
    ensures Drifted(s', ground, if step.None? then bound + 1 else bound)
  {
    var chain, told :| Holds(s, ground, chain, told) && Drift(told, chain) <= bound;
    match step
    case Some(a) =>
      StepHolds(s, ground, a, chain, told);
      StepRecordsLinks(s, ground, a);
      assert Drift(ChainAfter(s, a, told), ChainAfter(s, a, chain)) <= bound;
    case None =>
      assert Holds(s', ground, chain, s.committed);
      assert Drift(s.committed, chain) <= bound + 1;
  }

  lemma {:induction false} SessionsDrift(states: seq<Flow>, ground: Point, steps: seq<Option<Action>>, n: nat)
    requires Sessions(states, ground, steps) && n < |states|
    ensures Drifted(states[n], ground, Restarts(steps[..n]))
  {
    if n == 0 {
      assert Holds(states[0], ground, states[0].committed, states[0].committed);
    } else {
      SessionsDrift(states, ground, steps, n - 1);
      MoveDrifts(states[n - 1], ground, steps[n - 1], states[n], Restarts(steps[..n - 1]));
      assert steps[..n][..n - 1] == steps[..n - 1];
    }
  }

  /** Over any number of sessions, crashes and restarts: at most one batch is outstanding, and the consumer is away
      from the record by at most one block per restart and one for the batch in flight. */
  lemma DriftBounded(states: seq<Flow>, ground: Point, steps: seq<Option<Action>>, n: nat) returns (chain: seq<Block>)
    requires Sessions(states, ground, steps) && n < |states|
    ensures |states[n].outstanding| <= 1
    ensures Drift(states[n].committed, chain) <= Restarts(steps[..n]) + 1
    ensures !states[n].phase.TipMoved? && !states[n].phase.BlockDeleted? ==> OnChain(states[n].cache, ground, chain)
  {
    SessionsDrift(states, ground, steps, n);
    var told;
    chain, told :| Holds(states[n], ground, chain, told) && Drift(told, chain) <= Restarts(steps[..n]);
  }

  /** One block taken all the way from the node into the cache. */
  function Delivered(s: Flow, ground: Point, b: Block): Flow
    requires Enabled(s, ground, ReceiveForward(b)) && s.outstanding == []
  {
    var sent := Next(s, ground, ReceiveForward(b));
    Next(Next(Next(Next(sent, ground, Commit), ground, Acknowledge), ground, MoveTip), ground, PutBlock)
  }

  /** The next block extends the record and is handed to the consumer, whatever the consumer has, so the two agree
      afterwards exactly if they agreed before. */
  lemma DeliveryKeepsDrift(s: Flow, ground: Point, chain: seq<Block>, b: Block)
    requires Enabled(s, ground, ReceiveForward(b)) && s.outstanding == [] && OnChain(s.cache, ground, chain)
    ensures var s' := Delivered(s, ground, b);
            && s'.phase.Idle? && s'.outstanding == [] && OnChain(s'.cache, ground, chain + [b])
            && s'.committed == s.committed + [b] && (s'.committed == chain + [b] <==> s.committed == chain)
  {
    var s' := Delivered(s, ground, b);
    CacheBlockExtends(s.cache, ground, chain, b);
    assert s'.cache == CacheBlock(s.cache, b);
    assert (s.committed + [b])[..|s.committed|] == s.committed && (chain + [b])[..|chain|] == chain;
  }

  lemma CrashAfterCommit(s: Flow, ground: Point, b: Block) returns (s1: Flow, s2: Flow, s3: Flow, s4: Flow)
    requires Initial(s, ground) && PointOf(b) !in s.cache.blocks && PointOf(b) != ground
    ensures Moves(s, ground, Some(ReceiveForward(b)), s1) && Moves(s1, ground, Some(Commit), s2)
    ensures Moves(s2, ground, Some(Acknowledge), s3) && Moves(s3, ground, Some(Crash), s4)
    ensures s4.crashed && s4.phase.ForwardDone? && s4.cache == s.cache && s4.committed == s.committed + [b]
  {
    s1 := Next(s, ground, ReceiveForward(b));
    s2 := Next(s1, ground, Commit);
    s3 := Next(s2, ground, Acknowledge);
    s4 := Next(s3, ground, Crash);
  }

  lemma DeliverySteps(s: Flow, ground: Point, b: Block) returns (s1: Flow, s2: Flow, s3: Flow, s4: Flow)
    requires Enabled(s, ground, ReceiveForward(b)) && s.outstanding == []
    ensures Moves(s, ground, Some(ReceiveForward(b)), s1) && Moves(s1, ground, Some(Commit), s2)
    ensures Moves(s2, ground, Some(Acknowledge), s3) && Moves(s3, ground, Some(MoveTip), s4)
    ensures Moves(s4, ground, Some(PutBlock), Delivered(s, ground, b))
  {
    s1 := Next(s, ground, ReceiveForward(b));
    s2 := Next(s1, ground, Commit);
    s3 := Next(s2, ground, Acknowledge);
    s4 := Next(s3, ground, MoveTip);
  }

  /** The steps of a block that is committed, lost to the record by a crash, and delivered again. */
  function Redelivery(b: Block): seq<Option<Action>> {
    [Some(ReceiveForward(b)), Some(Commit), Some(Acknowledge), Some(Crash), None,
     Some(ReceiveForward(b)), Some(Commit), Some(Acknowledge), Some(MoveTip), Some(PutBlock)]
  }

  /** A crash after the consumer committed a block and before the record did: the node sends the block again, and
      the consumer has it twice while the record has it once. */
  lemma BlockCommittedTwice(s: Flow, ground: Point, b: Block) returns (states: seq<Flow>)
    requires Initial(s, ground) && PointOf(b) !in s.cache.blocks && PointOf(b) != ground
    ensures Sessions(states, ground, Redelivery(b)) && states[0] == s
    ensures states[10].phase.Idle? && OnChain(states[10].cache, ground, s.committed + [b])
    ensures states[10].committed == s.committed + [b, b]
  {
    var s1, s2, s3, s4 := CrashAfterCommit(s, ground, b);
    var s5 := Restarted(s4);
    assert Moves(s4, ground, None, s5);
    var s6, s7, s8, s9 := DeliverySteps(s5, ground, b);
    var s10 := Delivered(s5, ground, b);
    DeliveryKeepsDrift(s5, ground, s.committed, b);
    states := [s, s1, s2, s3, s4, s5, s6, s7, s8, s9, s10];
    assert s.committed + [b] + [b] == s.committed + [b, b];
  }
}
