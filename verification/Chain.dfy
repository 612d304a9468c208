/** Blocks, chain points and the ledger cache as a value: linking, rollback and ordered replay. */
module Chain {
  import opened Options
  import opened Bytes
  import opened Lists
  import opened Scans
  import opened Keys
  import opened Ledger

  datatype Point = Origin | Specific(slot: u64, hash: Hash32) {
    function Slot(): u64 { if Origin? then 0 else slot }
  }

  datatype Era = Babbage | Conway | OtherEra

  /** A decoded block. `invalid` holds the 16-bit positions of the transactions that failed validation. */
  datatype Block = Block(era: Era, slot: u64, number: u64, hash: Hash32, bodies: seq<Tx>, invalid: set<int>)

  function PointOf(b: Block): Point { Specific(b.slot, b.hash) }

  function ValidFrom(bodies: seq<Tx>, invalid: set<int>): seq<Tx> {
    if bodies == [] then []
    else
      var n := |bodies| - 1;
      ValidFrom(bodies[..n], invalid) + if n % 0x1_0000 in invalid then [] else [bodies[n]]
  }

  /** The transactions a block contributes: those not marked invalid, of the two supported eras. */
  function ValidTxs(b: Block): seq<Tx> {
    if b.era.OtherEra? then [] else ValidFrom(b.bodies, b.invalid)
  }

  /** Exactly the transactions at positions whose low 16 bits are not listed as invalid; for a block of at most
      65536 transactions these are the positions themselves. */
  lemma {:induction false} ValidFromMembers(bodies: seq<Tx>, invalid: set<int>, tx: Tx)
    ensures tx in ValidFrom(bodies, invalid) <==> exists i :: IsValidAt(bodies, invalid, tx, i)
  {
    if bodies != [] {
      var n := |bodies| - 1;
      ValidFromMembers(bodies[..n], invalid, tx);
      if i :| IsValidAt(bodies[..n], invalid, tx, i) { assert IsValidAt(bodies, invalid, tx, i); }
      if i :| IsValidAt(bodies, invalid, tx, i) {
        if i < n { assert IsValidAt(bodies[..n], invalid, tx, i); }
      }
      if n % 0x1_0000 !in invalid && bodies[n] == tx { assert IsValidAt(bodies, invalid, tx, n); }
    }
  }

  ghost predicate IsValidAt(bodies: seq<Tx>, invalid: set<int>, tx: Tx, i: int) {
    0 <= i < |bodies| && bodies[i] == tx && i % 0x1_0000 !in invalid
  }

  /** The positions of the transactions a block contributes, in block order. */
  ghost predicate ValidPositions(ps: seq<nat>, bodies: seq<Tx>, invalid: set<int>) {
    && (forall i, j :: 0 <= i < j < |ps| ==> ps[i] < ps[j])
    && (forall k :: 0 <= k < |ps| ==> ps[k] < |bodies| && ps[k] % 0x1_0000 !in invalid)
    && (forall p :: 0 <= p < |bodies| && p % 0x1_0000 !in invalid ==> p in ps)
  }

  lemma {:induction false} ValidFromPositions(bodies: seq<Tx>, invalid: set<int>) returns (ps: seq<nat>)
    ensures ValidPositions(ps, bodies, invalid) && |ValidFrom(bodies, invalid)| == |ps|
    ensures forall k :: 0 <= k < |ps| ==> ValidFrom(bodies, invalid)[k] == bodies[ps[k]]
  {
    if bodies == [] {
      ps := [];
    } else {
      var n := |bodies| - 1;
      var low := ValidFromPositions(bodies[..n], invalid);
      ps := if n % 0x1_0000 in invalid then low else low + [n];
      forall p | 0 <= p < |bodies| && p % 0x1_0000 !in invalid ensures p in ps {
        if p < n { assert p in low; } else { assert ps[|low|] == n; }
      }
    }
  }

  datatype LinkedBlock = LinkedBlock(block: Block, prev: Point)

  datatype Cache = Cache(tip: Option<Point>, blocks: map<Point, LinkedBlock>)

  const EMPTY_CACHE := Cache(None, map[])

  function TipPoint(c: Cache): Point { if c.tip.Some? then c.tip.value else Origin }

  function CacheBlock(c: Cache, b: Block): Cache {
    Cache(Some(PointOf(b)), c.blocks[PointOf(b) := LinkedBlock(b, TipPoint(c))])
  }

  function CachePoint(c: Cache, b: Block): Cache { c.(tip := Some(PointOf(b))) }

  predicate CanUndo(c: Cache, to: Point) {
    c.tip.Some? && c.tip.value != to && c.tip.value in c.blocks
  }

  function Undo(c: Cache): Cache
    requires c.tip.Some? && c.tip.value in c.blocks
  {
    Cache(Some(c.blocks[c.tip.value].prev), c.blocks - {c.tip.value})
  }

  /** Undo cached blocks from the tip down until the tip is `to` or is not cached. */
  function Rollback(c: Cache, to: Point): (Cache, seq<Block>)
    decreases |c.blocks|
  {
    if !CanUndo(c, to) then (c, [])
    else
      var b := c.blocks[c.tip.value].block;
      RemoveShrinks(c.blocks, c.tip.value);
      var (rest, undone) := Rollback(Undo(c), to);
      (rest, [b] + undone)
  }

  lemma RemoveShrinks(m: map<Point, LinkedBlock>, p: Point)
    requires p in m
    ensures |m - {p}| == |m| - 1
  {
    assert (m - {p}).Keys == m.Keys - {p};
  }

  /** On every cache, linked or not, a rollback deletes one block per block it undoes and stops only where it
      cannot go on. */
  lemma {:induction false} RollbackStops(c: Cache, to: Point)
    ensures var (c', undone) := Rollback(c, to);
            |c'.blocks| + |undone| == |c.blocks| && !CanUndo(c', to)
    decreases |c.blocks|
  {
    if CanUndo(c, to) {
      RemoveShrinks(c.blocks, c.tip.value);
      RollbackStops(Undo(c), to);
    }
  }

  // ---- the cache as a chain ----

  function PointAt(ground: Point, chain: seq<Block>, k: nat): Point
    requires k <= |chain|
  {
    if k == 0 then ground else PointOf(chain[k - 1])
  }

  /** These blocks, each linked to the one before and the first to the ground point, are all that is cached. */
  ghost predicate Links(blocks: map<Point, LinkedBlock>, tip: Point, ground: Point, chain: seq<Block>) {
    if chain == [] then blocks == map[] && tip == ground
    else
      var n := |chain| - 1;
      && tip == PointOf(chain[n]) && tip != ground
      && tip in blocks && blocks[tip].block == chain[n]
      && Links(blocks - {tip}, blocks[tip].prev, ground, chain[..n])
  }

  ghost predicate OnChain(c: Cache, ground: Point, chain: seq<Block>) {
    Links(c.blocks, TipPoint(c), ground, chain) && (chain != [] ==> c.tip.Some?)
  }

  lemma {:induction false} LinksAt(blocks: map<Point, LinkedBlock>, tip: Point, ground: Point, chain: seq<Block>,
                                   i: nat)
    requires Links(blocks, tip, ground, chain) && i < |chain|
    ensures PointOf(chain[i]) in blocks && PointOf(chain[i]) != ground
    ensures blocks[PointOf(chain[i])] == LinkedBlock(chain[i], PointAt(ground, chain, i))
  {
    var n := |chain| - 1;
    if i < n {
      LinksAt(blocks - {tip}, blocks[tip].prev, ground, chain[..n], i);
      assert PointAt(ground, chain[..n], i) == PointAt(ground, chain, i);
    } else if n > 0 {
      assert chain[..n][n - 1] == chain[n - 1];
    }
  }

  lemma {:induction false} LinksOnly(blocks: map<Point, LinkedBlock>, tip: Point, ground: Point, chain: seq<Block>,
                                     p: Point)
    returns (i: nat)
    requires Links(blocks, tip, ground, chain) && p in blocks
    ensures i < |chain| && PointOf(chain[i]) == p
  {
    var n := |chain| - 1;
    if p == tip {
      i := n;
    } else {
      i := LinksOnly(blocks - {tip}, blocks[tip].prev, ground, chain[..n], p);
    }
  }

  /** Caching a block whose point is new extends the chain. */
  lemma CacheBlockExtends(c: Cache, ground: Point, chain: seq<Block>, b: Block)
    requires OnChain(c, ground, chain) && PointOf(b) !in c.blocks && PointOf(b) != ground
    ensures OnChain(CacheBlock(c, b), ground, chain + [b])
  {
    var c' := CacheBlock(c, b);
    assert c'.blocks - {PointOf(b)} == c.blocks;
    assert (chain + [b])[..|chain|] == chain;
  }

  /** While nothing is cached, a block below the rollback threshold only moves the ground. */
  lemma CachePointMoves(c: Cache, ground: Point, b: Block)
    requires OnChain(c, ground, [])
    ensures OnChain(CachePoint(c, b), PointOf(b), [])
  {
  }

  function Reverse(s: seq<Block>): (r: seq<Block>)
    ensures |r| == |s|
  {
    if s == [] then [] else [s[|s| - 1]] + Reverse(s[..|s| - 1])
  }

  lemma {:induction false} ReverseAt(s: seq<Block>, i: nat)
    requires i < |s|
    ensures Reverse(s)[i] == s[|s| - 1 - i]
  {
    if i > 0 { ReverseAt(s[..|s| - 1], i - 1); }
  }

  lemma {:induction false} RollbackReverses(c: Cache, ground: Point, chain: seq<Block>, k: nat)
    requires OnChain(c, ground, chain) && k <= |chain|
    ensures var (c', undone) := Rollback(c, PointAt(ground, chain, k));
            undone == Reverse(chain[k..]) && OnChain(c', ground, chain[..k])
    decreases |chain|
  {
    var to := PointAt(ground, chain, k);
    if k == |chain| {
      assert chain[..k] == chain;
    } else {
      var n := |chain| - 1;
      assert TipPoint(c) != to by {
        if k > 0 {
          LinksAt(c.blocks - {TipPoint(c)}, c.blocks[TipPoint(c)].prev, ground, chain[..n], k - 1);
        }
      }
      RollbackReverses(Undo(c), ground, chain[..n], k);
      assert chain[..n][..k] == chain[..k] && chain[k..][..n - k] == chain[..n][k..];
    }
  }

  /** Rolling back to a point of the chain undoes exactly the blocks after it, newest first, deletes exactly
      those and leaves the tip there. */
  lemma RollbackToPoint(c: Cache, ground: Point, chain: seq<Block>, k: nat)
    requires OnChain(c, ground, chain) && k <= |chain|
    ensures var (c', undone) := Rollback(c, PointAt(ground, chain, k));
            && undone == Reverse(chain[k..]) && OnChain(c', ground, chain[..k])
            && |undone| == |chain| - k && forall i :: 0 <= i < |undone| ==> undone[i] == chain[|chain| - 1 - i]
  {
    RollbackReverses(c, ground, chain, k);
    forall i | 0 <= i < |chain| - k ensures Reverse(chain[k..])[i] == chain[|chain| - 1 - i] {
      ReverseAt(chain[k..], i);
    }
  }

  /** Rolling back to a point that is not on the chain undoes everything that is cached. */
  lemma {:induction false} RollbackOffChain(c: Cache, ground: Point, chain: seq<Block>, to: Point)
    requires OnChain(c, ground, chain) && to != ground && to !in c.blocks
    ensures var (c', undone) := Rollback(c, to);
            undone == Reverse(chain) && OnChain(c', ground, [])
    decreases |chain|
  {
    if chain != [] { RollbackOffChain(Undo(c), ground, chain[..|chain| - 1], to); }
  }

  /** The chain up to the block with this point; nothing if there is none. */
  function UpTo(chain: seq<Block>, p: Point): (r: seq<Block>)
    ensures r <= chain && (r != [] ==> PointOf(r[|r| - 1]) == p)
  {
    if chain == [] || PointOf(chain[|chain| - 1]) == p then chain else UpTo(chain[..|chain| - 1], p)
  }

  /** Up to one of its own points a linked chain is its first blocks. */
  lemma {:induction false} UpToPoint(blocks: map<Point, LinkedBlock>, tip: Point, ground: Point, chain: seq<Block>,
                                     k: nat)
    requires Links(blocks, tip, ground, chain) && k <= |chain|
    ensures UpTo(chain, PointAt(ground, chain, k)) == chain[..k]
  {
    if k == |chain| {
      assert chain[..k] == chain;
    } else {
      var n := |chain| - 1;
      assert tip != PointAt(ground, chain, k) by {
        if k > 0 { LinksAt(blocks - {tip}, blocks[tip].prev, ground, chain[..n], k - 1); }
      }
      UpToPoint(blocks - {tip}, blocks[tip].prev, ground, chain[..n], k);
      assert chain[..n][..k] == chain[..k];
    }
  }

  lemma ReverseSuffix(chain: seq<Block>, kept: nat)
    requires kept < |chain|
    ensures Reverse(chain[kept..]) == [chain[|chain| - 1]] + Reverse(chain[..|chain| - 1][kept..])
  {
    assert chain[kept..][..|chain| - kept - 1] == chain[..|chain| - 1][kept..];
  }

  /** Rolling back to any point at all undoes the blocks above it, or all of them if it is not on the chain. */
  lemma {:induction false} RollbackUpTo(c: Cache, ground: Point, chain: seq<Block>, p: Point)
    requires OnChain(c, ground, chain)
    ensures var (c', undone) := Rollback(c, p);
            undone == Reverse(chain[|UpTo(chain, p)|..]) && OnChain(c', ground, UpTo(chain, p))
    decreases |chain|
  {
    if chain != [] && PointOf(chain[|chain| - 1]) != p {
      RollbackUpTo(Undo(c), ground, chain[..|chain| - 1], p);
      ReverseSuffix(chain, |UpTo(chain, p)|);
    }
  }

  // ---- byte keys and replay ----

  const LATEST_POINT: seq<byte> := [97, 58]
  const POINT_PREFIX: seq<byte> := [98, 58]

  function PointKey(p: Point): seq<byte> {
    POINT_PREFIX + BigEndian(p.Slot(), 8) + (if p.Origin? then [] else p.hash)
  }

  /** The point a stored key was built from. */
  function PointOfKey(key: seq<byte>): Point {
    if |key| == 42 && FromBigEndian(key[2..10]) <= U64_MAX then Specific(FromBigEndian(key[2..10]), key[10..])
    else Origin
  }

  lemma PointKeyRoundTrip(p: Point)
    ensures PointOfKey(PointKey(p)) == p
  {
    var key := PointKey(p);
    Pow256Of8();
    BigEndianRoundTrip(p.Slot(), 8);
    assert key[2..10] == BigEndian(p.Slot(), 8);
    if p.Specific? { assert key[10..] == p.hash; }
  }

  /** Byte order of the keys is the order of (slot, hash). */
  lemma PointKeyOrder(p: Point, q: Point)
    ensures Less(PointKey(p), PointKey(q)) <==>
            p.Slot() < q.Slot() ||
            (p.Slot() == q.Slot() && Less(if p.Origin? then [] else p.hash, if q.Origin? then [] else q.hash))
  {
    var x, y := if p.Origin? then [] else p.hash, if q.Origin? then [] else q.hash;
    assert PointKey(p) == POINT_PREFIX + (BigEndian(p.Slot(), 8) + x);
    assert PointKey(q) == POINT_PREFIX + (BigEndian(q.Slot(), 8) + y);
    LessCommonPrefix(POINT_PREFIX, BigEndian(p.Slot(), 8) + x, BigEndian(q.Slot(), 8) + y);
    Pow256Of8();
    BigEndianOrder(p.Slot(), x, q.Slot(), y, 8);
  }

  /** Everything the database holds: the tip entry and the block entries. */
  function DbKeys(c: Cache): set<seq<byte>> {
    (if c.tip.Some? then {LATEST_POINT} else {}) + set p | p in c.blocks :: PointKey(p)
  }

  function ReplayKeys(c: Cache, from: Point): (r: seq<seq<byte>>)
    ensures Ascending(r)
    ensures forall k :: k in r <==> k in DbKeys(c) && !Less(k, PointKey(from))
  {
    RangeScan(DbKeys(c), [], PointKey(from))
  }

  function DecodedLists(c: Cache, keys: seq<seq<byte>>): (r: seq<seq<LinkedBlock>>)
    ensures |r| == |keys|
  {
    seq(|keys|, i requires 0 <= i < |keys| => DecodedAt(c, keys[i]))
  }

  /** Entries that decode to a linked block, in key order from `from` on. */
  function Decoded(c: Cache, keys: seq<seq<byte>>): seq<LinkedBlock> { Flat(DecodedLists(c, keys)) }

  function DecodedAt(c: Cache, key: seq<byte>): seq<LinkedBlock> {
    var p := PointOfKey(key);
    if PointKey(p) == key && p in c.blocks then [c.blocks[p]] else []
  }

  function Replay(c: Cache, from: Point): seq<LinkedBlock> {
    Decoded(c, ReplayKeys(c, from))
  }

  ghost predicate SlotsIncrease(chain: seq<Block>) {
    forall i, j :: 0 <= i < j < |chain| ==> chain[i].slot < chain[j].slot
  }

  function ChainKeys(chain: seq<Block>): (r: seq<seq<byte>>)
    ensures |r| == |chain|
  {
    seq(|chain|, i requires 0 <= i < |chain| => PointKey(PointOf(chain[i])))
  }

  lemma ChainKeysAscending(chain: seq<Block>)
    requires SlotsIncrease(chain)
    ensures Ascending(ChainKeys(chain))
  {
    forall i, j | 0 <= i < j < |chain| ensures Less(ChainKeys(chain)[i], ChainKeys(chain)[j]) {
      PointKeyOrder(PointOf(chain[i]), PointOf(chain[j]));
    }
  }

  lemma TipKeyBelow(p: Point)
    ensures Less(LATEST_POINT, PointKey(p))
  {
    assert PointKey(p)[0] == 98;
  }

  /** The iterator opened at a chain point visits exactly the keys of the chain from there on. */
  lemma ReplayVisits(c: Cache, ground: Point, chain: seq<Block>, from: Point, i: nat)
    requires OnChain(c, ground, chain) && SlotsIncrease(chain) && i <= |chain|
    requires forall j :: 0 <= j < i ==> Less(PointKey(PointOf(chain[j])), PointKey(from))
    requires forall j :: i <= j < |chain| ==> !Less(PointKey(PointOf(chain[j])), PointKey(from))
    ensures ReplayKeys(c, from) == ChainKeys(chain[i..])
  {
    ChainKeysAscending(chain[i..]);
    forall k ensures k in ReplayKeys(c, from) <==> k in ChainKeys(chain[i..]) {
      ReplayVisitsKey(c, ground, chain, from, i, k);
    }
    AscendingUnique(ReplayKeys(c, from), ChainKeys(chain[i..]));
  }

  lemma ReplayVisitsKey(c: Cache, ground: Point, chain: seq<Block>, from: Point, i: nat, k: seq<byte>)
    requires OnChain(c, ground, chain) && i <= |chain|
    requires forall j :: 0 <= j < i ==> Less(PointKey(PointOf(chain[j])), PointKey(from))
    requires forall j :: i <= j < |chain| ==> !Less(PointKey(PointOf(chain[j])), PointKey(from))
    ensures k in ReplayKeys(c, from) <==> k in ChainKeys(chain[i..])
  {
    if k in ChainKeys(chain[i..]) {
      var j := ChainKeyAt(chain, i, k);
      LinksAt(c.blocks, TipPoint(c), ground, chain, j);
    }
    if k in ReplayKeys(c, from) {
      TipKeyBelow(from);
      var p :| p in c.blocks && PointKey(p) == k;
      var j := LinksOnly(c.blocks, TipPoint(c), ground, chain, p);
      InChainKeys(chain, i, j);
    }
  }

  lemma ChainKeyAt(chain: seq<Block>, i: nat, k: seq<byte>) returns (j: nat)
    requires i <= |chain| && k in ChainKeys(chain[i..])
    ensures i <= j < |chain| && PointKey(PointOf(chain[j])) == k
  {
    var d :| 0 <= d < |chain| - i && ChainKeys(chain[i..])[d] == k;
    j := i + d;
  }

  lemma InChainKeys(chain: seq<Block>, i: nat, j: nat)
    requires i <= j < |chain|
    ensures PointKey(PointOf(chain[j])) in ChainKeys(chain[i..])
  {
    assert ChainKeys(chain[i..])[j - i] == PointKey(PointOf(chain[j]));
  }

  function LinkedFrom(ground: Point, chain: seq<Block>, i: nat): (r: seq<LinkedBlock>)
    requires i <= |chain|
    ensures |r| == |chain| - i
  {
    seq(|chain| - i, j requires 0 <= j < |chain| - i => LinkedBlock(chain[i + j], PointAt(ground, chain, i + j)))
  }

  lemma DecodedChain(c: Cache, ground: Point, chain: seq<Block>, i: nat)
    requires OnChain(c, ground, chain) && i <= |chain|
    ensures Decoded(c, ChainKeys(chain[i..])) == LinkedFrom(ground, chain, i)
  {
    var keys, want := ChainKeys(chain[i..]), LinkedFrom(ground, chain, i);
    forall j | 0 <= j < |keys| ensures DecodedAt(c, keys[j]) == [want[j]] {
      PointKeyRoundTrip(PointOf(chain[i + j]));
      LinksAt(c.blocks, TipPoint(c), ground, chain, i + j);
    }
    FlatSingles(DecodedLists(c, keys), want);
  }

  /** Replaying from a cached chain point yields the chain from that point on, itself included, in order. */
  lemma ReplayFromPoint(c: Cache, ground: Point, chain: seq<Block>, i: nat)
    requires OnChain(c, ground, chain) && SlotsIncrease(chain) && i < |chain|
    ensures Replay(c, PointOf(chain[i])) == LinkedFrom(ground, chain, i)
  {
    forall j | 0 <= j < |chain| ensures Less(PointKey(PointOf(chain[j])), PointKey(PointOf(chain[i]))) <==> j < i {
      PointKeyOrder(PointOf(chain[j]), PointOf(chain[i]));
      if j == i { LessIrreflexive(PointKey(PointOf(chain[i]))); }
    }
    ReplayVisits(c, ground, chain, PointOf(chain[i]), i);
    DecodedChain(c, ground, chain, i);
  }

  /** Replaying from the origin yields the whole cached chain. */
  lemma ReplayFromOrigin(c: Cache, ground: Point, chain: seq<Block>)
    requires OnChain(c, ground, chain) && SlotsIncrease(chain)
    ensures Replay(c, Origin) == LinkedFrom(ground, chain, 0)
  {
    forall j | 0 <= j < |chain| ensures !Less(PointKey(PointOf(chain[j])), PointKey(Origin)) {
      PointKeyOrder(PointOf(chain[j]), Origin);
    }
    ReplayVisits(c, ground, chain, Origin, 0);
    DecodedChain(c, ground, chain, 0);
  }
}
