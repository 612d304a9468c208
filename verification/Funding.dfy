/** The events emitted for funding outputs when transactions are applied and undone. */
module Funding {
  import opened Keys
  import opened Ledger
  import opened Lists
  import KvIndexes

  type Kv = KvIndexes.Kv<OutputRef, (nat, Finalized)>

  type Store = map<OutputRef, (nat, Finalized)>

  datatype Finalized = Finalized(out: TxOut, reference: OutputRef)

  datatype FundingEvent = Consumed(utxo: Finalized) | Produced(utxo: Finalized) {
    function Inverse(): FundingEvent {
      match this
      case Consumed(x) => Produced(x)
      case Produced(x) => Consumed(x)
    }
  }

  /** A transaction being processed: its outputs keep their positions while handlers take some of them. */
  datatype TxView = TxView(hash: Hash32, inputs: seq<OutputRef>, outputs: seq<(u64, TxOut)>)

  type Tagged = (nat, FundingEvent)

  datatype Config = Config(addresses: seq<Address>, skip: OutputRef, delay: nat)

  function PositionOf(addresses: seq<Address>, a: Address): (r: nat)
    ensures r <= |addresses|
    ensures r < |addresses| ==> addresses[r] == a
    ensures forall i :: 0 <= i < r ==> addresses[i] != a
  {
    if addresses == [] || addresses[0] == a then 0 else 1 + PositionOf(addresses[1..], a)
  }

  predicate IsFunding(c: Config, a: Address) { PositionOf(c.addresses, a) < |c.addresses| }

  function ConsumedEvents(store: Store, inputs: seq<OutputRef>): seq<Tagged> {
    if inputs == [] then []
    else
      var o := inputs[|inputs| - 1];
      ConsumedEvents(store, inputs[..|inputs| - 1]) + if o in store then [(store[o].0, Consumed(store[o].1))] else []
  }

  /** Outputs are popped from the back, so later positions are reported first. */
  function ProducedEvents(c: Config, hash: Hash32, outputs: seq<(u64, TxOut)>): seq<Tagged> {
    if outputs == [] then []
    else
      var (ix, o) := outputs[|outputs| - 1];
      var reference := OutputRef(hash, ix);
      (if IsFunding(c, o.address) && reference != c.skip
       then [(PositionOf(c.addresses, o.address), Produced(Finalized(o, reference)))] else [])
      + ProducedEvents(c, hash, outputs[..|outputs| - 1])
  }

  /** The outputs left for other handlers, in their original order. */
  function Unprocessed(c: Config, outputs: seq<(u64, TxOut)>): seq<(u64, TxOut)> {
    if outputs == [] then []
    else
      var last := outputs[|outputs| - 1];
      Unprocessed(c, outputs[..|outputs| - 1]) + if IsFunding(c, last.1.address) then [] else [last]
  }

  /** The funding events of a transaction; one without outputs reports nothing, not even what it consumes. */
  function Extracted(c: Config, store: Store, tx: TxView): seq<Tagged> {
    if tx.outputs == [] then [] else ConsumedEvents(store, tx.inputs) + ProducedEvents(c, tx.hash, tx.outputs)
  }

  /** The outputs left over are exactly those at no funding address. */
  lemma {:induction false} UnprocessedMembers(c: Config, outputs: seq<(u64, TxOut)>, x: (u64, TxOut))
    ensures x in Unprocessed(c, outputs) <==> x in outputs && !IsFunding(c, x.1.address)
  {
    if outputs != [] {
      var n := |outputs| - 1;
      UnprocessedMembers(c, outputs[..n], x);
      assert outputs == outputs[..n] + [outputs[n]];
    }
  }

  /** The produced events are exactly the outputs at funding addresses, but for the one to be left alone. */
  lemma {:induction false} ProducedMembers(c: Config, hash: Hash32, outputs: seq<(u64, TxOut)>, ix: u64, o: TxOut)
    ensures (PositionOf(c.addresses, o.address), Produced(Finalized(o, OutputRef(hash, ix))))
              in ProducedEvents(c, hash, outputs)
            <==> (ix, o) in outputs && IsFunding(c, o.address) && OutputRef(hash, ix) != c.skip
  {
    if outputs != [] {
      var n := |outputs| - 1;
      ProducedMembers(c, hash, outputs[..n], ix, o);
      assert outputs == outputs[..n] + [outputs[n]] && outputs[n] == (outputs[n].0, outputs[n].1);
      assert (ix, o) in outputs <==> (ix, o) in outputs[..n] || (ix, o) == outputs[n];
    }
  }

  /** They are left over in their original order. */
  lemma {:induction false} UnprocessedInOrder(c: Config, outputs: seq<(u64, TxOut)>) returns (ps: seq<nat>)
    ensures |ps| == |Unprocessed(c, outputs)| && forall i, j :: 0 <= i < j < |ps| ==> ps[i] < ps[j]
    ensures forall k :: 0 <= k < |ps| ==> ps[k] < |outputs| && Unprocessed(c, outputs)[k] == outputs[ps[k]]
  {
    if outputs == [] {
      ps := [];
    } else {
      var n := |outputs| - 1;
      ps := UnprocessedInOrder(c, outputs[..n]);
      if !IsFunding(c, outputs[n].1.address) { ps := ps + [n]; }
    }
  }

  ghost predicate ConsumedAt(e: Tagged, store: Store, o: OutputRef) {
    o in store && e == (store[o].0, Consumed(store[o].1))
  }

  ghost predicate ConsumedFrom(events: seq<Tagged>, store: Store, inputs: seq<OutputRef>, ps: seq<nat>) {
    && |ps| == |events| && (forall i, j :: 0 <= i < j < |ps| ==> ps[i] < ps[j])
    && forall k :: 0 <= k < |ps| ==> ps[k] < |inputs| && ConsumedAt(events[k], store, inputs[ps[k]])
  }

  lemma ConsumedFromStep(events: seq<Tagged>, store: Store, inputs: seq<OutputRef>, ps: seq<nat>, o: OutputRef)
    requires ConsumedFrom(events, store, inputs, ps)
    ensures ConsumedFrom(events, store, inputs + [o], ps)
    ensures o in store ==>
              ConsumedFrom(events + [(store[o].0, Consumed(store[o].1))], store, inputs + [o], ps + [|inputs|])
  {
    assert forall k :: 0 <= k < |ps| ==> (inputs + [o])[ps[k]] == inputs[ps[k]];
  }

  ghost predicate AllFrom(store: Store, inputs: seq<OutputRef>, ps: seq<nat>) {
    forall p :: 0 <= p < |inputs| && inputs[p] in store ==> p in ps
  }

  lemma AllFromStep(store: Store, inputs: seq<OutputRef>, ps: seq<nat>, o: OutputRef)
    requires AllFrom(store, inputs, ps)
    ensures AllFrom(store, inputs + [o], if o in store then ps + [|inputs|] else ps)
  {
    var all := inputs + [o];
    forall p | 0 <= p < |all| && all[p] in store ensures p in if o in store then ps + [|inputs|] else ps {
      if p == |inputs| { assert (ps + [|inputs|])[|ps|] == p; } else { assert inputs[p] in store; }
    }
  }

  /** Consumed events come in the order of the inputs, one for each that is stored. */
  lemma {:induction false} ConsumedInOrder(store: Store, inputs: seq<OutputRef>) returns (ps: seq<nat>)
    ensures ConsumedFrom(ConsumedEvents(store, inputs), store, inputs, ps) && AllFrom(store, inputs, ps)
  {
    if inputs == [] {
      ps := [];
    } else {
      var n := |inputs| - 1;
      var below, o := inputs[..n], inputs[n];
      var low := ConsumedInOrder(store, below);
      ConsumedFromStep(ConsumedEvents(store, below), store, below, low, o);
      AllFromStep(store, below, low, o);
      ConsumedSnoc(store, below, o);
      assert inputs == below + [o];
      ps := if o in store then low + [n] else low;
    }
  }

  lemma ConsumedSnoc(store: Store, inputs: seq<OutputRef>, o: OutputRef)
    ensures ConsumedEvents(store, inputs + [o]) ==
            if o in store then ConsumedEvents(store, inputs) + [(store[o].0, Consumed(store[o].1))]
            else ConsumedEvents(store, inputs)
  {
    assert (inputs + [o])[..|inputs|] == inputs;
  }

  ghost predicate ProducedFrom(events: seq<Tagged>, hash: Hash32, outputs: seq<(u64, TxOut)>, ps: seq<nat>) {
    && |ps| == |events| && (forall i, j :: 0 <= i < j < |ps| ==> ps[i] > ps[j])
    && forall k :: 0 <= k < |ps| ==> ps[k] < |outputs| && ProducedAt(events[k], hash, outputs[ps[k]])
  }

  ghost predicate ProducedAt(e: Tagged, hash: Hash32, output: (u64, TxOut)) {
    e.1 == Produced(Finalized(output.1, OutputRef(hash, output.0)))
  }

  lemma ProducedFromStep(events: seq<Tagged>, hash: Hash32, outputs: seq<(u64, TxOut)>, ps: seq<nat>,
                         x: (u64, TxOut), e: Tagged)
    requires ProducedFrom(events, hash, outputs, ps)
    ensures ProducedFrom(events, hash, outputs + [x], ps)
    ensures ProducedAt(e, hash, x) ==> ProducedFrom([e] + events, hash, outputs + [x], [|outputs|] + ps)
  {
    assert forall k :: 0 <= k < |ps| ==> (outputs + [x])[ps[k]] == outputs[ps[k]];
  }

  /** Produced events come in the reverse order of the outputs. */
  lemma {:induction false} ProducedInReverse(c: Config, hash: Hash32, outputs: seq<(u64, TxOut)>)
    returns (ps: seq<nat>)
    ensures ProducedFrom(ProducedEvents(c, hash, outputs), hash, outputs, ps)
  {
    if outputs == [] {
      ps := [];
    } else {
      var n := |outputs| - 1;
      var (ix, o) := outputs[n];
      var low := ProducedInReverse(c, hash, outputs[..n]);
      var below := ProducedEvents(c, hash, outputs[..n]);
      var e := (PositionOf(c.addresses, o.address), Produced(Finalized(o, OutputRef(hash, ix))));
      ProducedFromStep(below, hash, outputs[..n], low, outputs[n], e);
      assert outputs == outputs[..n] + [outputs[n]];
      if IsFunding(c, o.address) && OutputRef(hash, ix) != c.skip {
        ps := [n] + low;
        assert ProducedEvents(c, hash, outputs) == [e] + below;
      } else {
        ps := low;
        assert ProducedEvents(c, hash, outputs) == below;
      }
    }
  }

  function Inverted(events: seq<Tagged>): (r: seq<Tagged>)
    ensures |r| == |events|
  {
    seq(|events|, i requires 0 <= i < |events| => (events[i].0, events[i].1.Inverse()))
  }

  function IndexEvent(c: Config, kv: Kv, now: nat, e: Tagged): Kv {
    match e.1
    case Consumed(utxo) => kv.(queue := kv.queue + [(now + c.delay, utxo.reference)])
    case Produced(utxo) => kv.(store := kv.store[utxo.reference := (e.0, utxo)])
  }

  function IndexAll(c: Config, kv: Kv, now: nat, events: seq<Tagged>): Kv {
    if events == [] then kv else IndexEvent(c, IndexAll(c, kv, now, events[..|events| - 1]), now, events[|events| - 1])
  }

  function Indexed(c: Config, kv: Kv, now: nat, events: seq<Tagged>): Kv {
    if events == [] then kv else IndexAll(c, KvIndexes.Evicted(kv, now), now, events)
  }

  function ApplyTx(c: Config, kv: Kv, now: nat, tx: TxView): Kv { Indexed(c, kv, now, Extracted(c, kv.store, tx)) }

  function UnapplyTx(c: Config, kv: Kv, now: nat, tx: TxView): Kv {
    Indexed(c, kv, now, Inverted(Extracted(c, kv.store, tx)))
  }

  /** The events of one partition, in order. */
  function OfPart(events: seq<Tagged>, part: nat): seq<FundingEvent> {
    if events == [] then []
    else OfPart(events[..|events| - 1], part) +
         if events[|events| - 1].0 == part then [events[|events| - 1].1] else []
  }

  /** What is taken off the back of the outputs moves over to the events or to the rest. */
  lemma PopStep(c: Config, hash: Hash32, outputs: seq<(u64, TxOut)>, produced: seq<Tagged>, rest: seq<(u64, TxOut)>)
    requires outputs != []
    ensures var (ix, o) := outputs[|outputs| - 1]; var most := outputs[..|outputs| - 1];
            var event := (PositionOf(c.addresses, o.address), Produced(Finalized(o, OutputRef(hash, ix))));
            var funding := IsFunding(c, o.address);
            && produced + ProducedEvents(c, hash, outputs) ==
               (if funding && OutputRef(hash, ix) != c.skip then produced + [event] else produced)
               + ProducedEvents(c, hash, most)
            && Unprocessed(c, outputs) + rest ==
               Unprocessed(c, most) + if funding then rest else [(ix, o)] + rest
  {
    var (ix, o) := outputs[|outputs| - 1];
    var most := outputs[..|outputs| - 1];
    var event := (PositionOf(c.addresses, o.address), Produced(Finalized(o, OutputRef(hash, ix))));
    Regroup(produced, [event], ProducedEvents(c, hash, most));
    Regroup(Unprocessed(c, most), [(ix, o)], rest);
    if !(IsFunding(c, o.address) && OutputRef(hash, ix) != c.skip) {
      assert ProducedEvents(c, hash, outputs) == ProducedEvents(c, hash, most);
    }
    if IsFunding(c, o.address) { assert Unprocessed(c, outputs) == Unprocessed(c, most); }
  }

  class FundingEventHandler {
    const index: KvIndexes.InMemoryKvIndex<OutputRef, (nat, Finalized)>
    const addresses: seq<Address>
    const skip: OutputRef

    constructor (index: KvIndexes.InMemoryKvIndex<OutputRef, (nat, Finalized)>, addresses: seq<Address>,
                 skip: OutputRef)
      ensures this.index == index && this.addresses == addresses && this.skip == skip
    {
      this.index, this.addresses, this.skip := index, addresses, skip;
    }

    function Settings(): Config { Config(addresses, skip, index.evictionDelay) }

    method Extract(tx: TxView) returns (events: seq<Tagged>, remainder: TxView)
      ensures events == Extracted(Settings(), index.store, tx)
      ensures remainder == tx.(outputs := Unprocessed(Settings(), tx.outputs))
    {
      if |tx.outputs| == 0 {
        return [], tx;
      }
      var consumed := [];
      for i := 0 to |tx.inputs|
        invariant consumed == ConsumedEvents(index.store, tx.inputs[..i])
      {
        assert tx.inputs[..i + 1][..i] == tx.inputs[..i];
        var utxo := index.Get(tx.inputs[i]);
        if utxo.Some? {
          consumed := consumed + [(utxo.value.0, Consumed(utxo.value.1))];
        }
      }
      assert tx.inputs[..|tx.inputs|] == tx.inputs;
      var produced, outputs := PopOutputs(tx);
      events := consumed + produced;
      remainder := tx.(outputs := outputs);
    }

    method PopOutputs(tx: TxView) returns (produced: seq<Tagged>, rest: seq<(u64, TxOut)>)
      ensures produced == ProducedEvents(Settings(), tx.hash, tx.outputs)
      ensures rest == Unprocessed(Settings(), tx.outputs)
    {
      produced, rest := [], [];
      var outputs := tx.outputs;
      while outputs != []
        invariant produced + ProducedEvents(Settings(), tx.hash, outputs) ==
                  ProducedEvents(Settings(), tx.hash, tx.outputs)
        invariant Unprocessed(Settings(), outputs) + rest == Unprocessed(Settings(), tx.outputs)
        decreases |outputs|
      {
        var (ix, o) := outputs[|outputs| - 1];
        PopStep(Settings(), tx.hash, outputs, produced, rest);
        outputs := outputs[..|outputs| - 1];
        var reference := OutputRef(tx.hash, ix);
        if IsFunding(Settings(), o.address) {
          if reference != skip {
            produced := produced + [(PositionOf(addresses, o.address), Produced(Finalized(o, reference)))];
          }
        } else {
          rest := [(ix, o)] + rest;
        }
      }
    }

    method IndexFundingEvent(part: nat, e: FundingEvent, now: nat)
      modifies index
      ensures index.View() == IndexEvent(Settings(), old(index.View()), now, (part, e))
    {
      match e {
        case Consumed(utxo) => index.RegisterForEviction(utxo.reference, now);
        case Produced(utxo) => index.Put(utxo.reference, (part, utxo));
      }
    }

    /** Index the events and sort them into partitions. */
    method Commit(events: seq<Tagged>, now: nat) returns (byPart: map<nat, seq<FundingEvent>>)
      modifies index
      ensures index.View() == Indexed(Settings(), old(index.View()), now, events)
      ensures forall p :: (if p in byPart then byPart[p] else []) == OfPart(events, p)
    {
      byPart := map[];
      if events == [] {
        return;
      }
      index.RunEviction(now);
      ghost var start := index.View();
      for i := 0 to |events|
        invariant index.View() == IndexAll(Settings(), start, now, events[..i])
        invariant forall p :: (if p in byPart then byPart[p] else []) == OfPart(events[..i], p)
      {
        assert events[..i + 1][..i] == events[..i];
        var (part, event) := events[i];
        IndexFundingEvent(part, event, now);
        if part in byPart {
          byPart := byPart[part := byPart[part] + [event]];
        } else {
          byPart := byPart[part := [event]];
        }
      }
      assert events[..|events|] == events;
    }

    method HandleApplied(tx: TxView, now: nat) returns (byPart: map<nat, seq<FundingEvent>>, remainder: TxView)
      modifies index
      ensures index.View() == ApplyTx(Settings(), old(index.View()), now, tx)
      ensures forall p ::
                (if p in byPart then byPart[p] else []) == OfPart(Extracted(Settings(), old(index.store), tx), p)
      ensures remainder == tx.(outputs := Unprocessed(Settings(), tx.outputs))
    {
      var events;
      events, remainder := Extract(tx);
      byPart := Commit(events, now);
    }

    method HandleUnapplied(tx: TxView, now: nat) returns (byPart: map<nat, seq<FundingEvent>>, remainder: TxView)
      modifies index
      ensures index.View() == UnapplyTx(Settings(), old(index.View()), now, tx)
      ensures forall p :: (if p in byPart then byPart[p] else []) ==
                          OfPart(Inverted(Extracted(Settings(), old(index.store), tx)), p)
      ensures remainder == tx.(outputs := Unprocessed(Settings(), tx.outputs))
    {
      var events;
      events, remainder := Extract(tx);
      var inverse := Inverted(events);
      byPart := Commit(inverse, now);
    }
  }

  // ---- undoing a stack of transactions ----

  ghost predicate WellKeyed(store: Store) {
    forall o :: o in store ==> store[o].1.reference == o
  }

  /** The stores agree on every reference that is neither dying nor an output of the listed transactions. */
  ghost predicate AgreeOutside(a: Store, b: Store, hashes: set<Hash32>, dying: set<OutputRef>) {
    forall o: OutputRef :: o.txHash !in hashes && o !in dying ==> (o in a <==> o in b) && (o in a ==> a[o] == b[o])
  }

  lemma {:induction false} ConsumedAgree(a: Store, b: Store, hashes: set<Hash32>, dying: set<OutputRef>,
                                         inputs: seq<OutputRef>)
    requires AgreeOutside(a, b, hashes, dying)
    requires forall o :: o in inputs ==> o.txHash !in hashes && o !in dying
    ensures ConsumedEvents(a, inputs) == ConsumedEvents(b, inputs)
  {
    if inputs != [] {
      var n := |inputs| - 1;
      assert inputs[n] in inputs;
      assert forall o :: o in inputs[..n] ==> o in inputs;
      ConsumedAgree(a, b, hashes, dying, inputs[..n]);
    }
  }

  /** A consumed event names a stored entry, a produced one an output of the transaction. */
  ghost predicate Grounded(e: Tagged, store: Store, hash: Hash32) {
    match e.1
    case Consumed(utxo) => utxo.reference in store && store[utxo.reference] == (e.0, utxo)
    case Produced(utxo) => utxo.reference.txHash == hash
  }

  lemma {:induction false} ConsumedGrounded(store: Store, inputs: seq<OutputRef>, hash: Hash32)
    requires WellKeyed(store)
    ensures forall i :: 0 <= i < |ConsumedEvents(store, inputs)| ==>
              Grounded(ConsumedEvents(store, inputs)[i], store, hash)
  {
    if inputs != [] { ConsumedGrounded(store, inputs[..|inputs| - 1], hash); }
  }

  lemma {:induction false} ProducedGrounded(c: Config, store: Store, hash: Hash32, outputs: seq<(u64, TxOut)>)
    ensures forall i :: 0 <= i < |ProducedEvents(c, hash, outputs)| ==>
              Grounded(ProducedEvents(c, hash, outputs)[i], store, hash)
  {
    if outputs != [] { ProducedGrounded(c, store, hash, outputs[..|outputs| - 1]); }
  }

  lemma ExtractedGrounded(c: Config, store: Store, tx: TxView)
    requires WellKeyed(store)
    ensures forall i :: 0 <= i < |Extracted(c, store, tx)| ==> Grounded(Extracted(c, store, tx)[i], store, tx.hash)
  {
    ConsumedGrounded(store, tx.inputs, tx.hash);
    ProducedGrounded(c, store, tx.hash, tx.outputs);
  }

  /** Between the two states nothing but outputs of these transactions and dying entries has changed. */
  ghost predicate Moved(kv: Kv, kv': Kv, hashes: set<Hash32>, end: nat, dying: set<OutputRef>) {
    && AgreeOutside(kv.store, kv'.store, hashes, dying) && WellKeyed(kv'.store)
    && KvIndexes.DueAmong(kv', end, dying)
  }

  lemma MovedTrans(a: Kv, b: Kv, d: Kv, s: set<Hash32>, t: set<Hash32>, end: nat, dying: set<OutputRef>)
    requires Moved(a, b, s, end, dying) && Moved(b, d, t, end, dying)
    ensures Moved(a, d, s + t, end, dying)
  {
  }

  /** Indexing grounded events, or their inverses, changes the store at outputs of the transaction only. */
  lemma {:induction false} IndexAllMoves(c: Config, kv: Kv, now: nat, events: seq<Tagged>, hash: Hash32, end: nat,
                                         dying: set<OutputRef>)
    requires WellKeyed(kv.store) && KvIndexes.DueAmong(kv, end, dying) && now + c.delay > end
    requires forall i :: 0 <= i < |events| ==>
               Grounded(events[i], kv.store, hash) || Grounded((events[i].0, events[i].1.Inverse()), kv.store, hash)
    ensures Moved(kv, IndexAll(c, kv, now, events), {hash}, end, dying)
  {
    if events != [] {
      IndexAllMoves(c, kv, now, events[..|events| - 1], hash, end, dying);
    }
  }

  lemma InvertedGrounded(events: seq<Tagged>, store: Store, hash: Hash32)
    requires forall i :: 0 <= i < |events| ==> Grounded(events[i], store, hash)
    ensures forall i :: 0 <= i < |events| ==>
              Grounded((Inverted(events)[i].0, Inverted(events)[i].1.Inverse()), store, hash)
  {
    forall i | 0 <= i < |events|
      ensures Grounded((Inverted(events)[i].0, Inverted(events)[i].1.Inverse()), store, hash)
    {
      assert (Inverted(events)[i].0, Inverted(events)[i].1.Inverse()) == events[i];
    }
  }

  /** The events of a transaction with no dying input are those it would have after the eviction as well. */
  lemma EvictionSparesInputs(c: Config, kv: Kv, now: nat, tx: TxView, end: nat, dying: set<OutputRef>)
    requires WellKeyed(kv.store) && KvIndexes.DueAmong(kv, end, dying) && now <= end
    requires forall o :: o in tx.inputs ==> o !in dying
    ensures Moved(kv, KvIndexes.Evicted(kv, now), {}, end, dying)
    ensures Extracted(c, KvIndexes.Evicted(kv, now).store, tx) == Extracted(c, kv.store, tx)
  {
    KvIndexes.EvictedAmong(kv, now, end, dying);
    ConsumedAgree(kv.store, KvIndexes.Evicted(kv, now).store, {}, dying, tx.inputs);
  }

  lemma TxMoves(c: Config, kv: Kv, now: nat, tx: TxView, end: nat, dying: set<OutputRef>)
    requires WellKeyed(kv.store) && KvIndexes.DueAmong(kv, end, dying) && now <= end < now + c.delay
    requires forall o :: o in tx.inputs ==> o !in dying
    ensures Moved(kv, ApplyTx(c, kv, now, tx), {tx.hash}, end, dying)
    ensures Moved(kv, UnapplyTx(c, kv, now, tx), {tx.hash}, end, dying)
  {
    var evicted := KvIndexes.Evicted(kv, now);
    var events := Extracted(c, kv.store, tx);
    EvictionSparesInputs(c, kv, now, tx, end, dying);
    ExtractedGrounded(c, evicted.store, tx);
    InvertedGrounded(events, evicted.store, tx.hash);
    IndexAllMoves(c, evicted, now, events, tx.hash, end, dying);
    IndexAllMoves(c, evicted, now, Inverted(events), tx.hash, end, dying);
    MovedTrans(kv, evicted, IndexAll(c, evicted, now, events), {}, {tx.hash}, end, dying);
    MovedTrans(kv, evicted, IndexAll(c, evicted, now, Inverted(events)), {}, {tx.hash}, end, dying);
  }

  datatype Stamped = Stamped(tx: TxView, appliedAt: nat, undoneAt: nat)

  datatype Emission = Emission(onApply: seq<Tagged>, onUndo: seq<Tagged>)

  /** Apply all transactions in order, then undo them in reverse; the events each of them emits both ways. */
  function ThereAndBack(c: Config, kv: Kv, txs: seq<Stamped>): (Kv, seq<Emission>)
    decreases |txs|
  {
    if txs == [] then (kv, [])
    else
      var first := txs[0];
      var (high, rest) := ThereAndBack(c, ApplyTx(c, kv, first.appliedAt, first.tx), txs[1..]);
      var emission := Emission(Extracted(c, kv.store, first.tx), Inverted(Extracted(c, high.store, first.tx)));
      (UnapplyTx(c, high, first.undoneAt, first.tx), [emission] + rest)
  }

  ghost function Hashes(txs: seq<Stamped>): set<Hash32> { set i | 0 <= i < |txs| :: txs[i].tx.hash }

  /** No transaction consumes an output of its own or of a later one. */
  ghost predicate InputsPrecede(txs: seq<Stamped>) {
    forall i, j, o: OutputRef :: 0 <= i <= j < |txs| && o in txs[i].tx.inputs ==> o.txHash != txs[j].tx.hash
  }

  ghost predicate NoDyingInput(txs: seq<Stamped>, dying: set<OutputRef>) {
    forall i, o: OutputRef :: 0 <= i < |txs| && o in txs[i].tx.inputs ==> o !in dying
  }

  lemma HashesStep(txs: seq<Stamped>)
    requires txs != []
    ensures Hashes(txs) == {txs[0].tx.hash} + Hashes(txs[1..])
  {
    forall h ensures h in Hashes(txs) <==> h == txs[0].tx.hash || h in Hashes(txs[1..]) {
      if i :| 0 <= i < |txs[1..]| && txs[1..][i].tx.hash == h { assert txs[i + 1].tx.hash == h; }
      if i :| 0 < i < |txs| && txs[i].tx.hash == h { assert txs[1..][i - 1].tx.hash == h; }
    }
  }

  ghost predicate Within(c: Config, txs: seq<Stamped>, end: nat) {
    forall i :: 0 <= i < |txs| ==>
      txs[i].appliedAt <= end < txs[i].appliedAt + c.delay && txs[i].undoneAt <= end < txs[i].undoneAt + c.delay
  }

  /** The stack is applied and undone before `end`, within one eviction delay; entries registered earlier may
      fall due meanwhile, but none that the stack consumes. */
  ghost predicate Undoable(c: Config, kv: Kv, txs: seq<Stamped>, end: nat, dying: set<OutputRef>) {
    && WellKeyed(kv.store) && KvIndexes.DueAmong(kv, end, dying)
    && Within(c, txs, end) && InputsPrecede(txs) && NoDyingInput(txs, dying)
  }

  ghost predicate Inverse(log: seq<Emission>) {
    forall i :: 0 <= i < |log| ==> log[i].onUndo == Inverted(log[i].onApply)
  }

  /** The outermost transaction, around the undone run of the later ones. */
  lemma UndoFirst(c: Config, kv: Kv, high: Kv, txs: seq<Stamped>, end: nat, dying: set<OutputRef>)
    requires txs != [] && Undoable(c, kv, txs, end, dying)
    requires Moved(ApplyTx(c, kv, txs[0].appliedAt, txs[0].tx), high, Hashes(txs[1..]), end, dying)
    ensures Extracted(c, kv.store, txs[0].tx) == Extracted(c, high.store, txs[0].tx)
    ensures Moved(kv, UnapplyTx(c, high, txs[0].undoneAt, txs[0].tx), Hashes(txs), end, dying)
  {
    var first := txs[0];
    var up, down := ApplyTx(c, kv, first.appliedAt, first.tx), UnapplyTx(c, high, first.undoneAt, first.tx);
    TxMoves(c, kv, first.appliedAt, first.tx, end, dying);
    HashesStep(txs);
    MovedTrans(kv, up, high, {first.tx.hash}, Hashes(txs[1..]), end, dying);
    FirstSeesTheSame(c, kv.store, high.store, txs, dying);
    TxMoves(c, high, first.undoneAt, first.tx, end, dying);
    MovedTrans(kv, high, down, Hashes(txs), {first.tx.hash}, end, dying);
    assert Hashes(txs) + {first.tx.hash} == Hashes(txs);
  }

  /** Within the eviction delay, undoing transactions in reverse order emits for each of them exactly the inverse
      of what it emitted when applied, event by event, whatever else is evicted meanwhile, and leaves every other
      entry as it was. */
  lemma {:induction false} UndoEmitsInverse(c: Config, kv: Kv, txs: seq<Stamped>, end: nat, dying: set<OutputRef>)
    requires Undoable(c, kv, txs, end, dying)
    ensures var (kv', log) := ThereAndBack(c, kv, txs);
            |log| == |txs| && Inverse(log) && Moved(kv, kv', Hashes(txs), end, dying)
    decreases |txs|
  {
    if txs != [] {
      var up := ApplyTx(c, kv, txs[0].appliedAt, txs[0].tx);
      TxMoves(c, kv, txs[0].appliedAt, txs[0].tx, end, dying);
      TailPrecedes(txs);
      UndoEmitsInverse(c, up, txs[1..], end, dying);
      UndoFirst(c, kv, ThereAndBack(c, up, txs[1..]).0, txs, end, dying);
    }
  }

  lemma FirstSeesTheSame(c: Config, a: Store, b: Store, txs: seq<Stamped>, dying: set<OutputRef>)
    requires txs != [] && InputsPrecede(txs) && NoDyingInput(txs, dying) && AgreeOutside(a, b, Hashes(txs), dying)
    ensures Extracted(c, a, txs[0].tx) == Extracted(c, b, txs[0].tx)
  {
    forall o | o in txs[0].tx.inputs ensures o.txHash !in Hashes(txs) {
      assert forall j :: 0 <= j < |txs| ==> o.txHash != txs[j].tx.hash;
    }
    ConsumedAgree(a, b, Hashes(txs), dying, txs[0].tx.inputs);
  }

  lemma TailPrecedes(txs: seq<Stamped>)
    requires txs != [] && InputsPrecede(txs)
    ensures InputsPrecede(txs[1..])
  {
    forall i, j, o | 0 <= i <= j < |txs| - 1 && o in txs[1..][i].tx.inputs ensures o.txHash != txs[1..][j].tx.hash {
      assert txs[1..][i] == txs[i + 1] && txs[1..][j] == txs[j + 1];
    }
  }

  lemma {:induction false} OfPartInverted(events: seq<Tagged>, p: nat)
    ensures |OfPart(Inverted(events), p)| == |OfPart(events, p)|
    ensures forall i :: 0 <= i < |OfPart(events, p)| ==>
              OfPart(Inverted(events), p)[i] == OfPart(events, p)[i].Inverse()
  {
    if events != [] {
      var n := |events| - 1;
      OfPartInverted(events[..n], p);
      assert Inverted(events)[..n] == Inverted(events[..n]);
    }
  }

  /** The same, partition by partition: what each topic received on apply it receives inverted on undo. */
  lemma UndoInvertsEachPartition(c: Config, kv: Kv, txs: seq<Stamped>, end: nat, dying: set<OutputRef>, i: nat, p: nat)
    requires Undoable(c, kv, txs, end, dying) && i < |txs|
    ensures var log := ThereAndBack(c, kv, txs).1;
            && i < |log| && |OfPart(log[i].onUndo, p)| == |OfPart(log[i].onApply, p)|
            && forall k :: 0 <= k < |OfPart(log[i].onApply, p)| ==>
                 OfPart(log[i].onUndo, p)[k] == OfPart(log[i].onApply, p)[k].Inverse()
  {
    UndoEmitsInverse(c, kv, txs, end, dying);
    OfPartInverted(ThereAndBack(c, kv, txs).1[i].onApply, p);
  }

  // ---- exactly when one undo emits the inverse ----

  datatype Handling = Apply(tx: TxView, at: nat) | Unapply(tx: TxView, at: nat)

  /** Any transactions accepted or applied, dropped or undone, in any order. */
  function HandleAll(c: Config, kv: Kv, acts: seq<Handling>): Kv {
    if acts == [] then kv
    else
      var before, act := HandleAll(c, kv, acts[..|acts| - 1]), acts[|acts| - 1];
      match act
      case Apply(tx, at) => ApplyTx(c, before, at, tx)
      case Unapply(tx, at) => UnapplyTx(c, before, at, tx)
  }

  /** An entry that is there in the later store was there before, with the same content. */
  ghost predicate Kept(a: Store, b: Store, o: OutputRef) { o in b ==> o in a && a[o] == b[o] }

  lemma {:induction false} IndexAllAdds(c: Config, kv: Kv, now: nat, events: seq<Tagged>, o: OutputRef, before: Store)
    requires Kept(before, kv.store, o) && WellKeyed(kv.store)
    requires forall i :: 0 <= i < |events| && events[i].1.Produced? && events[i].1.utxo.reference == o ==>
               o in before && (events[i].0, events[i].1.utxo) == before[o]
    ensures Kept(before, IndexAll(c, kv, now, events).store, o) && WellKeyed(IndexAll(c, kv, now, events).store)
  {
    if events != [] { IndexAllAdds(c, kv, now, events[..|events| - 1], o, before); }
  }

  /** Handling a transaction brings no entry into the store but its own outputs: what an undo puts back is what
      was still there. */
  lemma ActKeeps(c: Config, kv: Kv, tx: TxView, now: nat, o: OutputRef)
    requires WellKeyed(kv.store) && tx.hash != o.txHash
    ensures Kept(kv.store, ApplyTx(c, kv, now, tx).store, o) && WellKeyed(ApplyTx(c, kv, now, tx).store)
    ensures Kept(kv.store, UnapplyTx(c, kv, now, tx).store, o) && WellKeyed(UnapplyTx(c, kv, now, tx).store)
  {
    var evicted, events := KvIndexes.Evicted(kv, now), Extracted(c, kv.store, tx);
    KvIndexes.EvictedAmong(kv, now, now, set i | 0 <= i < |kv.queue| :: kv.queue[i].1);
    EvictedWellKeyed(kv, now);
    ExtractedGrounded(c, kv.store, tx);
    forall i | 0 <= i < |events| && Inverted(events)[i].1.Produced? && Inverted(events)[i].1.utxo.reference == o
      ensures o in kv.store && (Inverted(events)[i].0, Inverted(events)[i].1.utxo) == kv.store[o]
    {
      assert Grounded(events[i], kv.store, tx.hash);
    }
    forall i | 0 <= i < |events| && events[i].1.Produced? ensures events[i].1.utxo.reference != o {
      assert Grounded(events[i], kv.store, tx.hash);
    }
    IndexAllAdds(c, evicted, now, events, o, kv.store);
    IndexAllAdds(c, evicted, now, Inverted(events), o, kv.store);
  }

  lemma {:induction false} ActsKeep(c: Config, kv: Kv, acts: seq<Handling>, o: OutputRef)
    requires WellKeyed(kv.store) && forall i :: 0 <= i < |acts| ==> acts[i].tx.hash != o.txHash
    ensures Kept(kv.store, HandleAll(c, kv, acts).store, o) && WellKeyed(HandleAll(c, kv, acts).store)
  {
    if acts != [] {
      var n := |acts| - 1;
      ActsKeep(c, kv, acts[..n], o);
      ActKeeps(c, HandleAll(c, kv, acts[..n]), acts[n].tx, acts[n].at, o);
    }
  }

  lemma {:induction false} ConsumedEventsIff(a: Store, b: Store, inputs: seq<OutputRef>)
    requires WellKeyed(a) && WellKeyed(b) && forall o :: o in inputs ==> Kept(a, b, o)
    ensures ConsumedEvents(a, inputs) == ConsumedEvents(b, inputs) <==> forall o :: o in inputs && o in a ==> o in b
  {
    if forall o :: o in inputs && o in a ==> o in b {
      SameConsumed(a, b, inputs);
    }
    forall o | o in inputs ensures ConsumesRef(ConsumedEvents(a, inputs), o) <==> o in a { ConsumedRefs(a, inputs, o); }
    forall o | o in inputs ensures ConsumesRef(ConsumedEvents(b, inputs), o) <==> o in b { ConsumedRefs(b, inputs, o); }
  }

  lemma {:induction false} SameConsumed(a: Store, b: Store, inputs: seq<OutputRef>)
    requires forall o :: o in inputs ==> (o in a <==> o in b) && (o in a ==> a[o] == b[o])
    ensures ConsumedEvents(a, inputs) == ConsumedEvents(b, inputs)
  {
    if inputs != [] {
      assert forall o :: o in inputs[..|inputs| - 1] ==> o in inputs;
      SameConsumed(a, b, inputs[..|inputs| - 1]);
    }
  }

  lemma InvertedInjective(a: seq<Tagged>, b: seq<Tagged>)
    requires Inverted(a) == Inverted(b)
    ensures a == b
  {
    assert |a| == |Inverted(a)| == |Inverted(b)| == |b|;
    forall i | 0 <= i < |a| ensures a[i] == b[i] {
      assert Inverted(a)[i] == Inverted(b)[i];
    }
  }

  lemma SameSuffix<T>(a: seq<T>, b: seq<T>, suffix: seq<T>)
    ensures a + suffix == b + suffix <==> a == b
  {
    if a + suffix == b + suffix {
      assert a == (a + suffix)[..|a|] && b == (b + suffix)[..|b|];
    }
  }

  /** Whatever is handled between a transaction's apply and its undo, at whatever times, the undo emits exactly
      the inverse of the apply iff no stored output it consumes was evicted in between. The apply may itself
      follow any earlier handling of the transaction, as when the mempool saw it first. */
  lemma UndoEmitsInverseIff(c: Config, kv: Kv, tx: TxView, applied: nat, acts: seq<Handling>)
    requires WellKeyed(kv.store) && tx.outputs != []
    requires forall o :: o in tx.inputs ==>
               o.txHash != tx.hash && forall i :: 0 <= i < |acts| ==> acts[i].tx.hash != o.txHash
    ensures var undone := HandleAll(c, ApplyTx(c, kv, applied, tx), acts);
            Inverted(Extracted(c, undone.store, tx)) == Inverted(Extracted(c, kv.store, tx)) <==>
            forall o :: o in tx.inputs && o in kv.store ==> o in undone.store
  {
    var up := ApplyTx(c, kv, applied, tx);
    var undone := HandleAll(c, up, acts);
    forall o | o in tx.inputs ensures Kept(kv.store, undone.store, o) {
      ActKeeps(c, kv, tx, applied, o);
      ActsKeep(c, up, acts, o);
    }
    HandledWellKeyed(c, kv, tx, applied, acts);
    ConsumedEventsIff(kv.store, undone.store, tx.inputs);
    SameSuffix(ConsumedEvents(kv.store, tx.inputs), ConsumedEvents(undone.store, tx.inputs),
               ProducedEvents(c, tx.hash, tx.outputs));
    if Inverted(Extracted(c, undone.store, tx)) == Inverted(Extracted(c, kv.store, tx)) {
      InvertedInjective(Extracted(c, undone.store, tx), Extracted(c, kv.store, tx));
    }
  }

  lemma {:induction false} IndexAllWellKeyed(c: Config, kv: Kv, now: nat, events: seq<Tagged>)
    requires WellKeyed(kv.store)
    ensures WellKeyed(IndexAll(c, kv, now, events).store)
  {
    if events != [] { IndexAllWellKeyed(c, kv, now, events[..|events| - 1]); }
  }

  lemma {:induction false} HandledWellKeyed(c: Config, kv: Kv, tx: TxView, applied: nat, acts: seq<Handling>)
    requires WellKeyed(kv.store)
    ensures WellKeyed(HandleAll(c, ApplyTx(c, kv, applied, tx), acts).store)
  {
    if acts == [] {
      EvictedWellKeyed(kv, applied);
      IndexAllWellKeyed(c, KvIndexes.Evicted(kv, applied), applied, Extracted(c, kv.store, tx));
    } else {
      var n := |acts| - 1;
      var before, now := HandleAll(c, ApplyTx(c, kv, applied, tx), acts[..n]), acts[n].at;
      HandledWellKeyed(c, kv, tx, applied, acts[..n]);
      EvictedWellKeyed(before, now);
      IndexAllWellKeyed(c, KvIndexes.Evicted(before, now), now, Extracted(c, before.store, acts[n].tx));
      IndexAllWellKeyed(c, KvIndexes.Evicted(before, now), now, Inverted(Extracted(c, before.store, acts[n].tx)));
    }
  }

  // ---- what undo does not undo: the pending eviction ----

  ghost predicate ConsumesRef(events: seq<Tagged>, o: OutputRef) {
    exists i :: 0 <= i < |events| && IsConsumed(events[i], o)
  }

  ghost predicate ProducesRef(events: seq<Tagged>, o: OutputRef) {
    exists i :: 0 <= i < |events| && IsProduced(events[i], o)
  }

  predicate IsConsumed(e: Tagged, o: OutputRef) { e.1.Consumed? && e.1.utxo.reference == o }

  predicate IsProduced(e: Tagged, o: OutputRef) { e.1.Produced? && e.1.utxo.reference == o }

  lemma RefsStep(events: seq<Tagged>, o: OutputRef)
    requires events != []
    ensures var n := |events| - 1;
            && (ConsumesRef(events, o) <==> ConsumesRef(events[..n], o) || IsConsumed(events[n], o))
            && (ProducesRef(events, o) <==> ProducesRef(events[..n], o) || IsProduced(events[n], o))
  {
    var n := |events| - 1;
    assert forall i :: 0 <= i < n ==> events[..n][i] == events[i];
    if i :| 0 <= i < n && IsConsumed(events[..n][i], o) { assert IsConsumed(events[i], o); }
    if i :| 0 <= i < n && IsProduced(events[..n][i], o) { assert IsProduced(events[i], o); }
  }

  /** Indexing stores what is produced and sets one deadline for what is consumed. */
  lemma {:induction false} IndexAllPending(c: Config, kv: Kv, now: nat, events: seq<Tagged>, o: OutputRef)
    requires KvIndexes.Clocked(kv, now + c.delay) && WellKeyed(kv.store)
    ensures var kv' := IndexAll(c, kv, now, events);
            && KvIndexes.Clocked(kv', now + c.delay) && WellKeyed(kv'.store)
            && (o in kv'.store <==> o in kv.store || ProducesRef(events, o))
            && forall d: nat :: KvIndexes.Pending(kv', d, o) <==>
                 KvIndexes.Pending(kv, d, o) || (d == now + c.delay && ConsumesRef(events, o))
  {
    if events != [] {
      var n := |events| - 1;
      IndexAllPending(c, kv, now, events[..n], o);
      RefsStep(events, o);
      PendingStep(c, IndexAll(c, kv, now, events[..n]), now, events[n], o);
    }
  }

  lemma PendingStep(c: Config, kv: Kv, now: nat, e: Tagged, o: OutputRef)
    ensures forall d: nat :: KvIndexes.Pending(IndexEvent(c, kv, now, e), d, o) <==>
              KvIndexes.Pending(kv, d, o) || (d == now + c.delay && IsConsumed(e, o))
  {
    var kv' := IndexEvent(c, kv, now, e);
    forall d: nat ensures KvIndexes.Pending(kv', d, o) <==>
        KvIndexes.Pending(kv, d, o) || (d == now + c.delay && IsConsumed(e, o))
    {
      if i :| 0 <= i < |kv.queue| && kv.queue[i] == (d, o) { assert kv'.queue[i] == (d, o); }
      if e.1.Consumed? { assert kv'.queue[|kv.queue|] == (now + c.delay, e.1.utxo.reference); }
    }
  }

  lemma {:induction false} ConsumedRefs(store: Store, inputs: seq<OutputRef>, o: OutputRef)
    requires WellKeyed(store)
    ensures ConsumesRef(ConsumedEvents(store, inputs), o) <==> o in inputs && o in store
    ensures !ProducesRef(ConsumedEvents(store, inputs), o)
  {
    if inputs != [] {
      var n := |inputs| - 1;
      ConsumedRefs(store, inputs[..n], o);
      assert inputs == inputs[..n] + [inputs[n]];
      var events := ConsumedEvents(store, inputs);
      if inputs[n] in store {
        assert events[..|events| - 1] == ConsumedEvents(store, inputs[..n]);
        RefsStep(events, o);
      } else {
        assert events == ConsumedEvents(store, inputs[..n]);
      }
    }
  }

  lemma {:induction false} ProducedRefs(c: Config, hash: Hash32, outputs: seq<(u64, TxOut)>, o: OutputRef)
    ensures !ConsumesRef(ProducedEvents(c, hash, outputs), o)
    ensures ProducesRef(ProducedEvents(c, hash, outputs), o) ==> o.txHash == hash
  {
    if outputs != [] { ProducedRefs(c, hash, outputs[..|outputs| - 1], o); }
  }

  lemma RefsSplit(a: seq<Tagged>, b: seq<Tagged>, o: OutputRef)
    ensures ConsumesRef(a + b, o) <==> ConsumesRef(a, o) || ConsumesRef(b, o)
    ensures ProducesRef(a + b, o) <==> ProducesRef(a, o) || ProducesRef(b, o)
  {
    assert forall i :: 0 <= i < |a| ==> (a + b)[i] == a[i];
    assert forall i :: 0 <= i < |b| ==> (a + b)[|a| + i] == b[i];
  }

  /** One of the transaction's outputs, at a funding address and not the one to be left alone. */
  predicate IsFundingOutput(c: Config, tx: TxView, ix: u64, out: TxOut) {
    (ix, out) in tx.outputs && IsFunding(c, out.address) && OutputRef(tx.hash, ix) != c.skip
  }

  lemma ExtractedRefs(c: Config, store: Store, tx: TxView, o: OutputRef)
    requires WellKeyed(store)
    ensures ConsumesRef(Extracted(c, store, tx), o) <==> tx.outputs != [] && o in tx.inputs && o in store
    ensures ProducesRef(Extracted(c, store, tx), o) ==> o.txHash == tx.hash
    ensures (exists ix: u64, out :: IsFundingOutput(c, tx, ix, out) && OutputRef(tx.hash, ix) == o) ==>
              ProducesRef(Extracted(c, store, tx), o)
  {
    ConsumedRefs(store, tx.inputs, o);
    ProducedRefs(c, tx.hash, tx.outputs, o);
    RefsSplit(ConsumedEvents(store, tx.inputs), ProducedEvents(c, tx.hash, tx.outputs), o);
    if ix: u64, out :| IsFundingOutput(c, tx, ix, out) && OutputRef(tx.hash, ix) == o {
      ProducedMembers(c, tx.hash, tx.outputs, ix, out);
    }
  }

  lemma InvertedRefs(events: seq<Tagged>, o: OutputRef)
    ensures ConsumesRef(Inverted(events), o) <==> ProducesRef(events, o)
    ensures ProducesRef(Inverted(events), o) <==> ConsumesRef(events, o)
  {
    forall i | 0 <= i < |events|
      ensures IsProduced(events[i], o) <==> IsConsumed(Inverted(events)[i], o)
      ensures IsConsumed(events[i], o) <==> IsProduced(Inverted(events)[i], o)
    {
    }
  }

  /** What a transaction, or its undo, does to one reference that is not due: it may store it and may set one
      deadline, and withdraws none. */
  lemma HandledPending(c: Config, kv: Kv, now: nat, events: seq<Tagged>, o: OutputRef)
    requires KvIndexes.Clocked(kv, now + c.delay) && WellKeyed(kv.store) && KvIndexes.NoneDue(kv, now, o)
    ensures var kv' := Indexed(c, kv, now, events);
            && KvIndexes.Clocked(kv', now + c.delay) && WellKeyed(kv'.store)
            && (o in kv'.store <==> o in kv.store || ProducesRef(events, o))
            && forall d: nat :: KvIndexes.Pending(kv', d, o) <==>
                 KvIndexes.Pending(kv, d, o) || (d == now + c.delay && ConsumesRef(events, o))
  {
    KvIndexes.EvictedPending(kv, now, now + c.delay, o);
    KvIndexes.EvictedIffDue(kv, now, now + c.delay, o);
    EvictedWellKeyed(kv, now);
    IndexAllPending(c, KvIndexes.Evicted(kv, now), now, events, o);
  }

  lemma {:induction false} EvictedWellKeyed(kv: Kv, now: nat)
    requires WellKeyed(kv.store)
    ensures WellKeyed(KvIndexes.Evicted(kv, now).store)
    decreases |kv.queue|
  {
    if kv.queue != [] && kv.queue[0].0 <= now {
      EvictedWellKeyed(KvIndexes.Kv(kv.store - {kv.queue[0].1}, kv.queue[1..]), now);
    }
  }

  lemma ClockedLater(kv: Kv, before: nat, after: nat)
    requires KvIndexes.Clocked(kv, before) && before <= after
    ensures KvIndexes.Clocked(kv, after)
  {
  }

  /** Storing the same entry again keeps it. */
  lemma {:induction false} IndexAllKeeps(c: Config, kv: Kv, now: nat, events: seq<Tagged>, o: OutputRef)
    requires o in kv.store
    requires forall i :: 0 <= i < |events| && events[i].1.Produced? && events[i].1.utxo.reference == o ==>
               (events[i].0, events[i].1.utxo) == kv.store[o]
    ensures o in IndexAll(c, kv, now, events).store && IndexAll(c, kv, now, events).store[o] == kv.store[o]
  {
    if events != [] { IndexAllKeeps(c, kv, now, events[..|events| - 1], o); }
  }

  /** An entry that is not due, and not an output of the transaction, keeps its content both ways. */
  lemma HandledKeeps(c: Config, kv: Kv, now: nat, tx: TxView, o: OutputRef)
    requires KvIndexes.Clocked(kv, now + c.delay) && WellKeyed(kv.store) && KvIndexes.NoneDue(kv, now, o)
    requires o in kv.store && o.txHash != tx.hash
    ensures o in ApplyTx(c, kv, now, tx).store && ApplyTx(c, kv, now, tx).store[o] == kv.store[o]
    ensures o in UnapplyTx(c, kv, now, tx).store && UnapplyTx(c, kv, now, tx).store[o] == kv.store[o]
  {
    var evicted, events := KvIndexes.Evicted(kv, now), Extracted(c, kv.store, tx);
    KvIndexes.EvictedIffDue(kv, now, now + c.delay, o);
    ExtractedGrounded(c, kv.store, tx);
    IndexAllKeeps(c, evicted, now, events, o);
    forall i | 0 <= i < |events| && Inverted(events)[i].1.Produced? && Inverted(events)[i].1.utxo.reference == o
      ensures (Inverted(events)[i].0, Inverted(events)[i].1.utxo) == evicted.store[o]
    {
      assert Grounded(events[i], kv.store, tx.hash);
    }
    IndexAllKeeps(c, evicted, now, Inverted(events), o);
  }

  /** The eviction registered when the transaction was applied is not withdrawn by undoing it: the restored
      funding output is back in the index, and stays there exactly until that deadline, or an earlier one that
      was already pending. */
  lemma RestoredFundingExpires(c: Config, kv: Kv, tx: TxView, o: OutputRef, applied: nat, undone: nat, later: nat)
    requires WellKeyed(kv.store) && KvIndexes.Clocked(kv, applied + c.delay) && KvIndexes.NoneDue(kv, undone, o)
    requires o in kv.store && o in tx.inputs && o.txHash != tx.hash && tx.outputs != []
    requires applied <= undone < applied + c.delay
    ensures var down := UnapplyTx(c, ApplyTx(c, kv, applied, tx), undone, tx);
            && o in down.store && down.store[o] == kv.store[o]
            && (o in KvIndexes.Evicted(down, later).store <==>
                later < applied + c.delay && KvIndexes.NoneDue(kv, later, o))
  {
    var up := ApplyTx(c, kv, applied, tx);
    var down := UnapplyTx(c, up, undone, tx);
    ExtractedRefs(c, kv.store, tx, o);
    HandledPending(c, kv, applied, Extracted(c, kv.store, tx), o);
    HandledKeeps(c, kv, applied, tx, o);
    ClockedLater(up, applied + c.delay, undone + c.delay);
    ExtractedRefs(c, up.store, tx, o);
    InvertedRefs(Extracted(c, up.store, tx), o);
    HandledPending(c, up, undone, Inverted(Extracted(c, up.store, tx)), o);
    HandledKeeps(c, up, undone, tx, o);
    KvIndexes.EvictedIffDue(down, later, undone + c.delay, o);
    assert KvIndexes.Pending(down, applied + c.delay, o);
  }

  /** The other half: undoing the transaction that produces a funding output registers it for eviction, and
      applying the transaction again does not withdraw that, so the live output is evicted at the deadline of
      the undo. */
  lemma ReappliedFundingExpires(c: Config, kv: Kv, tx: TxView, ix: u64, out: TxOut, applied: nat, undone: nat,
                                again: nat, later: nat)
    requires WellKeyed(kv.store) && KvIndexes.Clocked(kv, applied + c.delay)
    requires IsFundingOutput(c, tx, ix, out)
    requires OutputRef(tx.hash, ix) !in tx.inputs && KvIndexes.NoneDue(kv, again, OutputRef(tx.hash, ix))
    requires applied <= undone <= again < undone + c.delay
    ensures var back := ApplyTx(c, UnapplyTx(c, ApplyTx(c, kv, applied, tx), undone, tx), again, tx);
            var o := OutputRef(tx.hash, ix);
            && o in back.store
            && (o in KvIndexes.Evicted(back, later).store <==>
                later < undone + c.delay && KvIndexes.NoneDue(kv, later, o))
  {
    var o := OutputRef(tx.hash, ix);
    var up := ApplyTx(c, kv, applied, tx);
    var down := UnapplyTx(c, up, undone, tx);
    var back := ApplyTx(c, down, again, tx);
    ExtractedRefs(c, kv.store, tx, o);
    HandledPending(c, kv, applied, Extracted(c, kv.store, tx), o);
    ClockedLater(up, applied + c.delay, undone + c.delay);
    ExtractedRefs(c, up.store, tx, o);
    InvertedRefs(Extracted(c, up.store, tx), o);
    HandledPending(c, up, undone, Inverted(Extracted(c, up.store, tx)), o);
    ClockedLater(down, undone + c.delay, again + c.delay);
    ExtractedRefs(c, down.store, tx, o);
    HandledPending(c, down, again, Extracted(c, down.store, tx), o);
    KvIndexes.EvictedIffDue(back, later, again + c.delay, o);
    assert KvIndexes.Pending(back, undone + c.delay, o);
  }

  /** A failing input: the mempool's accept registers a consumed funding output for eviction, so if the block comes
      more than the delay later, the output is evicted then and undoing the block does not report it back. */
  lemma SeenEarlyIsNotInverted(c: Config, kv: Kv, tx: TxView, o: OutputRef, accepted: nat, applied: nat)
    requires WellKeyed(kv.store) && KvIndexes.Clocked(kv, accepted + c.delay) && KvIndexes.NoneDue(kv, accepted, o)
    requires o in kv.store && o in tx.inputs && tx.outputs != [] && accepted + c.delay <= applied
    requires forall q :: q in tx.inputs ==> q.txHash != tx.hash
    ensures var seen := ApplyTx(c, kv, accepted, tx);
            && Extracted(c, seen.store, tx) != Extracted(c, ApplyTx(c, seen, applied, tx).store, tx)
            && o in seen.store && o !in ApplyTx(c, seen, applied, tx).store
  {
    var seen := ApplyTx(c, kv, accepted, tx);
    var up := ApplyTx(c, seen, applied, tx);
    var events := Extracted(c, seen.store, tx);
    ExtractedRefs(c, kv.store, tx, o);
    HandledPending(c, kv, accepted, Extracted(c, kv.store, tx), o);
    assert KvIndexes.Pending(seen, accepted + c.delay, o);
    KvIndexes.EvictedIffDue(seen, applied, accepted + c.delay, o);
    KvIndexes.EvictedPending(seen, applied, accepted + c.delay, o);
    ClockedLater(KvIndexes.Evicted(seen, applied), accepted + c.delay, applied + c.delay);
    EvictedWellKeyed(seen, applied);
    ExtractedRefs(c, seen.store, tx, o);
    IndexAllPending(c, KvIndexes.Evicted(seen, applied), applied, events, o);
    UndoEmitsInverseIff(c, seen, tx, applied, []);
  }
}
