/** Laws of whole runs of the index: order independence, absorption and undo. */
module IndexRuns {
  import opened Options
  import opened Bytes
  import opened Lists
  import opened Keys
  import opened Ledger
  import opened IndexTables

  type Rows = map<OutputRef, Row>

  // ---- what applying and unapplying do to the rows, all at once ----

  function SetSpent(m: Rows, inputs: seq<OutputRef>, spent: bool): Rows {
    map o | o in m :: if o in inputs then m[o].(spent := spent) else m[o]
  }

  function Stored(m: Rows, tx: Tx, slot: Option<u64>): Rows {
    map o | o in m.Keys + OutputsOf(tx) ::
      if Produces(tx, o) then Row(tx.outputs[o.index], slot, o in m && m[o].spent) else m[o]
  }

  function Forgotten(m: Rows, hash: Hash32, count: nat): Rows {
    map o | o in m && !(o.txHash == hash && o.index < count) :: m[o]
  }

  function ApplyRows(m: Rows, tx: Tx, slot: Option<u64>): Rows {
    map o | o in m.Keys + OutputsOf(tx) ::
      var spent := o in m && (m[o].spent || Consumes(tx, o));
      if Produces(tx, o) then Row(tx.outputs[o.index], slot, spent) else m[o].(spent := spent)
  }

  function UnapplyRows(m: Rows, tx: Tx): Rows {
    map o | o in m && !Produces(tx, o) :: if Consumes(tx, o) then m[o].(spent := false) else m[o]
  }

  lemma SetSpentStep(m: Rows, inputs: seq<OutputRef>, o: OutputRef, spent: bool)
    ensures SetSpent(m, inputs + [o], spent) ==
            var rest := SetSpent(m, inputs, spent); if o in rest then rest[o := rest[o].(spent := spent)] else rest
  {
  }

  lemma {:induction false} UpdateInputsRows(t: Tables, inputs: seq<OutputRef>, slot: Option<u64>, spent: bool)
    ensures UpdateInputs(t, inputs, slot, spent).txo == SetSpent(t.txo, inputs, spent)
  {
    if inputs != [] {
      var n := |inputs| - 1;
      UpdateInputsRows(t, inputs[..n], slot, spent);
      SetSpentStep(t.txo, inputs[..n], inputs[n], spent);
      assert inputs == inputs[..n] + [inputs[n]];
    } else {
      assert SetSpent(t.txo, [], spent) == t.txo;
    }
  }

  lemma UpdateUnspentRows(t: Tables, o: OutputRef, out: TxOut, slot: Option<u64>)
    ensures UpdateUnspent(t, o, out, slot).txo == t.txo[o := Row(out, slot, o in t.txo && t.txo[o].spent)]
  {
  }

  lemma StoredStep(m: Rows, hash: Hash32, outputs: Outputs, slot: Option<u64>)
    requires outputs != []
    ensures var n := |outputs| - 1;
            var o := OutputRef(hash, n);
            Stored(m, Tx(hash, [], outputs), slot) ==
            Stored(m, Tx(hash, [], outputs[..n]), slot)[o := Row(outputs[n], slot, o in m && m[o].spent)]
  {
    var n := |outputs| - 1;
    var o := OutputRef(hash, n);
    var all, most := Tx(hash, [], outputs), Tx(hash, [], outputs[..n]);
    forall q ensures Produces(all, q) <==> Produces(most, q) || q == o {
    }
  }

  lemma {:induction false} AddOutputsRows(t: Tables, hash: Hash32, outputs: Outputs, slot: Option<u64>)
    ensures AddOutputs(t, hash, outputs, slot).txo == Stored(t.txo, Tx(hash, [], outputs), slot)
  {
    if outputs == [] {
      assert Stored(t.txo, Tx(hash, [], outputs), slot) == t.txo;
    } else {
      var n := |outputs| - 1;
      AddOutputsRows(t, hash, outputs[..n], slot);
      StoredStep(t.txo, hash, outputs, slot);
      UpdateUnspentRows(AddOutputs(t, hash, outputs[..n], slot), OutputRef(hash, n), outputs[n], slot);
    }
  }

  lemma {:induction false} DropOutputsRows(t: Tables, hash: Hash32, count: nat)
    requires count <= U64_MAX
    ensures DropOutputs(t, hash, count).txo == Forgotten(t.txo, hash, count)
  {
    if count > 0 { DropOutputsRows(t, hash, count - 1); }
  }

  lemma SpendThenStore(m: Rows, tx: Tx, slot: Option<u64>)
    ensures Stored(SetSpent(m, tx.inputs, true), Tx(tx.hash, [], tx.outputs), slot) == ApplyRows(m, tx, slot)
  {
    var a, b := Stored(SetSpent(m, tx.inputs, true), Tx(tx.hash, [], tx.outputs), slot), ApplyRows(m, tx, slot);
    forall o ensures Produces(Tx(tx.hash, [], tx.outputs), o) <==> Produces(tx, o) {
    }
    assert a.Keys == b.Keys;
    forall o | o in a ensures a[o] == b[o] {
    }
  }

  /** The input and output loops of one apply, as one pointwise change of the rows. */
  lemma ApplyIsPointwise(t: Tables, tx: Tx, slot: Option<u64>)
    ensures Apply(t, tx, slot).txo == ApplyRows(t.txo, tx, slot)
  {
    UpdateInputsRows(t, tx.inputs, slot, true);
    AddOutputsRows(UpdateInputs(t, tx.inputs, slot, true), tx.hash, tx.outputs, slot);
    SpendThenStore(t.txo, tx, slot);
  }

  lemma UnapplyIsPointwise(t: Tables, tx: Tx)
    ensures Unapply(t, tx).txo == UnapplyRows(t.txo, tx)
  {
    UpdateInputsRows(t, tx.inputs, None, false);
    DropOutputsRows(UpdateInputs(t, tx.inputs, None, false), tx.hash, |tx.outputs|);
  }

  // ---- sequences of applies, from the mempool (no slot) or the ledger ----

  datatype Feed = Feed(tx: Tx, slot: Option<u64>)

  function RunRows(m: Rows, feeds: seq<Feed>): Rows {
    if feeds == [] then m
    else ApplyRows(RunRows(m, feeds[..|feeds| - 1]), feeds[|feeds| - 1].tx, feeds[|feeds| - 1].slot)
  }

  function FeedEvents(feeds: seq<Feed>): (r: seq<Event>)
    ensures |r| == |feeds|
  {
    seq(|feeds|, i requires 0 <= i < |feeds| => Applied(feeds[i].tx, feeds[i].slot))
  }

  lemma {:induction false} RunFeeds(feeds: seq<Feed>)
    ensures Run(EMPTY, FeedEvents(feeds)).txo == RunRows(map[], feeds)
    ensures Coherent(Run(EMPTY, FeedEvents(feeds)))
    ensures forall u :: Sentinel(u) !in Run(EMPTY, FeedEvents(feeds)).unit
  {
    EveryRunCoherent(FeedEvents(feeds));
    if feeds != [] {
      var n := |feeds| - 1;
      RunFeeds(feeds[..n]);
      assert FeedEvents(feeds)[..n] == FeedEvents(feeds[..n]);
      var t := Run(EMPTY, FeedEvents(feeds[..n]));
      ApplyIsPointwise(t, feeds[n].tx, feeds[n].slot);
      forall u ensures Sentinel(u) !in Run(EMPTY, FeedEvents(feeds)).unit {
        ApplyAddsNoSentinel(t, feeds[n].tx, feeds[n].slot, u);
      }
    }
  }

  ghost predicate ProducedIn(feeds: seq<Feed>, o: OutputRef) {
    exists j :: 0 <= j < |feeds| && Produces(feeds[j].tx, o)
  }

  ghost predicate ConsumedIn(feeds: seq<Feed>, o: OutputRef) {
    exists i :: 0 <= i < |feeds| && Consumes(feeds[i].tx, o)
  }

  /** Some transaction consumes the output after some transaction has produced it. */
  ghost predicate SpentIn(feeds: seq<Feed>, o: OutputRef) {
    exists j, i :: 0 <= j < i < |feeds| && Produces(feeds[j].tx, o) && Consumes(feeds[i].tx, o)
  }

  /** The row is the one written by feed `j`, the last one to produce the output. */
  ghost predicate WrittenBy(row: Row, feeds: seq<Feed>, o: OutputRef, j: int) {
    && 0 <= j < |feeds| && Produces(feeds[j].tx, o)
    && (forall k :: j < k < |feeds| ==> !Produces(feeds[k].tx, o))
    && row.out == feeds[j].tx.outputs[o.index] && row.settledAt == feeds[j].slot
  }

  lemma ApplyRowAt(m: Rows, tx: Tx, slot: Option<u64>, o: OutputRef)
    ensures o in ApplyRows(m, tx, slot) <==> o in m || Produces(tx, o)
    ensures o in ApplyRows(m, tx, slot) ==>
              var row := ApplyRows(m, tx, slot)[o];
              && row.spent == (o in m && (m[o].spent || Consumes(tx, o)))
              && (Produces(tx, o) ==> row.out == tx.outputs[o.index] && row.settledAt == slot)
              && (!Produces(tx, o) ==> row.out == m[o].out && row.settledAt == m[o].settledAt)
  {
  }

  lemma {:induction false} RunStored(feeds: seq<Feed>, o: OutputRef)
    ensures o in RunRows(map[], feeds) <==> ProducedIn(feeds, o)
  {
    if feeds != [] {
      var n := |feeds| - 1;
      RunStored(feeds[..n], o);
      ProducedInStep(feeds, o);
      ApplyRowAt(RunRows(map[], feeds[..n]), feeds[n].tx, feeds[n].slot, o);
    }
  }

  lemma {:induction false} RunSpent(feeds: seq<Feed>, o: OutputRef)
    ensures o in RunRows(map[], feeds) ==> (RunRows(map[], feeds)[o].spent <==> SpentIn(feeds, o))
    ensures SpentIn(feeds, o) ==> ProducedIn(feeds, o)
  {
    if feeds != [] {
      var n := |feeds| - 1;
      RunSpent(feeds[..n], o);
      RunStored(feeds[..n], o);
      ProducedInStep(feeds, o);
      SpentInStep(feeds, o);
      ApplyRowAt(RunRows(map[], feeds[..n]), feeds[n].tx, feeds[n].slot, o);
    }
  }

  ghost predicate Written(row: Row, feeds: seq<Feed>, o: OutputRef) { exists j :: WrittenBy(row, feeds, o, j) }

  lemma WrittenStep(below: Rows, feeds: seq<Feed>, o: OutputRef)
    requires feeds != [] && (o in below ==> Written(below[o], feeds[..|feeds| - 1], o))
    requires o in below || Produces(feeds[|feeds| - 1].tx, o)
    ensures var last := feeds[|feeds| - 1]; Written(ApplyRows(below, last.tx, last.slot)[o], feeds, o)
  {
    var n := |feeds| - 1;
    var row := ApplyRows(below, feeds[n].tx, feeds[n].slot)[o];
    if Produces(feeds[n].tx, o) {
      assert WrittenBy(row, feeds, o, n);
    } else {
      var j :| WrittenBy(below[o], feeds[..n], o, j);
      WrittenByPrefix(below[o], feeds, n, o, j);
      assert WrittenBy(row, feeds, o, j);
    }
  }

  lemma {:induction false} RunWritten(feeds: seq<Feed>, o: OutputRef)
    requires o in RunRows(map[], feeds)
    ensures Written(RunRows(map[], feeds)[o], feeds, o)
  {
    var n := |feeds| - 1;
    if o in RunRows(map[], feeds[..n]) { RunWritten(feeds[..n], o); }
    ApplyRowAt(RunRows(map[], feeds[..n]), feeds[n].tx, feeds[n].slot, o);
    WrittenStep(RunRows(map[], feeds[..n]), feeds, o);
  }

  /** The rows after any sequence of applies, in any order and with any repetition: an output is stored iff
      some transaction produced it, it is spent iff one consumed it later than that, and its content and slot
      are those of the last producer. */
  lemma RunCharacterised(feeds: seq<Feed>, o: OutputRef)
    ensures o in RunRows(map[], feeds) <==> ProducedIn(feeds, o)
    ensures o in RunRows(map[], feeds) ==> (RunRows(map[], feeds)[o].spent <==> SpentIn(feeds, o))
    ensures o in RunRows(map[], feeds) ==> Written(RunRows(map[], feeds)[o], feeds, o)
  {
    RunStored(feeds, o);
    RunSpent(feeds, o);
    if o in RunRows(map[], feeds) { RunWritten(feeds, o); }
  }

  lemma WrittenByPrefix(row: Row, feeds: seq<Feed>, n: nat, o: OutputRef, j: int)
    requires n < |feeds| && WrittenBy(row, feeds[..n], o, j)
    requires forall k :: n <= k < |feeds| ==> !Produces(feeds[k].tx, o)
    ensures WrittenBy(row, feeds, o, j)
  {
    forall k | j < k < |feeds| ensures !Produces(feeds[k].tx, o) {
      if k < n { assert feeds[..n][k] == feeds[k]; }
    }
  }

  lemma ProducedInStep(feeds: seq<Feed>, o: OutputRef)
    requires feeds != []
    ensures ProducedIn(feeds, o) <==>
            ProducedIn(feeds[..|feeds| - 1], o) || Produces(feeds[|feeds| - 1].tx, o)
  {
    var n := |feeds| - 1;
    if ProducedIn(feeds[..n], o) {
      var j :| 0 <= j < n && Produces(feeds[..n][j].tx, o);
      assert Produces(feeds[j].tx, o);
    }
    if ProducedIn(feeds, o) {
      var j :| 0 <= j < |feeds| && Produces(feeds[j].tx, o);
      if j < n { assert Produces(feeds[..n][j].tx, o); }
    }
  }

  lemma SpentInStep(feeds: seq<Feed>, o: OutputRef)
    requires feeds != []
    ensures SpentIn(feeds, o) <==>
            SpentIn(feeds[..|feeds| - 1], o) ||
            (ProducedIn(feeds[..|feeds| - 1], o) && Consumes(feeds[|feeds| - 1].tx, o))
  {
    var n := |feeds| - 1;
    var before := feeds[..n];
    if SpentIn(before, o) {
      var j, i :| 0 <= j < i < n && Produces(before[j].tx, o) && Consumes(before[i].tx, o);
      assert Produces(feeds[j].tx, o) && Consumes(feeds[i].tx, o);
    }
    if ProducedIn(before, o) && Consumes(feeds[n].tx, o) {
      var j :| 0 <= j < n && Produces(before[j].tx, o);
      assert Produces(feeds[j].tx, o);
    }
    if SpentIn(feeds, o) {
      var j, i :| 0 <= j < i < |feeds| && Produces(feeds[j].tx, o) && Consumes(feeds[i].tx, o);
      assert before[j] == feeds[j];
      if i < n { assert before[i] == feeds[i]; }
    }
  }

  // ---- order independence ----

  /** No transaction consumes an output before the transaction that produces it has been seen. */
  ghost predicate Causal(feeds: seq<Feed>) {
    forall i, o :: 0 <= i < |feeds| && Consumes(feeds[i].tx, o) && ProducedIn(feeds, o) ==>
      ProducedIn(feeds[..i], o)
  }

  /** Hashes identify transactions. */
  ghost predicate HashConsistent(feeds: seq<Feed>) {
    forall i, j :: 0 <= i < |feeds| && 0 <= j < |feeds| && feeds[i].tx.hash == feeds[j].tx.hash ==>
      feeds[i].tx == feeds[j].tx
  }

  function TxsOf(feeds: seq<Feed>): set<Tx> {
    set i | 0 <= i < |feeds| :: feeds[i].tx
  }

  ghost predicate SameButSlots(a: Rows, b: Rows) {
    a.Keys == b.Keys && forall o :: o in a ==> a[o].out == b[o].out && a[o].spent == b[o].spent
  }

  /** In a causal run a stored output is spent iff some applied transaction consumes it. */
  lemma SpentIffConsumed(feeds: seq<Feed>, o: OutputRef)
    requires Causal(feeds) && ProducedIn(feeds, o)
    ensures o in RunRows(map[], feeds)
    ensures RunRows(map[], feeds)[o].spent <==> ConsumedIn(feeds, o)
  {
    RunCharacterised(feeds, o);
    if ConsumedIn(feeds, o) {
      var i :| 0 <= i < |feeds| && Consumes(feeds[i].tx, o);
      assert ProducedIn(feeds[..i], o);
      var j :| 0 <= j < i && Produces(feeds[..i][j].tx, o);
      assert Produces(feeds[j].tx, o);
    }
  }

  /** Without causality the flag can be wrong: a spend seen before its output is lost. */
  lemma EarlySpendIsLost(producer: Tx, consumer: Tx, o: OutputRef)
    requires Produces(producer, o) && Consumes(consumer, o)
    requires !Consumes(producer, o) && !Produces(consumer, o)
    ensures var m := RunRows(map[], [Feed(consumer, None), Feed(producer, None)]); o in m && !m[o].spent
    ensures var m := RunRows(map[], [Feed(producer, None), Feed(consumer, None)]); o in m && m[o].spent
  {
    var early, late := [Feed(consumer, None), Feed(producer, None)], [Feed(producer, None), Feed(consumer, None)];
    RunCharacterised(early, o);
    RunCharacterised(late, o);
    assert Produces(early[1].tx, o) && Produces(late[0].tx, o) && Consumes(late[1].tx, o);
  }

  /** The flags are right for every stored output exactly when each one that is consumed at all is consumed
      at least once after it was produced. */
  lemma FlagsRightIff(feeds: seq<Feed>)
    ensures (forall o :: o in RunRows(map[], feeds) ==> (RunRows(map[], feeds)[o].spent <==> ConsumedIn(feeds, o)))
            <==> forall o :: ProducedIn(feeds, o) && ConsumedIn(feeds, o) ==> SpentIn(feeds, o)
  {
    forall o ensures SpentIn(feeds, o) ==> ConsumedIn(feeds, o) {
    }
    forall o
      ensures o in RunRows(map[], feeds) <==> ProducedIn(feeds, o)
      ensures o in RunRows(map[], feeds) ==> (RunRows(map[], feeds)[o].spent <==> SpentIn(feeds, o))
    {
      RunCharacterised(feeds, o);
    }
  }

  lemma TxsOfMembers(a: seq<Feed>, b: seq<Feed>, i: nat) returns (j: nat)
    requires TxsOf(a) == TxsOf(b) && i < |a|
    ensures j < |b| && a[i].tx == b[j].tx
  {
    assert a[i].tx in TxsOf(a);
    j :| j < |b| && b[j].tx == a[i].tx;
  }

  lemma ProducedInBoth(a: seq<Feed>, b: seq<Feed>, o: OutputRef)
    requires TxsOf(a) == TxsOf(b)
    ensures ProducedIn(a, o) ==> ProducedIn(b, o)
    ensures ConsumedIn(a, o) ==> ConsumedIn(b, o)
  {
    if ProducedIn(a, o) {
      var i :| 0 <= i < |a| && Produces(a[i].tx, o);
      var j := TxsOfMembers(a, b, i);
      assert Produces(b[j].tx, o);
    }
    if ConsumedIn(a, o) {
      var i :| 0 <= i < |a| && Consumes(a[i].tx, o);
      var j := TxsOfMembers(a, b, i);
      assert Consumes(b[j].tx, o);
    }
  }

  /** Two causal runs over the same transactions, however interleaved and repeated, agree on which outputs
      exist, what they contain and which are spent. */
  lemma Confluence(a: seq<Feed>, b: seq<Feed>)
    requires TxsOf(a) == TxsOf(b) && Causal(a) && Causal(b) && HashConsistent(a)
    ensures SameButSlots(RunRows(map[], a), RunRows(map[], b))
  {
    var ma, mb := RunRows(map[], a), RunRows(map[], b);
    forall o
      ensures o in ma <==> o in mb
      ensures o in ma && o in mb ==> ma[o].out == mb[o].out && ma[o].spent == mb[o].spent
    {
      RunCharacterised(a, o);
      RunCharacterised(b, o);
      ProducedInBoth(a, b, o);
      ProducedInBoth(b, a, o);
      if o in ma && o in mb {
        SpentIffConsumed(a, o);
        SpentIffConsumed(b, o);
        var i :| WrittenBy(ma[o], a, o, i);
        var j :| WrittenBy(mb[o], b, o, j);
        var k := TxsOfMembers(b, a, j);
        assert a[i].tx.hash == a[k].tx.hash;
      }
    }
  }

  /** Rows that agree up to their slots give the same unspent tables and the same unit entries. */
  lemma SameRowsSameIndexes(s: Tables, t: Tables)
    requires Coherent(s) && Coherent(t) && SameButSlots(s.txo, t.txo)
    ensures s.payment.unspent == t.payment.unspent && s.stake.unspent == t.stake.unspent
    ensures forall u, o :: Entry(u, o) in s.unit <==> Entry(u, o) in t.unit
  {
    forall k: CredKey ensures k in s.payment.unspent <==> k in t.payment.unspent {
      assert k == CredKey(k.cred, k.oref);
    }
    forall k: CredKey ensures k in s.stake.unspent <==> k in t.stake.unspent {
      assert k == CredKey(k.cred, k.oref);
    }
  }

  /** The same for the tables of two whole runs from a fresh database. */
  lemma ConfluentTables(a: seq<Feed>, b: seq<Feed>)
    requires TxsOf(a) == TxsOf(b) && Causal(a) && Causal(b) && HashConsistent(a)
    ensures var s, t := Run(EMPTY, FeedEvents(a)), Run(EMPTY, FeedEvents(b));
            s.payment.unspent == t.payment.unspent && s.stake.unspent == t.stake.unspent && s.unit == t.unit
  {
    var s, t := Run(EMPTY, FeedEvents(a)), Run(EMPTY, FeedEvents(b));
    RunFeeds(a);
    RunFeeds(b);
    Confluence(a, b);
    SameRowsSameIndexes(s, t);
    forall k: UnitKey ensures k in s.unit <==> k in t.unit {
      assert k == if k.Entry? then Entry(k.unit, k.oref) else Sentinel(k.unit);
    }
  }

  // ---- absorption ----

  /** Applying a transaction again after any further applies changes only the slot of its own outputs. */
  lemma ConfirmationAbsorbed(feeds: seq<Feed>, tx: Tx, slot: Option<u64>)
    requires Causal(feeds) && HashConsistent(feeds) && tx in TxsOf(feeds)
    ensures var m := RunRows(map[], feeds);
            ApplyRows(m, tx, slot) == map o | o in m :: if Produces(tx, o) then m[o].(settledAt := slot) else m[o]
  {
    var m := RunRows(map[], feeds);
    var n :| 0 <= n < |feeds| && feeds[n].tx == tx;
    forall o | Produces(tx, o) ensures o in m && m[o].out == tx.outputs[o.index] {
      RunCharacterised(feeds, o);
      assert ProducedIn(feeds, o);
      var j :| WrittenBy(m[o], feeds, o, j);
      assert feeds[j].tx.hash == feeds[n].tx.hash;
    }
    forall o | o in m && Consumes(tx, o) ensures m[o].spent {
      RunCharacterised(feeds, o);
      SpentIffConsumed(feeds, o);
      assert Consumes(feeds[n].tx, o);
    }
    RepeatedRows(m, tx, slot);
  }

  lemma RepeatedRows(m: Rows, tx: Tx, slot: Option<u64>)
    requires forall o :: Produces(tx, o) ==> o in m && m[o].out == tx.outputs[o.index]
    requires forall o :: o in m && Consumes(tx, o) ==> m[o].spent
    ensures ApplyRows(m, tx, slot) == map o | o in m :: if Produces(tx, o) then m[o].(settledAt := slot) else m[o]
  {
    var a := ApplyRows(m, tx, slot);
    assert a.Keys == m.Keys;
    forall o | o in m ensures a[o] == if Produces(tx, o) then m[o].(settledAt := slot) else m[o] {
      ApplyRowAt(m, tx, slot, o);
    }
  }

  /** The feed repeats an earlier apply, and no later apply of that transaction carried another slot. */
  ghost predicate Settled(feeds: seq<Feed>, f: Feed) {
    exists i :: 0 <= i < |feeds| && feeds[i] == f &&
      forall j :: i < j < |feeds| && feeds[j].tx == f.tx ==> feeds[j].slot == f.slot
  }

  lemma SettledSlot(feeds: seq<Feed>, f: Feed, o: OutputRef)
    requires HashConsistent(feeds) && Settled(feeds, f)
    requires o in RunRows(map[], feeds) && Produces(f.tx, o)
    ensures RunRows(map[], feeds)[o].settledAt == f.slot
  {
    var i :| 0 <= i < |feeds| && feeds[i] == f &&
             forall j :: i < j < |feeds| && feeds[j].tx == f.tx ==> feeds[j].slot == f.slot;
    RunWritten(feeds, o);
    var j :| WrittenBy(RunRows(map[], feeds)[o], feeds, o, j);
    assert feeds[j].tx.hash == feeds[i].tx.hash;
  }

  lemma SettledIsNoOp(feeds: seq<Feed>, f: Feed)
    requires Causal(feeds) && HashConsistent(feeds) && Settled(feeds, f)
    ensures ApplyRows(RunRows(map[], feeds), f.tx, f.slot) == RunRows(map[], feeds)
  {
    var m := RunRows(map[], feeds);
    assert f.tx in TxsOf(feeds);
    ConfirmationAbsorbed(feeds, f.tx, f.slot);
    forall o | o in m && Produces(f.tx, o) ensures m[o].settledAt == f.slot {
      SettledSlot(feeds, f, o);
    }
  }

  /** Replaying settled transactions, as many as wanted and in any order, leaves every row as it was. */
  lemma {:induction false} ReplayIsNoOp(feeds: seq<Feed>, replay: seq<Feed>)
    requires Causal(feeds) && HashConsistent(feeds)
    requires forall i :: 0 <= i < |replay| ==> Settled(feeds, replay[i])
    ensures RunRows(RunRows(map[], feeds), replay) == RunRows(map[], feeds)
  {
    if replay != [] {
      ReplayIsNoOp(feeds, replay[..|replay| - 1]);
      SettledIsNoOp(feeds, replay[|replay| - 1]);
    }
  }

  // ---- undo ----

  /** The transaction's stored inputs are unspent and none of its outputs is stored. */
  ghost predicate Fresh(m: Rows, tx: Tx) {
    && (forall o :: o in m && Consumes(tx, o) ==> !m[o].spent)
    && (forall o :: o in m ==> !Produces(tx, o))
  }

  /** Unapplying what was just applied restores the rows exactly when the transaction was fresh. */
  lemma UndoRestoresIff(m: Rows, tx: Tx, slot: Option<u64>)
    ensures UnapplyRows(ApplyRows(m, tx, slot), tx) == m <==> Fresh(m, tx)
  {
    var m' := UnapplyRows(ApplyRows(m, tx, slot), tx);
    if m' == m {
      forall o | o in m ensures !Produces(tx, o) && (Consumes(tx, o) ==> !m[o].spent) {
        assert o in m' && m'[o] == m[o];
      }
    }
    if Fresh(m, tx) {
      forall o | o in m ensures o in m' && m'[o] == m[o] {
      }
    }
  }

  function ApplyTimes(m: Rows, tx: Tx, slots: seq<Option<u64>>): Rows {
    if slots == [] then m else ApplyRows(ApplyTimes(m, tx, slots[..|slots| - 1]), tx, slots[|slots| - 1])
  }

  /** One unapply undoes any number of applies: mempool first, then one or more confirmations. */
  lemma {:induction false} UndoManyApplies(m: Rows, tx: Tx, slots: seq<Option<u64>>)
    requires Fresh(m, tx)
    ensures UnapplyRows(ApplyTimes(m, tx, slots), tx) == m
  {
    if slots == [] {
      assert UnapplyRows(m, tx) == m;
    } else {
      var n := |slots| - 1;
      UndoManyApplies(m, tx, slots[..n]);
      var before := ApplyTimes(m, tx, slots[..n]);
      assert UnapplyRows(ApplyRows(before, tx, slots[n]), tx) == UnapplyRows(before, tx);
    }
  }

  datatype Layer = Layer(tx: Tx, slots: seq<Option<u64>>)

  function ApplyStack(m: Rows, stack: seq<Layer>): Rows {
    if stack == [] then m
    else ApplyTimes(ApplyStack(m, stack[..|stack| - 1]), stack[|stack| - 1].tx, stack[|stack| - 1].slots)
  }

  /** Unapply every transaction of the stack, the last one first. */
  function UndoStack(m: Rows, stack: seq<Layer>): Rows {
    if stack == [] then m else UndoStack(UnapplyRows(m, stack[|stack| - 1].tx), stack[..|stack| - 1])
  }

  ghost predicate FreshStack(m: Rows, stack: seq<Layer>) {
    forall i :: 0 <= i < |stack| ==> Fresh(ApplyStack(m, stack[..i]), stack[i].tx)
  }

  lemma FreshStackPrefix(m: Rows, stack: seq<Layer>)
    requires FreshStack(m, stack) && stack != []
    ensures FreshStack(m, stack[..|stack| - 1])
  {
    var p := stack[..|stack| - 1];
    forall i | 0 <= i < |p| ensures Fresh(ApplyStack(m, p[..i]), p[i].tx) {
      assert p[..i] == stack[..i];
    }
  }

  /** Undoing a stack of fresh transactions in reverse order gives back the rows below it. */
  lemma {:induction false} UndoStackRestores(m: Rows, stack: seq<Layer>)
    requires FreshStack(m, stack)
    ensures UndoStack(ApplyStack(m, stack), stack) == m
  {
    if stack != [] {
      var n := |stack| - 1;
      UndoManyApplies(ApplyStack(m, stack[..n]), stack[n].tx, stack[n].slots);
      FreshStackPrefix(m, stack);
      UndoStackRestores(m, stack[..n]);
    }
  }

  // ---- undo of the tables, and the one thing it does not give back ----

  function ApplyTablesTimes(t: Tables, tx: Tx, slots: seq<Option<u64>>): Tables {
    if slots == [] then t else Apply(ApplyTablesTimes(t, tx, slots[..|slots| - 1]), tx, slots[|slots| - 1])
  }

  lemma {:induction false} ApplyTablesTimesRows(t: Tables, tx: Tx, slots: seq<Option<u64>>)
    requires Coherent(t)
    ensures ApplyTablesTimes(t, tx, slots).txo == ApplyTimes(t.txo, tx, slots)
    ensures Coherent(ApplyTablesTimes(t, tx, slots))
    ensures forall u :: Sentinel(u) in ApplyTablesTimes(t, tx, slots).unit ==> Sentinel(u) in t.unit
  {
    if slots != [] {
      var n := |slots| - 1;
      ApplyTablesTimesRows(t, tx, slots[..n]);
      var before := ApplyTablesTimes(t, tx, slots[..n]);
      ApplyIsPointwise(before, tx, slots[n]);
      StepCoherent(before, Applied(tx, slots[n]));
      forall u { ApplyAddsNoSentinel(before, tx, slots[n], u); }
    }
  }

  lemma {:induction false} UpdateInputsSentinel(t: Tables, inputs: seq<OutputRef>, slot: Option<u64>, spent: bool,
                                                u: seq<byte>)
    ensures Sentinel(u) in UpdateInputs(t, inputs, slot, spent).unit ==> Sentinel(u) in t.unit
    ensures Sentinel(u) in t.unit &&
            (spent || forall o :: o in inputs && o in t.txo ==> u !in OutputUnits(t.txo[o].out)) ==>
              Sentinel(u) in UpdateInputs(t, inputs, slot, spent).unit
  {
    if inputs != [] {
      var n := |inputs| - 1;
      UpdateInputsSentinel(t, inputs[..n], slot, spent, u);
      UpdateInputsRows(t, inputs[..n], slot, spent);
    }
  }

  lemma {:induction false} AddOutputsSentinel(t: Tables, hash: Hash32, outputs: Outputs, slot: Option<u64>,
                                              u: seq<byte>)
    ensures Sentinel(u) in AddOutputs(t, hash, outputs, slot).unit ==> Sentinel(u) in t.unit
    ensures Sentinel(u) in t.unit && (forall i :: 0 <= i < |outputs| ==> u !in OutputUnits(outputs[i])) ==>
              Sentinel(u) in AddOutputs(t, hash, outputs, slot).unit
  {
    if outputs != [] { AddOutputsSentinel(t, hash, outputs[..|outputs| - 1], slot, u); }
  }

  lemma {:induction false} DropOutputsSentinel(t: Tables, hash: Hash32, count: nat, u: seq<byte>)
    requires count <= U64_MAX
    ensures Sentinel(u) in DropOutputs(t, hash, count).unit <==> Sentinel(u) in t.unit
  {
    if count > 0 { DropOutputsSentinel(t, hash, count - 1, u); }
  }

  lemma ApplyAddsNoSentinel(t: Tables, tx: Tx, slot: Option<u64>, u: seq<byte>)
    ensures Sentinel(u) in Apply(t, tx, slot).unit ==> Sentinel(u) in t.unit
    ensures Sentinel(u) in t.unit && !HoldsUnit(tx, u) ==> Sentinel(u) in Apply(t, tx, slot).unit
  {
    UpdateInputsSentinel(t, tx.inputs, slot, true, u);
    AddOutputsSentinel(UpdateInputs(t, tx.inputs, slot, true), tx.hash, tx.outputs, slot, u);
  }

  lemma UnapplySentinel(t: Tables, tx: Tx, u: seq<byte>)
    ensures Sentinel(u) in Unapply(t, tx).unit ==> Sentinel(u) in t.unit
    ensures Sentinel(u) in t.unit && (forall o :: Consumes(tx, o) && o in t.txo ==> u !in OutputUnits(t.txo[o].out)) ==>
              Sentinel(u) in Unapply(t, tx).unit
  {
    UpdateInputsSentinel(t, tx.inputs, None, false, u);
    DropOutputsSentinel(UpdateInputs(t, tx.inputs, None, false), tx.hash, |tx.outputs|, u);
  }

  /** Some output of the transaction holds the unit. */
  predicate HoldsUnit(tx: Tx, u: seq<byte>) {
    exists i :: 0 <= i < |tx.outputs| && u in OutputUnits(tx.outputs[i])
  }

  lemma {:induction false} KeepsSentinel(t: Tables, tx: Tx, slots: seq<Option<u64>>, u: seq<byte>)
    requires Coherent(t) && Fresh(t.txo, tx) && !HoldsUnit(tx, u) && Sentinel(u) in t.unit
    ensures Sentinel(u) in ApplyTablesTimes(t, tx, slots).unit
    ensures forall o :: o in ApplyTimes(t.txo, tx, slots) && Consumes(tx, o) ==>
              u !in OutputUnits(ApplyTimes(t.txo, tx, slots)[o].out)
  {
    if slots != [] {
      var n := |slots| - 1;
      KeepsSentinel(t, tx, slots[..n], u);
      ApplyAddsNoSentinel(ApplyTablesTimes(t, tx, slots[..n]), tx, slots[n], u);
    }
  }

  /** Applying a fresh transaction one or more times and unapplying it once restores the rows, both unspent
      tables and the unit entries; the unit table comes back exactly iff it held no sentinel for a unit the
      transaction's outputs hold, because a sentinel is deleted on write and never put back. */
  lemma UndoRestoresTables(t: Tables, tx: Tx, slots: seq<Option<u64>>)
    requires Coherent(t) && Fresh(t.txo, tx) && slots != []
    ensures var u := Unapply(ApplyTablesTimes(t, tx, slots), tx);
            && u.txo == t.txo
            && u.payment.unspent == t.payment.unspent && u.stake.unspent == t.stake.unspent
            && (forall a, o :: Entry(a, o) in u.unit <==> Entry(a, o) in t.unit)
            && (u.unit == t.unit <==> forall a :: HoldsUnit(tx, a) ==> Sentinel(a) !in t.unit)
  {
    var high := ApplyTablesTimes(t, tx, slots);
    var low := Unapply(high, tx);
    ApplyTablesTimesRows(t, tx, slots);
    UndoManyApplies(t.txo, tx, slots);
    UnapplyIsPointwise(high, tx);
    StepCoherent(high, Unapplied(tx));
    SameRowsSameIndexes(low, t);
    forall a ensures Sentinel(a) in low.unit <==> Sentinel(a) in t.unit && !HoldsUnit(tx, a) {
      UnapplySentinel(high, tx, a);
      if HoldsUnit(tx, a) {
        LosesSentinel(t, tx, slots, a);
      } else if Sentinel(a) in t.unit {
        KeepsSentinel(t, tx, slots, a);
      }
    }
    if forall a :: HoldsUnit(tx, a) ==> Sentinel(a) !in t.unit {
      forall k: UnitKey ensures k in low.unit <==> k in t.unit {
        assert k == if k.Entry? then Entry(k.unit, k.oref) else Sentinel(k.unit);
      }
    }
  }

  /** A failing input: a unit is asked for while nobody holds it, then a transaction that mints it is applied and
      undone. */
  lemma UndoLosesSentinel(tx: Tx, slot: Option<u64>, u: seq<byte>)
    requires HoldsUnit(tx, u) && AsciiLower(u) == u
    ensures var t := Run(EMPTY, [UnitQueried(u)]);
            Sentinel(u) in t.unit && Unapply(Apply(t, tx, slot), tx).unit != t.unit
  {
    var events := [UnitQueried(u)];
    var t := Run(EMPTY, events);
    assert events[..0] == [] && t == Step(Run(EMPTY, []), UnitQueried(u));
    EveryRunCoherent(events);
    assert ApplyTablesTimes(t, tx, [slot]) == Apply(ApplyTablesTimes(t, tx, []), tx, slot) by {
      assert [slot][..0] == [];
    }
    UndoRestoresTables(t, tx, [slot]);
  }

  function ApplyTablesStack(t: Tables, stack: seq<Layer>): Tables {
    if stack == [] then t
    else ApplyTablesTimes(ApplyTablesStack(t, stack[..|stack| - 1]), stack[|stack| - 1].tx, stack[|stack| - 1].slots)
  }

  function UndoTablesStack(t: Tables, stack: seq<Layer>): Tables
    decreases |stack|
  {
    if stack == [] then t else UndoTablesStack(Unapply(t, stack[|stack| - 1].tx), stack[..|stack| - 1])
  }

  lemma {:induction false} ApplyTablesStackRows(t: Tables, stack: seq<Layer>)
    requires Coherent(t)
    ensures ApplyTablesStack(t, stack).txo == ApplyStack(t.txo, stack) && Coherent(ApplyTablesStack(t, stack))
  {
    if stack != [] {
      var n := |stack| - 1;
      ApplyTablesStackRows(t, stack[..n]);
      ApplyTablesTimesRows(ApplyTablesStack(t, stack[..n]), stack[n].tx, stack[n].slots);
    }
  }

  lemma {:induction false} UndoTablesStackRows(t: Tables, stack: seq<Layer>)
    requires Coherent(t)
    ensures UndoTablesStack(t, stack).txo == UndoStack(t.txo, stack) && Coherent(UndoTablesStack(t, stack))
    decreases |stack|
  {
    if stack != [] {
      var tx := stack[|stack| - 1].tx;
      UnapplyIsPointwise(t, tx);
      StepCoherent(t, Unapplied(tx));
      UndoTablesStackRows(Unapply(t, tx), stack[..|stack| - 1]);
    }
  }

  /** Undoing any stack of fresh transactions in reverse gives back the rows, the unspent tables and the unit
      entries it was built on. */
  lemma UndoStackRestoresTables(t: Tables, stack: seq<Layer>)
    requires Coherent(t) && FreshStack(t.txo, stack)
    ensures var u := UndoTablesStack(ApplyTablesStack(t, stack), stack);
            && u.txo == t.txo
            && u.payment.unspent == t.payment.unspent && u.stake.unspent == t.stake.unspent
            && (forall a, o :: Entry(a, o) in u.unit <==> Entry(a, o) in t.unit)
  {
    var high := ApplyTablesStack(t, stack);
    ApplyTablesStackRows(t, stack);
    UndoTablesStackRows(high, stack);
    UndoStackRestores(t.txo, stack);
    SameRowsSameIndexes(UndoTablesStack(high, stack), t);
  }

  lemma {:induction false} LosesSentinel(t: Tables, tx: Tx, slots: seq<Option<u64>>, u: seq<byte>)
    requires Coherent(t) && Fresh(t.txo, tx) && HoldsUnit(tx, u) && slots != []
    ensures Sentinel(u) !in ApplyTablesTimes(t, tx, slots).unit
  {
    var n := |slots| - 1;
    var before := ApplyTablesTimes(t, tx, slots[..n]);
    ApplyAddsNoSentinel(before, tx, slots[n], u);
    if n > 0 {
      LosesSentinel(t, tx, slots[..n], u);
    } else {
      var i :| 0 <= i < |tx.outputs| && u in OutputUnits(tx.outputs[i]);
      var o := OutputRef(tx.hash, i);
      ApplyIsPointwise(t, tx, slots[0]);
      StepCoherent(t, Applied(tx, slots[0]));
      assert Produces(tx, o);
      assert ApplyTablesTimes(t, tx, slots) == Apply(t, tx, slots[0]);
      assert !Apply(t, tx, slots[0]).txo[o].spent;
    }
  }

  // ---- undo after the mempool and the ledger have interleaved ----

  lemma UnapplyRespectsSlots(a: Rows, b: Rows, tx: Tx)
    requires SameButSlots(a, b)
    ensures SameButSlots(UnapplyRows(a, tx), UnapplyRows(b, tx))
  {
  }

  lemma {:induction false} UndoStackRespectsSlots(a: Rows, b: Rows, stack: seq<Layer>)
    requires SameButSlots(a, b)
    ensures SameButSlots(UndoStack(a, stack), UndoStack(b, stack))
  {
    if stack != [] {
      var tx := stack[|stack| - 1].tx;
      UnapplyRespectsSlots(a, b, tx);
      UndoStackRespectsSlots(UnapplyRows(a, tx), UnapplyRows(b, tx), stack[..|stack| - 1]);
    }
  }

  /** A chain of transactions as feeds that apply each of them once. */
  function Once(chain: seq<Tx>): (r: seq<Feed>)
    ensures |r| == |chain| && forall i :: 0 <= i < |r| ==> r[i].tx == chain[i]
  {
    seq(|chain|, i requires 0 <= i < |chain| => Feed(chain[i], None))
  }

  function Layers(chain: seq<Tx>): (r: seq<Layer>)
    ensures |r| == |chain| && forall i :: 0 <= i < |r| ==> r[i].tx == chain[i]
  {
    seq(|chain|, i requires 0 <= i < |chain| => Layer(chain[i], [None]))
  }

  lemma {:induction false} LayersAreFeeds(m: Rows, chain: seq<Tx>)
    ensures ApplyStack(m, Layers(chain)) == RunRows(m, Once(chain))
  {
    if chain != [] {
      var n := |chain| - 1;
      LayersAreFeeds(m, chain[..n]);
      assert Layers(chain)[..n] == Layers(chain[..n]) && Once(chain)[..n] == Once(chain[..n]);
      var below := ApplyStack(m, Layers(chain[..n]));
      assert ApplyTimes(below, chain[n], [None]) == ApplyRows(ApplyTimes(below, chain[n], []), chain[n], None);
    }
  }

  lemma {:induction false} RunSplit(m: Rows, a: seq<Feed>, b: seq<Feed>)
    ensures RunRows(m, a + b) == RunRows(RunRows(m, a), b)
  {
    if b == [] {
      assert a + b == a;
    } else {
      RunSplit(m, a, b[..|b| - 1]);
      ConcatLast(a, b);
    }
  }

  /** A valid chain: each transaction is fresh when it is added, and inputs come after their producers. */
  ghost predicate ValidChain(chain: seq<Tx>) {
    Causal(Once(chain)) && FreshStack(map[], Layers(chain))
  }

  lemma {:induction false} ApplyStackSplit(m: Rows, a: seq<Layer>, b: seq<Layer>)
    ensures ApplyStack(m, a + b) == ApplyStack(ApplyStack(m, a), b)
  {
    if b == [] {
      assert a + b == a;
    } else {
      ApplyStackSplit(m, a, b[..|b| - 1]);
      ConcatLast(a, b);
    }
  }

  lemma FreshStackSplit(m: Rows, a: seq<Layer>, b: seq<Layer>)
    requires FreshStack(m, a + b)
    ensures FreshStack(ApplyStack(m, a), b)
  {
    forall i | 0 <= i < |b| ensures Fresh(ApplyStack(ApplyStack(m, a), b[..i]), b[i].tx) {
      ConcatPrefix(a, b, i);
      ApplyStackSplit(m, a, b[..i]);
    }
  }

  lemma LayersSplit(lower: seq<Tx>, upper: seq<Tx>)
    ensures Layers(lower + upper) == Layers(lower) + Layers(upper)
  {
  }

  lemma UpperOnLower(lower: seq<Tx>, upper: seq<Tx>)
    ensures RunRows(map[], Once(lower + upper)) == ApplyStack(RunRows(map[], Once(lower)), Layers(upper))
  {
    LayersAreFeeds(map[], lower + upper);
    LayersAreFeeds(map[], lower);
    LayersSplit(lower, upper);
    ApplyStackSplit(map[], Layers(lower), Layers(upper));
  }

  lemma FreshUpper(lower: seq<Tx>, upper: seq<Tx>)
    requires FreshStack(map[], Layers(lower + upper))
    ensures FreshStack(RunRows(map[], Once(lower)), Layers(upper))
  {
    LayersSplit(lower, upper);
    FreshStackSplit(map[], Layers(lower), Layers(upper));
    LayersAreFeeds(map[], lower);
  }

  lemma UndoUpper(lower: seq<Tx>, upper: seq<Tx>)
    requires FreshStack(map[], Layers(lower + upper))
    ensures UndoStack(RunRows(map[], Once(lower + upper)), Layers(upper)) == RunRows(map[], Once(lower))
  {
    UpperOnLower(lower, upper);
    FreshUpper(lower, upper);
    UndoStackRestores(RunRows(map[], Once(lower)), Layers(upper));
  }

  /** Whatever the mempool and the ledger did on the way, in any causal interleaving of the transactions of a
      valid chain, rolling the chain's upper part back leaves the rows of the lower part, up to slots. */
  lemma RollbackAfterInterleaving(feeds: seq<Feed>, lower: seq<Tx>, upper: seq<Tx>)
    requires ValidChain(lower + upper)
    requires Causal(feeds) && HashConsistent(feeds) && TxsOf(feeds) == TxsOf(Once(lower + upper))
    ensures SameButSlots(UndoStack(RunRows(map[], feeds), Layers(upper)), RunRows(map[], Once(lower)))
  {
    var chain := lower + upper;
    Confluence(feeds, Once(chain));
    UndoStackRespectsSlots(RunRows(map[], feeds), RunRows(map[], Once(chain)), Layers(upper));
    UndoUpper(lower, upper);
  }
}
