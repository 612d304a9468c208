/** The events table over whole runs: which slots an output is filed under, and how often an All query lists it. */
module EventTrails {
  import opened Options
  import opened Bytes
  import opened Keys
  import opened Ledger
  import opened IndexTables
  import opened UndoRuns
  import opened Queries

  /** One output's history: the slot of its row while it is stored, and the slots it is filed under. */
  datatype Trail = Trail(settled: Option<u64>, slots: set<u64>)

  const NO_TRAIL := Trail(None, {})

  /** A spend files the output under the spend's slot, a revival under the row's; both first remove the row's own
      slot and no other, so an earlier spend's slot stays. */
  function Refiled(t: Trail, slot: u64, spent: bool): Trail {
    if t.settled.None? then t
    else t.(slots := t.slots - {t.settled.value} + {if spent then slot else t.settled.value})
  }

  function Filed(t: Trail, slot: u64): Trail {
    Trail(Some(slot), (if t.settled.Some? then t.slots - {t.settled.value} else t.slots) + {slot})
  }

  function Unfiled(t: Trail): Trail {
    if t.settled.None? then t else Trail(None, t.slots - {t.settled.value})
  }

  function TrailStep(t: Trail, e: Event, o: OutputRef): Trail {
    match e
    case Applied(tx, slot) =>
      var spent := if Consumes(tx, o) then Refiled(t, SlotOrMax(slot), true) else t;
      if Produces(tx, o) then Filed(spent, SlotOrMax(slot)) else spent
    case Unapplied(tx) =>
      var revived := if Consumes(tx, o) then Refiled(t, U64_MAX, false) else t;
      if Produces(tx, o) then Unfiled(revived) else revived
    case UnitQueried(_) => t
  }

  function TrailOf(events: seq<Event>, o: OutputRef): Trail {
    if events == [] then NO_TRAIL else TrailStep(TrailOf(events[..|events| - 1], o), events[|events| - 1], o)
  }

  /** The tables hold the trail: the row's slot, and one event key per credential of the content and slot. */
  ghost predicate Follows(t: Tables, trail: Trail, o: OutputRef, out: TxOut, kind: CredentialKind) {
    && (o in t.txo <==> trail.settled.Some?)
    && (o in t.txo ==> t.txo[o].out == out && trail.settled == Some(SlotOrMax(t.txo[o].settledAt)))
    && forall c, s: u64 :: EventKey(c, s, o) in t.Index(kind).events <==>
         c in CredsOf(out.address, kind) && s in trail.slots
  }

  lemma UpdateByRefFollows(t: Tables, trail: Trail, q: OutputRef, slot: Option<u64>, spent: bool, o: OutputRef,
                           out: TxOut, kind: CredentialKind)
    requires Follows(t, trail, o, out, kind)
    ensures Follows(UpdateByRef(t, q, slot, spent), if q == o then Refiled(trail, SlotOrMax(slot), spent) else trail,
                    o, out, kind)
  {
  }

  lemma DropFollows(t: Tables, trail: Trail, q: OutputRef, o: OutputRef, out: TxOut, kind: CredentialKind)
    requires Follows(t, trail, o, out, kind)
    ensures Follows(Drop(t, q), if q == o then Unfiled(trail) else trail, o, out, kind)
  {
  }

  lemma UpdateUnspentFollows(t: Tables, trail: Trail, q: OutputRef, stored: TxOut, slot: Option<u64>, o: OutputRef,
                             out: TxOut, kind: CredentialKind)
    requires Follows(t, trail, o, out, kind) && (q == o ==> stored == out)
    ensures Follows(UpdateUnspent(t, q, stored, slot), if q == o then Filed(trail, SlotOrMax(slot)) else trail,
                    o, out, kind)
  {
    DropFollows(t, trail, q, o, out, kind);
  }

  lemma RefiledTwice(t: Trail, slot: u64, spent: bool)
    ensures Refiled(Refiled(t, slot, spent), slot, spent) == Refiled(t, slot, spent)
  {
  }

  lemma {:induction false} UpdateInputsFollows(t: Tables, trail: Trail, inputs: seq<OutputRef>, slot: Option<u64>,
                                               spent: bool, o: OutputRef, out: TxOut, kind: CredentialKind)
    requires Follows(t, trail, o, out, kind)
    ensures Follows(UpdateInputs(t, inputs, slot, spent),
                    if o in inputs then Refiled(trail, SlotOrMax(slot), spent) else trail, o, out, kind)
  {
    if inputs != [] {
      var n := |inputs| - 1;
      UpdateInputsFollows(t, trail, inputs[..n], slot, spent, o, out, kind);
      var before := if o in inputs[..n] then Refiled(trail, SlotOrMax(slot), spent) else trail;
      UpdateByRefFollows(UpdateInputs(t, inputs[..n], slot, spent), before, inputs[n], slot, spent, o, out, kind);
      RefiledTwice(trail, SlotOrMax(slot), spent);
      assert inputs == inputs[..n] + [inputs[n]];
    }
  }

  lemma {:induction false} AddOutputsFollows(t: Tables, trail: Trail, hash: Hash32, outputs: Outputs,
                                             slot: Option<u64>, o: OutputRef, out: TxOut, kind: CredentialKind)
    requires Follows(t, trail, o, out, kind)
    requires o.txHash == hash && o.index < |outputs| ==> outputs[o.index] == out
    ensures Follows(AddOutputs(t, hash, outputs, slot),
                    if o.txHash == hash && o.index < |outputs| then Filed(trail, SlotOrMax(slot)) else trail,
                    o, out, kind)
  {
    if outputs != [] {
      var n := |outputs| - 1;
      AddOutputsFollows(t, trail, hash, outputs[..n], slot, o, out, kind);
      var before := if o.txHash == hash && o.index < n then Filed(trail, SlotOrMax(slot)) else trail;
      UpdateUnspentFollows(AddOutputs(t, hash, outputs[..n], slot), before, OutputRef(hash, n), outputs[n], slot,
                           o, out, kind);
    }
  }

  lemma {:induction false} DropOutputsFollows(t: Tables, trail: Trail, hash: Hash32, count: nat, o: OutputRef,
                                              out: TxOut, kind: CredentialKind)
    requires Follows(t, trail, o, out, kind) && count <= U64_MAX
    ensures Follows(DropOutputs(t, hash, count), if o.txHash == hash && o.index < count then Unfiled(trail) else trail,
                    o, out, kind)
  {
    if count > 0 {
      DropOutputsFollows(t, trail, hash, count - 1, o, out, kind);
      var before := if o.txHash == hash && o.index < count - 1 then Unfiled(trail) else trail;
      DropFollows(DropOutputs(t, hash, count - 1), before, OutputRef(hash, count - 1), o, out, kind);
    }
  }

  lemma StepFollows(t: Tables, trail: Trail, e: Event, o: OutputRef, out: TxOut, kind: CredentialKind)
    requires Follows(t, trail, o, out, kind) && (Adds(e, o) ==> e.tx.outputs[o.index] == out)
    ensures Follows(Step(t, e), TrailStep(trail, e, o), o, out, kind)
  {
    match e
    case Applied(tx, slot) =>
      UpdateInputsFollows(t, trail, tx.inputs, slot, true, o, out, kind);
      var spent := if Consumes(tx, o) then Refiled(trail, SlotOrMax(slot), true) else trail;
      AddOutputsFollows(UpdateInputs(t, tx.inputs, slot, true), spent, tx.hash, tx.outputs, slot, o, out, kind);
    case Unapplied(tx) =>
      UpdateInputsFollows(t, trail, tx.inputs, None, false, o, out, kind);
      var revived := if Consumes(tx, o) then Refiled(trail, U64_MAX, false) else trail;
      DropOutputsFollows(UpdateInputs(t, tx.inputs, None, false), revived, tx.hash, |tx.outputs|, o, out, kind);
    case UnitQueried(_) =>
  }

  /** Whatever adds the output adds it with this content. */
  ghost predicate AlwaysAdds(events: seq<Event>, o: OutputRef, out: TxOut) {
    forall i :: 0 <= i < |events| && Adds(events[i], o) ==> events[i].tx.outputs[o.index] == out
  }

  /** After any run the events table holds, for each output, exactly one key per credential of its content and
      slot of its trail. */
  lemma {:induction false} RunFollows(events: seq<Event>, o: OutputRef, out: TxOut, kind: CredentialKind)
    requires AlwaysAdds(events, o, out)
    ensures Follows(Run(EMPTY, events), TrailOf(events, o), o, out, kind)
  {
    if events != [] {
      var n := |events| - 1;
      RunFollows(events[..n], o, out, kind);
      StepFollows(Run(EMPTY, events[..n]), TrailOf(events[..n], o), events[n], o, out, kind);
    }
  }

  // ---- how often an All query lists an output ----

  function Times(a: seq<Txo>, o: OutputRef): nat {
    if a == [] then 0 else Times(a[..|a| - 1], o) + if a[|a| - 1].oref == o then 1 else 0
  }

  lemma {:induction false} TimesConcat(a: seq<Txo>, b: seq<Txo>, o: OutputRef)
    ensures Times(a + b, o) == Times(a, o) + Times(b, o)
  {
    if b == [] {
      assert a + b == a;
    } else {
      TimesConcat(a, b[..|b| - 1], o);
      assert (a + b)[..|a + b| - 1] == a + b[..|b| - 1];
    }
  }

  /** The slots of one output among the listed events. */
  function SlotsIn(ks: seq<EventKey>, o: OutputRef): set<u64> {
    set i | 0 <= i < |ks| && ks[i].oref == o :: ks[i].slot
  }

  lemma SlotsInStep(ks: seq<EventKey>, o: OutputRef)
    requires ks != []
    ensures SlotsIn(ks, o) == SlotsIn(ks[..|ks| - 1], o) + if ks[|ks| - 1].oref == o then {ks[|ks| - 1].slot} else {}
  {
    var n := |ks| - 1;
    forall s ensures s in SlotsIn(ks, o) <==> s in SlotsIn(ks[..n], o) || (ks[n].oref == o && ks[n].slot == s) {
      if i :| 0 <= i < n && ks[i].oref == o && ks[i].slot == s { assert ks[..n][i] == ks[i]; }
      if i :| 0 <= i < n && ks[..n][i].oref == o && ks[..n][i].slot == s { assert ks[i] == ks[..n][i]; }
    }
  }

  /** No two listed events are the same, credential aside. */
  ghost predicate Apart(ks: seq<EventKey>) {
    forall i, j :: 0 <= i < j < |ks| ==> ks[i].slot != ks[j].slot || ks[i].oref != ks[j].oref
  }

  lemma {:induction false} RowsTimes(txo: map<OutputRef, Row>, ks: seq<EventKey>, o: OutputRef)
    requires Apart(ks)
    ensures Times(RowsOf(txo, ks), o) == if o in txo then |SlotsIn(ks, o)| else 0
  {
    if ks != [] {
      var n := |ks| - 1;
      RowsTimes(txo, ks[..n], o);
      SlotsInStep(ks, o);
      var last := ByRef(txo, ks[n].oref);
      TimesConcat(RowsOf(txo, ks[..n]), last, o);
      assert last != [] ==> last[..0] == [];
      assert forall i :: 0 <= i < n ==> ks[..n][i] == ks[i];
      assert ks[n].oref == o ==> ks[n].slot !in SlotsIn(ks[..n], o);
    }
  }

  /** The slots an output is filed under in the events table, from a given one on. */
  ghost predicate FiledFrom(t: Tables, c: Credential, kind: CredentialKind, least: u64, o: OutputRef, slots: set<u64>) {
    forall s: u64 :: s in slots <==> s >= least && EventKey(c, s, o) in t.Index(kind).events
  }

  /** An All query lists a stored output once for each slot from the least one on that it is filed under. */
  lemma AllListsTimes(t: Tables, c: Credential, kind: CredentialKind, least: Option<u64>, o: OutputRef, slots: set<u64>)
    requires FiledFrom(t, c, kind, SlotOrMax(least), o, slots)
    ensures Times(Answer(t, Some((c, kind)), All(least)), o) == if o in t.txo then |slots| else 0
  {
    var ks := AllAnswer(t, c, kind, least);
    forall i, j | 0 <= i < j < |ks| ensures ks[i].slot != ks[j].slot || ks[i].oref != ks[j].oref {
      LessIrreflexive(UtxoKey(ks[i].oref));
    }
    RowsTimes(t.txo, ks, o);
    forall s ensures s in SlotsIn(ks, o) <==> s in slots {
      if s in slots {
        var i :| 0 <= i < |ks| && ks[i] == EventKey(c, s, o);
        assert ks[i].oref == o && ks[i].slot == s;
      }
      if s in SlotsIn(ks, o) {
        var i :| 0 <= i < |ks| && ks[i].oref == o && ks[i].slot == s;
        assert ks[i] == EventKey(c, s, o);
      }
    }
    assert SlotsIn(ks, o) == slots;
  }

  /** An All query lists an output exactly if it is stored and filed under some slot from the least one on;
      without a least slot that leaves the unconfirmed events. */
  lemma AllListedIff(t: Tables, c: Credential, kind: CredentialKind, least: Option<u64>, o: OutputRef)
    ensures Listed(Answer(t, Some((c, kind)), All(least)), o) <==>
            o in t.txo && exists s: u64 :: s >= SlotOrMax(least) && EventKey(c, s, o) in t.Index(kind).events
  {
    var ks := AllAnswer(t, c, kind, least);
    RowsOfListed(t.txo, ks, o);
    if s: u64 :| s >= SlotOrMax(least) && EventKey(c, s, o) in t.Index(kind).events {
      var i :| 0 <= i < |ks| && ks[i] == EventKey(c, s, o);
      assert ks[i].oref == o;
    }
    if i :| 0 <= i < |ks| && ks[i].oref == o {
      assert ks[i] == EventKey(c, ks[i].slot, o);
    }
  }

  /** After any run an All query lists a stored output of the credential once per slot of its trail from the least
      one on; it lists it exactly once iff there is exactly one. */
  lemma RunListsTimes(events: seq<Event>, c: Credential, kind: CredentialKind, least: Option<u64>, o: OutputRef,
                      out: TxOut)
    requires AlwaysAdds(events, o, out) && c in CredsOf(out.address, kind) && StoredAfter(events, o)
    ensures Times(Answer(Run(EMPTY, events), Some((c, kind)), All(least)), o) ==
            |set s | s in TrailOf(events, o).slots && s >= SlotOrMax(least)|
  {
    var slots := set s | s in TrailOf(events, o).slots && s >= SlotOrMax(least);
    RunFollows(events, o, out, kind);
    RunWithUndo(events, o);
    AllListsTimes(Run(EMPTY, events), c, kind, least, o, slots);
  }

  /** An output that is neither spent nor revived is filed under its row's slot only, so All lists it once. */
  lemma {:induction false} UntouchedFiledOnce(events: seq<Event>, o: OutputRef)
    requires forall i :: 0 <= i < |events| ==> !Spends(events[i], o) && !Revives(events[i], o)
    ensures var trail := TrailOf(events, o); trail.slots == if trail.settled.Some? then {trail.settled.value} else {}
  {
    if events != [] {
      var n := |events| - 1;
      UntouchedFiledOnce(events[..n], o);
      assert !Spends(events[n], o) && !Revives(events[n], o);
    }
  }

  // ---- failing inputs ----

  lemma TrailSnoc(events: seq<Event>, e: Event, o: OutputRef)
    ensures TrailOf(events + [e], o) == TrailStep(TrailOf(events, o), e, o)
  {
    assert (events + [e])[..|events|] == events;
  }

  lemma TrailOfThree(e0: Event, e1: Event, e2: Event, o: OutputRef)
    ensures TrailOf([e0, e1, e2], o) == TrailStep(TrailStep(TrailStep(NO_TRAIL, e0, o), e1, o), e2, o)
  {
    TrailSnoc([], e0, o);
    TrailSnoc([e0], e1, o);
    TrailSnoc([e0, e1], e2, o);
    assert [] + [e0] == [e0] && [e0] + [e1] == [e0, e1] && [e0, e1] + [e2] == [e0, e1, e2];
  }

  /** A confirmed, unspent output is missing from an All query without a slot. */
  lemma AllWithoutSlotMisses(tx: Tx, slot: u64, c: Credential, kind: CredentialKind, o: OutputRef)
    requires Produces(tx, o) && !Consumes(tx, o) && c in CredsOf(tx.outputs[o.index].address, kind) && slot < U64_MAX
    ensures var t := Run(EMPTY, [Applied(tx, Some(slot))]);
            o in t.txo && !t.txo[o].spent && !Listed(Answer(t, Some((c, kind)), All(None)), o)
  {
    var events := [Applied(tx, Some(slot))];
    var t := Run(EMPTY, events);
    assert [] + events == events;
    TrailSnoc([], events[0], o);
    RunFollows(events, o, tx.outputs[o.index], kind);
    RunWithUndo(events, o);
    assert AddedAt(events, o, 0);
    AllListedIff(t, c, kind, None, o);
  }

  /** A spend that was undone leaves its slot behind, so All(0) lists the output twice. */
  lemma UndoneSpendListsTwice(producer: Tx, consumer: Tx, c: Credential, kind: CredentialKind, o: OutputRef)
    requires Produces(producer, o) && !Consumes(producer, o) && Consumes(consumer, o) && !Produces(consumer, o)
    requires c in CredsOf(producer.outputs[o.index].address, kind)
    ensures var t := Run(EMPTY, [Applied(producer, Some(5)), Applied(consumer, Some(7)), Unapplied(consumer)]);
            o in t.txo && !t.txo[o].spent && Times(Answer(t, Some((c, kind)), All(Some(0))), o) == 2
  {
    var events := [Applied(producer, Some(5)), Applied(consumer, Some(7)), Unapplied(consumer)];
    TrailOfThree(events[0], events[1], events[2], o);
    ListsBoth(events, producer, c, kind, o, 5, 7);
    RunWithUndo(events, o);
    assert Revives(events[2], o);
  }

  /** So does a spend that is seen in the mempool first and confirmed later: it is filed as unconfirmed and at
      its slot. */
  lemma ConfirmedSpendListsTwice(producer: Tx, consumer: Tx, c: Credential, kind: CredentialKind, o: OutputRef)
    requires Produces(producer, o) && !Consumes(producer, o) && Consumes(consumer, o) && !Produces(consumer, o)
    requires c in CredsOf(producer.outputs[o.index].address, kind)
    ensures var t := Run(EMPTY, [Applied(producer, Some(5)), Applied(consumer, None), Applied(consumer, Some(7))]);
            o in t.txo && Times(Answer(t, Some((c, kind)), All(Some(0))), o) == 2
  {
    var events := [Applied(producer, Some(5)), Applied(consumer, None), Applied(consumer, Some(7))];
    TrailOfThree(events[0], events[1], events[2], o);
    ListsBoth(events, producer, c, kind, o, U64_MAX, 7);
  }

  lemma ListsBoth(events: seq<Event>, producer: Tx, c: Credential, kind: CredentialKind, o: OutputRef, s: u64, s': u64)
    requires |events| == 3 && events[0] == Applied(producer, Some(5)) && Produces(producer, o)
    requires forall i :: 1 <= i < 3 ==> !events[i].UnitQueried? && !Produces(events[i].tx, o)
    requires c in CredsOf(producer.outputs[o.index].address, kind)
    requires TrailOf(events, o).slots == {s, s'} && s != s'
    ensures o in Run(EMPTY, events).txo
    ensures Times(Answer(Run(EMPTY, events), Some((c, kind)), All(Some(0))), o) == 2
  {
    StaysStored(events, producer, o);
    RunListsTimes(events, c, kind, Some(0), o, producer.outputs[o.index]);
    TwoFromZero(TrailOf(events, o).slots, s, s');
  }

  lemma TwoFromZero(slots: set<u64>, s: u64, s': u64)
    requires slots == {s, s'} && s != s'
    ensures |set x | x in slots && x >= SlotOrMax(Some(0))| == 2
  {
    assert (set x | x in slots && x >= SlotOrMax(Some(0))) == {s, s'};
  }

  lemma StaysStored(events: seq<Event>, producer: Tx, o: OutputRef)
    requires |events| == 3 && events[0] == Applied(producer, Some(5)) && Produces(producer, o)
    requires forall i :: 1 <= i < 3 ==> !events[i].UnitQueried? && !Produces(events[i].tx, o)
    ensures o in Run(EMPTY, events).txo && StoredAfter(events, o)
    ensures AlwaysAdds(events, o, producer.outputs[o.index])
  {
    assert AddedAt(events, o, 0);
    RunWithUndo(events, o);
  }
}
