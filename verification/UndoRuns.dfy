/** Runs that apply and unapply transactions in any order: which outputs end up stored, and which flags are right. */
module UndoRuns {
  import opened Options
  import opened Keys
  import opened Ledger
  import opened IndexTables
  import opened IndexRuns

  // ---- what an event does to one output ----

  predicate Adds(e: Event, o: OutputRef) { e.Applied? && Produces(e.tx, o) }

  predicate Removes(e: Event, o: OutputRef) { e.Unapplied? && Produces(e.tx, o) }

  predicate Spends(e: Event, o: OutputRef) { e.Applied? && Consumes(e.tx, o) }

  predicate Revives(e: Event, o: OutputRef) { e.Unapplied? && Consumes(e.tx, o) }

  /** Some event adds the output and none removes it later. */
  ghost predicate StoredAfter(events: seq<Event>, o: OutputRef) {
    exists i :: AddedAt(events, o, i)
  }

  ghost predicate AddedAt(events: seq<Event>, o: OutputRef, i: int) {
    0 <= i < |events| && Adds(events[i], o) && forall j :: i < j < |events| ==> !Removes(events[j], o)
  }

  /** Some event spends the output while it is stored, and none removes or revives it later. */
  ghost predicate SpentAfter(events: seq<Event>, o: OutputRef) {
    exists i :: SpentBy(events, o, i)
  }

  ghost predicate SpentBy(events: seq<Event>, o: OutputRef, i: int) {
    && 0 <= i < |events| && Spends(events[i], o) && StoredAfter(events[..i], o)
    && forall j :: i < j < |events| ==> !Removes(events[j], o) && !Revives(events[j], o)
  }

  lemma AddedStep(events: seq<Event>, o: OutputRef)
    requires events != []
    ensures var n := |events| - 1;
            StoredAfter(events, o) <==>
            Adds(events[n], o) || (StoredAfter(events[..n], o) && !Removes(events[n], o))
  {
    var n := |events| - 1;
    if StoredAfter(events, o) {
      var i :| AddedAt(events, o, i);
      if i < n { assert AddedAt(events[..n], o, i); }
    }
    if Adds(events[n], o) { assert AddedAt(events, o, n); }
    if StoredAfter(events[..n], o) && !Removes(events[n], o) {
      var i :| AddedAt(events[..n], o, i);
      ExtendAdded(events, o, i);
    }
  }

  lemma ExtendAdded(events: seq<Event>, o: OutputRef, i: nat)
    requires events != [] && AddedAt(events[..|events| - 1], o, i) && !Removes(events[|events| - 1], o)
    ensures AddedAt(events, o, i)
  {
    var n := |events| - 1;
    forall j | i < j < |events| ensures !Removes(events[j], o) {
      if j < n { assert events[..n][j] == events[j]; }
    }
  }

  lemma SpentStep(events: seq<Event>, o: OutputRef)
    requires events != []
    ensures var n := |events| - 1;
            SpentAfter(events, o) <==>
            (Spends(events[n], o) && StoredAfter(events[..n], o)) ||
            (SpentAfter(events[..n], o) && !Removes(events[n], o) && !Revives(events[n], o))
  {
    var n := |events| - 1;
    if SpentAfter(events, o) {
      var i :| SpentBy(events, o, i);
      if i < n {
        assert events[..n][..i] == events[..i];
        assert SpentBy(events[..n], o, i);
      }
    }
    if Spends(events[n], o) && StoredAfter(events[..n], o) { assert SpentBy(events, o, n); }
    if SpentAfter(events[..n], o) && !Removes(events[n], o) && !Revives(events[n], o) {
      var i :| SpentBy(events[..n], o, i);
      ExtendSpent(events, o, i);
    }
  }

  lemma ExtendSpent(events: seq<Event>, o: OutputRef, i: nat)
    requires events != [] && SpentBy(events[..|events| - 1], o, i)
    requires !Removes(events[|events| - 1], o) && !Revives(events[|events| - 1], o)
    ensures SpentBy(events, o, i)
  {
    var n := |events| - 1;
    assert events[..n][..i] == events[..i];
    forall j | i < j < |events| ensures !Removes(events[j], o) && !Revives(events[j], o) {
      if j < n { assert events[..n][j] == events[j]; }
    }
  }

  lemma StepRowAt(t: Tables, e: Event, o: OutputRef)
    ensures o in Step(t, e).txo <==> Adds(e, o) || (o in t.txo && !Removes(e, o))
    ensures o in Step(t, e).txo ==>
              (Step(t, e).txo[o].spent <==> o in t.txo && (Spends(e, o) || (t.txo[o].spent && !Revives(e, o))))
    ensures o in Step(t, e).txo ==>
              Step(t, e).txo[o].out == if Adds(e, o) then e.tx.outputs[o.index] else t.txo[o].out
  {
    match e
    case Applied(tx, slot) => ApplyIsPointwise(t, tx, slot); ApplyRowAt(t.txo, tx, slot, o);
    case Unapplied(tx) => UnapplyIsPointwise(t, tx);
    case UnitQueried(_) =>
  }

  /** The rows after any sequence of applies, unapplies and unit queries: an output is stored iff it was added
      and not removed since, and it is spent iff it was spent while stored and neither removed nor revived since. */
  lemma {:induction false} RunWithUndo(events: seq<Event>, o: OutputRef)
    ensures o in Run(EMPTY, events).txo <==> StoredAfter(events, o)
    ensures o in Run(EMPTY, events).txo ==> (Run(EMPTY, events).txo[o].spent <==> SpentAfter(events, o))
    ensures SpentAfter(events, o) ==> StoredAfter(events, o)
  {
    if events != [] {
      var n := |events| - 1;
      RunWithUndo(events[..n], o);
      AddedStep(events, o);
      SpentStep(events, o);
      StepRowAt(Run(EMPTY, events[..n]), events[n], o);
    }
  }

  /** A stored output has the content some event added it with. */
  lemma {:induction false} RunContent(events: seq<Event>, o: OutputRef) returns (i: nat)
    requires o in Run(EMPTY, events).txo
    ensures i < |events| && Adds(events[i], o) && Run(EMPTY, events).txo[o].out == events[i].tx.outputs[o.index]
  {
    var n := |events| - 1;
    StepRowAt(Run(EMPTY, events[..n]), events[n], o);
    if Adds(events[n], o) { i := n; } else { i := RunContent(events[..n], o); }
  }

  // ---- live transactions ----

  /** The event applies a transaction that is not unapplied later. */
  ghost predicate LiveAt(events: seq<Event>, i: int) {
    0 <= i < |events| && events[i].Applied? && forall j :: i < j < |events| ==> events[j] != Unapplied(events[i].tx)
  }

  ghost predicate Live(events: seq<Event>, tx: Tx) {
    exists i :: LiveAt(events, i) && events[i].tx == tx
  }

  ghost predicate LiveConsumer(events: seq<Event>, o: OutputRef) {
    exists tx :: Live(events, tx) && Consumes(tx, o)
  }

  ghost predicate FlagsRight(events: seq<Event>) {
    forall o :: o in Run(EMPTY, events).txo ==> (Run(EMPTY, events).txo[o].spent <==> LiveConsumer(events, o))
  }

  /** A set flag is always justified by a live transaction. */
  lemma SpentIsLive(events: seq<Event>, o: OutputRef)
    requires SpentAfter(events, o)
    ensures LiveConsumer(events, o)
  {
    var i :| SpentBy(events, o, i);
    forall j | i < j < |events| ensures events[j] != Unapplied(events[i].tx) {
      assert !Revives(events[j], o);
    }
    assert LiveAt(events, i);
    assert Live(events, events[i].tx) && Consumes(events[i].tx, o);
  }

  /** After any applies and unapplies, of conflicting transactions too, the flags say which outputs live
      transactions consume exactly when each such stored output was spent while stored and neither removed nor
      revived since. */
  lemma FlagsRightAfterUndoIff(events: seq<Event>)
    ensures FlagsRight(events) <==>
            forall o :: StoredAfter(events, o) && LiveConsumer(events, o) ==> SpentAfter(events, o)
  {
    forall o
      ensures o in Run(EMPTY, events).txo <==> StoredAfter(events, o)
      ensures o in Run(EMPTY, events).txo ==> (Run(EMPTY, events).txo[o].spent <==> SpentAfter(events, o))
      ensures SpentAfter(events, o) ==> LiveConsumer(events, o)
    {
      RunWithUndo(events, o);
      if SpentAfter(events, o) { SpentIsLive(events, o); }
    }
  }

  // ---- one event at a time: guards known before it ----

  /** Applying must not store an output that a live transaction, or the applied one, already consumes: that
      spend came too early, or its output was undone since. */
  ghost predicate ApplyGuard(events: seq<Event>, tx: Tx) {
    forall o :: Produces(tx, o) && o !in Run(EMPTY, events).txo ==> !LiveConsumer(events, o) && !Consumes(tx, o)
  }

  /** Undoing must not revive a remaining output that another live transaction consumes. */
  ghost predicate UndoGuard(events: seq<Event>, tx: Tx) {
    forall o :: o in Run(EMPTY, events).txo && Consumes(tx, o) && !Produces(tx, o) ==> !Rival(events, tx, o)
  }

  ghost predicate Rival(events: seq<Event>, tx: Tx, o: OutputRef) {
    exists b :: b != tx && Live(events, b) && Consumes(b, o)
  }

  ghost predicate Guard(events: seq<Event>, e: Event) {
    match e
    case Applied(tx, _) => ApplyGuard(events, tx)
    case Unapplied(tx) => UndoGuard(events, tx)
    case UnitQueried(_) => true
  }

  lemma LiveSnoc(events: seq<Event>, e: Event, tx: Tx)
    ensures Live(events + [e], tx) <==> (e.Applied? && e.tx == tx) || (Live(events, tx) && e != Unapplied(tx))
  {
    var all, n := events + [e], |events|;
    if Live(all, tx) {
      var i :| LiveAt(all, i) && all[i].tx == tx;
      if i < n {
        assert all[n] == e;
        assert forall j :: 0 <= j < n ==> all[j] == events[j];
        assert LiveAt(events, i);
      }
    }
    if e.Applied? && e.tx == tx { assert LiveAt(all, n); }
    if Live(events, tx) && e != Unapplied(tx) {
      var i :| LiveAt(events, i) && events[i].tx == tx;
      forall j | i < j < |all| ensures all[j] != Unapplied(tx) {
        if j < n { assert all[j] == events[j]; }
      }
      assert LiveAt(all, i);
    }
  }

  lemma ConsumerSnoc(events: seq<Event>, e: Event, o: OutputRef)
    ensures LiveConsumer(events + [e], o) <==>
            match e
            case Applied(tx, _) => LiveConsumer(events, o) || Consumes(tx, o)
            case Unapplied(tx) => Rival(events, tx, o)
            case UnitQueried(_) => LiveConsumer(events, o)
  {
    forall tx ensures Live(events + [e], tx) <==>
                      (e.Applied? && e.tx == tx) || (Live(events, tx) && e != Unapplied(tx)) {
      LiveSnoc(events, e, tx);
    }
    if e.Applied? && Consumes(e.tx, o) { assert Live(events + [e], e.tx); }
  }

  lemma RowSnoc(events: seq<Event>, e: Event, o: OutputRef)
    ensures var t, t' := Run(EMPTY, events), Run(EMPTY, events + [e]);
            && (o in t'.txo <==> Adds(e, o) || (o in t.txo && !Removes(e, o)))
            && (o in t'.txo ==>
                  (t'.txo[o].spent <==> o in t.txo && (Spends(e, o) || (t.txo[o].spent && !Revives(e, o)))))
  {
    assert (events + [e])[..|events|] == events;
    StepRowAt(Run(EMPTY, events), e, o);
  }

  /** While the flags are right, one more event keeps them right exactly when its guard holds before it. */
  lemma StepKeepsFlagsIff(events: seq<Event>, e: Event)
    requires FlagsRight(events)
    ensures FlagsRight(events + [e]) <==> Guard(events, e)
  {
    var t, t' := Run(EMPTY, events), Run(EMPTY, events + [e]);
    forall o
      ensures o in t'.txo <==> Adds(e, o) || (o in t.txo && !Removes(e, o))
      ensures o in t'.txo ==> ((t'.txo[o].spent <==> LiveConsumer(events + [e], o)) <==> GuardAt(events, e, o))
    {
      RowSnoc(events, e, o);
      ConsumerSnoc(events, e, o);
    }
    if Guard(events, e) {
      forall o ensures GuardAt(events, e, o) {
      }
    }
    if forall o :: o in t'.txo ==> GuardAt(events, e, o) {
      assert Guard(events, e);
    }
  }

  /** The guard, for one output that is stored after the event. */
  ghost predicate GuardAt(events: seq<Event>, e: Event, o: OutputRef) {
    match e
    case Applied(tx, _) =>
      Produces(tx, o) && o !in Run(EMPTY, events).txo ==> !LiveConsumer(events, o) && !Consumes(tx, o)
    case Unapplied(tx) =>
      o in Run(EMPTY, events).txo && Consumes(tx, o) && !Produces(tx, o) ==> !Rival(events, tx, o)
    case UnitQueried(_) => true
  }

  lemma ApplyKeepsFlagsIff(events: seq<Event>, tx: Tx, slot: Option<u64>)
    requires FlagsRight(events)
    ensures FlagsRight(events + [Applied(tx, slot)]) <==>
            forall o :: Produces(tx, o) && o !in Run(EMPTY, events).txo ==>
              !LiveConsumer(events, o) && !Consumes(tx, o)
  {
    StepKeepsFlagsIff(events, Applied(tx, slot));
  }

  lemma UndoKeepsFlagsIff(events: seq<Event>, tx: Tx)
    requires FlagsRight(events)
    ensures FlagsRight(events + [Unapplied(tx)]) <==>
            forall o :: o in Run(EMPTY, events).txo && Consumes(tx, o) && !Produces(tx, o) ==>
              !exists b :: b != tx && Live(events, b) && Consumes(b, o)
  {
    StepKeepsFlagsIff(events, Unapplied(tx));
  }

  ghost predicate AlwaysRight(events: seq<Event>) {
    forall n :: 0 <= n <= |events| ==> FlagsRight(events[..n])
  }

  ghost predicate AlwaysGuarded(events: seq<Event>) {
    forall n :: 0 <= n < |events| ==> Guard(events[..n], events[n])
  }

  lemma AlwaysRightLast(events: seq<Event>)
    requires AlwaysRight(events)
    ensures FlagsRight(events)
  {
    assert events[..|events|] == events;
  }

  lemma LastKeepsFlagsIff(events: seq<Event>)
    requires events != [] && FlagsRight(events[..|events| - 1])
    ensures FlagsRight(events) <==> Guard(events[..|events| - 1], events[|events| - 1])
  {
    var n := |events| - 1;
    StepKeepsFlagsIff(events[..n], events[n]);
    assert events == events[..n] + [events[n]];
  }

  /** Over any run, conflicting transactions included, the flags are right all the time exactly when each event
      meets its guard beforehand. */
  lemma {:induction false} AlwaysRightIff(events: seq<Event>)
    ensures AlwaysRight(events) <==> AlwaysGuarded(events)
  {
    if events == [] {
      assert FlagsRight([]);
    } else {
      AlwaysRightIff(events[..|events| - 1]);
      PrefixesStep(events);
      if AlwaysRight(events[..|events| - 1]) {
        AlwaysRightLast(events[..|events| - 1]);
        LastKeepsFlagsIff(events);
      }
    }
  }

  lemma PrefixOfPrefix(events: seq<Event>, n: nat, m: nat)
    requires m <= n <= |events|
    ensures events[..n][..m] == events[..m] && (m < n ==> events[..n][m] == events[m])
  {
  }

  lemma PrefixesStep(events: seq<Event>)
    requires events != []
    ensures var n := |events| - 1;
            && (AlwaysRight(events) <==> AlwaysRight(events[..n]) && FlagsRight(events))
            && (AlwaysGuarded(events) <==> AlwaysGuarded(events[..n]) && Guard(events[..n], events[n]))
  {
    var n := |events| - 1;
    assert events[..|events|] == events;
    forall m | 0 <= m <= n
      ensures FlagsRight(events[..n][..m]) <==> FlagsRight(events[..m])
      ensures m < n ==> (Guard(events[..n][..m], events[..n][m]) <==> Guard(events[..m], events[m]))
    {
      PrefixOfPrefix(events, n, m);
    }
  }

  /** A failing run: of two transactions that spend the same output, the one that was dropped takes the other's
      spend with it. */
  lemma RivalUndoLosesSpend(producer: Tx, dropped: Tx, confirmed: Tx, o: OutputRef)
    requires Produces(producer, o) && !Consumes(producer, o) && dropped != confirmed
    requires Consumes(dropped, o) && Consumes(confirmed, o) && !Produces(dropped, o) && !Produces(confirmed, o)
    ensures var events := [Applied(producer, Some(1)), Applied(dropped, None), Applied(confirmed, Some(2)),
                           Unapplied(dropped)];
            Live(events, confirmed) && o in Run(EMPTY, events).txo && !Run(EMPTY, events).txo[o].spent
  {
    var events := [Applied(producer, Some(1)), Applied(dropped, None), Applied(confirmed, Some(2)),
                   Unapplied(dropped)];
    RunWithUndo(events, o);
    assert AddedAt(events, o, 0) && Revives(events[3], o);
    assert LiveAt(events, 2);
  }

  // ---- transactions without conflicts ----

  /** A transaction is applied only once the outputs it consumes, of those that the run ever adds, are stored. */
  ghost predicate KnownInputs(events: seq<Event>) {
    forall i, o :: 0 <= i < |events| && Spends(events[i], o) && AddedBySome(events, o) ==> StoredAfter(events[..i], o)
  }

  ghost predicate AddedBySome(events: seq<Event>, o: OutputRef) {
    exists i :: 0 <= i < |events| && Adds(events[i], o)
  }

  /** A transaction is unapplied only while no other live one consumes an output it consumes. */
  ghost predicate NoRivalUndone(events: seq<Event>) {
    forall j, i, o :: 0 <= i < j < |events| && Revives(events[j], o) && LiveAt(events[..j], i) ==>
      (Spends(events[i], o) ==> events[i].tx == events[j].tx)
  }

  ghost predicate NoDoubleSpend(events: seq<Event>) {
    forall a, b, o :: Live(events, a) && Live(events, b) && Consumes(a, o) && Consumes(b, o) ==> a == b
  }

  /** The transaction was applied, for the first time or again, after the producer of the output was last undone. */
  ghost predicate SeenSince(events: seq<Event>, tx: Tx, o: OutputRef) {
    exists k :: SeenAt(events, tx, o, k)
  }

  ghost predicate SeenAt(events: seq<Event>, tx: Tx, o: OutputRef, k: int) {
    && 0 <= k < |events| && events[k].Applied? && events[k].tx == tx
    && forall j :: k < j < |events| ==> !Removes(events[j], o)
  }

  /** Both: live from there on, and no undo of the producer from there on. */
  lemma SeenAndLive(events: seq<Event>, tx: Tx, o: OutputRef) returns (k: nat)
    requires Live(events, tx) && SeenSince(events, tx, o)
    ensures SeenAt(events, tx, o, k) && LiveAt(events, k)
  {
    var i :| LiveAt(events, i) && events[i].tx == tx;
    var s :| SeenAt(events, tx, o, s);
    k := if s < i then i else s;
  }

  lemma SeenIsSpent(events: seq<Event>, tx: Tx, o: OutputRef)
    requires KnownInputs(events) && NoRivalUndone(events)
    requires Live(events, tx) && Consumes(tx, o) && StoredAfter(events, o) && SeenSince(events, tx, o)
    ensures SpentAfter(events, o)
  {
    var k := SeenAndLive(events, tx, o);
    var a :| AddedAt(events, o, a);
    assert AddedBySome(events, o) && Spends(events[k], o);
    forall j | k < j < |events| ensures !Revives(events[j], o) {
      assert LiveAt(events[..j], k);
    }
    assert SpentBy(events, o, k);
  }

  /** Without conflicts, the flags are right exactly when every live transaction was applied after each stored
      output it consumes was last undone: what is lost is the spend of an output that is undone and stored
      again while its consumer stays pending. */
  lemma PendingFlagsIff(events: seq<Event>)
    requires KnownInputs(events) && NoRivalUndone(events) && NoDoubleSpend(events)
    ensures FlagsRight(events) <==>
            forall tx, o :: Live(events, tx) && Consumes(tx, o) && StoredAfter(events, o) ==> SeenSince(events, tx, o)
  {
    FlagsRightAfterUndoIff(events);
    if FlagsRight(events) {
      forall tx, o | Live(events, tx) && Consumes(tx, o) && StoredAfter(events, o) ensures SeenSince(events, tx, o) {
        assert LiveConsumer(events, o);
        var k :| SpentBy(events, o, k);
        SpenderIsLive(events, o, k);
        assert SeenAt(events, tx, o, k);
      }
    }
    if forall tx, o :: Live(events, tx) && Consumes(tx, o) && StoredAfter(events, o) ==> SeenSince(events, tx, o) {
      forall o | StoredAfter(events, o) && LiveConsumer(events, o) ensures SpentAfter(events, o) {
        var tx :| Live(events, tx) && Consumes(tx, o);
        SeenIsSpent(events, tx, o);
      }
    }
  }

  lemma SpenderIsLive(events: seq<Event>, o: OutputRef, k: nat)
    requires SpentBy(events, o, k)
    ensures Live(events, events[k].tx) && Consumes(events[k].tx, o)
  {
    forall j | k < j < |events| ensures events[j] != Unapplied(events[k].tx) {
      assert !Revives(events[j], o);
    }
    assert LiveAt(events, k);
  }

  /** The failing case: a pending transaction spends an output, the output's transaction is undone and applied
      again, and the output is stored unspent although its consumer is live. */
  lemma ReappliedSpendIsLost(producer: Tx, consumer: Tx, o: OutputRef)
    requires Produces(producer, o) && Consumes(consumer, o) && !Consumes(producer, o) && !Produces(consumer, o)
    ensures var events := [Applied(producer, Some(1)), Applied(consumer, None), Unapplied(producer),
                           Applied(producer, Some(2))];
            Live(events, consumer) && o in Run(EMPTY, events).txo && !Run(EMPTY, events).txo[o].spent
  {
    var events := [Applied(producer, Some(1)), Applied(consumer, None), Unapplied(producer),
                   Applied(producer, Some(2))];
    RunWithUndo(events, o);
    assert AddedAt(events, o, 3) && Removes(events[2], o);
    assert LiveAt(events, 1);
  }
}
