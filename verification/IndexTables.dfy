/** The six tables as values: what each index update does to all of them, in closed form. */
module IndexTables {
  import opened Options
  import opened Bytes
  import opened Keys
  import opened Ledger

  datatype Row = Row(out: TxOut, settledAt: Option<u64>, spent: bool)

  datatype CredIndex = CredIndex(events: set<EventKey>, unspent: set<CredKey>)

  datatype Tables = Tables(
    txo: map<OutputRef, Row>, payment: CredIndex, stake: CredIndex, unit: set<UnitKey>)
  {
    function Index(kind: CredentialKind): CredIndex {
      if kind.Payment? then payment else stake
    }
  }

  const EMPTY := Tables(map[], CredIndex({}, {}), CredIndex({}, {}), {})

  function EventKeys(creds: set<Credential>, slot: u64, oref: OutputRef): set<EventKey> {
    set c | c in creds :: EventKey(c, slot, oref)
  }

  function CredKeys(creds: set<Credential>, oref: OutputRef): set<CredKey> {
    set c | c in creds :: CredKey(c, oref)
  }

  function Entries(units: seq<seq<byte>>, oref: OutputRef): set<UnitKey> {
    set u | u in units :: Entry(u, oref)
  }

  function Sentinels(units: seq<seq<byte>>): set<UnitKey> {
    set u | u in units :: Sentinel(u)
  }

  function DropKeys(ix: CredIndex, creds: set<Credential>, slot: u64, oref: OutputRef): CredIndex {
    CredIndex(ix.events - EventKeys(creds, slot, oref), ix.unspent - CredKeys(creds, oref))
  }

  function AddKeys(ix: CredIndex, creds: set<Credential>, slot: u64, oref: OutputRef, spent: bool): CredIndex {
    CredIndex(ix.events + EventKeys(creds, slot, oref),
              if spent then ix.unspent else ix.unspent + CredKeys(creds, oref))
  }

  function WriteUnits(unit: set<UnitKey>, units: seq<seq<byte>>, oref: OutputRef): set<UnitKey> {
    unit - Sentinels(units) + Entries(units, oref)
  }

  /** Spend or revive a stored output; unknown references change nothing. */
  function UpdateByRef(t: Tables, oref: OutputRef, slot: Option<u64>, spent: bool): Tables {
    if oref !in t.txo then t
    else
      var row := t.txo[oref];
      var units := OutputUnits(row.out);
      var rest := t.unit - Entries(units, oref);
      Tables(t.txo[oref := row.(spent := spent)],
             Rekey(t.payment, CredsOf(row.out.address, Payment), row.settledAt, slot, oref, spent),
             Rekey(t.stake, CredsOf(row.out.address, Stake), row.settledAt, slot, oref, spent),
             if spent then rest else WriteUnits(rest, units, oref))
  }

  function Rekey(ix: CredIndex, creds: set<Credential>, settledAt: Option<u64>, slot: Option<u64>,
                 oref: OutputRef, spent: bool): CredIndex
  {
    AddKeys(DropKeys(ix, creds, SlotOrMax(settledAt), oref), creds,
            SlotOrMax(if spent then slot else settledAt), oref, spent)
  }

  /** Forget an output and the keys derived from its row. */
  function Drop(t: Tables, oref: OutputRef): Tables {
    if oref !in t.txo then t
    else
      var row := t.txo[oref];
      Tables(t.txo - {oref},
             DropKeys(t.payment, CredsOf(row.out.address, Payment), SlotOrMax(row.settledAt), oref),
             DropKeys(t.stake, CredsOf(row.out.address, Stake), SlotOrMax(row.settledAt), oref),
             t.unit - Entries(OutputUnits(row.out), oref))
  }

  /** Store an output; one that is stored already keeps its spent flag. */
  function UpdateUnspent(t: Tables, oref: OutputRef, out: TxOut, slot: Option<u64>): Tables {
    var spent := oref in t.txo && t.txo[oref].spent;
    var rest := Drop(t, oref);
    Tables(rest.txo[oref := Row(out, slot, spent)],
           AddKeys(rest.payment, CredsOf(out.address, Payment), SlotOrMax(slot), oref, spent),
           AddKeys(rest.stake, CredsOf(out.address, Stake), SlotOrMax(slot), oref, spent),
           if spent then rest.unit else WriteUnits(rest.unit, OutputUnits(out), oref))
  }

  function UpdateInputs(t: Tables, inputs: seq<OutputRef>, slot: Option<u64>, spent: bool): Tables {
    if inputs == [] then t
    else
      var n := |inputs| - 1;
      UpdateByRef(UpdateInputs(t, inputs[..n], slot, spent), inputs[n], slot, spent)
  }

  function AddOutputs(t: Tables, hash: Hash32, outputs: Outputs, slot: Option<u64>): Tables {
    if outputs == [] then t
    else
      var n := |outputs| - 1;
      UpdateUnspent(AddOutputs(t, hash, outputs[..n], slot), OutputRef(hash, n), outputs[n], slot)
  }

  function DropOutputs(t: Tables, hash: Hash32, count: nat): Tables
    requires count <= U64_MAX
  {
    if count == 0 then t else Drop(DropOutputs(t, hash, count - 1), OutputRef(hash, count - 1))
  }

  function Apply(t: Tables, tx: Tx, slot: Option<u64>): Tables {
    AddOutputs(UpdateInputs(t, tx.inputs, slot, true), tx.hash, tx.outputs, slot)
  }

  function Unapply(t: Tables, tx: Tx): Tables {
    DropOutputs(UpdateInputs(t, tx.inputs, None, false), tx.hash, |tx.outputs|)
  }

  /** Fill in the entries of one unit from a scan of the rows, or record that there are none, unless the
      unit's key range holds some key other than the unit's own sentinel. */
  function EnsureUnit(t: Tables, unit: seq<byte>): Tables {
    if HasOtherKey(t.unit, unit) then t
    else
      var holders := set o | o in t.txo && !t.txo[o].spent && OutputContainsUnit(t.txo[o].out, unit);
      t.(unit := if holders == {} then t.unit + {Sentinel(unit)}
                 else t.unit + (set o | o in holders :: Entry(unit, o)) - {Sentinel(unit)})
  }

  predicate HasOtherKey(keys: set<UnitKey>, unit: seq<byte>) {
    exists k :: k in keys && unit <= UnitKeyBytes(k) && UnitKeyBytes(k) != UnitKeyBytes(Sentinel(unit))
  }

  // ---- the invariant that ties the five secondary tables to the rows ----

  /** The unspent table is exactly the unspent rows; the events table covers every row, at the row's own
      slot while it is unspent. */
  ghost predicate CredCoherent(txo: map<OutputRef, Row>, ix: CredIndex, kind: CredentialKind) {
    && (forall c, o :: CredKey(c, o) in ix.unspent <==>
          o in txo && !txo[o].spent && c in CredsOf(txo[o].out.address, kind))
    && (forall o, c :: o in txo && c in CredsOf(txo[o].out.address, kind) ==> Covered(ix.events, c, o))
    && (forall o, c :: o in txo && !txo[o].spent && c in CredsOf(txo[o].out.address, kind) ==>
          EventKey(c, SlotOrMax(txo[o].settledAt), o) in ix.events)
  }

  ghost predicate Covered(events: set<EventKey>, c: Credential, o: OutputRef) {
    exists s :: EventKey(c, s, o) in events
  }

  /** Entries are exactly the units of unspent rows; a sentinel means that no unspent row holds the unit. */
  ghost predicate UnitCoherent(txo: map<OutputRef, Row>, unit: set<UnitKey>) {
    && (forall u, o :: Entry(u, o) in unit <==> o in txo && !txo[o].spent && u in OutputUnits(txo[o].out))
    && (forall u, o :: Sentinel(u) in unit && o in txo && !txo[o].spent ==> u !in OutputUnits(txo[o].out))
  }

  ghost predicate Coherent(t: Tables) {
    && CredCoherent(t.txo, t.payment, Payment)
    && CredCoherent(t.txo, t.stake, Stake)
    && UnitCoherent(t.txo, t.unit)
  }

  lemma CoveredBy(events: set<EventKey>, c: Credential, s: u64, o: OutputRef)
    requires EventKey(c, s, o) in events
    ensures Covered(events, c, o)
  {
  }

  lemma RekeyCoherent(txo: map<OutputRef, Row>, ix: CredIndex, kind: CredentialKind, oref: OutputRef,
                      slot: Option<u64>, spent: bool)
    requires CredCoherent(txo, ix, kind) && oref in txo
    ensures CredCoherent(txo[oref := txo[oref].(spent := spent)],
                         Rekey(ix, CredsOf(txo[oref].out.address, kind), txo[oref].settledAt, slot, oref, spent),
                         kind)
  {
    var row := txo[oref];
    var creds := CredsOf(row.out.address, kind);
    var ix' := Rekey(ix, creds, row.settledAt, slot, oref, spent);
    var txo' := txo[oref := row.(spent := spent)];
    forall o, c | o in txo' && c in CredsOf(txo'[o].out.address, kind) ensures Covered(ix'.events, c, o) {
      if o == oref {
        CoveredBy(ix'.events, c, SlotOrMax(if spent then slot else row.settledAt), o);
      } else {
        assert Covered(ix.events, c, o);
        var s :| EventKey(c, s, o) in ix.events;
        CoveredBy(ix'.events, c, s, o);
      }
    }
  }

  lemma DropKeysCoherent(txo: map<OutputRef, Row>, ix: CredIndex, kind: CredentialKind, oref: OutputRef)
    requires CredCoherent(txo, ix, kind) && oref in txo
    ensures CredCoherent(txo - {oref},
                         DropKeys(ix, CredsOf(txo[oref].out.address, kind), SlotOrMax(txo[oref].settledAt), oref),
                         kind)
  {
    var ix' := DropKeys(ix, CredsOf(txo[oref].out.address, kind), SlotOrMax(txo[oref].settledAt), oref);
    forall o, c | o in txo - {oref} && c in CredsOf(txo[o].out.address, kind) ensures Covered(ix'.events, c, o) {
      assert Covered(ix.events, c, o);
      var s :| EventKey(c, s, o) in ix.events;
      CoveredBy(ix'.events, c, s, o);
    }
  }

  lemma AddKeysCoherent(txo: map<OutputRef, Row>, ix: CredIndex, kind: CredentialKind, oref: OutputRef, row: Row)
    requires CredCoherent(txo, ix, kind) && oref !in txo
    ensures CredCoherent(txo[oref := row],
                         AddKeys(ix, CredsOf(row.out.address, kind), SlotOrMax(row.settledAt), oref, row.spent),
                         kind)
  {
    var ix' := AddKeys(ix, CredsOf(row.out.address, kind), SlotOrMax(row.settledAt), oref, row.spent);
    var txo' := txo[oref := row];
    forall o, c | o in txo' && c in CredsOf(txo'[o].out.address, kind) ensures Covered(ix'.events, c, o) {
      if o == oref {
        CoveredBy(ix'.events, c, SlotOrMax(row.settledAt), o);
      } else {
        assert Covered(ix.events, c, o);
        var s :| EventKey(c, s, o) in ix.events;
        CoveredBy(ix'.events, c, s, o);
      }
    }
  }

  lemma UpdateByRefCoherent(t: Tables, oref: OutputRef, slot: Option<u64>, spent: bool)
    requires Coherent(t)
    ensures Coherent(UpdateByRef(t, oref, slot, spent))
  {
    if oref in t.txo {
      RekeyCoherent(t.txo, t.payment, Payment, oref, slot, spent);
      RekeyCoherent(t.txo, t.stake, Stake, oref, slot, spent);
    }
  }

  lemma DropCoherent(t: Tables, oref: OutputRef)
    requires Coherent(t)
    ensures Coherent(Drop(t, oref))
  {
    if oref in t.txo {
      DropKeysCoherent(t.txo, t.payment, Payment, oref);
      DropKeysCoherent(t.txo, t.stake, Stake, oref);
    }
  }

  lemma UpdateUnspentCoherent(t: Tables, oref: OutputRef, out: TxOut, slot: Option<u64>)
    requires Coherent(t)
    ensures Coherent(UpdateUnspent(t, oref, out, slot))
  {
    DropCoherent(t, oref);
    var rest := Drop(t, oref);
    var row := Row(out, slot, oref in t.txo && t.txo[oref].spent);
    AddKeysCoherent(rest.txo, rest.payment, Payment, oref, row);
    AddKeysCoherent(rest.txo, rest.stake, Stake, oref, row);
  }

  lemma {:induction false} UpdateInputsCoherent(t: Tables, inputs: seq<OutputRef>, slot: Option<u64>, spent: bool)
    requires Coherent(t)
    ensures Coherent(UpdateInputs(t, inputs, slot, spent))
  {
    if inputs != [] {
      var n := |inputs| - 1;
      UpdateInputsCoherent(t, inputs[..n], slot, spent);
      UpdateByRefCoherent(UpdateInputs(t, inputs[..n], slot, spent), inputs[n], slot, spent);
    }
  }

  lemma {:induction false} AddOutputsCoherent(t: Tables, hash: Hash32, outputs: Outputs, slot: Option<u64>)
    requires Coherent(t)
    ensures Coherent(AddOutputs(t, hash, outputs, slot))
  {
    if outputs != [] {
      var n := |outputs| - 1;
      AddOutputsCoherent(t, hash, outputs[..n], slot);
      UpdateUnspentCoherent(AddOutputs(t, hash, outputs[..n], slot), OutputRef(hash, n), outputs[n], slot);
    }
  }

  lemma {:induction false} DropOutputsCoherent(t: Tables, hash: Hash32, count: nat)
    requires Coherent(t) && count <= U64_MAX
    ensures Coherent(DropOutputs(t, hash, count))
  {
    if count > 0 {
      DropOutputsCoherent(t, hash, count - 1);
      DropCoherent(DropOutputs(t, hash, count - 1), OutputRef(hash, count - 1));
    }
  }

  lemma EnsureUnitCoherent(t: Tables, unit: seq<byte>)
    requires Coherent(t) && AsciiLower(unit) == unit
    ensures Coherent(EnsureUnit(t, unit))
  {
  }

  // ---- runs ----

  datatype Event =
    | Applied(tx: Tx, slot: Option<u64>)
    | Unapplied(tx: Tx)
    | UnitQueried(unit: seq<byte>)

  function Step(t: Tables, e: Event): Tables {
    match e
    case Applied(tx, slot) => Apply(t, tx, slot)
    case Unapplied(tx) => Unapply(t, tx)
    case UnitQueried(unit) => EnsureUnit(t, AsciiLower(unit))
  }

  function Run(t: Tables, events: seq<Event>): Tables {
    if events == [] then t else Step(Run(t, events[..|events| - 1]), events[|events| - 1])
  }

  lemma LowerIdempotent(unit: seq<byte>)
    ensures AsciiLower(AsciiLower(unit)) == AsciiLower(unit)
  {
  }

  lemma StepCoherent(t: Tables, e: Event)
    requires Coherent(t)
    ensures Coherent(Step(t, e))
  {
    match e
    case Applied(tx, slot) =>
      UpdateInputsCoherent(t, tx.inputs, slot, true);
      AddOutputsCoherent(UpdateInputs(t, tx.inputs, slot, true), tx.hash, tx.outputs, slot);
    case Unapplied(tx) =>
      UpdateInputsCoherent(t, tx.inputs, None, false);
      DropOutputsCoherent(UpdateInputs(t, tx.inputs, None, false), tx.hash, |tx.outputs|);
    case UnitQueried(unit) =>
      LowerIdempotent(unit);
      EnsureUnitCoherent(t, AsciiLower(unit));
  }

  /** From a fresh database, any sequence of applies, unapplies and unit queries, of any transactions in any
      order, leaves all secondary tables in agreement with the rows. */
  lemma {:induction false} EveryRunCoherent(events: seq<Event>)
    ensures Coherent(Run(EMPTY, events))
  {
    if events != [] {
      EveryRunCoherent(events[..|events| - 1]);
      StepCoherent(Run(EMPTY, events[..|events| - 1]), events[|events| - 1]);
    }
  }
}
