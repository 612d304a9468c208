/** The index over its six column families, updated in place. */
module Index {
  import opened Options
  import opened Bytes
  import opened Scans
  import opened Keys
  import opened Ledger
  import opened IndexTables
  import opened Queries

  /** A change to the index of one kind, and to both indexes for every credential of a list. */
  datatype Change =
    | Deleting(settledAt: Option<u64>)
    | Writing(slot: Option<u64>, spent: bool)
    | Rekeying(settledAt: Option<u64>, slot: Option<u64>, spent: bool)

  function Changed(ix: CredIndex, creds: set<Credential>, oref: OutputRef, change: Change): CredIndex {
    match change
    case Deleting(settledAt) => DropKeys(ix, creds, SlotOrMax(settledAt), oref)
    case Writing(slot, spent) => AddKeys(ix, creds, SlotOrMax(slot), oref, spent)
    case Rekeying(settledAt, slot, spent) => Rekey(ix, creds, settledAt, slot, oref, spent)
  }

  function ChangeOne(t: Tables, kind: CredentialKind, credential: Credential, oref: OutputRef, change: Change): Tables {
    match kind
    case Payment => t.(payment := Changed(t.payment, {credential}, oref, change))
    case Stake => t.(stake := Changed(t.stake, {credential}, oref, change))
  }

  function ChangeAll(t: Tables, list: seq<(CredentialKind, Credential)>, oref: OutputRef, change: Change): Tables {
    t.(payment := Changed(t.payment, CredSet(list, Payment), oref, change),
       stake := Changed(t.stake, CredSet(list, Stake), oref, change))
  }

  lemma ChangedNone(ix: CredIndex, oref: OutputRef, change: Change)
    ensures Changed(ix, {}, oref, change) == ix
  {
    var ix' := Changed(ix, {}, oref, change);
    assert ix'.events == ix.events && ix'.unspent == ix.unspent;
  }

  lemma ChangedStep(ix: CredIndex, a: set<Credential>, c: Credential, oref: OutputRef, change: Change)
    ensures Changed(Changed(ix, a, oref, change), {c}, oref, change) == Changed(ix, a + {c}, oref, change)
  {
    var x, y := Changed(Changed(ix, a, oref, change), {c}, oref, change), Changed(ix, a + {c}, oref, change);
    assert x.events == y.events;
    assert x.unspent == y.unspent;
  }

  lemma ChangeAllNone(t: Tables, list: seq<(CredentialKind, Credential)>, oref: OutputRef, change: Change)
    ensures ChangeAll(t, list[..0], oref, change) == t
  {
    ChangedNone(t.payment, oref, change);
    ChangedNone(t.stake, oref, change);
    assert CredSet(list[..0], Payment) == {} && CredSet(list[..0], Stake) == {};
  }

  lemma ChangeKindStep(ix: CredIndex, list: seq<(CredentialKind, Credential)>, n: nat, kind: CredentialKind,
                       oref: OutputRef, change: Change)
    requires n < |list|
    ensures var before := Changed(ix, CredSet(list[..n], kind), oref, change);
            Changed(ix, CredSet(list[..n + 1], kind), oref, change) ==
            if list[n].0 == kind then Changed(before, {list[n].1}, oref, change) else before
  {
    CredSetStep(list, n, kind);
    if list[n].0 == kind {
      ChangedStep(ix, CredSet(list[..n], kind), list[n].1, oref, change);
    } else {
      assert CredSet(list[..n], kind) + {} == CredSet(list[..n], kind);
    }
  }

  lemma ChangeAllStep(t: Tables, list: seq<(CredentialKind, Credential)>, n: nat, oref: OutputRef, change: Change)
    requires n < |list|
    ensures ChangeAll(t, list[..n + 1], oref, change) ==
            ChangeOne(ChangeAll(t, list[..n], oref, change), list[n].0, list[n].1, oref, change)
  {
    ChangeKindStep(t.payment, list, n, Payment, oref, change);
    ChangeKindStep(t.stake, list, n, Stake, oref, change);
  }

  lemma AddOutputsStep(t: Tables, hash: Hash32, outputs: Outputs, n: nat, slot: Option<u64>)
    requires n < |outputs|
    ensures AddOutputs(t, hash, outputs[..n + 1], slot) ==
            UpdateUnspent(AddOutputs(t, hash, outputs[..n], slot), OutputRef(hash, n), outputs[n], slot)
  {
    assert outputs[..n + 1][..n] == outputs[..n];
  }

  class UtxoIndexDb {
    var txo: map<OutputRef, Row>
    var paymentEvents: set<EventKey>
    var paymentUnspent: set<CredKey>
    var stakeEvents: set<EventKey>
    var stakeUnspent: set<CredKey>
    var unitUnspent: set<UnitKey>

    ghost function View(): Tables
      reads this
    {
      Tables(txo, CredIndex(paymentEvents, paymentUnspent), CredIndex(stakeEvents, stakeUnspent), unitUnspent)
    }

    constructor ()
      ensures View() == EMPTY
    {
      txo, unitUnspent := map[], {};
      paymentEvents, paymentUnspent, stakeEvents, stakeUnspent := {}, {}, {}, {};
    }

    method DeleteIndexes(kind: CredentialKind, credential: Credential, settledAt: Option<u64>, oref: OutputRef)
      modifies this
      ensures View() == ChangeOne(old(View()), kind, credential, oref, Deleting(settledAt))
    {
      var event, unspent := EventKey(credential, SlotOrMax(settledAt), oref), CredKey(credential, oref);
      match kind {
        case Payment =>
          paymentEvents := paymentEvents - {event};
          paymentUnspent := paymentUnspent - {unspent};
        case Stake =>
          stakeEvents := stakeEvents - {event};
          stakeUnspent := stakeUnspent - {unspent};
      }
    }

    method WriteSecondaryIndexes(kind: CredentialKind, credential: Credential, oref: OutputRef,
                                 slot: Option<u64>, spent: bool)
      modifies this
      ensures View() == ChangeOne(old(View()), kind, credential, oref, Writing(slot, spent))
    {
      var event, unspent := EventKey(credential, SlotOrMax(slot), oref), CredKey(credential, oref);
      match kind {
        case Payment =>
          paymentEvents := paymentEvents + {event};
          if !spent { paymentUnspent := paymentUnspent + {unspent}; }
        case Stake =>
          stakeEvents := stakeEvents + {event};
          if !spent { stakeUnspent := stakeUnspent + {unspent}; }
      }
    }

    method WriteUnitIndexes(output: TxOut, oref: OutputRef)
      modifies this
      ensures View() == old(View()).(unit := WriteUnits(old(unitUnspent), OutputUnits(output), oref))
    {
      var units := OutputUnits(output);
      for i := 0 to |units|
        invariant View() == old(View()).(unit := WriteUnits(old(unitUnspent), units[..i], oref))
      {
        unitUnspent := unitUnspent - {Sentinel(units[i])};
        unitUnspent := unitUnspent + {Entry(units[i], oref)};
        assert units[..i + 1] == units[..i] + [units[i]];
      }
      assert units[..|units|] == units;
    }

    method DeleteUnitIndexes(output: TxOut, oref: OutputRef)
      modifies this
      ensures View() == old(View()).(unit := old(unitUnspent) - Entries(OutputUnits(output), oref))
    {
      var units := OutputUnits(output);
      for i := 0 to |units|
        invariant View() == old(View()).(unit := old(unitUnspent) - Entries(units[..i], oref))
      {
        unitUnspent := unitUnspent - {Entry(units[i], oref)};
        assert units[..i + 1] == units[..i] + [units[i]];
      }
      assert units[..|units|] == units;
    }

    /** Every credential of a stored output loses its two keys. */
    method DeleteCredentialIndexes(output: TxOut, settledAt: Option<u64>, oref: OutputRef)
      modifies this
      ensures View() == ChangeAll(old(View()), AddressCredentials(output.address), oref, Deleting(settledAt))
    {
      var credentials := AddressCredentials(output.address);
      ghost var was, change := View(), Deleting(settledAt);
      ChangeAllNone(was, credentials, oref, change);
      for i := 0 to |credentials|
        invariant View() == ChangeAll(was, credentials[..i], oref, change)
      {
        DeleteIndexes(credentials[i].0, credentials[i].1, settledAt, oref);
        ChangeAllStep(was, credentials, i, oref, change);
      }
      assert credentials[..|credentials|] == credentials;
    }

    /** Every credential of an output being stored gains its keys. */
    method WriteCredentialIndexes(output: TxOut, oref: OutputRef, slot: Option<u64>, spent: bool)
      modifies this
      ensures View() == ChangeAll(old(View()), AddressCredentials(output.address), oref, Writing(slot, spent))
    {
      var credentials := AddressCredentials(output.address);
      ghost var was, change := View(), Writing(slot, spent);
      ChangeAllNone(was, credentials, oref, change);
      for i := 0 to |credentials|
        invariant View() == ChangeAll(was, credentials[..i], oref, change)
      {
        WriteSecondaryIndexes(credentials[i].0, credentials[i].1, oref, slot, spent);
        ChangeAllStep(was, credentials, i, oref, change);
      }
      assert credentials[..|credentials|] == credentials;
    }

    /** One turn of the loop below: drop a credential's keys, then write them for the new state. */
    method RekeyCredential(kind: CredentialKind, credential: Credential, settledAt: Option<u64>, oref: OutputRef,
                           slot: Option<u64>, spent: bool)
      modifies this
      ensures View() == ChangeOne(old(View()), kind, credential, oref, Rekeying(settledAt, slot, spent))
    {
      DeleteIndexes(kind, credential, settledAt, oref);
      var indexSlot := if spent then slot else settledAt;
      WriteSecondaryIndexes(kind, credential, oref, indexSlot, spent);
    }

    /** Every credential of an output being spent or revived has its keys replaced. */
    method RekeyCredentialIndexes(output: TxOut, settledAt: Option<u64>, oref: OutputRef,
                                  slot: Option<u64>, spent: bool)
      modifies this
      ensures View() ==
              ChangeAll(old(View()), AddressCredentials(output.address), oref, Rekeying(settledAt, slot, spent))
    {
      var credentials := AddressCredentials(output.address);
      ghost var was, change := View(), Rekeying(settledAt, slot, spent);
      ChangeAllNone(was, credentials, oref, change);
      for i := 0 to |credentials|
        invariant View() == ChangeAll(was, credentials[..i], oref, change)
      {
        RekeyCredential(credentials[i].0, credentials[i].1, settledAt, oref, slot, spent);
        ChangeAllStep(was, credentials, i, oref, change);
      }
      assert credentials[..|credentials|] == credentials;
    }

    method UpdateUnspentTxo(oref: OutputRef, output: TxOut, settledAt: Option<u64>)
      modifies this
      ensures View() == IndexTables.UpdateUnspent(old(View()), oref, output, settledAt)
    {
      var spent := false;
      if oref in txo {
        var existing := txo[oref];
        DeleteTxoAndIndexes(oref);
        spent := existing.spent;
      }
      WriteCredentialIndexes(output, oref, settledAt, spent);
      if !spent {
        WriteUnitIndexes(output, oref);
      }
      txo := txo[oref := Row(output, settledAt, spent)];
    }

    method UpdateTxoByRef(oref: OutputRef, slot: Option<u64>, spent: bool)
      modifies this
      ensures View() == IndexTables.UpdateByRef(old(View()), oref, slot, spent)
    {
      if oref in txo {
        var row := txo[oref];
        RekeyCredentialIndexes(row.out, row.settledAt, oref, slot, spent);
        DeleteUnitIndexes(row.out, oref);
        if !spent {
          WriteUnitIndexes(row.out, oref);
        }
        txo := txo[oref := row.(spent := spent)];
      }
    }

    method DeleteTxoAndIndexes(oref: OutputRef)
      modifies this
      ensures View() == IndexTables.Drop(old(View()), oref)
    {
      if oref in txo {
        var row := txo[oref];
        DeleteCredentialIndexes(row.out, row.settledAt, oref);
        DeleteUnitIndexes(row.out, oref);
        txo := txo - {oref};
      }
    }

    method UpdateInputTxos(inputs: seq<OutputRef>, slot: Option<u64>, spent: bool)
      modifies this
      ensures View() == IndexTables.UpdateInputs(old(View()), inputs, slot, spent)
    {
      for i := 0 to |inputs|
        invariant View() == IndexTables.UpdateInputs(old(View()), inputs[..i], slot, spent)
      {
        UpdateTxoByRef(inputs[i], slot, spent);
        assert inputs[..i + 1][..i] == inputs[..i];
      }
      assert inputs[..|inputs|] == inputs;
    }

    method StoreOutputs(hash: Hash32, outputs: Outputs, slot: Option<u64>)
      modifies this
      ensures View() == IndexTables.AddOutputs(old(View()), hash, outputs, slot)
    {
      for i := 0 to |outputs|
        invariant View() == IndexTables.AddOutputs(old(View()), hash, outputs[..i], slot)
      {
        UpdateUnspentTxo(OutputRef(hash, i), outputs[i], slot);
        AddOutputsStep(old(View()), hash, outputs, i, slot);
      }
      assert outputs[..|outputs|] == outputs;
    }

    /** Spend the inputs, then store the outputs, as one committed transaction. */
    method Apply(tx: Tx, confirmedAt: Option<u64>)
      modifies this
      ensures View() == IndexTables.Apply(old(View()), tx, confirmedAt)
    {
      UpdateInputTxos(tx.inputs, confirmedAt, true);
      StoreOutputs(tx.hash, tx.outputs, confirmedAt);
    }

    /** Revive the inputs, then forget the outputs, as one committed transaction. */
    method Unapply(tx: Tx)
      modifies this
      ensures View() == IndexTables.Unapply(old(View()), tx)
    {
      UpdateInputTxos(tx.inputs, None, false);
      ghost var mid := View();
      for i := 0 to |tx.outputs|
        invariant View() == IndexTables.DropOutputs(mid, tx.hash, i)
      {
        DeleteTxoAndIndexes(OutputRef(tx.hash, i));
      }
    }

    method EnsureUnitIndex(prefix: seq<byte>)
      modifies `unitUnspent
      ensures View() == EnsureUnit(old(View()), prefix)
    {
      var iter := RangeScan(UnitBytes(unitUnspent), prefix, prefix);
      for i := 0 to |iter|
        invariant forall j :: 0 <= j < i ==> IsSentinelKey(prefix, iter[j])
      {
        var key := iter[i];
        assert key in iter;
        if |key| == |prefix| + 1 && key[|prefix|] == UNIT_INDEX_SENTINEL {
          continue;
        }
        assert !IsSentinelKey(prefix, iter[i]);
        OtherKeyInRange(unitUnspent, prefix, iter);
        return;
      }
      OtherKeyInRange(unitUnspent, prefix, iter);
      IndexFromRows(prefix);
    }

    /** The scan of the whole txo family. */
    method IndexFromRows(prefix: seq<byte>)
      requires !HasOtherKey(unitUnspent, prefix)
      modifies `unitUnspent
      ensures View() == EnsureUnit(old(View()), prefix)
    {
      var rest, found := txo.Keys, false;
      while rest != {}
        invariant rest <= txo.Keys
        invariant found <==> Holders(txo, txo.Keys - rest, prefix) != {}
        invariant unitUnspent == old(unitUnspent) + UnitEntries(prefix, Holders(txo, txo.Keys - rest, prefix))
        decreases rest
      {
        var o :| o in rest;
        HoldersStep(txo, rest, o, prefix);
        if !txo[o].spent && OutputContainsUnit(txo[o].out, prefix) {
          found := true;
          unitUnspent := unitUnspent + {Entry(prefix, o)};
        }
        rest := rest - {o};
      }
      AllHolders(txo, prefix);
      if found {
        unitUnspent := unitUnspent - {Sentinel(prefix)};
      } else {
        unitUnspent := unitUnspent + {Sentinel(prefix)};
      }
    }

    // ---- queries ----

    /** The row behind one index key of a scoped query, if it passes the unit filter. */
    method ScopedMatch(key: seq<byte>, drop: nat, unitFilter: Option<seq<byte>>) returns (hit: Option<Txo>)
      requires drop <= |key|
      ensures HitOf(txo, key, drop, FilterOf(unitFilter)) == if hit.Some? then [hit.value] else []
    {
      hit := GetByKey(txo, key[drop..]);
      if hit.Some? && unitFilter.Some? {
        if !OutputContainsUnit(hit.value.output, unitFilter.value) {
          return None;
        }
      }
    }

    /** The row behind one key of the unit index: pass over the sentinel and over spent rows. */
    method UnitMatch(key: seq<byte>, prefixLen: nat) returns (hit: Option<Txo>)
      requires prefixLen <= |key|
      ensures HitOf(txo, key, prefixLen, OnlyUnspent) == if hit.Some? then [hit.value] else []
    {
      if |key| == prefixLen + 1 && key[prefixLen] == UNIT_INDEX_SENTINEL {
        assert DecodeUtxoKey(key[prefixLen..]).None?;
        return None;
      }
      hit := GetByKey(txo, key[prefixLen..]);
      if hit.Some? {
        if hit.value.spent {
          return None;
        }
      }
    }

    /** The loop of the scoped queries: skip `offset` matches, collect up to `limit`. */
    method ScopedPage(iter: seq<seq<byte>>, drop: nat, unitFilter: Option<seq<byte>>, offset: nat, limit: nat)
      returns (txoSet: seq<Txo>)
      requires limit > 0 && InRange(iter, drop)
      ensures txoSet == Page(Hits(txo, iter, drop, FilterOf(unitFilter)), offset, limit)
    {
      txoSet := [];
      var matched := 0;
      ghost var seen: seq<Txo> := [];
      for i := 0 to |iter|
        invariant seen == Hits(txo, iter[..i], drop, FilterOf(unitFilter)) && matched == |seen|
        invariant txoSet == Page(seen, offset, limit) && |txoSet| < limit
      {
        HitsStep(txo, iter, i, drop, FilterOf(unitFilter));
        var hit := ScopedMatch(iter[i], drop, unitFilter);
        if hit.None? {
          continue;
        }
        PageStep(seen, hit.value, offset, limit);
        seen := seen + [hit.value];
        if matched < offset {
          matched := matched + 1;
          continue;
        }
        txoSet := txoSet + [hit.value];
        matched := matched + 1;
        if |txoSet| >= limit {
          HitsPrefix(txo, iter, i + 1, drop, FilterOf(unitFilter));
          PageOfPrefix(seen, Hits(txo, iter, drop, FilterOf(unitFilter)), offset, limit);
          return;
        }
      }
      assert iter[..|iter|] == iter;
    }

    /** The loop of the unscoped unit query. */
    method UnitPage(iter: seq<seq<byte>>, prefixLen: nat, offset: nat, limit: nat) returns (txoSet: seq<Txo>)
      requires limit > 0 && InRange(iter, prefixLen)
      ensures txoSet == Page(Hits(txo, iter, prefixLen, OnlyUnspent), offset, limit)
    {
      txoSet := [];
      var matched := 0;
      ghost var seen: seq<Txo> := [];
      for i := 0 to |iter|
        invariant seen == Hits(txo, iter[..i], prefixLen, OnlyUnspent) && matched == |seen|
        invariant txoSet == Page(seen, offset, limit) && |txoSet| < limit
      {
        HitsStep(txo, iter, i, prefixLen, OnlyUnspent);
        var hit := UnitMatch(iter[i], prefixLen);
        if hit.None? {
          continue;
        }
        PageStep(seen, hit.value, offset, limit);
        seen := seen + [hit.value];
        if matched < offset {
          matched := matched + 1;
          continue;
        }
        txoSet := txoSet + [hit.value];
        matched := matched + 1;
        if |txoSet| >= limit {
          HitsPrefix(txo, iter, i + 1, prefixLen, OnlyUnspent);
          PageOfPrefix(seen, Hits(txo, iter, prefixLen, OnlyUnspent), offset, limit);
          return;
        }
      }
      assert iter[..|iter|] == iter;
    }

    function EventsOf(kind: CredentialKind): set<EventKey>
      reads this
    {
      if kind.Payment? then paymentEvents else stakeEvents
    }

    function UnspentOf(kind: CredentialKind): set<CredKey>
      reads this
    {
      if kind.Payment? then paymentUnspent else stakeUnspent
    }

    method ScopedUtxos(credential: Credential, kind: CredentialKind, query: TxoQuery, offset: nat, limit: nat)
      returns (txoSet: seq<Txo>)
      requires limit > 0
      ensures txoSet == Page(Answer(View(), Some((credential, kind)), query), offset, limit)
    {
      var prefix := CredentialPrefix(credential);
      match query {
        case All(leastSlot) =>
          var from := prefix + BigEndian(SlotOrMax(leastSlot), 8);
          var iter := RangeScan(EventBytes(EventsOf(kind)), prefix, from);
          assert iter == EventRange(View(), credential, kind, SlotOrMax(leastSlot));
          txoSet := ScopedPage(iter, |prefix| + 8, None, offset, limit);
        case Unspent =>
          var iter := RangeScan(CredBytes(UnspentOf(kind)), prefix, prefix);
          assert iter == UnspentRange(View(), credential, kind);
          txoSet := ScopedPage(iter, |prefix|, None, offset, limit);
        case UnspentByUnit(unit) =>
          var iter := RangeScan(CredBytes(UnspentOf(kind)), prefix, prefix);
          assert iter == UnspentRange(View(), credential, kind);
          txoSet := ScopedPage(iter, |prefix|, Some(unit), offset, limit);
        case ByOutputRef(oref) =>
          txoSet := [];
          if offset == 0 && oref in txo {
            var credentials := AddressCredentials(txo[oref].out.address);
            if (kind, credential) in credentials {
              txoSet := [Txo(oref, txo[oref].out, txo[oref].settledAt, txo[oref].spent)];
            }
            assert (kind, credential) in credentials <==> credential in CredsOf(txo[oref].out.address, kind);
          }
      }
    }

    /** The page asked for, out of the full answer; only an unscoped unit query may write, and only its index. */
    method GetUtxos(scope: Scope, query: TxoQuery, offset: nat, limit: nat) returns (txoSet: seq<Txo>)
      modifies `unitUnspent
      ensures txoSet == Page(Answer(old(View()), scope, query), offset, limit)
      ensures View() == if limit > 0 && scope.None? && query.UnspentByUnit?
                        then EnsureUnit(old(View()), AsciiLower(query.unit)) else old(View())
    {
      if limit == 0 {
        return [];
      }
      if scope.Some? {
        txoSet := ScopedUtxos(scope.value.0, scope.value.1, query, offset, limit);
        return;
      }
      match query {
        case UnspentByUnit(unit) =>
          var lower := AsciiLower(unit);
          EnsureUnitIndex(lower);
          var iter := RangeScan(UnitBytes(unitUnspent), lower, lower);
          assert iter == UnitRange(EnsureUnit(old(View()), lower).unit, lower);
          txoSet := UnitPage(iter, |lower|, offset, limit);
        case ByOutputRef(oref) =>
          txoSet := [];
          if offset == 0 && oref in txo {
            txoSet := [Txo(oref, txo[oref].out, txo[oref].settledAt, txo[oref].spent)];
          }
        case _ =>
          txoSet := [];
      }
    }
  }

  ghost function Holders(txo: map<OutputRef, Row>, seen: set<OutputRef>, unit: seq<byte>): set<OutputRef> {
    set o | o in txo && o in seen && !txo[o].spent && OutputContainsUnit(txo[o].out, unit)
  }

  ghost function UnitEntries(unit: seq<byte>, holders: set<OutputRef>): set<UnitKey> {
    set o | o in holders :: Entry(unit, o)
  }

  lemma HoldersStep(txo: map<OutputRef, Row>, rest: set<OutputRef>, o: OutputRef, unit: seq<byte>)
    requires rest <= txo.Keys && o in rest
    ensures Holders(txo, txo.Keys - (rest - {o}), unit) ==
            Holders(txo, txo.Keys - rest, unit) +
            (if !txo[o].spent && OutputContainsUnit(txo[o].out, unit) then {o} else {})
  {
  }

  lemma AllHolders(txo: map<OutputRef, Row>, unit: seq<byte>)
    ensures Holders(txo, txo.Keys - {}, unit) ==
            set o | o in txo && !txo[o].spent && OutputContainsUnit(txo[o].out, unit)
  {
  }

  predicate IsSentinelKey(prefix: seq<byte>, key: seq<byte>) {
    |key| == |prefix| + 1 && key[|prefix|] == UNIT_INDEX_SENTINEL
  }

  /** The iterator meets something else than the sentinel iff the range holds another key. */
  lemma OtherKeyInRange(keys: set<UnitKey>, unit: seq<byte>, iter: seq<seq<byte>>)
    requires iter == RangeScan(UnitBytes(keys), unit, unit)
    ensures HasOtherKey(keys, unit) <==> exists i :: 0 <= i < |iter| && !IsSentinelKey(unit, iter[i])
  {
    forall k | unit <= UnitKeyBytes(k)
      ensures IsSentinelKey(unit, UnitKeyBytes(k)) <==> UnitKeyBytes(k) == UnitKeyBytes(Sentinel(unit))
    {
    }
    if HasOtherKey(keys, unit) {
      var k :| k in keys && unit <= UnitKeyBytes(k) && UnitKeyBytes(k) != UnitKeyBytes(Sentinel(unit));
      NotBelowPrefix(unit, UnitKeyBytes(k));
      assert UnitKeyBytes(k) in UnitBytes(keys);
      assert UnitKeyBytes(k) in iter;
    }
    if i :| 0 <= i < |iter| && !IsSentinelKey(unit, iter[i]) {
      assert iter[i] in iter;
      var k :| k in keys && UnitKeyBytes(k) == iter[i];
    }
  }

  function FilterOf(unit: Option<seq<byte>>): Filter {
    if unit.Some? then HoldingUnit(unit.value) else Everything
  }

  /** A key that carries the prefix is never below an iterator opened at the prefix. */
  lemma NotBelowPrefix(prefix: seq<byte>, key: seq<byte>)
    requires prefix <= key
    ensures !Less(key, prefix)
  {
    var rest := key[|prefix|..];
    assert key == prefix + rest && prefix == prefix + [];
    LessCommonPrefix(prefix, rest, []);
  }
}
