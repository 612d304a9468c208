/** Paginated queries over the byte-ordered column families, and what their answers mean. */
module Queries {
  import opened Options
  import opened Bytes
  import opened Scans
  import opened Keys
  import opened Ledger
  import opened IndexTables

  datatype Txo = Txo(oref: OutputRef, output: TxOut, settledAt: Option<u64>, spent: bool)

  datatype TxoQuery =
    | All(leastSlot: Option<u64>)
    | Unspent
    | UnspentByUnit(unit: seq<byte>)
    | ByOutputRef(oref: OutputRef)

  type Scope = Option<(Credential, CredentialKind)>

  function TxoOf(txo: map<OutputRef, Row>, o: OutputRef): Txo
    requires o in txo
  {
    Txo(o, txo[o].out, txo[o].settledAt, txo[o].spent)
  }

  // ---- column families as sets of byte strings ----

  function EventBytes(keys: set<EventKey>): set<seq<byte>> { set k | k in keys :: EventKeyBytes(k) }
  function CredBytes(keys: set<CredKey>): set<seq<byte>> { set k | k in keys :: CredKeyBytes(k) }
  function UnitBytes(keys: set<UnitKey>): set<seq<byte>> { set k | k in keys :: UnitKeyBytes(k) }

  /** Deleting a byte key deletes exactly the structured key it encodes, so the structured tables stand for the
      stored ones. */
  lemma EventDeleteByBytes(keys: set<EventKey>, k: EventKey)
    ensures EventBytes(keys - {k}) == EventBytes(keys) - {EventKeyBytes(k)}
  {
    forall q | q in keys && EventKeyBytes(q) == EventKeyBytes(k) ensures q == k { EventKeyInjective(q, k); }
  }

  lemma CredDeleteByBytes(keys: set<CredKey>, k: CredKey)
    ensures CredBytes(keys - {k}) == CredBytes(keys) - {CredKeyBytes(k)}
  {
    forall q | q in keys && CredKeyBytes(q) == CredKeyBytes(k) ensures q == k { CredKeyInjective(q, k); }
  }

  lemma UnitDeleteByBytes(keys: set<UnitKey>, k: UnitKey)
    requires WellFormedUnitKey(k) && forall q :: q in keys ==> WellFormedUnitKey(q)
    ensures UnitBytes(keys - {k}) == UnitBytes(keys) - {UnitKeyBytes(k)}
  {
    forall q | q in keys && UnitKeyBytes(q) == UnitKeyBytes(k) ensures q == k { UnitKeyInjective(q, k); }
  }

  /** Every key a coherent unit table holds is well formed. */
  lemma CoherentUnitKeys(t: Tables, k: UnitKey)
    requires Coherent(t) && k in t.unit
    ensures WellFormedUnitKey(k)
  {
    if k.Entry? {
      assert Entry(k.unit, k.oref) in t.unit;
      UnitsAreHex(t.txo[k.oref].out.multiasset, k.unit);
    }
  }

  /** A read of the txo family with raw key bytes. */
  function GetByKey(txo: map<OutputRef, Row>, key: seq<byte>): Option<Txo> {
    var o := DecodeUtxoKey(key);
    if o.Some? && UtxoKey(o.value) == key && o.value in txo then Some(TxoOf(txo, o.value)) else None
  }

  lemma GetByKeyIs(txo: map<OutputRef, Row>, key: seq<byte>, o: OutputRef)
    ensures GetByKey(txo, key).Some? && GetByKey(txo, key).value.oref == o <==> key == UtxoKey(o) && o in txo
  {
    UtxoKeyRoundTrip(o);
  }

  // ---- the filtered list behind the loops, and its pages ----

  datatype Filter = Everything | HoldingUnit(unit: seq<byte>) | OnlyUnspent

  predicate Keeps(f: Filter, x: Txo) {
    match f
    case Everything => true
    case HoldingUnit(unit) => OutputContainsUnit(x.output, unit)
    case OnlyUnspent => !x.spent
  }

  function HitOf(txo: map<OutputRef, Row>, key: seq<byte>, drop: nat, f: Filter): (r: seq<Txo>)
    requires drop <= |key|
    ensures |r| <= 1
  {
    var x := GetByKey(txo, key[drop..]);
    if x.Some? && Keeps(f, x.value) then [x.value] else []
  }

  function Hits(txo: map<OutputRef, Row>, keys: seq<seq<byte>>, drop: nat, f: Filter): seq<Txo>
    requires forall i :: 0 <= i < |keys| ==> drop <= |keys[i]|
  {
    if keys == [] then []
    else Hits(txo, keys[..|keys| - 1], drop, f) + HitOf(txo, keys[|keys| - 1], drop, f)
  }

  function Min(a: nat, b: nat): nat { if a < b then a else b }

  function Page(s: seq<Txo>, offset: nat, limit: nat): seq<Txo> {
    s[Min(offset, |s|)..Min(offset + limit, |s|)]
  }

  lemma HitsPrefix(txo: map<OutputRef, Row>, keys: seq<seq<byte>>, n: nat, drop: nat, f: Filter)
    requires n <= |keys| && forall i :: 0 <= i < |keys| ==> drop <= |keys[i]|
    ensures Hits(txo, keys[..n], drop, f) <= Hits(txo, keys, drop, f)
    decreases |keys| - n
  {
    if n < |keys| {
      HitsPrefix(txo, keys, n + 1, drop, f);
      assert keys[..n + 1][..n] == keys[..n];
    } else {
      assert keys[..n] == keys;
    }
  }

  lemma HitsStep(txo: map<OutputRef, Row>, keys: seq<seq<byte>>, n: nat, drop: nat, f: Filter)
    requires n < |keys| && InRange(keys, drop)
    ensures Hits(txo, keys[..n + 1], drop, f) == Hits(txo, keys[..n], drop, f) + HitOf(txo, keys[n], drop, f)
  {
    assert keys[..n + 1][..n] == keys[..n];
  }

  /** What one more match does to an unfinished page. */
  lemma PageStep(a: seq<Txo>, x: Txo, offset: nat, limit: nat)
    requires |Page(a, offset, limit)| < limit
    ensures Page(a + [x], offset, limit) ==
            if |a| < offset then Page(a, offset, limit) else Page(a, offset, limit) + [x]
  {
  }

  /** A full page of a prefix of the list is the page of the list. */
  lemma PageOfPrefix(a: seq<Txo>, b: seq<Txo>, offset: nat, limit: nat)
    requires a <= b && |Page(a, offset, limit)| == limit
    ensures Page(b, offset, limit) == Page(a, offset, limit)
  {
  }

  /** Consecutive pages tile the list. */
  lemma PagesTile(s: seq<Txo>, offset: nat, m: nat, n: nat)
    ensures Page(s, offset, m) + Page(s, offset + m, n) == Page(s, offset, m + n)
  {
  }

  function Pages(s: seq<Txo>, size: nat, count: nat): seq<Txo> {
    if count == 0 then [] else Pages(s, size, count - 1) + Page(s, (count - 1) * size, size)
  }

  /** Reading page after page returns the whole list, nothing twice and nothing left out. */
  lemma {:induction false} PagesCover(s: seq<Txo>, size: nat, count: nat)
    ensures Pages(s, size, count) == s[..Min(count * size, |s|)]
    ensures count * size >= |s| ==> Pages(s, size, count) == s
  {
    if count > 0 {
      PagesCover(s, size, count - 1);
      var done := (count - 1) * size;
      assert done + size == count * size;
      PagesTile(s, 0, done, size);
    }
  }

  // ---- the full answer to each query ----

  function InRange(keys: seq<seq<byte>>, n: nat): (ok: bool) {
    forall i :: 0 <= i < |keys| ==> n <= |keys[i]|
  }

  /** Event keys of one credential from a slot on. */
  function EventRange(t: Tables, c: Credential, kind: CredentialKind, slot: u64): (r: seq<seq<byte>>)
    ensures InRange(r, 37) && Ascending(r)
    ensures forall i :: 0 <= i < |r| ==> r[i] in EventBytes(t.Index(kind).events) && CredentialPrefix(c) <= r[i]
  {
    var r := RangeScan(EventBytes(t.Index(kind).events), CredentialPrefix(c), CredentialPrefix(c) + BigEndian(slot, 8));
    assert forall i :: 0 <= i < |r| ==> r[i] in r;
    r
  }

  function UnspentRange(t: Tables, c: Credential, kind: CredentialKind): (r: seq<seq<byte>>)
    ensures InRange(r, 29) && Ascending(r)
    ensures forall i :: 0 <= i < |r| ==> CredentialPrefix(c) <= r[i]
  {
    var r := RangeScan(CredBytes(t.Index(kind).unspent), CredentialPrefix(c), CredentialPrefix(c));
    assert forall i :: 0 <= i < |r| ==> r[i] in r;
    r
  }

  function UnitRange(keys: set<UnitKey>, unit: seq<byte>): (r: seq<seq<byte>>)
    ensures InRange(r, |unit|) && Ascending(r)
    ensures forall i :: 0 <= i < |r| ==> unit <= r[i]
  {
    var r := RangeScan(UnitBytes(keys), unit, unit);
    assert forall i :: 0 <= i < |r| ==> r[i] in r;
    r
  }

  function ByRef(txo: map<OutputRef, Row>, o: OutputRef): seq<Txo> {
    if o in txo then [TxoOf(txo, o)] else []
  }

  function Answer(t: Tables, scope: Scope, query: TxoQuery): seq<Txo> {
    match scope
    case Some((c, kind)) => (
      match query
      case All(leastSlot) => Hits(t.txo, EventRange(t, c, kind, SlotOrMax(leastSlot)), 37, Everything)
      case Unspent => Hits(t.txo, UnspentRange(t, c, kind), 29, Everything)
      case UnspentByUnit(unit) => Hits(t.txo, UnspentRange(t, c, kind), 29, HoldingUnit(unit))
      case ByOutputRef(o) =>
        if o in t.txo && c in CredsOf(t.txo[o].out.address, kind) then ByRef(t.txo, o) else [])
    case None => (
      match query
      case UnspentByUnit(unit) =>
        var lower := AsciiLower(unit);
        Hits(t.txo, UnitRange(EnsureUnit(t, lower).unit, lower), |lower|, OnlyUnspent)
      case ByOutputRef(o) => ByRef(t.txo, o)
      case _ => [])
  }

  // ---- what the answers mean ----

  function KeysOf(a: seq<Txo>): (r: seq<seq<byte>>)
    ensures |r| == |a|
  {
    seq(|a|, i requires 0 <= i < |a| => UtxoKey(a[i].oref))
  }

  ghost predicate Listed(a: seq<Txo>, o: OutputRef) {
    exists i :: 0 <= i < |a| && a[i].oref == o
  }

  /** The list holds the current row of each listed output, once each, in txo key order. */
  ghost predicate Rowwise(a: seq<Txo>, txo: map<OutputRef, Row>) {
    Ascending(KeysOf(a)) && forall i :: 0 <= i < |a| ==> a[i].oref in txo && a[i] == TxoOf(txo, a[i].oref)
  }

  /** Two row-wise lists of the same outputs are the same list. */
  lemma RowwiseUnique(a: seq<Txo>, b: seq<Txo>, txo: map<OutputRef, Row>)
    requires Rowwise(a, txo) && Rowwise(b, txo)
    requires forall o :: Listed(a, o) <==> Listed(b, o)
    ensures a == b
  {
    KeysListed(a, b);
    KeysListed(b, a);
    AscendingUnique(KeysOf(a), KeysOf(b));
    forall i | 0 <= i < |a| ensures a[i] == b[i] {
      assert KeysOf(a)[i] == KeysOf(b)[i];
      UtxoKeyInjective(a[i].oref, b[i].oref);
    }
  }

  lemma KeysListed(a: seq<Txo>, b: seq<Txo>)
    requires forall o :: Listed(a, o) ==> Listed(b, o)
    ensures forall k :: k in KeysOf(a) ==> k in KeysOf(b)
  {
    forall k | k in KeysOf(a) ensures k in KeysOf(b) {
      var i :| 0 <= i < |a| && KeysOf(a)[i] == k;
      assert Listed(a, a[i].oref);
      var j :| 0 <= j < |b| && b[j].oref == a[i].oref;
      assert KeysOf(b)[j] == k;
    }
  }

  /** Over a range of keys with one common prefix, the loop lists exactly the kept rows whose prefixed txo key
      is in the range; over an ascending range it lists them in order. */
  lemma {:induction false} HitsListed(txo: map<OutputRef, Row>, keys: seq<seq<byte>>, p: seq<byte>, f: Filter,
                                      o: OutputRef)
    requires forall i :: 0 <= i < |keys| ==> p <= keys[i]
    ensures Listed(Hits(txo, keys, |p|, f), o) <==>
              p + UtxoKey(o) in keys && o in txo && Keeps(f, TxoOf(txo, o))
  {
    if keys != [] {
      var n := |keys| - 1;
      HitsListed(txo, keys[..n], p, f, o);
      ListedConcat(Hits(txo, keys[..n], |p|, f), HitOf(txo, keys[n], |p|, f), o);
      HitOfIs(txo, keys[n], p, f, o);
      assert keys == keys[..n] + [keys[n]];
    }
  }

  lemma {:induction false} HitsRowwise(txo: map<OutputRef, Row>, keys: seq<seq<byte>>, p: seq<byte>, f: Filter)
    requires Ascending(keys) && forall i :: 0 <= i < |keys| ==> p <= keys[i]
    ensures Rowwise(Hits(txo, keys, |p|, f), txo)
  {
    if keys != [] {
      var n := |keys| - 1;
      var most, hit := Hits(txo, keys[..n], |p|, f), HitOf(txo, keys[n], |p|, f);
      HitsRowwise(txo, keys[..n], p, f);
      if hit == [] {
        assert most + hit == most;
      } else {
        assert hit == [hit[0]];
        HitAppends(txo, keys, p, f, most, hit[0]);
      }
    }
  }

  lemma HitOfIs(txo: map<OutputRef, Row>, key: seq<byte>, p: seq<byte>, f: Filter, o: OutputRef)
    requires p <= key
    ensures Listed(HitOf(txo, key, |p|, f), o) <==> key == p + UtxoKey(o) && o in txo && Keeps(f, TxoOf(txo, o))
  {
    assert key == p + key[|p|..] && (p + UtxoKey(o))[|p|..] == UtxoKey(o);
    GetByKeyIs(txo, key[|p|..], o);
    var hit := HitOf(txo, key, |p|, f);
    if hit != [] && hit[0].oref == o { assert Listed(hit, o); }
  }

  lemma HitAppends(txo: map<OutputRef, Row>, keys: seq<seq<byte>>, p: seq<byte>, f: Filter, most: seq<Txo>, x: Txo)
    requires keys != [] && Ascending(keys) && forall i :: 0 <= i < |keys| ==> p <= keys[i]
    requires most == Hits(txo, keys[..|keys| - 1], |p|, f) && Rowwise(most, txo)
    requires HitOf(txo, keys[|keys| - 1], |p|, f) == [x]
    ensures Rowwise(most + [x], txo)
  {
    var n := |keys| - 1;
    GetByKeyIs(txo, keys[n][|p|..], x.oref);
    assert keys[n] == p + UtxoKey(x.oref);
    forall i | 0 <= i < |most| ensures Less(KeysOf(most)[i], UtxoKey(x.oref)) {
      HitsListed(txo, keys[..n], p, f, most[i].oref);
      assert Listed(most, most[i].oref);
      LessCommonPrefix(p, UtxoKey(most[i].oref), UtxoKey(x.oref));
    }
    RowwiseAppend(most, x, txo);
  }

  lemma RowwiseAppend(a: seq<Txo>, x: Txo, txo: map<OutputRef, Row>)
    requires Rowwise(a, txo) && x.oref in txo && x == TxoOf(txo, x.oref)
    requires forall i :: 0 <= i < |a| ==> Less(KeysOf(a)[i], UtxoKey(x.oref))
    ensures Rowwise(a + [x], txo)
  {
    assert KeysOf(a + [x]) == KeysOf(a) + [UtxoKey(x.oref)];
  }

  lemma ListedConcat(a: seq<Txo>, b: seq<Txo>, o: OutputRef)
    ensures Listed(a + b, o) <==> Listed(a, o) || Listed(b, o)
  {
    if Listed(a, o) {
      var i :| 0 <= i < |a| && a[i].oref == o;
      assert (a + b)[i].oref == o;
    }
    if Listed(b, o) {
      var i :| 0 <= i < |b| && b[i].oref == o;
      assert (a + b)[|a| + i].oref == o;
    }
  }

  ghost predicate UnspentWith(txo: map<OutputRef, Row>, o: OutputRef, c: Credential, kind: CredentialKind) {
    o in txo && !txo[o].spent && c in CredsOf(txo[o].out.address, kind)
  }

  lemma UnspentRangeMembers(t: Tables, c: Credential, kind: CredentialKind, o: OutputRef)
    requires Coherent(t)
    ensures CredentialPrefix(c) + UtxoKey(o) in UnspentRange(t, c, kind) <==> UnspentWith(t.txo, o, c, kind)
  {
    var key, keys := CredKey(c, o), t.Index(kind).unspent;
    CredKeyParts(key, c);
    if CredKeyBytes(key) in CredBytes(keys) {
      var k :| k in keys && CredKeyBytes(k) == CredKeyBytes(key);
      CredKeyInjective(k, key);
    }
    LessCommonPrefix(CredentialPrefix(c), UtxoKey(o), []);
    assert CredentialPrefix(c) + [] == CredentialPrefix(c);
  }

  /** The scoped Unspent query lists exactly the unspent outputs of the credential, each once. */
  lemma UnspentAnswer(t: Tables, c: Credential, kind: CredentialKind)
    requires Coherent(t)
    ensures Rowwise(Answer(t, Some((c, kind)), Unspent), t.txo)
    ensures forall o :: Listed(Answer(t, Some((c, kind)), Unspent), o) <==> UnspentWith(t.txo, o, c, kind)
  {
    var range, p := UnspentRange(t, c, kind), CredentialPrefix(c);
    HitsRowwise(t.txo, range, p, Everything);
    forall o ensures Listed(Hits(t.txo, range, 29, Everything), o) <==> UnspentWith(t.txo, o, c, kind) {
      HitsListed(t.txo, range, p, Everything, o);
      UnspentRangeMembers(t, c, kind, o);
    }
  }

  /** The scoped unit query lists exactly those of them that hold the unit, whatever case it is written in. */
  lemma ScopedUnitAnswer(t: Tables, c: Credential, kind: CredentialKind, unit: seq<byte>)
    requires Coherent(t)
    ensures Rowwise(Answer(t, Some((c, kind)), UnspentByUnit(unit)), t.txo)
    ensures forall o :: Listed(Answer(t, Some((c, kind)), UnspentByUnit(unit)), o) <==>
              UnspentWith(t.txo, o, c, kind) && OutputContainsUnit(t.txo[o].out, unit)
  {
    var range, p, f := UnspentRange(t, c, kind), CredentialPrefix(c), HoldingUnit(unit);
    HitsRowwise(t.txo, range, p, f);
    forall o
      ensures Listed(Hits(t.txo, range, 29, f), o) <==>
              UnspentWith(t.txo, o, c, kind) && OutputContainsUnit(t.txo[o].out, unit)
    {
      HitsListed(t.txo, range, p, f, o);
      UnspentRangeMembers(t, c, kind, o);
    }
  }

  /** Entries of longer units and foreign sentinels share the range but never decode to a txo key. */
  lemma UnitRangeMembers(t: Tables, unit: seq<byte>, o: OutputRef)
    requires Coherent(t)
    ensures unit + UtxoKey(o) in UnitRange(t.unit, unit) <==> Entry(unit, o) in t.unit
  {
    var key := UnitKeyBytes(Entry(unit, o));
    assert key[|unit|..] == UtxoKey(o) && unit <= key;
    if key in UnitBytes(t.unit) {
      var k :| k in t.unit && UnitKeyBytes(k) == key;
      CoherentUnitKeys(t, k);
      if k.Entry? {
        UnitEntryStrip(k.unit, k.oref, unit, o);
      } else {
        SentinelStrip(k.unit, |unit|, o);
      }
    }
    LessCommonPrefix(unit, UtxoKey(o), []);
    assert unit + [] == unit;
  }

  lemma UnitHits(t: Tables, unit: seq<byte>)
    requires Coherent(t) && AsciiLower(unit) == unit
    ensures Rowwise(Hits(t.txo, UnitRange(t.unit, unit), |unit|, OnlyUnspent), t.txo)
    ensures forall o :: Listed(Hits(t.txo, UnitRange(t.unit, unit), |unit|, OnlyUnspent), o) <==>
              o in t.txo && !t.txo[o].spent && OutputContainsUnit(t.txo[o].out, unit)
  {
    var range := UnitRange(t.unit, unit);
    HitsRowwise(t.txo, range, unit, OnlyUnspent);
    forall o
      ensures Listed(Hits(t.txo, range, |unit|, OnlyUnspent), o) <==>
              o in t.txo && !t.txo[o].spent && OutputContainsUnit(t.txo[o].out, unit)
    {
      HitsListed(t.txo, range, unit, OnlyUnspent, o);
      UnitRangeMembers(t, unit, o);
    }
  }

  /** The unscoped unit query lists exactly the unspent outputs that hold the unit, each once. */
  lemma GlobalUnitAnswer(t: Tables, unit: seq<byte>)
    requires Coherent(t)
    ensures Rowwise(Answer(t, None, UnspentByUnit(unit)), t.txo)
    ensures forall o :: Listed(Answer(t, None, UnspentByUnit(unit)), o) <==>
              o in t.txo && !t.txo[o].spent && OutputContainsUnit(t.txo[o].out, unit)
  {
    var lower := AsciiLower(unit);
    LowerIdempotent(unit);
    var t' := EnsureUnit(t, lower);
    EnsureUnitCoherent(t, lower);
    UnitHits(t', lower);
    assert t'.txo == t.txo;
  }

  ghost function Restrict(a: seq<Txo>, c: Credential, kind: CredentialKind): seq<Txo> {
    if a == [] then []
    else
      var n := |a| - 1;
      Restrict(a[..n], c, kind) + if c in CredsOf(a[n].output.address, kind) then [a[n]] else []
  }

  ghost predicate ListedWith(a: seq<Txo>, c: Credential, kind: CredentialKind, o: OutputRef) {
    exists i :: 0 <= i < |a| && a[i].oref == o && c in CredsOf(a[i].output.address, kind)
  }

  lemma ListedWithStep(a: seq<Txo>, x: Txo, c: Credential, kind: CredentialKind, o: OutputRef)
    ensures ListedWith(a + [x], c, kind, o) <==>
            ListedWith(a, c, kind, o) || (x.oref == o && c in CredsOf(x.output.address, kind))
  {
    if ListedWith(a, c, kind, o) {
      var i :| 0 <= i < |a| && a[i].oref == o && c in CredsOf(a[i].output.address, kind);
      assert (a + [x])[i] == a[i];
    }
    assert (a + [x])[|a|] == x;
  }

  lemma {:induction false} RestrictListed(a: seq<Txo>, c: Credential, kind: CredentialKind, o: OutputRef)
    ensures Listed(Restrict(a, c, kind), o) <==> ListedWith(a, c, kind, o)
  {
    if a != [] {
      var n := |a| - 1;
      RestrictListed(a[..n], c, kind, o);
      var most, last := Restrict(a[..n], c, kind), if c in CredsOf(a[n].output.address, kind) then [a[n]] else [];
      ListedConcat(most, last, o);
      ListedOne(a[n], o);
      ListedWithStep(a[..n], a[n], c, kind, o);
      assert a == a[..n] + [a[n]];
    }
  }

  lemma RestrictBelow(a: seq<Txo>, txo: map<OutputRef, Row>, c: Credential, kind: CredentialKind, i: nat)
    requires a != [] && Rowwise(a, txo) && i < |Restrict(a[..|a| - 1], c, kind)|
    ensures Less(UtxoKey(Restrict(a[..|a| - 1], c, kind)[i].oref), UtxoKey(a[|a| - 1].oref))
  {
    var n := |a| - 1;
    var most := Restrict(a[..n], c, kind);
    RestrictListed(a[..n], c, kind, most[i].oref);
    assert Listed(most, most[i].oref);
    var j :| 0 <= j < n && a[..n][j].oref == most[i].oref;
    assert Less(KeysOf(a)[j], KeysOf(a)[n]);
  }

  lemma RowwisePrefix(a: seq<Txo>, txo: map<OutputRef, Row>)
    requires a != [] && Rowwise(a, txo)
    ensures Rowwise(a[..|a| - 1], txo)
  {
    assert KeysOf(a)[..|a| - 1] == KeysOf(a[..|a| - 1]);
  }

  lemma {:induction false} RestrictRowwise(a: seq<Txo>, txo: map<OutputRef, Row>, c: Credential, kind: CredentialKind)
    requires Rowwise(a, txo)
    ensures Rowwise(Restrict(a, c, kind), txo)
  {
    if a != [] {
      var n := |a| - 1;
      RowwisePrefix(a, txo);
      RestrictRowwise(a[..n], txo, c, kind);
      var most := Restrict(a[..n], c, kind);
      if c in CredsOf(a[n].output.address, kind) {
        forall i | 0 <= i < |most| ensures Less(KeysOf(most)[i], UtxoKey(a[n].oref)) {
          RestrictBelow(a, txo, c, kind, i);
        }
        RowwiseAppend(most, a[n], txo);
      } else {
        assert Restrict(a, c, kind) == most;
      }
    }
  }

  lemma ListedOne(x: Txo, o: OutputRef)
    ensures Listed([x], o) <==> x.oref == o
  {
    assert [x][0] == x;
  }

  /** The fast global unit index refines the scan: restricted to a credential it gives the scoped answer. */
  lemma GlobalRefinesScoped(t: Tables, c: Credential, kind: CredentialKind, unit: seq<byte>)
    requires Coherent(t)
    ensures Restrict(Answer(t, None, UnspentByUnit(unit)), c, kind) == Answer(t, Some((c, kind)), UnspentByUnit(unit))
  {
    var a, b := Answer(t, None, UnspentByUnit(unit)), Answer(t, Some((c, kind)), UnspentByUnit(unit));
    GlobalUnitAnswer(t, unit);
    ScopedUnitAnswer(t, c, kind, unit);
    RestrictRowwise(a, t.txo, c, kind);
    forall o ensures Listed(Restrict(a, c, kind), o) <==> Listed(b, o) {
      RestrictListed(a, c, kind, o);
      if Listed(b, o) {
        assert Listed(a, o);
        var i :| 0 <= i < |a| && a[i].oref == o;
        assert a[i] == TxoOf(t.txo, o);
      }
    }
    RowwiseUnique(Restrict(a, c, kind), b, t.txo);
  }

  /** On any database, indexed or not: when the unit's key range holds nothing but its sentinel, the scan makes
      the unit's entries exactly the unspent rows that hold it. */
  lemma EnsureUnitScans(t: Tables, unit: seq<byte>)
    requires !HasOtherKey(t.unit, unit)
    ensures forall o :: Entry(unit, o) in EnsureUnit(t, unit).unit <==>
              o in t.txo && !t.txo[o].spent && OutputContainsUnit(t.txo[o].out, unit)
    ensures Sentinel(unit) in EnsureUnit(t, unit).unit <==>
              forall o :: o in t.txo && !t.txo[o].spent ==> !OutputContainsUnit(t.txo[o].out, unit)
  {
    forall o ensures Entry(unit, o) !in t.unit { EntryIsOtherKey(t.unit, unit, o); }
    var holders := set o | o in t.txo && !t.txo[o].spent && OutputContainsUnit(t.txo[o].out, unit);
    assert holders == {} <==> forall o :: o in t.txo && !t.txo[o].spent ==> !OutputContainsUnit(t.txo[o].out, unit) by {
      if holders != {} { var o :| o in holders; }
      forall o | o in t.txo && !t.txo[o].spent && OutputContainsUnit(t.txo[o].out, unit) ensures o in holders {}
    }
  }

  lemma EntryIsOtherKey(keys: set<UnitKey>, unit: seq<byte>, o: OutputRef)
    ensures Entry(unit, o) in keys ==> HasOtherKey(keys, unit)
  {
    SentinelLastByte(Entry(unit, o));
    SentinelLastByte(Sentinel(unit));
    assert unit <= UnitKeyBytes(Entry(unit, o));
  }

  /** Asking again changes nothing, so the pages of one unit query are pages of one list. */
  lemma EnsureUnitIdempotent(t: Tables, unit: seq<byte>)
    ensures EnsureUnit(EnsureUnit(t, unit), unit) == EnsureUnit(t, unit)
  {
    var t' := EnsureUnit(t, unit);
    if !HasOtherKey(t'.unit, unit) && !HasOtherKey(t.unit, unit) {
      EnsureUnitScans(t, unit);
      forall o ensures Entry(unit, o) !in t'.unit { EntryIsOtherKey(t'.unit, unit, o); }
      assert EnsureUnit(t', unit).unit == t'.unit;
    }
  }

  /** Filling in the index for any unit between two requests changes no answer, so successive pages of a query
      over unchanged rows are pages of one list. */
  lemma AnswersSurviveUnitQueries(t: Tables, other: seq<byte>, scope: Scope, query: TxoQuery)
    requires Coherent(t)
    ensures Answer(EnsureUnit(t, AsciiLower(other)), scope, query) == Answer(t, scope, query)
  {
    var t' := EnsureUnit(t, AsciiLower(other));
    assert t'.txo == t.txo && t'.payment == t.payment && t'.stake == t.stake;
    if scope.None? && query.UnspentByUnit? {
      LowerIdempotent(other);
      EnsureUnitCoherent(t, AsciiLower(other));
      GlobalUnitAnswer(t, query.unit);
      GlobalUnitAnswer(t', query.unit);
      RowwiseUnique(Answer(t', scope, query), Answer(t, scope, query), t.txo);
    }
  }

  /** The events an All query walks, in iteration order. */
  ghost predicate EventList(ks: seq<EventKey>, t: Tables, c: Credential, kind: CredentialKind, slot: u64) {
    && (forall i :: 0 <= i < |ks| ==> ks[i] in t.Index(kind).events && ks[i].cred == c && ks[i].slot >= slot)
    && (forall k :: k in t.Index(kind).events && k.cred == c && k.slot >= slot ==> k in ks)
    && (forall i, j :: 0 <= i < j < |ks| ==>
          ks[i].slot < ks[j].slot || (ks[i].slot == ks[j].slot && Less(UtxoKey(ks[i].oref), UtxoKey(ks[j].oref))))
  }

  function RowsOf(txo: map<OutputRef, Row>, ks: seq<EventKey>): seq<Txo> {
    if ks == [] then []
    else RowsOf(txo, ks[..|ks| - 1]) + ByRef(txo, ks[|ks| - 1].oref)
  }

  /** The event key behind a stored byte key. */
  ghost function EventOf(events: set<EventKey>, key: seq<byte>): (k: EventKey)
    requires key in EventBytes(events)
    ensures k in events && EventKeyBytes(k) == key
  {
    var k :| k in events && EventKeyBytes(k) == key;
    k
  }

  lemma DecodeEvents(events: set<EventKey>, c: Credential, keys: seq<seq<byte>>) returns (ks: seq<EventKey>)
    requires forall i :: 0 <= i < |keys| ==> keys[i] in EventBytes(events) && CredentialPrefix(c) <= keys[i]
    ensures |ks| == |keys|
    ensures forall i :: 0 <= i < |ks| ==> ks[i] in events && ks[i].cred == c && EventKeyBytes(ks[i]) == keys[i]
  {
    ks := seq(|keys|, i requires 0 <= i < |keys| => EventOf(events, keys[i]));
    forall i | 0 <= i < |ks| ensures ks[i].cred == c {
      EventKeyParts(ks[i], c);
    }
  }

  lemma {:induction false} HitsAreRows(txo: map<OutputRef, Row>, keys: seq<seq<byte>>, ks: seq<EventKey>)
    requires |keys| == |ks| && forall i :: 0 <= i < |keys| ==> keys[i] == EventKeyBytes(ks[i])
    ensures InRange(keys, 37)
    ensures Hits(txo, keys, 37, Everything) == RowsOf(txo, ks)
  {
    if keys != [] {
      var n := |keys| - 1;
      HitsAreRows(txo, keys[..n], ks[..n]);
      EventKeyParts(ks[n], ks[n].cred);
      GetByKeyIs(txo, keys[n][37..], ks[n].oref);
      UtxoKeyRoundTrip(ks[n].oref);
    }
  }

  /** All(s) walks exactly the credential's event keys from slot s on, by slot and then by txo key, so that
      unconfirmed events come last, and returns the current row of each event whose output is still stored. */
  lemma AllAnswer(t: Tables, c: Credential, kind: CredentialKind, leastSlot: Option<u64>) returns (ks: seq<EventKey>)
    ensures EventList(ks, t, c, kind, SlotOrMax(leastSlot))
    ensures Answer(t, Some((c, kind)), All(leastSlot)) == RowsOf(t.txo, ks)
  {
    var slot := SlotOrMax(leastSlot);
    var keys := EventRange(t, c, kind, slot);
    ks := DecodeEvents(t.Index(kind).events, c, keys);
    EventRangeIsEventList(t, c, kind, slot, keys, ks);
    HitsAreRows(t.txo, keys, ks);
  }

  lemma EventRangeIsEventList(t: Tables, c: Credential, kind: CredentialKind, slot: u64,
                              keys: seq<seq<byte>>, ks: seq<EventKey>)
    requires keys == EventRange(t, c, kind, slot) && |ks| == |keys|
    requires forall i :: 0 <= i < |ks| ==>
               ks[i] in t.Index(kind).events && ks[i].cred == c && EventKeyBytes(ks[i]) == keys[i]
    ensures EventList(ks, t, c, kind, slot)
  {
    forall i | 0 <= i < |ks| ensures ks[i].slot >= slot {
      EventKeyBound(ks[i], slot);
      assert keys[i] in keys;
    }
    forall i, j | 0 <= i < j < |ks|
      ensures ks[i].slot < ks[j].slot || (ks[i].slot == ks[j].slot && Less(UtxoKey(ks[i].oref), UtxoKey(ks[j].oref)))
    {
      assert Less(keys[i], keys[j]);
      EventKeyOrder(ks[i], ks[j]);
    }
    forall k | k in t.Index(kind).events && k.cred == c && k.slot >= slot ensures k in ks {
      EventKeyParts(k, c);
      EventKeyBound(k, slot);
      assert EventKeyBytes(k) in EventBytes(t.Index(kind).events);
      assert EventKeyBytes(k) in keys;
      var i :| 0 <= i < |keys| && keys[i] == EventKeyBytes(k);
      EventKeyInjective(ks[i], k);
    }
  }

  lemma {:induction false} RowsOfListed(txo: map<OutputRef, Row>, ks: seq<EventKey>, o: OutputRef)
    ensures Listed(RowsOf(txo, ks), o) <==> o in txo && exists i :: 0 <= i < |ks| && ks[i].oref == o
  {
    if ks != [] {
      var n := |ks| - 1;
      RowsOfListed(txo, ks[..n], o);
      ListedConcat(RowsOf(txo, ks[..n]), ByRef(txo, ks[n].oref), o);
      if ks[n].oref in txo { ListedOne(TxoOf(txo, ks[n].oref), o); }
      if i :| 0 <= i < n && ks[i].oref == o { assert ks[..n][i].oref == o; }
      if i :| 0 <= i < n && ks[..n][i].oref == o { assert ks[i].oref == o; }
    }
  }

  /** All(0) misses no output of the credential, spent or not, and All(s) misses none that is unspent and
      settled at s or later or not at all. */
  lemma AllMissesNothing(t: Tables, c: Credential, kind: CredentialKind, slot: u64, o: OutputRef)
    requires Coherent(t) && o in t.txo && c in CredsOf(t.txo[o].out.address, kind)
    requires slot == 0 || (!t.txo[o].spent && SlotOrMax(t.txo[o].settledAt) >= slot)
    ensures Listed(Answer(t, Some((c, kind)), All(Some(slot))), o)
  {
    var ks := AllAnswer(t, c, kind, Some(slot));
    RowsOfListed(t.txo, ks, o);
    var events := t.Index(kind).events;
    assert Covered(events, c, o);
    var s :| EventKey(c, s, o) in events;
    var k := if slot == 0 then EventKey(c, s, o) else EventKey(c, SlotOrMax(t.txo[o].settledAt), o);
    assert k in ks;
  }
}
