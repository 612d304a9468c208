/** Transactions, outputs, addresses and the units an output holds. */
module Ledger {
  import opened Bytes
  import opened Keys

  datatype CredentialKind = Payment | Stake

  datatype Address =
    | Base(payment: Credential, stake: Credential)
    | Enterprise(payment: Credential)
    | Ptr(payment: Credential)
    | Reward(payment: Credential)
    | Byron(bytes: seq<byte>)

  function AddressCredentials(a: Address): seq<(CredentialKind, Credential)> {
    match a
    case Base(payment, stake) => [(Payment, payment), (Stake, stake)]
    case Enterprise(payment) => [(Payment, payment)]
    case Ptr(payment) => [(Payment, payment)]
    case Reward(payment) => [(Stake, payment)]
    case Byron(_) => []
  }

  /** The credentials of one kind in a list of tagged credentials. */
  function CredSet(list: seq<(CredentialKind, Credential)>, kind: CredentialKind): set<Credential> {
    set i | 0 <= i < |list| && list[i].0 == kind :: list[i].1
  }

  function CredsOf(a: Address, kind: CredentialKind): set<Credential> {
    CredSet(AddressCredentials(a), kind)
  }

  lemma CredSetStep(list: seq<(CredentialKind, Credential)>, n: nat, kind: CredentialKind)
    requires n < |list|
    ensures CredSet(list[..n + 1], kind) ==
            CredSet(list[..n], kind) + (if list[n].0 == kind then {list[n].1} else {})
  {
    var a, b := CredSet(list[..n + 1], kind), CredSet(list[..n], kind);
    forall c | c in a ensures c in b || (list[n].0 == kind && list[n].1 == c) {
      var i :| 0 <= i < n + 1 && list[..n + 1][i].0 == kind && list[..n + 1][i].1 == c;
      if i < n { assert list[..n][i] == list[i]; }
    }
    forall c | c in b ensures c in a {
      var i :| 0 <= i < n && list[..n][i].0 == kind && list[..n][i].1 == c;
      assert list[..n + 1][i] == list[i];
    }
    assert list[..n + 1][n] == list[n];
  }

  /** The assets of one policy, and an output: address, multi-asset value and everything else as bytes. */
  datatype PolicyAssets = PolicyAssets(policy: Hash28, names: seq<seq<byte>>)
  datatype TxOut = TxOut(address: Address, multiasset: seq<PolicyAssets>, body: seq<byte>)

  function PolicyUnits(p: PolicyAssets): seq<seq<byte>> {
    seq(|p.names|, i requires 0 <= i < |p.names| => AsciiLower(Hex(p.policy) + Hex(p.names[i])))
  }

  function UnitsOf(assets: seq<PolicyAssets>): seq<seq<byte>> {
    if assets == [] then [] else PolicyUnits(assets[0]) + UnitsOf(assets[1..])
  }

  function OutputUnits(o: TxOut): seq<seq<byte>> { UnitsOf(o.multiasset) }

  predicate OutputContainsUnit(o: TxOut, unit: seq<byte>) { AsciiLower(unit) in OutputUnits(o) }

  /** Every unit an output reports is lowercase hexadecimal. */
  lemma {:induction false} UnitsAreHex(assets: seq<PolicyAssets>, unit: seq<byte>)
    requires unit in UnitsOf(assets)
    ensures IsHexUnit(unit) && AsciiLower(unit) == unit
  {
    if unit in PolicyUnits(assets[0]) {
      var p := assets[0];
      var i :| 0 <= i < |p.names| && unit == PolicyUnits(p)[i];
      var raw := Hex(p.policy) + Hex(p.names[i]);
      assert forall j :: 0 <= j < |raw| ==> IsHexLower(raw[j]);
      HexIsLowercase(raw);
    } else {
      UnitsAreHex(assets[1..], unit);
    }
  }

  /** Some policy of the list holds the named asset. */
  ghost predicate HoldsAsset(assets: seq<PolicyAssets>, unit: seq<byte>) {
    exists i, j :: IsAsset(assets, unit, i, j)
  }

  ghost predicate IsAsset(assets: seq<PolicyAssets>, unit: seq<byte>, i: int, j: int) {
    0 <= i < |assets| && 0 <= j < |assets[i].names| && unit == UnitText(assets[i].policy, assets[i].names[j])
  }

  lemma PolicyUnitsMembers(p: PolicyAssets, unit: seq<byte>)
    ensures unit in PolicyUnits(p) <==> exists j :: 0 <= j < |p.names| && unit == UnitText(p.policy, p.names[j])
  {
    forall j | 0 <= j < |p.names| ensures PolicyUnits(p)[j] == UnitText(p.policy, p.names[j]) {
      UnitTextIsLower(p.policy, p.names[j]);
    }
    if j :| 0 <= j < |p.names| && unit == UnitText(p.policy, p.names[j]) { assert PolicyUnits(p)[j] == unit; }
  }

  lemma HoldsAssetStep(assets: seq<PolicyAssets>, unit: seq<byte>)
    requires assets != []
    ensures HoldsAsset(assets, unit) <==>
            HoldsAsset(assets[1..], unit) ||
            exists j :: 0 <= j < |assets[0].names| && unit == UnitText(assets[0].policy, assets[0].names[j])
  {
    if HoldsAsset(assets, unit) {
      var i, j :| IsAsset(assets, unit, i, j);
      if i > 0 { assert IsAsset(assets[1..], unit, i - 1, j); }
    }
    if HoldsAsset(assets[1..], unit) {
      var i, j :| IsAsset(assets[1..], unit, i, j);
      assert IsAsset(assets, unit, i + 1, j);
    }
    if j :| 0 <= j < |assets[0].names| && unit == UnitText(assets[0].policy, assets[0].names[j]) {
      assert IsAsset(assets, unit, 0, j);
    }
  }

  lemma {:induction false} UnitsOfMembers(assets: seq<PolicyAssets>, unit: seq<byte>)
    ensures unit in UnitsOf(assets) <==> HoldsAsset(assets, unit)
  {
    if assets != [] {
      UnitsOfMembers(assets[1..], unit);
      PolicyUnitsMembers(assets[0], unit);
      HoldsAssetStep(assets, unit);
    }
  }

  /** A unit: hexadecimal policy followed by hexadecimal asset name. */
  function UnitText(policy: Hash28, name: seq<byte>): seq<byte> { Hex(policy) + Hex(name) }

  lemma UnitTextIsLower(policy: Hash28, name: seq<byte>)
    ensures AsciiLower(Hex(policy) + Hex(name)) == UnitText(policy, name)
  {
    var raw := Hex(policy) + Hex(name);
    assert forall j :: 0 <= j < |raw| ==> IsHexLower(raw[j]);
    HexIsLowercase(raw);
  }

  /** A unit names one asset: policy and name can be read back from it. */
  lemma UnitTextInjective(p: Hash28, n: seq<byte>, q: Hash28, m: seq<byte>)
    requires UnitText(p, n) == UnitText(q, m)
    ensures p == q && n == m
  {
    assert UnitText(p, n)[..56] == Hex(p) && UnitText(p, n)[56..] == Hex(n);
    assert UnitText(q, m)[..56] == Hex(q) && UnitText(q, m)[56..] == Hex(m);
    HexRoundTrip(p);
    HexRoundTrip(q);
    HexRoundTrip(n);
    HexRoundTrip(m);
  }

  /** An output is found by a unit, in any case, iff it holds the asset the unit names. */
  lemma OutputContainsUnitIff(o: TxOut, policy: Hash28, name: seq<byte>)
    ensures OutputContainsUnit(o, UnitText(policy, name)) <==>
            exists i :: 0 <= i < |o.multiasset| && o.multiasset[i].policy == policy && name in o.multiasset[i].names
  {
    var unit := UnitText(policy, name);
    UnitTextIsLower(policy, name);
    UnitsOfMembers(o.multiasset, unit);
    if i, j :| IsAsset(o.multiasset, unit, i, j) {
      UnitTextInjective(policy, name, o.multiasset[i].policy, o.multiasset[i].names[j]);
    }
    if i :| 0 <= i < |o.multiasset| && o.multiasset[i].policy == policy && name in o.multiasset[i].names {
      var j :| 0 <= j < |o.multiasset[i].names| && o.multiasset[i].names[j] == name;
      assert IsAsset(o.multiasset, unit, i, j);
    }
  }

  /** The output holds the asset of this policy and name. */
  ghost predicate HoldsNamed(o: TxOut, policy: Hash28, name: seq<byte>) {
    exists i :: 0 <= i < |o.multiasset| && o.multiasset[i].policy == policy && name in o.multiasset[i].names
  }

  /** However the letters of a unit are written, an output contains it iff it holds the asset it spells. */
  lemma SpelledUnitIff(o: TxOut, u: seq<byte>, policy: Hash28, name: seq<byte>)
    requires Spells(u, UnitText(policy, name))
    ensures OutputContainsUnit(o, u) <==> HoldsNamed(o, policy, name)
  {
    var text := UnitText(policy, name);
    UnitTextIsLower(policy, name);
    assert forall i :: 0 <= i < |text| ==> IsHexLower(text[i]);
    LowerIffSpells(u, text);
    OutputContainsUnitIff(o, policy, name);
  }

  /** And a text that spells no asset of the output is not contained in it. */
  lemma ContainedIsSpelled(o: TxOut, u: seq<byte>)
    ensures OutputContainsUnit(o, u) <==>
            exists policy, name :: Spells(u, UnitText(policy, name)) && HoldsNamed(o, policy, name)
  {
    if OutputContainsUnit(o, u) {
      UnitsOfMembers(o.multiasset, AsciiLower(u));
      var i, j :| IsAsset(o.multiasset, AsciiLower(u), i, j);
      var policy, name := o.multiasset[i].policy, o.multiasset[i].names[j];
      var text := UnitText(policy, name);
      assert forall k :: 0 <= k < |text| ==> IsHexLower(text[k]);
      LowerIffSpells(u, text);
      assert HoldsNamed(o, policy, name);
    }
    if policy, name :| Spells(u, UnitText(policy, name)) && HoldsNamed(o, policy, name) {
      SpelledUnitIff(o, u, policy, name);
    }
  }

  /** Who an address belongs to: a base address to its payment credential for payments and its stake credential
      for stake, an enterprise or pointer address to its payment credential only, a reward address to its
      credential for stake only, a Byron address to none. */
  ghost predicate BelongsTo(a: Address, c: Credential, kind: CredentialKind) {
    match a
    case Base(p, s) => c == (if kind == Payment then p else s)
    case Enterprise(p) => kind == Payment && c == p
    case Ptr(p) => kind == Payment && c == p
    case Reward(s) => kind == Stake && c == s
    case Byron(_) => false
  }

  lemma CredsAreOwners(a: Address, c: Credential, kind: CredentialKind)
    ensures c in CredsOf(a, kind) <==> BelongsTo(a, c, kind)
  {
    var list := AddressCredentials(a);
    match a
    case Base(p, s) => assert list[0] == (Payment, p) && list[1] == (Stake, s);
    case Enterprise(p) => assert list[0] == (Payment, p);
    case Ptr(p) => assert list[0] == (Payment, p);
    case Reward(s) => assert list[0] == (Stake, s);
    case Byron(_) =>
  }

  /** A vector's length fits the machine word its positions are cast to. */
  type Outputs = s: seq<TxOut> | |s| <= U64_MAX

  datatype Tx = Tx(hash: Hash32, inputs: seq<OutputRef>, outputs: Outputs)

  predicate Consumes(tx: Tx, o: OutputRef) { o in tx.inputs }

  predicate Produces(tx: Tx, o: OutputRef) { o.txHash == tx.hash && o.index < |tx.outputs| }

  function OutputsOf(tx: Tx): (r: set<OutputRef>)
    ensures forall o :: o in r <==> Produces(tx, o)
  {
    var r := set i: nat | i < |tx.outputs| :: OutputRef(tx.hash, i);
    assert forall o :: Produces(tx, o) ==> o == OutputRef(tx.hash, o.index) && o in r;
    r
  }
}
