/** Output references, credentials and the byte keys of the index's column families. */
module Keys {
  import opened Options
  import opened Bytes

  type u64 = n: int | 0 <= n <= U64_MAX
  type Hash28 = h: seq<byte> | |h| == 28 witness seq(28, _ => 0)
  type Hash32 = h: seq<byte> | |h| == 32 witness seq(32, _ => 0)

  datatype OutputRef = OutputRef(txHash: Hash32, index: u64)

  datatype Credential = PubKey(hash: Hash28) | Script(hash: Hash28)

  // ---- printing and parsing output references ----

  const HASH_SIGN: byte := 35
  const PLUS_SIGN: byte := 43

  function Print(o: OutputRef): seq<byte> {
    Hex(o.txHash) + [HASH_SIGN] + Decimal(o.index)
  }

  /** Parsing reports a missing separator and panics on a bad hash or a bad index. */
  datatype ParseResult = Parsed(oref: OutputRef) | InvalidOutputRef | Panicked

  function IndexOf(s: seq<byte>, b: byte): (r: nat)
    ensures r <= |s|
    ensures r < |s| ==> s[r] == b
    ensures forall i :: 0 <= i < r ==> s[i] != b
  {
    if s == [] || s[0] == b then 0 else 1 + IndexOf(s[1..], b)
  }

  function ParseU64(s: seq<byte>): Option<u64> {
    var digits := if |s| > 1 && s[0] == PLUS_SIGN then s[1..] else s;
    var v := DigitsValue(digits);
    if 0 <= v <= U64_MAX then Some(v) else None
  }

  function Parse(s: seq<byte>): ParseResult {
    var at := IndexOf(s, HASH_SIGN);
    if at == |s| then InvalidOutputRef
    else
      var hash, index := FromHex(s[..at]), ParseU64(s[at + 1..]);
      if hash.Some? && |hash.value| == 32 && index.Some? then Parsed(OutputRef(hash.value, index.value))
      else Panicked
  }

  /** Parsing a printed reference gives the reference back, for every hash and every u64 index. */
  lemma ParsePrint(o: OutputRef)
    ensures Parse(Print(o)) == Parsed(o)
  {
    var s, hex := Print(o), Hex(o.txHash);
    assert forall i :: 0 <= i < |hex| ==> s[i] == hex[i] && IsHexLower(hex[i]);
    assert s[|hex|] == HASH_SIGN;
    var at := IndexOf(s, HASH_SIGN);
    assert at == |hex|;
    assert s[..at] == hex && s[at + 1..] == Decimal(o.index);
    HexRoundTrip(o.txHash);
    DecimalRoundTrip(o.index);
    assert IsDigit(Decimal(o.index)[0]);
  }

  /** An index may be written with a plus sign and with leading zeros. */
  ghost predicate SpellsIndex(s: seq<byte>, n: u64) {
    exists sign, k :: SpelledAs(s, sign, k, n)
  }

  ghost predicate SpelledAs(s: seq<byte>, sign: seq<byte>, k: int, n: u64) {
    (sign == [] || sign == [PLUS_SIGN]) && 0 <= k <= |s| && s == sign + Zeros(k) + Decimal(n)
  }

  lemma ParsedIsSpelled(s: seq<byte>, n: u64)
    requires ParseU64(s) == Some(n)
    ensures SpellsIndex(s, n)
  {
    var signed := |s| > 1 && s[0] == PLUS_SIGN;
    var sign, digits := if signed then [PLUS_SIGN] else [], if signed then s[1..] else s;
    DigitsValueIff(digits, n);
    var k :| 0 <= k <= |digits| && digits == Zeros(k) + Decimal(n);
    SignFirst(sign, k, n);
    assert s == sign + digits;
    assert SpelledAs(s, sign, k, n);
  }

  lemma SignFirst(sign: seq<byte>, k: nat, n: nat)
    ensures sign + Zeros(k) + Decimal(n) == sign + (Zeros(k) + Decimal(n))
  {
  }

  lemma SpelledIsParsed(s: seq<byte>, sign: seq<byte>, k: nat, n: u64)
    requires SpelledAs(s, sign, k, n)
    ensures ParseU64(s) == Some(n)
  {
    var digits := Zeros(k) + Decimal(n);
    SignFirst(sign, k, n);
    FirstIsDigit(k, n);
    DigitsValueIff(digits, n);
    if sign == [] {
      assert s == digits;
    } else {
      assert s[0] == PLUS_SIGN && s[1..] == digits;
    }
  }

  lemma ParseU64Iff(s: seq<byte>, n: u64)
    ensures ParseU64(s) == Some(n) <==> SpellsIndex(s, n)
  {
    if ParseU64(s) == Some(n) { ParsedIsSpelled(s, n); }
    if sign, k :| SpelledAs(s, sign, k, n) { SpelledIsParsed(s, sign, k, n); }
  }

  lemma FirstIsDigit(k: nat, n: nat)
    ensures IsDigit((Zeros(k) + Decimal(n))[0])
  {
    if k == 0 { assert (Zeros(k) + Decimal(n))[0] == Decimal(n)[0]; }
  }

  /** Parsing accepts exactly a spelling of the hash, in either case, a separator, and a spelling of the index. */
  lemma ParsedIff(s: seq<byte>, o: OutputRef)
    ensures Parse(s) == Parsed(o) <==>
            exists at :: 0 <= at < |s| && s[at] == HASH_SIGN && Spells(s[..at], Hex(o.txHash)) &&
              SpellsIndex(s[at + 1..], o.index)
  {
    var first := IndexOf(s, HASH_SIGN);
    if first < |s| {
      FromHexIff(s[..first], o.txHash);
      ParseU64Iff(s[first + 1..], o.index);
    }
    if at :| 0 <= at < |s| && s[at] == HASH_SIGN && Spells(s[..at], Hex(o.txHash)) &&
             SpellsIndex(s[at + 1..], o.index)
    {
      forall i | 0 <= i < at ensures s[i] != HASH_SIGN {
        assert SameLetter(s[..at][i], Hex(o.txHash)[i]);
      }
      assert first == at;
    }
  }

  /** Of all texts that parse to a reference the printed one is the only shortest one without capitals. */
  lemma PrintIsShortest(s: seq<byte>, o: OutputRef)
    requires Parse(s) == Parsed(o)
    ensures |Print(o)| <= |s| && (|s| == |Print(o)| && !HasCapital(s) ==> s == Print(o))
  {
    ParsedIff(s, o);
    var at :| 0 <= at < |s| && s[at] == HASH_SIGN && Spells(s[..at], Hex(o.txHash)) &&
              SpellsIndex(s[at + 1..], o.index);
    var hash, index := s[..at], s[at + 1..];
    SplitAt(s, at);
    var sign, k :| SpelledAs(index, sign, k, o.index);
    assert |s| == |Print(o)| + |sign| + k;
    if |s| == |Print(o)| && !HasCapital(s) { SpelledWithoutCapitals(hash, Hex(o.txHash)); }
  }

  lemma SplitAt(s: seq<byte>, at: nat)
    requires at < |s|
    ensures s == s[..at] + [s[at]] + s[at + 1..]
    ensures !HasCapital(s) ==> !HasCapital(s[..at])
  {
    if !HasCapital(s) { assert forall i :: 0 <= i < at ==> s[..at][i] == s[i]; }
  }

  /** Parsing fails without panicking exactly on the strings that hold no separator. */
  lemma ParseInvalidIff(s: seq<byte>)
    ensures Parse(s) == InvalidOutputRef <==> HASH_SIGN !in s
  {
    var at := IndexOf(s, HASH_SIGN);
    if at < |s| { assert s[at] in s; }
  }

  // ---- txo keys: the printed reference as a MessagePack string ----

  /** MessagePack specification, section "str format family": fixstr, str 8, str 16, str 32. */
  function RmpString(s: seq<byte>): seq<byte>
    requires |s| < 0x1_0000_0000
  {
    if |s| < 32 then [(0xa0 + |s|) as byte] + s
    else if |s| < 0x100 then [0xd9, |s|] + s
    else if |s| < 0x1_0000 then [0xda] + BigEndian(|s|, 2) + s
    else [0xdb] + BigEndian(|s|, 4) + s
  }

  function FromRmpString(b: seq<byte>): Option<seq<byte>> {
    var header :=
      if b == [] then (0, 0)
      else if 0xa0 <= b[0] < 0xc0 then (1, b[0] - 0xa0)
      else if b[0] == 0xd9 && |b| >= 2 then (2, b[1])
      else if b[0] == 0xda && |b| >= 3 then (3, FromBigEndian(b[1..3]))
      else if b[0] == 0xdb && |b| >= 5 then (5, FromBigEndian(b[1..5]))
      else (0, 0);
    if header.0 == 0 || header.0 + header.1 > |b| then None else Some(b[header.0..header.0 + header.1])
  }

  lemma PrintLength(o: OutputRef)
    ensures 66 <= |Print(o)| <= 85
  {
    U64DecimalLength(o.index);
  }

  function UtxoKey(o: OutputRef): seq<byte> {
    PrintLength(o);
    RmpString(Print(o))
  }

  function DecodeUtxoKey(b: seq<byte>): Option<OutputRef> {
    var text := FromRmpString(b);
    if text.None? then None
    else match Parse(text.value)
      case Parsed(o) => Some(o)
      case _ => None
  }

  lemma UtxoKeyRoundTrip(o: OutputRef)
    ensures DecodeUtxoKey(UtxoKey(o)) == Some(o)
  {
    PrintLength(o);
    var b := UtxoKey(o);
    assert b[2..2 + b[1]] == Print(o);
    ParsePrint(o);
  }

  lemma UtxoKeyInjective(a: OutputRef, b: OutputRef)
    requires UtxoKey(a) == UtxoKey(b)
    ensures a == b
  {
    UtxoKeyRoundTrip(a);
    UtxoKeyRoundTrip(b);
  }

  /** A txo key starts with the str 8 marker, which occurs nowhere else in it, and ends in a digit. */
  lemma UtxoKeyShape(o: OutputRef)
    ensures |UtxoKey(o)| >= 68 && UtxoKey(o)[0] == 0xd9
    ensures forall i :: 1 <= i < |UtxoKey(o)| ==> UtxoKey(o)[i] < 0xd9
    ensures UtxoKey(o)[|UtxoKey(o)| - 1] != 0
  {
    PrintLength(o);
    var b, p, hex, dec := UtxoKey(o), Print(o), Hex(o.txHash), Decimal(o.index);
    assert b == [0xd9, |p|] + p && p == hex + [HASH_SIGN] + dec;
    forall i | 1 <= i < |b| ensures b[i] < 0xd9 {
      if 2 <= i < 66 { assert b[i] == hex[i - 2]; }
      if i > 66 { assert b[i] == dec[i - 67]; }
    }
    assert b[|b| - 1] == dec[|dec| - 1];
  }

  // ---- credential keys ----

  /** What `settled_at_key` writes for an unconfirmed entry. */
  function SlotOrMax(slot: Option<u64>): u64 {
    if slot.Some? then slot.value else U64_MAX
  }

  function CredentialPrefix(c: Credential): (r: seq<byte>)
    ensures |r| == 29
  {
    match c
    case PubKey(h) => [0] + h
    case Script(h) => [1] + h
  }

  datatype EventKey = EventKey(cred: Credential, slot: u64, oref: OutputRef)
  datatype CredKey = CredKey(cred: Credential, oref: OutputRef)
  datatype UnitKey = Entry(unit: seq<byte>, oref: OutputRef) | Sentinel(unit: seq<byte>)

  function EventKeyBytes(k: EventKey): seq<byte> {
    CredentialPrefix(k.cred) + BigEndian(k.slot, 8) + UtxoKey(k.oref)
  }

  function CredKeyBytes(k: CredKey): seq<byte> {
    CredentialPrefix(k.cred) + UtxoKey(k.oref)
  }

  const UNIT_INDEX_SENTINEL: byte := 0

  function UnitKeyBytes(k: UnitKey): seq<byte> {
    match k
    case Entry(unit, oref) => unit + UtxoKey(oref)
    case Sentinel(unit) => unit + [UNIT_INDEX_SENTINEL]
  }

  lemma CredentialPrefixInjective(a: Credential, b: Credential)
    requires CredentialPrefix(a) == CredentialPrefix(b)
    ensures a == b
  {
    assert CredentialPrefix(a)[1..] == a.hash && CredentialPrefix(b)[1..] == b.hash;
  }

  /** Exactly the keys of one credential carry its prefix; the rest of the key is the txo key. */
  lemma CredKeyParts(k: CredKey, c: Credential)
    ensures CredentialPrefix(c) <= CredKeyBytes(k) <==> k.cred == c
    ensures CredKeyBytes(k)[29..] == UtxoKey(k.oref)
  {
    assert CredKeyBytes(k)[..29] == CredentialPrefix(k.cred);
    if CredentialPrefix(c) <= CredKeyBytes(k) { CredentialPrefixInjective(k.cred, c); }
  }

  lemma EventKeyParts(k: EventKey, c: Credential)
    ensures CredentialPrefix(c) <= EventKeyBytes(k) <==> k.cred == c
    ensures EventKeyBytes(k)[37..] == UtxoKey(k.oref)
    ensures EventKeyBytes(k)[29..37] == BigEndian(k.slot, 8)
  {
    assert EventKeyBytes(k)[..29] == CredentialPrefix(k.cred);
    if CredentialPrefix(c) <= EventKeyBytes(k) { CredentialPrefixInjective(k.cred, c); }
  }

  lemma CredKeyInjective(a: CredKey, b: CredKey)
    requires CredKeyBytes(a) == CredKeyBytes(b)
    ensures a == b
  {
    CredKeyParts(a, a.cred);
    CredKeyParts(b, a.cred);
    UtxoKeyInjective(a.oref, b.oref);
  }

  lemma EventKeyInjective(a: EventKey, b: EventKey)
    requires EventKeyBytes(a) == EventKeyBytes(b)
    ensures a == b
  {
    EventKeyParts(a, a.cred);
    EventKeyParts(b, a.cred);
    Pow256Of8();
    BigEndianRoundTrip(a.slot, 8);
    BigEndianRoundTrip(b.slot, 8);
    UtxoKeyInjective(a.oref, b.oref);
  }

  /** Within one credential, event keys iterate by slot (unconfirmed last) and then by txo key. */
  lemma EventKeyOrder(a: EventKey, b: EventKey)
    requires a.cred == b.cred
    ensures Less(EventKeyBytes(a), EventKeyBytes(b)) <==>
            a.slot < b.slot || (a.slot == b.slot && Less(UtxoKey(a.oref), UtxoKey(b.oref)))
  {
    var p := CredentialPrefix(a.cred);
    var x, y := BigEndian(a.slot, 8) + UtxoKey(a.oref), BigEndian(b.slot, 8) + UtxoKey(b.oref);
    assert EventKeyBytes(a) == p + x && EventKeyBytes(b) == p + y;
    LessCommonPrefix(p, x, y);
    Pow256Of8();
    BigEndianOrder(a.slot, UtxoKey(a.oref), b.slot, UtxoKey(b.oref), 8);
  }

  /** The lower bound of an All query skips exactly the event keys of earlier slots. */
  lemma EventKeyBound(k: EventKey, slot: u64)
    ensures Less(EventKeyBytes(k), CredentialPrefix(k.cred) + BigEndian(slot, 8)) <==> k.slot < slot
  {
    var p := CredentialPrefix(k.cred);
    var x := BigEndian(k.slot, 8) + UtxoKey(k.oref);
    assert EventKeyBytes(k) == p + x;
    LessCommonPrefix(p, x, BigEndian(slot, 8));
    Pow256Of8();
    BigEndianOrder(k.slot, UtxoKey(k.oref), slot, [], 8);
    assert BigEndian(slot, 8) + [] == BigEndian(slot, 8);
  }

  // ---- unit keys ----

  /** The units of real outputs: hexadecimal policy followed by hexadecimal asset name, lowercase. */
  predicate IsHexUnit(unit: seq<byte>) {
    forall i :: 0 <= i < |unit| ==> IsHexLower(unit[i])
  }

  /** Cutting any prefix off an entry key leaves a txo key only when the prefix is the entry's own unit,
      even though one unit may be a prefix of another. */
  lemma UnitEntryStrip(unit: seq<byte>, oref: OutputRef, prefix: seq<byte>, other: OutputRef)
    requires IsHexUnit(unit)
    requires prefix <= UnitKeyBytes(Entry(unit, oref))
    ensures UnitKeyBytes(Entry(unit, oref))[|prefix|..] == UtxoKey(other) <==> prefix == unit && other == oref
  {
    var key, n := UnitKeyBytes(Entry(unit, oref)), |prefix|;
    UtxoKeyShape(oref);
    UtxoKeyShape(other);
    assert key[..|unit|] == unit && key[|unit|..] == UtxoKey(oref);
    assert forall i :: 0 <= i < |unit| ==> key[i] == unit[i] && IsHexLower(unit[i]);
    assert forall i :: |unit| <= i < |key| ==> key[i] == UtxoKey(oref)[i - |unit|];
    if key[n..] == UtxoKey(other) {
      assert key[n] == key[n..][0] == 0xd9;
      UtxoKeyInjective(oref, other);
    }
  }

  /** No suffix of a sentinel key is a txo key. */
  lemma SentinelStrip(unit: seq<byte>, n: nat, other: OutputRef)
    requires n <= |unit| + 1
    ensures UnitKeyBytes(Sentinel(unit))[n..] != UtxoKey(other)
  {
    UtxoKeyShape(other);
    var rest := UnitKeyBytes(Sentinel(unit))[n..];
    if rest != [] { assert rest[|rest| - 1] == 0; }
  }

  predicate WellFormedUnitKey(k: UnitKey) { k.Entry? ==> IsHexUnit(k.unit) }

  lemma SentinelLastByte(k: UnitKey)
    ensures UnitKeyBytes(k) != []
    ensures UnitKeyBytes(k)[|UnitKeyBytes(k)| - 1] == UNIT_INDEX_SENTINEL <==> k.Sentinel?
  {
    if k.Entry? {
      UtxoKeyShape(k.oref);
      assert UnitKeyBytes(k)[|k.unit|..] == UtxoKey(k.oref);
    }
  }

  lemma UnitKeyInjective(a: UnitKey, b: UnitKey)
    requires WellFormedUnitKey(a) && WellFormedUnitKey(b)
    requires UnitKeyBytes(a) == UnitKeyBytes(b)
    ensures a == b
  {
    var key := UnitKeyBytes(a);
    SentinelLastByte(a);
    SentinelLastByte(b);
    if a.Entry? {
      assert key[|b.unit|..] == UtxoKey(b.oref) && key[..|b.unit|] == b.unit;
      UnitEntryStrip(a.unit, a.oref, b.unit, b.oref);
    } else {
      assert key[..|key| - 1] == a.unit && key[..|key| - 1] == b.unit;
    }
  }

  // ---- asset classes ----

  /** An asset name: its length and its bytes padded to 32. */
  datatype AssetName = AssetName(len: nat, padded: Hash32)

  /** Names built by parsing are zero beyond their length. */
  predicate Canonical(n: AssetName) {
    forall i :: n.len <= i < 32 ==> n.padded[i] == 0
  }

  datatype AssetClass = Native | Token(policy: Hash28, name: AssetName)

  /** Taking the bytes of a name slices its padded bytes, which a longer length makes panic. */
  predicate Sliceable(a: AssetClass) { a.Token? ==> a.name.len <= 32 }

  function AssetNameOf(bytes: seq<byte>): AssetName
    requires |bytes| <= 32
  {
    AssetName(|bytes|, bytes + seq(32 - |bytes|, _ => 0))
  }

  function AssetToBytes(a: AssetClass): seq<byte>
    requires Sliceable(a)
  {
    match a
    case Native => [0]
    case Token(policy, name) => policy + name.padded[..name.len]
  }

  function AssetFromBytes(bs: seq<byte>): Option<AssetClass> {
    if bs == [0] then Some(Native)
    else if 28 <= |bs| <= 60 then Some(Token(bs[..28], AssetNameOf(bs[28..])))
    else None
  }

  /** Decoding an encoded asset class gives it back exactly when its name is padded with zeros. */
  lemma AssetRoundTripIff(a: AssetClass)
    requires Sliceable(a)
    ensures AssetFromBytes(AssetToBytes(a)) == Some(a) <==> (a.Token? ==> Canonical(a.name))
  {
    if a.Token? {
      var bs, n := AssetToBytes(a), a.name.len;
      var back := AssetNameOf(bs[28..]);
      assert bs[..28] == a.policy && bs[28..] == a.name.padded[..n];
      assert forall i :: n <= i < 32 ==> back.padded[i] == 0;
      if Canonical(a.name) { assert back.padded == a.name.padded; }
    }
  }

  /** Exactly the single zero byte and the strings of 28 to 60 bytes decode, and encoding gives them back. */
  lemma AssetBytesRoundTrip(bs: seq<byte>)
    ensures AssetFromBytes(bs).Some? <==> bs == [0] || 28 <= |bs| <= 60
    ensures AssetFromBytes(bs).Some? ==>
              Sliceable(AssetFromBytes(bs).value) && AssetToBytes(AssetFromBytes(bs).value) == bs
  {
    if 28 <= |bs| <= 60 {
      assert AssetNameOf(bs[28..]).padded[..|bs| - 28] == bs[28..];
    }
  }
}
