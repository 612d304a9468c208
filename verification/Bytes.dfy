/** Byte strings as the key-value store orders them, and the two number formats the keys use. */
module Bytes {
  import opened Options

  type byte = x: int | 0 <= x < 256

  /** The store's bytewise comparator: lexicographic, a proper prefix first. */
  predicate Less(a: seq<byte>, b: seq<byte>) {
    b != [] && (a == [] || a[0] < b[0] || (a[0] == b[0] && Less(a[1..], b[1..])))
  }

  lemma {:induction false} LessIrreflexive(a: seq<byte>)
    ensures !Less(a, a)
  {
    if a != [] { LessIrreflexive(a[1..]); }
  }

  lemma {:induction false} LessTransitive(a: seq<byte>, b: seq<byte>, c: seq<byte>)
    requires Less(a, b) && Less(b, c)
    ensures Less(a, c)
  {
    if a != [] && a[0] == b[0] == c[0] { LessTransitive(a[1..], b[1..], c[1..]); }
  }

  lemma {:induction false} LessTotal(a: seq<byte>, b: seq<byte>)
    ensures a == b || Less(a, b) || Less(b, a)
  {
    if a != [] && b != [] && a[0] == b[0] {
      LessTotal(a[1..], b[1..]);
      assert a == [a[0]] + a[1..] && b == [b[0]] + b[1..];
    }
  }

  lemma LessAsymmetric(a: seq<byte>, b: seq<byte>)
    requires Less(a, b)
    ensures !Less(b, a)
  {
    if Less(b, a) {
      LessTransitive(a, b, a);
      LessIrreflexive(a);
    }
  }

  lemma {:induction false} LessCommonPrefix(p: seq<byte>, a: seq<byte>, b: seq<byte>)
    ensures Less(p + a, p + b) <==> Less(a, b)
  {
    if p == [] {
      assert p + a == a && p + b == b;
    } else {
      LessCommonPrefix(p[1..], a, b);
      assert (p + a)[1..] == p[1..] + a && (p + b)[1..] == p[1..] + b;
    }
  }

  /** Among strings of one length, what follows does not matter unless they are equal. */
  lemma {:induction false} LessSameLength(a: seq<byte>, x: seq<byte>, b: seq<byte>, y: seq<byte>)
    requires |a| == |b|
    ensures Less(a + x, b + y) <==> Less(a, b) || (a == b && Less(x, y))
  {
    if a == [] {
      assert a + x == x && b + y == y;
    } else {
      LessSameLength(a[1..], x, b[1..], y);
      assert (a + x)[1..] == a[1..] + x && (b + y)[1..] == b[1..] + y;
      assert a == [a[0]] + a[1..] && b == [b[0]] + b[1..];
      LessIrreflexive(a);
    }
  }

  // ---- big-endian integers ----

  const U64_MAX: nat := 0xFFFF_FFFF_FFFF_FFFF

  function Pow256(k: nat): (r: nat)
    ensures r > 0
  {
    if k == 0 then 1 else 256 * Pow256(k - 1)
  }

  lemma Pow256Of8()
    ensures Pow256(8) == U64_MAX + 1
  {
    assert Pow256(4) == 0x1_0000_0000;
    assert Pow256(8) == 256 * (256 * (256 * (256 * Pow256(4))));
  }

  /** The low `k` bytes of `n`, most significant first. */
  function BigEndian(n: nat, k: nat): (r: seq<byte>)
    ensures |r| == k
  {
    if k == 0 then [] else BigEndian(n / 256, k - 1) + [n % 256]
  }

  function FromBigEndian(s: seq<byte>): nat {
    if s == [] then 0 else 256 * FromBigEndian(s[..|s| - 1]) + s[|s| - 1]
  }

  lemma {:induction false} BigEndianRoundTrip(n: nat, k: nat)
    requires n < Pow256(k)
    ensures FromBigEndian(BigEndian(n, k)) == n
  {
    if k > 0 {
      BigEndianRoundTrip(n / 256, k - 1);
      var s := BigEndian(n, k);
      assert s[..|s| - 1] == BigEndian(n / 256, k - 1);
    }
  }

  /** Fixed-width big-endian fields compare as the numbers they hold; on a tie the rest decides. */
  lemma {:induction false} BigEndianOrder(m: nat, x: seq<byte>, n: nat, y: seq<byte>, k: nat)
    requires m < Pow256(k) && n < Pow256(k)
    ensures Less(BigEndian(m, k) + x, BigEndian(n, k) + y) <==> m < n || (m == n && Less(x, y))
    decreases k
  {
    if k == 0 {
      assert BigEndian(m, k) + x == x && BigEndian(n, k) + y == y;
    } else {
      var x', y' := [(m % 256) as byte] + x, [(n % 256) as byte] + y;
      BigEndianOrder(m / 256, x', n / 256, y', k - 1);
      assert BigEndian(m, k) + x == BigEndian(m / 256, k - 1) + x';
      assert BigEndian(n, k) + y == BigEndian(n / 256, k - 1) + y';
      assert x'[1..] == x && y'[1..] == y;
      assert m == 256 * (m / 256) + m % 256 && n == 256 * (n / 256) + n % 256;
    }
  }

  // ---- decimal integers ----

  predicate IsDigit(b: byte) { 48 <= b <= 57 }

  function Decimal(n: nat): (r: seq<byte>)
    ensures r != []
    ensures forall i :: 0 <= i < |r| ==> IsDigit(r[i])
  {
    if n < 10 then [(48 + n) as byte] else Decimal(n / 10) + [(48 + n % 10) as byte]
  }

  /** The value of a non-empty run of digits; -1 on anything else. */
  function DigitsValue(s: seq<byte>): (r: int)
    ensures r >= -1
  {
    if s == [] then -1
    else if !IsDigit(s[|s| - 1]) then -1
    else if |s| == 1 then s[0] - 48
    else
      var hi := DigitsValue(s[..|s| - 1]);
      if hi < 0 then -1 else 10 * hi + s[|s| - 1] - 48
  }

  lemma {:induction false} DecimalRoundTrip(n: nat)
    ensures DigitsValue(Decimal(n)) == n
  {
    if n >= 10 {
      DecimalRoundTrip(n / 10);
      var s := Decimal(n);
      assert s[..|s| - 1] == Decimal(n / 10);
    }
  }

  function Pow10(k: nat): nat { if k == 0 then 1 else 10 * Pow10(k - 1) }

  lemma {:induction false} DecimalLength(n: nat, k: nat)
    requires 0 < k && n < Pow10(k)
    ensures |Decimal(n)| <= k
  {
    if n >= 10 {
      assert k > 1;
      DecimalLength(n / 10, k - 1);
    }
  }

  lemma U64DecimalLength(n: nat)
    requires n <= U64_MAX
    ensures |Decimal(n)| <= 20
  {
    assert Pow10(5) == 100000;
    assert Pow10(10) == 10 * (10 * (10 * (10 * (10 * Pow10(5)))));
    assert Pow10(15) == 10 * (10 * (10 * (10 * (10 * Pow10(10)))));
    assert Pow10(20) == 10 * (10 * (10 * (10 * (10 * Pow10(15)))));
    DecimalLength(n, 20);
  }

  // ---- lowercase hexadecimal ----

  predicate IsHexLower(b: byte) { 48 <= b <= 57 || 97 <= b <= 102 }

  function HexDigit(n: int): (r: byte)
    requires 0 <= n < 16
    ensures IsHexLower(r)
  {
    if n < 10 then 48 + n else 87 + n
  }

  /** The value of one hexadecimal digit of either case, -1 for any other byte. */
  function HexValue(b: byte): int {
    if 48 <= b <= 57 then b - 48
    else if 97 <= b <= 102 then b - 87
    else if 65 <= b <= 70 then b - 55
    else -1
  }

  function Hex(s: seq<byte>): (r: seq<byte>)
    ensures |r| == 2 * |s|
    ensures forall i :: 0 <= i < |r| ==> IsHexLower(r[i])
  {
    if s == [] then [] else [HexDigit(s[0] / 16), HexDigit(s[0] % 16)] + Hex(s[1..])
  }

  function FromHex(s: seq<byte>): (r: Option<seq<byte>>)
    ensures r.Some? ==> 2 * |r.value| == |s|
  {
    if s == [] then Some([])
    else if |s| == 1 then None
    else
      var hi, lo, rest := HexValue(s[0]), HexValue(s[1]), FromHex(s[2..]);
      if hi < 0 || lo < 0 || rest.None? then None else Some([16 * hi + lo] + rest.value)
  }

  lemma {:induction false} HexRoundTrip(s: seq<byte>)
    ensures FromHex(Hex(s)) == Some(s)
  {
    if s != [] {
      HexRoundTrip(s[1..]);
      assert Hex(s)[2..] == Hex(s[1..]);
      assert s == [s[0]] + s[1..];
    }
  }

  /** Rust's ASCII lowercasing of the bytes of a UTF-8 string. */
  function AsciiLower(s: seq<byte>): (r: seq<byte>)
    ensures |r| == |s|
  {
    seq(|s|, i requires 0 <= i < |s| => if 65 <= s[i] <= 90 then s[i] + 32 else s[i])
  }

  lemma HexIsLowercase(s: seq<byte>)
    requires forall i :: 0 <= i < |s| ==> IsHexLower(s[i])
    ensures AsciiLower(s) == s
  {
    assert forall i :: 0 <= i < |s| ==> IsHexLower(s[i]) && AsciiLower(s)[i] == s[i];
  }

  // ---- texts that differ in the case of hexadecimal letters only ----

  predicate SameLetter(u: byte, lower: byte) { u == lower || (65 <= u <= 70 && lower == u + 32) }

  predicate Spells(u: seq<byte>, text: seq<byte>) {
    |u| == |text| && forall i :: 0 <= i < |u| ==> SameLetter(u[i], text[i])
  }

  ghost predicate HasCapital(s: seq<byte>) { exists i :: 0 <= i < |s| && 65 <= s[i] <= 90 }

  lemma SpelledWithoutCapitals(u: seq<byte>, text: seq<byte>)
    requires Spells(u, text) && !HasCapital(u)
    ensures u == text
  {
    forall i | 0 <= i < |u| ensures u[i] == text[i] { assert SameLetter(u[i], text[i]); }
  }

  /** Lowercasing takes every spelling of a lowercase hexadecimal text to that text, and no other text to it. */
  lemma LowerIffSpells(u: seq<byte>, text: seq<byte>)
    requires forall i :: 0 <= i < |text| ==> IsHexLower(text[i])
    ensures AsciiLower(u) == text <==> Spells(u, text)
  {
    var lower := AsciiLower(u);
    assert forall i :: 0 <= i < |u| ==> lower[i] == if 65 <= u[i] <= 90 then u[i] + 32 else u[i];
    if lower == text {
      forall i | 0 <= i < |u| ensures SameLetter(u[i], text[i]) {
        assert IsHexLower(text[i]) && lower[i] == text[i];
      }
    }
  }

  lemma HexDigitIff(b: byte, v: int)
    requires 0 <= v < 16
    ensures HexValue(b) == v <==> SameLetter(b, HexDigit(v))
  {
  }

  lemma HexValueRange(b: byte)
    ensures -1 <= HexValue(b) < 16
  {
  }

  lemma SpellsPair(u: seq<byte>, s: seq<byte>)
    requires s != []
    ensures Spells(u, Hex(s)) <==>
            |u| >= 2 && SameLetter(u[0], HexDigit(s[0] / 16)) && SameLetter(u[1], HexDigit(s[0] % 16)) &&
            Spells(u[2..], Hex(s[1..]))
  {
    var text, rest := Hex(s), Hex(s[1..]);
    assert text == [HexDigit(s[0] / 16), HexDigit(s[0] % 16)] + rest;
    assert forall i :: 0 <= i < |rest| ==> text[i + 2] == rest[i];
    if |u| >= 2 {
      assert forall i :: 0 <= i < |u| - 2 ==> u[2..][i] == u[i + 2];
      assert forall i :: 2 <= i < |u| ==> u[i] == u[2..][i - 2];
      assert forall i :: 2 <= i < |text| ==> text[i] == rest[i - 2];
    }
  }

  /** Decoding accepts exactly the spellings, in either case, of the lowercase text. */
  lemma {:induction false} FromHexIff(u: seq<byte>, s: seq<byte>)
    ensures FromHex(u) == Some(s) <==> Spells(u, Hex(s))
  {
    if s == [] {
      assert Spells(u, []) <==> u == [];
    } else {
      SpellsPair(u, s);
      if |u| >= 2 {
        FromHexIff(u[2..], s[1..]);
        HexDigitIff(u[0], s[0] / 16);
        HexDigitIff(u[1], s[0] % 16);
        HexValueRange(u[0]);
        HexValueRange(u[1]);
        HexPairIff(u, s);
      }
    }
  }

  lemma HexPairIff(u: seq<byte>, s: seq<byte>)
    requires |u| >= 2 && s != []
    ensures FromHex(u) == Some(s) <==>
            HexValue(u[0]) == s[0] / 16 && HexValue(u[1]) == s[0] % 16 && FromHex(u[2..]) == Some(s[1..])
  {
    HexValueRange(u[0]);
    HexValueRange(u[1]);
    assert s == [s[0]] + s[1..] && s[0] == 16 * (s[0] / 16) + s[0] % 16;
    if FromHex(u) == Some(s) {
      var hi, lo := HexValue(u[0]), HexValue(u[1]);
      assert s[0] == 16 * hi + lo && s[1..] == FromHex(u[2..]).value;
    }
  }

  // ---- decimal texts with leading zeros ----

  function Zeros(k: nat): (r: seq<byte>)
    ensures |r| == k && forall i :: 0 <= i < k ==> r[i] == 48
  {
    seq(k, _ => 48)
  }

  /** Reading a run of digits gives a number exactly if the run is its decimal text after any leading zeros. */
  lemma {:induction false} DigitsValueIff(s: seq<byte>, n: nat)
    ensures DigitsValue(s) == n <==> exists k :: 0 <= k <= |s| && s == Zeros(k) + Decimal(n)
  {
    if DigitsValue(s) == n {
      var k := LeadingZeros(s);
      assert s == Zeros(k) + Decimal(n);
    }
    if k :| 0 <= k <= |s| && s == Zeros(k) + Decimal(n) {
      PaddedValue(k, n);
    }
  }

  lemma {:induction false} LeadingZeros(s: seq<byte>) returns (k: nat)
    requires DigitsValue(s) >= 0
    ensures k <= |s| && s == Zeros(k) + Decimal(DigitsValue(s))
  {
    var m, d := |s| - 1, s[|s| - 1] - 48;
    assert s == s[..m] + [s[m]];
    if m == 0 {
      k := 0;
      assert Zeros(0) == [];
    } else {
      var hi := DigitsValue(s[..m]);
      k := LeadingZeros(s[..m]);
      assert DigitsValue(s) / 10 == hi && DigitsValue(s) % 10 == d;
      if hi > 0 {
        assert Decimal(DigitsValue(s)) == Decimal(hi) + [s[m]];
        assert s == Zeros(k) + Decimal(DigitsValue(s));
      } else {
        assert Decimal(0) == [48] && Zeros(k) + [48] == Zeros(k + 1);
        k := k + 1;
      }
    }
  }

  lemma {:induction false} PaddedValue(k: nat, n: nat)
    ensures DigitsValue(Zeros(k) + Decimal(n)) == n
    decreases n, k
  {
    var s := Zeros(k) + Decimal(n);
    var m := |s| - 1;
    assert s[m] == Decimal(n)[|Decimal(n)| - 1];
    if n >= 10 {
      PaddedValue(k, n / 10);
      assert s[..m] == Zeros(k) + Decimal(n / 10);
    } else if k > 0 {
      PaddedValue(k - 1, 0);
      assert s[..m] == Zeros(k) == Zeros(k - 1) + Decimal(0);
    } else {
      assert s == Decimal(n);
    }
  }
}
