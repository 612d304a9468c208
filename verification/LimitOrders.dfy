/** Operator fees of a limit order that is filled in any number of parts. */
module LimitOrders {
  import opened Bytes
  import opened Keys

  /** The fields of an order that its fee depends on. */
  datatype LimitOrder = LimitOrder(input: u64, fee: u64)

  function SaturatingMul(a: u64, b: u64): u64 { if a * b <= U64_MAX then a * b else U64_MAX }

  /** The share of the remaining fee that the consumed part of the remaining input is charged. */
  function OperatorFee(o: LimitOrder, consumed: u64): (r: u64)
  {
    if o.input == 0 then 0
    else
      DivBound(SaturatingMul(o.fee, consumed), o.input);
      SaturatingMul(o.fee, consumed) / o.input
  }

  lemma DivBound(a: nat, x: nat)
    requires x > 0
    ensures 0 <= a / x <= a
  {
    assert a / x * x + a % x == a;
    MulMono(1, x, a);
    LeCancel(a / x, a, x);
  }

  lemma FloorBound(a: nat, x: nat)
    requires x > 0
    ensures a / x * x <= a
  {
    assert a / x * x + a % x == a;
  }

  lemma LeCancel(a: nat, b: nat, x: nat)
    requires x > 0
    ensures a * x <= b * x <==> a <= b
  {
    if a <= b {
      MulMono(a, b, x);
    } else {
      MulMono(b + 1, a, x);
      assert (b + 1) * x == b * x + x;
    }
  }

  lemma Distribute(a: int, b: int, c: int)
    ensures (a - b) * c == a * c - b * c && c * (a - b) == c * a - c * b
  {
  }

  lemma Distribute3(a: int, b: int, n: int, c: int)
    ensures (a - b + n) * c == a * c - b * c + n * c
  {
  }

  lemma Successor(a: int, c: int)
    ensures (a + 1) * c == a * c + c
  {
  }

  lemma MulMono(a: nat, b: nat, c: nat)
    requires a <= b
    ensures a * c <= b * c && c * a <= c * b
  {
  }

  /** A fee of at most the whole is charged by subtraction, which must not underflow. */
  function WithFeeCharged(o: LimitOrder, fee: u64): LimitOrder
    requires fee <= o.fee
  {
    o.(fee := o.fee - fee)
  }

  function WithInputRemoved(o: LimitOrder, removed: u64): LimitOrder
    requires removed <= o.input
  {
    o.(input := o.input - removed)
  }

  /** The fee of a fill, computed on the order before it, is never more than the fee that is left, and charges
      no more than the filled share. */
  lemma FeeWithinShare(o: LimitOrder, consumed: u64)
    requires consumed <= o.input
    ensures OperatorFee(o, consumed) <= o.fee
    ensures OperatorFee(o, consumed) * o.input <= o.fee * consumed
  {
    if o.input > 0 {
      FloorBound(SaturatingMul(o.fee, consumed), o.input);
      MulMono(consumed, o.input, o.fee);
      LeCancel(OperatorFee(o, consumed), o.fee, o.input);
    }
  }

  /** Nor does it fall short of the share by a whole unit: while the product fits the fee is the share rounded
      down, and beyond that it is the largest product's. */
  lemma FeeIsFloor(o: LimitOrder, consumed: u64)
    requires consumed <= o.input && o.input > 0
    ensures o.fee * consumed <= U64_MAX ==> o.fee * consumed < (OperatorFee(o, consumed) + 1) * o.input
    ensures o.fee * consumed > U64_MAX ==>
              OperatorFee(o, consumed) * o.input <= U64_MAX < (OperatorFee(o, consumed) + 1) * o.input
  {
    FloorAbove(SaturatingMul(o.fee, consumed), o.input);
    FloorBound(SaturatingMul(o.fee, consumed), o.input);
  }

  lemma FloorAbove(a: nat, x: nat)
    requires x > 0
    ensures a < (a / x + 1) * x
  {
    assert a / x * x + a % x == a;
    assert (a / x + 1) * x == a / x * x + x;
  }

  /** One fill: the trade consumes input, and the fee is computed on the order before it. */
  function Fill(o: LimitOrder, consumed: u64): (r: LimitOrder)
    requires consumed <= o.input
    ensures r.input == o.input - consumed && r.fee <= o.fee
  {
    FeeWithinShare(o, consumed);
    WithFeeCharged(WithInputRemoved(o, consumed), OperatorFee(o, consumed))
  }

  ghost predicate Fillable(o: LimitOrder, fills: seq<u64>)
    decreases |fills|
  {
    fills == [] || (fills[0] <= o.input && Fillable(Fill(o, fills[0]), fills[1..]))
  }

  ghost function FillAll(o: LimitOrder, fills: seq<u64>): (r: LimitOrder)
    requires Fillable(o, fills)
    ensures r.input <= o.input && r.fee <= o.fee
    decreases |fills|
  {
    if fills == [] then o else FillAll(Fill(o, fills[0]), fills[1..])
  }

  lemma ShareStep(f0: nat, x0: nat, f: nat, x: nat, fee: nat, c: nat)
    requires x > 0 && c <= x && fee <= f && fee * x <= f * c && f * x0 >= f0 * x
    ensures (f - fee) * x0 >= f0 * (x - c)
  {
    Distribute(f, fee, x);
    Distribute(x, c, f);
    assert (f - fee) * x >= f * (x - c);
    MulMono(f * (x - c), (f - fee) * x, x0);
    MulMono(f0 * x, f * x0, x - c);
    Rearrange(f - fee, x, x0, f, x - c, f0);
    LeCancel(f0 * (x - c), (f - fee) * x0, x);
  }

  lemma Rearrange(a: nat, x: nat, x0: nat, f: nat, d: nat, f0: nat)
    ensures (a * x) * x0 == a * x0 * x
    ensures (f * d) * x0 == (f * x0) * d
    ensures (f0 * x) * d == f0 * d * x
  {
    assert (a * x) * x0 == a * (x * x0) == a * (x0 * x);
    assert (f * d) * x0 == f * (d * x0) == f * (x0 * d);
    assert (f0 * x) * d == f0 * (x * d) == f0 * (d * x);
  }

  /** The rate of the remaining fee over the remaining input never falls, whatever the sizes of the fills. */
  lemma {:induction false} RateNeverFalls(f0: nat, x0: nat, o: LimitOrder, fills: seq<u64>)
    requires Fillable(o, fills) && o.fee * x0 >= f0 * o.input
    ensures FillAll(o, fills).fee * x0 >= f0 * FillAll(o, fills).input
    decreases |fills|
  {
    if fills != [] {
      FeeWithinShare(o, fills[0]);
      if o.input > 0 {
        ShareStep(f0, x0, o.fee, o.input, OperatorFee(o, fills[0]), fills[0]);
      }
      RateNeverFalls(f0, x0, Fill(o, fills[0]), fills[1..]);
    }
  }

  /** After any fills the total charged is at most the consumed share of the original fee. */
  lemma ChargedWithinShare(o: LimitOrder, fills: seq<u64>)
    requires Fillable(o, fills)
    ensures var last := FillAll(o, fills);
            (o.fee - last.fee) * o.input <= o.fee * (o.input - last.input)
  {
    var last := FillAll(o, fills);
    RateNeverFalls(o.fee, o.input, o, fills);
    Distribute(o.fee, last.fee, o.input);
    Distribute(o.input, last.input, o.fee);
  }

  /** No product of a fill saturates. */
  ghost predicate AllFit(o: LimitOrder, fills: seq<u64>)
    requires Fillable(o, fills)
    decreases |fills|
  {
    fills == [] || (o.fee * fills[0] <= U64_MAX && AllFit(Fill(o, fills[0]), fills[1..]))
  }

  /** A fill is charged its share of the original fee, rounded down, at least. */
  lemma FillCoversShare(f0: nat, x0: nat, f: nat, x: nat, fee: nat, c: nat)
    requires x > 0 && f * c < (fee + 1) * x && f * x0 >= f0 * x
    ensures f0 * c <= (fee + 1) * x0
  {
    MulMono(f0 * x, f * x0, c);
    MulMono(f * c, (fee + 1) * x, x0);
    Rearrange(fee + 1, x, x0, f, c, f0);
    assert f0 * c * x <= (fee + 1) * x0 * x;
    LeCancel(f0 * c, (fee + 1) * x0, x);
  }

  lemma {:induction false} ShortfallGrows(f0: nat, x0: nat, o: LimitOrder, fills: seq<u64>)
    requires Fillable(o, fills) && AllFit(o, fills) && o.fee * x0 >= f0 * o.input
    ensures FillAll(o, fills).fee * x0 - f0 * FillAll(o, fills).input <= o.fee * x0 - f0 * o.input + |fills| * x0
    decreases |fills|
  {
    if fills != [] {
      var c, fee, next := fills[0], OperatorFee(o, fills[0]), Fill(o, fills[0]);
      FeeWithinShare(o, c);
      if o.input > 0 {
        FeeIsFloor(o, c);
        FillCoversShare(f0, x0, o.fee, o.input, fee, c);
        ShareStep(f0, x0, o.fee, o.input, fee, c);
      }
      Distribute(o.fee, fee, x0);
      Distribute(o.input, c, f0);
      Successor(fee, x0);
      Successor(|fills[1..]|, x0);
      ShortfallGrows(f0, x0, next, fills[1..]);
    }
  }

  /** Over any fills whose products fit, the total charged falls short of the consumed share of the original fee
      by at most one unit per fill. */
  lemma ChargedNearShare(o: LimitOrder, fills: seq<u64>)
    requires Fillable(o, fills) && AllFit(o, fills)
    ensures var last := FillAll(o, fills);
            o.fee * (o.input - last.input) <= (o.fee - last.fee + |fills|) * o.input
  {
    var last := FillAll(o, fills);
    ShortfallGrows(o.fee, o.input, o, fills);
    Distribute(o.input, last.input, o.fee);
    Distribute3(o.fee, last.fee, |fills|, o.input);
  }

  /** The fill that consumes all that is left charges all that is left of the fee iff the product of the two
      does not saturate. */
  lemma LastFillChargesAllIff(o: LimitOrder)
    requires o.input > 0
    ensures Fill(o, o.input).fee == 0 <==> o.fee * o.input <= U64_MAX
  {
    var a := SaturatingMul(o.fee, o.input);
    assert a / o.input * o.input + a % o.input == a;
    if o.fee * o.input <= U64_MAX {
      ExactDivision(o.fee, o.input);
    } else {
      LeCancel(o.fee, OperatorFee(o, o.input), o.input);
    }
  }

  lemma ExactDivision(f: nat, x: nat)
    requires x > 0
    ensures (f * x) / x == f
  {
    var q := (f * x) / x;
    assert q * x + (f * x) % x == f * x;
    LeCancel(q, f, x);
    LeCancel(q + 1, f, x);
    assert (q + 1) * x == q * x + x;
  }

  /** An order filled in full, in any number of parts, has been charged its whole fee exactly iff the last
      product did not saturate. */
  lemma {:induction false} FilledChargesAllIff(o: LimitOrder, fills: seq<u64>, last: u64)
    requires Fillable(o, fills) && last == FillAll(o, fills).input && last > 0
    ensures var before := FillAll(o, fills);
            Fill(before, last).input == 0 && (Fill(before, last).fee == 0 <==> before.fee * last <= U64_MAX)
  {
    LastFillChargesAllIff(FillAll(o, fills));
  }

  /** A saturating product within real amounts: ten trillion units of a token to sell, two ada of fee. Filled in
      one go such an order keeps part of its fee. */
  lemma SaturatedFillLeavesFee()
    ensures var o := LimitOrder(10_000_000_000_000, 2_000_000);
            Fillable(o, []) && FillAll(o, []) == o && Fill(o, o.input).input == 0 && Fill(o, o.input).fee != 0
  {
    LastFillChargesAllIff(LimitOrder(10_000_000_000_000, 2_000_000));
  }

  /** In particular nothing is left over when the original fee times the original input fits. */
  lemma NoSaturationNoRemainder(o: LimitOrder, fills: seq<u64>)
    requires Fillable(o, fills) && FillAll(o, fills).input > 0 && o.fee * o.input <= U64_MAX
    ensures Fill(FillAll(o, fills), FillAll(o, fills).input).fee == 0
  {
    var before := FillAll(o, fills);
    MulMono(before.fee, o.fee, before.input);
    MulMono(before.input, o.input, o.fee);
    LastFillChargesAllIff(before);
  }
}
