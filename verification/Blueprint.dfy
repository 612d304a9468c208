/** Laying a batch of script inputs and outputs out in a transaction: every index must match the ledger's order. */
module Blueprint {
  import opened Options
  import opened Bytes
  import opened Keys
  import opened Ledger

  datatype Out = Out(address: Address, coin: nat, assets: seq<byte>, datum: seq<byte>)

  datatype Funding = Funding(out: Out, reference: OutputRef)

  type InputsOrdering = map<OutputRef, nat>

  /** Redeemers and costs may wait for the positions; a ready one is a constant function. */
  datatype ScriptInput = ScriptInput(
    reference: OutputRef, utxo: Out, redeemer: InputsOrdering -> seq<byte>, cost: nat -> nat)

  datatype Io = ScriptIo(script: ScriptInput, output: Out) | FundingIo(funding: Option<Funding>, output: Out)

  datatype FundingUse =
    | Replaced(consumed: Funding, produced: Out)
    | Added(unused: Funding, produced: Out)
    | NotUsed(unused: Funding)

  datatype Ordering = LessThan | Equal | GreaterThan

  const MIN_SAFE_LOVELACE_VALUE: nat := 1_000_000

  // ---- the order of references ----

  predicate RefLess(a: OutputRef, b: OutputRef) {
    Less(a.txHash, b.txHash) || (a.txHash == b.txHash && a.index < b.index)
  }

  /** The ledger's order: by the bytes of hash and big-endian index, so by hash and then by ascending index. */
  lemma RefLessIsByteOrder(a: OutputRef, b: OutputRef)
    ensures RefLess(a, b) <==> Less(a.txHash + BigEndian(a.index, 8), b.txHash + BigEndian(b.index, 8))
  {
    LessSameLength(a.txHash, BigEndian(a.index, 8), b.txHash, BigEndian(b.index, 8));
    Pow256Of8();
    BigEndianOrder(a.index, [], b.index, [], 8);
    assert BigEndian(a.index, 8) + [] == BigEndian(a.index, 8) && BigEndian(b.index, 8) + [] == BigEndian(b.index, 8);
  }

  function CompareRefs(a: OutputRef, b: OutputRef): Ordering {
    if RefLess(a, b) then LessThan else if a == b then Equal else GreaterThan
  }

  lemma RefLessTransitive(a: OutputRef, b: OutputRef, c: OutputRef)
    requires RefLess(a, b) && RefLess(b, c)
    ensures RefLess(a, c)
  {
    if Less(a.txHash, b.txHash) && Less(b.txHash, c.txHash) { LessTransitive(a.txHash, b.txHash, c.txHash); }
  }

  lemma RefLessTotal(a: OutputRef, b: OutputRef)
    ensures a == b || RefLess(a, b) || RefLess(b, a)
    ensures !(RefLess(a, b) && RefLess(b, a)) && !RefLess(a, a)
  {
    LessTotal(a.txHash, b.txHash);
    LessIrreflexive(a.txHash);
    if Less(a.txHash, b.txHash) { LessAsymmetric(a.txHash, b.txHash); }
    if Less(b.txHash, a.txHash) { LessAsymmetric(b.txHash, a.txHash); }
  }

  /** The comparator handed to the sort. */
  function Compare(l: Io, r: Io): Ordering {
    match (l, r)
    case (ScriptIo(a, _), ScriptIo(b, _)) => CompareRefs(a.reference, b.reference)
    case (ScriptIo(a, _), FundingIo(Some(b), _)) => CompareRefs(a.reference, b.reference)
    case (FundingIo(Some(a), _), ScriptIo(b, _)) => CompareRefs(a.reference, b.reference)
    case (_, FundingIo(None, _)) => LessThan
    case _ => GreaterThan
  }

  function RefOf(io: Io): Option<OutputRef> {
    match io
    case ScriptIo(s, _) => Some(s.reference)
    case FundingIo(Some(f), _) => Some(f.reference)
    case FundingIo(None, _) => None
  }

  /** Entries with an input before the entry without one, by reference. */
  predicate Before(l: Io, r: Io) {
    RefOf(l).Some? && (RefOf(r).None? || RefLess(RefOf(l).value, RefOf(r).value))
  }

  /** At most one entry is a funding entry, and no two entries have the same input. */
  ghost predicate Batch(ios: seq<Io>) {
    && (forall i, j :: 0 <= i < |ios| && 0 <= j < |ios| && ios[i].FundingIo? && ios[j].FundingIo? ==> i == j)
    && (forall i, j :: 0 <= i < j < |ios| && RefOf(ios[i]).Some? ==> RefOf(ios[i]) != RefOf(ios[j]))
  }

  /** On the entries of one batch the comparator is the strict order above, so a sort by it is well defined. */
  lemma CompareIsBefore(ios: seq<Io>, i: nat, j: nat)
    requires Batch(ios) && i < |ios| && j < |ios| && i != j
    ensures Compare(ios[i], ios[j]) == if Before(ios[i], ios[j]) then LessThan else GreaterThan
    ensures Before(ios[i], ios[j]) <==> !Before(ios[j], ios[i])
  {
    if RefOf(ios[i]).Some? && RefOf(ios[j]).Some? {
      RefLessTotal(RefOf(ios[i]).value, RefOf(ios[j]).value);
      if i < j { assert RefOf(ios[i]) != RefOf(ios[j]); } else { assert RefOf(ios[j]) != RefOf(ios[i]); }
    }
  }

  lemma BeforeTransitive(a: Io, b: Io, c: Io)
    requires Before(a, b) && Before(b, c)
    ensures Before(a, c)
  {
    if RefOf(c).Some? { RefLessTransitive(RefOf(a).value, RefOf(b).value, RefOf(c).value); }
  }

  ghost predicate InOrder(ios: seq<Io>) {
    forall i, j :: 0 <= i < j < |ios| ==> Before(ios[i], ios[j])
  }

  /** A stable sort by the comparator, as insertion. */
  function Insert(sorted: seq<Io>, x: Io): (r: seq<Io>)
    ensures |r| == |sorted| + 1
  {
    if sorted == [] then [x]
    else
      var n := |sorted| - 1;
      if Compare(x, sorted[n]).LessThan? then Insert(sorted[..n], x) + [sorted[n]] else sorted + [x]
  }

  /** The order is free of the entry being placed twice and of entries lost. */
  lemma {:induction false} InsertKeeps(sorted: seq<Io>, x: Io, y: Io)
    ensures y in Insert(sorted, x) <==> y == x || y in sorted
  {
    if sorted != [] {
      var n := |sorted| - 1;
      assert sorted == sorted[..n] + [sorted[n]];
      if Compare(x, sorted[n]).LessThan? { InsertKeeps(sorted[..n], x, y); }
    }
  }

  lemma {:induction false} InsertInOrder(sorted: seq<Io>, x: Io)
    requires InOrder(sorted)
    requires forall y :: y in sorted ==> Compare(x, y).LessThan? == Before(x, y) && (Before(x, y) <==> !Before(y, x))
    ensures InOrder(Insert(sorted, x))
  {
    if sorted != [] {
      var n := |sorted| - 1;
      var r := Insert(sorted, x);
      assert sorted[n] in sorted;
      if Compare(x, sorted[n]).LessThan? {
        InsertInOrder(sorted[..n], x);
        var low := Insert(sorted[..n], x);
        forall i | 0 <= i < n + 1 ensures Before(low[i], sorted[n]) {
          InsertKeeps(sorted[..n], x, low[i]);
          if low[i] != x {
            var j :| 0 <= j < n && sorted[..n][j] == low[i];
            assert Before(sorted[j], sorted[n]);
          }
        }
      } else {
        forall i | 0 <= i < |sorted| ensures Before(sorted[i], x) {
          if i < n { BeforeTransitive(sorted[i], sorted[n], x); }
        }
      }
    }
  }

  // ---- ranks ----

  ghost function RefsOf(ios: seq<Io>): set<OutputRef> {
    set i | 0 <= i < |ios| && RefOf(ios[i]).Some? :: RefOf(ios[i]).value
  }

  ghost function RefsBelow(ios: seq<Io>, r: OutputRef): set<OutputRef> {
    set q | q in RefsOf(ios) && RefLess(q, r)
  }

  /** The position the ledger gives an input: how many of the transaction's inputs precede it. */
  ghost function Rank(ios: seq<Io>, r: OutputRef): nat { |RefsBelow(ios, r)| }

  lemma InRefsOf(ios: seq<Io>, q: OutputRef)
    ensures q in RefsOf(ios) <==> exists i :: 0 <= i < |ios| && RefOf(ios[i]) == Some(q)
  {
    if q in RefsOf(ios) {
      var i :| 0 <= i < |ios| && RefOf(ios[i]).Some? && RefOf(ios[i]).value == q;
      assert RefOf(ios[i]) == Some(q);
    }
    if i :| 0 <= i < |ios| && RefOf(ios[i]) == Some(q) {
      assert RefOf(ios[i]).value == q;
    }
  }

  lemma RefsOfStep(ios: seq<Io>)
    requires ios != [] && RefOf(ios[|ios| - 1]).Some?
    ensures RefsOf(ios) == RefsOf(ios[..|ios| - 1]) + {RefOf(ios[|ios| - 1]).value}
  {
    var n := |ios| - 1;
    forall q ensures q in RefsOf(ios) <==> q in RefsOf(ios[..n]) || RefOf(ios[n]) == Some(q) {
      InRefsOf(ios, q);
      InRefsOf(ios[..n], q);
      if i :| 0 <= i < n && RefOf(ios[i]) == Some(q) { assert RefOf(ios[..n][i]) == Some(q); }
      if i :| 0 <= i < n && RefOf(ios[..n][i]) == Some(q) { assert RefOf(ios[i]) == Some(q); }
    }
  }

  lemma {:induction false} RefsOfOrdered(ios: seq<Io>)
    requires InOrder(ios) && forall i :: 0 <= i < |ios| ==> RefOf(ios[i]).Some?
    ensures |RefsOf(ios)| == |ios|
  {
    if ios != [] {
      var n := |ios| - 1;
      var last := RefOf(ios[n]).value;
      RefsOfOrdered(ios[..n]);
      RefsOfStep(ios);
      InRefsOf(ios[..n], last);
      RefLessTotal(last, last);
      forall i | 0 <= i < n ensures RefOf(ios[i]) != Some(last) {
        assert Before(ios[i], ios[n]);
      }
    }
  }

  /** In an ordered batch every entry that has an input stands exactly at that input's rank. */
  lemma PositionIsRank(ios: seq<Io>, i: nat)
    requires InOrder(ios) && i < |ios| && RefOf(ios[i]).Some?
    ensures Rank(ios, RefOf(ios[i]).value) == i
  {
    var r, low := RefOf(ios[i]).value, ios[..i];
    forall j | 0 <= j < i ensures RefOf(low[j]).Some? && RefLess(RefOf(low[j]).value, r) {
      assert Before(ios[j], ios[i]);
    }
    RefsOfOrdered(low);
    assert RefsBelow(ios, r) == RefsOf(low) by {
      forall q | q in RefsBelow(ios, r) ensures q in RefsOf(low) {
        var j :| 0 <= j < |ios| && RefOf(ios[j]).Some? && RefOf(ios[j]).value == q;
        RefLessTotal(q, r);
        assert j > i ==> Before(ios[i], ios[j]);
        assert low[j] == ios[j];
      }
      forall q | q in RefsOf(low) ensures q in RefsBelow(ios, r) {
        var j :| 0 <= j < i && RefOf(low[j]).Some? && RefOf(low[j]).value == q;
        assert ios[j] == low[j];
      }
    }
  }

  // ---- the transaction under construction ----

  datatype TxIn = TxIn(reference: OutputRef, redeemer: Option<seq<byte>>)

  class TxBuilder {
    var inputs: seq<TxIn>
    var outputs: seq<Out>
    // Execution units, by the input position they are set for.
    var exUnits: map<nat, nat>

    constructor ()
      ensures inputs == [] && outputs == [] && exUnits == map[]
    {
      inputs, outputs, exUnits := [], [], map[];
    }
  }

  /** Only the last entry of an ordered batch can be without an input. */
  lemma InputsFirst(ios: seq<Io>, i: nat)
    requires InOrder(ios) && i < |ios|
    ensures RefOf(ios[i]).None? ==> i == |ios| - 1
  {
    assert i < |ios| - 1 ==> Before(ios[i], ios[|ios| - 1]);
  }

  ghost predicate OrderingUpTo(ios: seq<Io>, n: nat, ordering: InputsOrdering)
    requires n <= |ios|
  {
    forall i :: 0 <= i < n && RefOf(ios[i]).Some? ==>
      RefOf(ios[i]).value in ordering && ordering[RefOf(ios[i]).value] == i
  }

  /** The entries of the batch laid out one after the other. */
  ghost predicate LaidOut(txb: TxBuilder, ios: seq<Io>, n: nat, ordering: InputsOrdering)
    requires n <= |ios|
    reads txb
  {
    && |txb.outputs| == n
    && |txb.inputs| == (if n > 0 && RefOf(ios[n - 1]).None? then n - 1 else n)
    && forall i :: 0 <= i < n ==> EntryAt(txb, ios[i], i, ordering)
  }

  ghost predicate EntryAt(txb: TxBuilder, io: Io, i: nat, ordering: InputsOrdering)
    reads txb
  {
    && i < |txb.outputs| && txb.outputs[i] == io.output
    && (RefOf(io).Some? ==> i < |txb.inputs| && txb.inputs[i].reference == RefOf(io).value)
    && (io.ScriptIo? ==>
          && txb.inputs[i].redeemer == Some(io.script.redeemer(ordering))
          && i in txb.exUnits && txb.exUnits[i] == io.script.cost(i))
  }

  class TxBlueprint {
    var scriptIo: seq<(ScriptInput, Out)>

    constructor ()
      ensures scriptIo == []
    {
      scriptIo := [];
    }

    method AddIo(input: ScriptInput, output: Out)
      modifies this
      ensures scriptIo == old(scriptIo) + [(input, output)]
    {
      scriptIo := scriptIo + [(input, output)];
    }

    /** No two of the batch's inputs, the funding input included, are the same. */
    ghost predicate DistinctInputs(funding: Funding)
      reads this
    {
      && (forall i, j :: 0 <= i < j < |scriptIo| ==> scriptIo[i].0.reference != scriptIo[j].0.reference)
      && (forall i :: 0 <= i < |scriptIo| ==> scriptIo[i].0.reference != funding.reference)
    }

    /** Decide what the operator's interest becomes: nothing, a reward output of its own, or a funding output
        that replaces the funding input. */
    method CollectIo(reward: Address, funding: Funding, interest: nat) returns (allIo: seq<Io>, use: FundingUse)
      requires DistinctInputs(funding)
      ensures Batch(allIo)
      ensures |scriptIo| <= |allIo| <= |scriptIo| + 1
      ensures forall i :: 0 <= i < |scriptIo| ==> allIo[i] == ScriptIo(scriptIo[i].0, scriptIo[i].1)
      ensures |allIo| > |scriptIo| <==> interest > 0
      ensures 0 < interest < MIN_SAFE_LOVELACE_VALUE ==>
                use.Replaced? && use.consumed == funding && use.produced.coin == funding.out.coin + interest &&
                use.produced.address == funding.out.address && use.produced.assets == funding.out.assets &&
                allIo[|scriptIo|] == FundingIo(Some(funding), use.produced)
      ensures interest >= MIN_SAFE_LOVELACE_VALUE ==>
                var out := Out(reward, interest, [], []);
                allIo[|scriptIo|] == FundingIo(None, out) &&
                use == if reward == funding.out.address then Added(funding, out) else NotUsed(funding)
      ensures interest == 0 ==> use == NotUsed(funding)
    {
      allIo := seq(|scriptIo|, i requires 0 <= i < |scriptIo| reads this => ScriptIo(scriptIo[i].0, scriptIo[i].1));
      if interest > 0 {
        if interest >= MIN_SAFE_LOVELACE_VALUE {
          var output := Out(reward, interest, [], []);
          allIo := allIo + [FundingIo(None, output)];
          if reward == funding.out.address {
            use := Added(funding, output);
          } else {
            use := NotUsed(funding);
          }
        } else {
          var output := Out(funding.out.address, funding.out.coin + interest, funding.out.assets, []);
          allIo := allIo + [FundingIo(Some(funding), output)];
          use := Replaced(funding, output);
        }
      } else {
        use := NotUsed(funding);
      }
    }

    method SortIo(allIo: seq<Io>) returns (sorted: seq<Io>)
      requires Batch(allIo)
      ensures InOrder(sorted) && |sorted| == |allIo|
      ensures forall x :: x in sorted <==> x in allIo
    {
      sorted := [];
      for i := 0 to |allIo|
        invariant InOrder(sorted) && |sorted| == i
        invariant forall x :: x in sorted <==> x in allIo[..i]
      {
        forall y | y in sorted
          ensures Compare(allIo[i], y).LessThan? == Before(allIo[i], y)
          ensures Before(allIo[i], y) <==> !Before(y, allIo[i])
        {
          var j :| 0 <= j < i && allIo[..i][j] == y;
          CompareIsBefore(allIo, i, j);
        }
        InsertInOrder(sorted, allIo[i]);
        forall x ensures x in Insert(sorted, allIo[i]) <==> x in allIo[..i + 1] {
          InsertKeeps(sorted, allIo[i], x);
          assert allIo[..i + 1] == allIo[..i] + [allIo[i]];
        }
        sorted := Insert(sorted, allIo[i]);
      }
      assert allIo[..|allIo|] == allIo;
    }

    /** Where each input will stand, for the redeemers that depend on it. */
    method OrderInputs(ios: seq<Io>) returns (ordering: InputsOrdering)
      requires InOrder(ios)
      ensures OrderingUpTo(ios, |ios|, ordering)
    {
      ordering := map[];
      for ix := 0 to |ios|
        invariant OrderingUpTo(ios, ix, ordering)
      {
        if RefOf(ios[ix]).Some? {
          forall i | 0 <= i < ix ensures RefOf(ios[i]) != RefOf(ios[ix]) {
            assert Before(ios[i], ios[ix]);
            RefLessTotal(RefOf(ios[ix]).value, RefOf(ios[ix]).value);
          }
          ordering := ordering[RefOf(ios[ix]).value := ix];
        }
      }
    }

    /** One turn of the loop below: an input, if the entry has one, and its output. */
    method AddEntry(txb: TxBuilder, ios: seq<Io>, ix: nat, ordering: InputsOrdering)
      requires InOrder(ios) && ix < |ios| && LaidOut(txb, ios, ix, ordering)
      modifies txb
      ensures EntryAt(txb, ios[ix], ix, ordering)
      ensures txb.outputs == old(txb.outputs) + [ios[ix].output]
      ensures |old(txb.inputs)| == ix && old(txb.inputs) <= txb.inputs
      ensures |txb.inputs| == if RefOf(ios[ix]).Some? then ix + 1 else ix
      ensures forall i :: i in old(txb.exUnits) && i != ix ==> i in txb.exUnits && txb.exUnits[i] == old(txb.exUnits)[i]
    {
      if ix > 0 { InputsFirst(ios, ix - 1); }
      match ios[ix] {
        case ScriptIo(script, output) =>
          txb.inputs := txb.inputs + [TxIn(script.reference, Some(script.redeemer(ordering)))];
          txb.outputs := txb.outputs + [output];
          txb.exUnits := txb.exUnits[ix := script.cost(ix)];
        case FundingIo(funding, output) =>
          if funding.Some? {
            txb.inputs := txb.inputs + [TxIn(funding.value.reference, None)];
          }
          txb.outputs := txb.outputs + [output];
      }
    }

    method LayOut(txb: TxBuilder, ios: seq<Io>, ordering: InputsOrdering)
      requires InOrder(ios) && LaidOut(txb, ios, 0, ordering)
      modifies txb
      ensures LaidOut(txb, ios, |ios|, ordering)
    {
      for ix := 0 to |ios|
        invariant LaidOut(txb, ios, ix, ordering)
      {
        label Turn:
        AddEntry(txb, ios, ix, ordering);
        forall i | 0 <= i < ix ensures EntryAt(txb, ios[i], i, ordering) {
          assert old@Turn(EntryAt(txb, ios[i], i, ordering));
        }
      }
    }

    /** An entry stands at the rank of its input among the transaction's inputs: its input and output there, its
        redeemer and execution units there, and that position is what the redeemers are told. */
    ghost predicate AtRank(txb: TxBuilder, ios: seq<Io>, io: Io, positions: InputsOrdering)
      requires RefOf(io).Some?
      reads txb
    {
      var r := RefOf(io).value;
      EntryAt(txb, io, Rank(ios, r), positions) && r in positions && positions[r] == Rank(ios, r)
    }

    lemma AllAtRank(txb: TxBuilder, ios: seq<Io>, positions: InputsOrdering, io: Io)
      requires InOrder(ios) && LaidOut(txb, ios, |ios|, positions) && OrderingUpTo(ios, |ios|, positions)
      requires io in ios && RefOf(io).Some?
      ensures AtRank(txb, ios, io, positions)
    {
      var p :| 0 <= p < |ios| && ios[p] == io;
      PositionIsRank(ios, p);
    }

    lemma InputlessLast(txb: TxBuilder, ios: seq<Io>, positions: InputsOrdering, io: Io)
      requires InOrder(ios) && LaidOut(txb, ios, |ios|, positions)
      requires io in ios && RefOf(io).None?
      ensures txb.outputs[|ios| - 1] == io.output && |txb.inputs| == |ios| - 1
    {
      var p :| 0 <= p < |ios| && ios[p] == io;
      InputsFirst(ios, p);
      assert EntryAt(txb, ios[p], p, positions);
    }

    /** In every funding branch each script input, and the funding input when it is spent, stands at its rank with
        its paired output; a reward output of its own comes last. */
    method ProjectOntoBuilder(txb: TxBuilder, reward: Address, funding: Funding, interest: nat)
      returns (use: FundingUse, ghost ios: seq<Io>, ghost positions: InputsOrdering)
      requires DistinctInputs(funding)
      requires txb.inputs == [] && txb.outputs == [] && txb.exUnits == map[]
      modifies txb
      ensures |ios| == |scriptIo| + (if interest > 0 then 1 else 0) && LaidOut(txb, ios, |ios|, positions)
      ensures forall k :: 0 <= k < |scriptIo| ==>
                AtRank(txb, ios, ScriptIo(scriptIo[k].0, scriptIo[k].1), positions)
      ensures interest == 0 ==> use == NotUsed(funding)
      ensures interest >= MIN_SAFE_LOVELACE_VALUE ==>
                var out := Out(reward, interest, [], []);
                txb.outputs[|scriptIo|] == out && |txb.inputs| == |scriptIo| &&
                use == if reward == funding.out.address then Added(funding, out) else NotUsed(funding)
      ensures 0 < interest < MIN_SAFE_LOVELACE_VALUE ==>
                use.Replaced? && use.consumed == funding && use.produced.coin == funding.out.coin + interest &&
                AtRank(txb, ios, FundingIo(Some(funding), use.produced), positions)
    {
      var allIo;
      allIo, use := CollectIo(reward, funding, interest);
      var sorted := SortIo(allIo);
      var ordering := OrderInputs(sorted);
      LayOut(txb, sorted, ordering);
      ios, positions := sorted, ordering;
      forall k | 0 <= k < |scriptIo| ensures AtRank(txb, ios, ScriptIo(scriptIo[k].0, scriptIo[k].1), positions) {
        assert allIo[k] in allIo;
        AllAtRank(txb, ios, positions, allIo[k]);
      }
      if interest > 0 {
        var last := allIo[|scriptIo|];
        assert last in allIo;
        if interest >= MIN_SAFE_LOVELACE_VALUE {
          InputlessLast(txb, ios, positions, last);
        } else {
          AllAtRank(txb, ios, positions, last);
        }
      }
    }
  }
}
