/** What the answers mean to a client: in terms of addresses, assets and rows only. */
module Answers {
  import opened Options
  import opened Bytes
  import opened Keys
  import opened Ledger
  import opened IndexTables
  import opened UndoRuns
  import opened Queries
  import opened EventTrails

  ghost predicate UnspentOf(t: Tables, o: OutputRef, c: Credential, kind: CredentialKind) {
    o in t.txo && !t.txo[o].spent && BelongsTo(t.txo[o].out.address, c, kind)
  }

  /** After any run the scoped Unspent query lists exactly the unspent outputs at addresses of the credential. */
  lemma UnspentByAddress(events: seq<Event>, c: Credential, kind: CredentialKind, o: OutputRef)
    ensures var t := Run(EMPTY, events);
            Listed(Answer(t, Some((c, kind)), Unspent), o) <==> UnspentOf(t, o, c, kind)
  {
    var t := Run(EMPTY, events);
    EveryRunCoherent(events);
    UnspentAnswer(t, c, kind);
    if o in t.txo { CredsAreOwners(t.txo[o].out.address, c, kind); }
  }

  /** After any run the scoped unit query lists exactly those of them that hold the asset the unit spells. */
  lemma ScopedUnitByAsset(events: seq<Event>, c: Credential, kind: CredentialKind, u: seq<byte>, policy: Hash28,
                          name: seq<byte>, o: OutputRef)
    requires Spells(u, UnitText(policy, name))
    ensures var t := Run(EMPTY, events);
            Listed(Answer(t, Some((c, kind)), UnspentByUnit(u)), o) <==>
            UnspentOf(t, o, c, kind) && HoldsNamed(t.txo[o].out, policy, name)
  {
    var t := Run(EMPTY, events);
    EveryRunCoherent(events);
    ScopedUnitAnswer(t, c, kind, u);
    if o in t.txo {
      CredsAreOwners(t.txo[o].out.address, c, kind);
      SpelledUnitIff(t.txo[o].out, u, policy, name);
    }
  }

  /** After any run the unscoped unit query lists exactly the unspent outputs that hold the asset it spells. */
  lemma GlobalUnitByAsset(events: seq<Event>, u: seq<byte>, policy: Hash28, name: seq<byte>, o: OutputRef)
    requires Spells(u, UnitText(policy, name))
    ensures var t := Run(EMPTY, events);
            Listed(Answer(t, None, UnspentByUnit(u)), o) <==>
            o in t.txo && !t.txo[o].spent && HoldsNamed(t.txo[o].out, policy, name)
  {
    var t := Run(EMPTY, events);
    EveryRunCoherent(events);
    GlobalUnitAnswer(t, u);
    if o in t.txo { SpelledUnitIff(t.txo[o].out, u, policy, name); }
  }

  /** Two spellings of one unit get equal answers, scoped or not. */
  lemma SpellingsAgree(events: seq<Event>, scope: Scope, u: seq<byte>, v: seq<byte>, policy: Hash28, name: seq<byte>)
    requires Spells(u, UnitText(policy, name)) && Spells(v, UnitText(policy, name))
    ensures var t := Run(EMPTY, events); Answer(t, scope, UnspentByUnit(u)) == Answer(t, scope, UnspentByUnit(v))
  {
    var t := Run(EMPTY, events);
    EveryRunCoherent(events);
    match scope
    case Some((c, kind)) =>
      ScopedUnitAnswer(t, c, kind, u);
      ScopedUnitAnswer(t, c, kind, v);
      forall o { ScopedUnitByAsset(events, c, kind, u, policy, name, o); }
      forall o { ScopedUnitByAsset(events, c, kind, v, policy, name, o); }
      RowwiseUnique(Answer(t, scope, UnspentByUnit(u)), Answer(t, scope, UnspentByUnit(v)), t.txo);
    case None =>
      GlobalUnitAnswer(t, u);
      GlobalUnitAnswer(t, v);
      forall o { GlobalUnitByAsset(events, u, policy, name, o); }
      forall o { GlobalUnitByAsset(events, v, policy, name, o); }
      RowwiseUnique(Answer(t, scope, UnspentByUnit(u)), Answer(t, scope, UnspentByUnit(v)), t.txo);
  }

  /** A query by reference returns the output's row, spent or not, iff it is stored and, when scoped, at an address
      of the credential. */
  lemma ByReference(t: Tables, scope: Scope, o: OutputRef)
    ensures Answer(t, scope, ByOutputRef(o)) ==
            if o in t.txo && (scope.Some? ==> BelongsTo(t.txo[o].out.address, scope.value.0, scope.value.1)) then
              [Txo(o, t.txo[o].out, t.txo[o].settledAt, t.txo[o].spent)]
            else []
  {
    if scope.Some? && o in t.txo { CredsAreOwners(t.txo[o].out.address, scope.value.0, scope.value.1); }
  }

  /** Some slot from the least one on is among these. */
  ghost predicate Reaches(slots: set<u64>, least: u64) { exists s :: s in slots && s >= least }

  lemma FiledByAddress(t: Tables, trail: Trail, c: Credential, kind: CredentialKind, least: Option<u64>, o: OutputRef,
                       out: TxOut)
    requires Follows(t, trail, o, out, kind)
    ensures Listed(Answer(t, Some((c, kind)), All(least)), o) <==>
            o in t.txo && BelongsTo(out.address, c, kind) && Reaches(trail.slots, SlotOrMax(least))
  {
    AllListedIff(t, c, kind, least, o);
    CredsAreOwners(out.address, c, kind);
    if s: u64 :| s >= SlotOrMax(least) && EventKey(c, s, o) in t.Index(kind).events { assert s in trail.slots; }
    if BelongsTo(out.address, c, kind) && Reaches(trail.slots, SlotOrMax(least)) {
      var s :| s in trail.slots && s >= SlotOrMax(least);
      assert EventKey(c, s, o) in t.Index(kind).events;
    }
  }

  /** After any run an All query lists an output iff it is stored, at an address of the credential, and filed under
      some slot from the least one on. */
  lemma AllByAddress(events: seq<Event>, c: Credential, kind: CredentialKind, least: Option<u64>, o: OutputRef,
                     out: TxOut)
    requires AlwaysAdds(events, o, out)
    ensures var t := Run(EMPTY, events);
            Listed(Answer(t, Some((c, kind)), All(least)), o) <==>
            o in t.txo && BelongsTo(t.txo[o].out.address, c, kind) &&
            Reaches(TrailOf(events, o).slots, SlotOrMax(least))
  {
    RunFollows(events, o, out, kind);
    FiledByAddress(Run(EMPTY, events), TrailOf(events, o), c, kind, least, o, out);
  }

  /** From slot 0 on that is every stored output at an address of the credential, and no other. */
  lemma AllFromZero(events: seq<Event>, c: Credential, kind: CredentialKind, o: OutputRef, out: TxOut)
    requires AlwaysAdds(events, o, out)
    ensures var t := Run(EMPTY, events);
            Listed(Answer(t, Some((c, kind)), All(Some(0))), o) <==>
            o in t.txo && BelongsTo(t.txo[o].out.address, c, kind)
  {
    var t := Run(EMPTY, events);
    AllByAddress(events, c, kind, Some(0), o, out);
    EveryRunCoherent(events);
    if o in t.txo && BelongsTo(t.txo[o].out.address, c, kind) {
      CredsAreOwners(t.txo[o].out.address, c, kind);
      AllMissesNothing(t, c, kind, 0, o);
    }
  }

  /** Every listed item carries the output's current row. */
  lemma ListedRows(t: Tables, c: Credential, kind: CredentialKind, query: TxoQuery, i: nat)
    requires Coherent(t) && i < |Answer(t, Some((c, kind)), query)|
    ensures var x := Answer(t, Some((c, kind)), query)[i];
            x.oref in t.txo && x == Txo(x.oref, t.txo[x.oref].out, t.txo[x.oref].settledAt, t.txo[x.oref].spent)
  {
    match query
    case All(least) =>
      var ks := AllAnswer(t, c, kind, least);
      RowsOfRows(t, ks, i);
    case Unspent => UnspentAnswer(t, c, kind);
    case UnspentByUnit(unit) => ScopedUnitAnswer(t, c, kind, unit);
    case ByOutputRef(o) =>
  }

  lemma {:induction false} RowsOfRows(t: Tables, ks: seq<EventKey>, i: nat)
    requires i < |RowsOf(t.txo, ks)|
    ensures var x := RowsOf(t.txo, ks)[i];
            x.oref in t.txo && x == Txo(x.oref, t.txo[x.oref].out, t.txo[x.oref].settledAt, t.txo[x.oref].spent)
  {
    var n := |ks| - 1;
    if i < |RowsOf(t.txo, ks[..n])| { RowsOfRows(t, ks[..n], i); }
  }
}
