/** The bounded filter that keeps the mempool monitor from reporting a transaction twice. */
module MempoolFilter {
  /** The newest `cap + 1` entries of a history. */
  function Recent<T>(history: seq<T>, cap: nat): seq<T> {
    if |history| <= cap + 1 then history else history[|history| - cap - 1..]
  }

  /** The transactions that get through, in order: those not among the `cap + 1` admitted last. */
  function Admitted<T(==)>(seen: seq<T>, cap: nat): seq<T> {
    if seen == [] then []
    else
      var before, tx := Admitted(seen[..|seen| - 1], cap), seen[|seen| - 1];
      if tx in Recent(before, cap) then before else before + [tx]
  }

  lemma RecentStep<T>(history: seq<T>, x: T, cap: nat)
    ensures Recent(history + [x], cap) ==
            (if |history| <= cap then history else Recent(history, cap)[1..]) + [x]
  {
  }

  function Reversed<T>(s: seq<T>): (r: seq<T>)
    ensures |r| == |s|
  {
    seq(|s|, i requires 0 <= i < |s| => s[|s| - 1 - i])
  }

  lemma ReversedStep<T>(s: seq<T>, x: T)
    ensures Reversed(s + [x]) == [x] + Reversed(s)
    ensures s != [] ==> Reversed(s[1..]) == Reversed(s)[..|s| - 1]
  {
  }

  lemma ReversedMembers<T(!new)>(s: seq<T>)
    ensures forall x :: x in Reversed(s) <==> x in s
  {
    forall x ensures x in Reversed(s) <==> x in s {
      if x in s {
        var i :| 0 <= i < |s| && s[i] == x;
        assert Reversed(s)[|s| - 1 - i] == x;
      }
    }
  }

  /** The queue a history leaves: the `cap + 1` admitted last, newest first. */
  function QueueOf<T(==)>(seen: seq<T>, cap: nat): seq<T> { Reversed(Recent(Admitted(seen, cap), cap)) }

  class TxFilter<T(==,!new)> {
    var knownTxs: set<T>
    // Front first: new hashes are pushed to the front and evicted from the back.
    var evictionQueue: seq<T>
    const cap: nat
    ghost var seen: seq<T>

    ghost predicate Valid()
      reads this
    {
      && evictionQueue == QueueOf(seen, cap)
      && Mirrors(knownTxs, evictionQueue) && |evictionQueue| <= cap + 1
    }

    constructor (cap: nat)
      ensures Valid() && seen == [] && this.cap == cap
    {
      knownTxs, evictionQueue, seen := {}, [], [];
      this.cap := cap;
    }

    /** True iff the hash is one of the `cap + 1` admitted last; otherwise it is admitted. */
    method Register(tx: T) returns (known: bool)
      requires Valid()
      modifies this
      ensures Valid() && seen == old(seen) + [tx]
      ensures known == (tx in Recent(Admitted(old(seen), cap), cap))
    {
      RegisteredStep(seen, tx, cap);
      seen := seen + [tx];
      if tx in knownTxs {
        return true;
      }
      if |knownTxs| > cap {
        EvictOldest();
      }
      PushFront(evictionQueue, knownTxs, tx);
      knownTxs := knownTxs + {tx};
      evictionQueue := [tx] + evictionQueue;
      known := false;
    }

    method EvictOldest()
      requires Mirrors(knownTxs, evictionQueue)
      modifies `knownTxs, `evictionQueue
      ensures old(evictionQueue) != [] ==> evictionQueue == old(evictionQueue)[..|old(evictionQueue)| - 1]
      ensures old(evictionQueue) == [] ==> evictionQueue == []
      ensures Mirrors(knownTxs, evictionQueue) && knownTxs <= old(knownTxs)
    {
      if |evictionQueue| > 0 {
        var candidate := evictionQueue[|evictionQueue| - 1];
        DropsOne(evictionQueue, knownTxs);
        evictionQueue := evictionQueue[..|evictionQueue| - 1];
        knownTxs := knownTxs - {candidate};
      }
    }
  }

  lemma AdmittedStep<T>(seen: seq<T>, tx: T, cap: nat)
    ensures Admitted(seen + [tx], cap) ==
            if tx in Recent(Admitted(seen, cap), cap) then Admitted(seen, cap) else Admitted(seen, cap) + [tx]
  {
    assert (seen + [tx])[..|seen|] == seen;
  }

  /** The queue after an admission: the newcomer in front and, once the window is full, the oldest dropped. */
  lemma AdmitStep<T>(history: seq<T>, x: T, cap: nat)
    ensures var queue := Reversed(Recent(history, cap));
            Reversed(Recent(history + [x], cap)) == [x] + if |queue| > cap then queue[..|queue| - 1] else queue
  {
    var window := Recent(history, cap);
    RecentStep(history, x, cap);
    ReversedStep(if |history| <= cap then history else window[1..], x);
    ReversedStep(window, x);
  }

  /** What one more transaction does to the queue. */
  lemma RegisteredStep<T(!new)>(seen: seq<T>, tx: T, cap: nat)
    ensures var queue := QueueOf(seen, cap);
            && (tx in queue <==> tx in Recent(Admitted(seen, cap), cap))
            && QueueOf(seen + [tx], cap) ==
               if tx in queue then queue else [tx] + if |queue| > cap then queue[..|queue| - 1] else queue
  {
    ReversedMembers(Recent(Admitted(seen, cap), cap));
    AdmittedStep(seen, tx, cap);
    AdmitStep(Admitted(seen, cap), tx, cap);
  }

  lemma {:induction false} MembersBound<T(!new)>(s: seq<T>, m: set<T>)
    requires forall x :: x in m ==> x in s
    ensures |m| <= |s|
  {
    if s == [] {
      assert m == {};
    } else {
      MembersBound(s[1..], m - {s[0]});
    }
  }

  ghost predicate Mirrors<T(!new)>(known: set<T>, queue: seq<T>) {
    |known| == |queue| && forall x :: x in known <==> x in queue
  }

  lemma PushFront<T(!new)>(queue: seq<T>, known: set<T>, x: T)
    requires Mirrors(known, queue) && x !in known
    ensures Mirrors(known + {x}, [x] + queue)
  {
  }

  /** A queue as long as the set of its members holds no duplicate, so its last entry occurs once. */
  lemma DropsOne<T(!new)>(queue: seq<T>, known: set<T>)
    requires queue != [] && Mirrors(known, queue)
    ensures Mirrors(known - {queue[|queue| - 1]}, queue[..|queue| - 1])
  {
    var n := |queue| - 1;
    assert queue == queue[..n] + [queue[n]];
    if queue[n] in queue[..n] {
      MembersBound(queue[..n], known);
    }
  }

  /** A transaction is reported again only after `cap + 1` others have been: any `cap + 2` consecutive
      admissions are distinct. */
  lemma {:induction false} AdmittedApart<T>(seen: seq<T>, cap: nat, i: nat, j: nat)
    requires i < j < |Admitted(seen, cap)| && j <= i + cap + 1
    ensures Admitted(seen, cap)[i] != Admitted(seen, cap)[j]
  {
    var before, tx := Admitted(seen[..|seen| - 1], cap), seen[|seen| - 1];
    if j < |before| {
      AdmittedApart(seen[..|seen| - 1], cap, i, j);
    } else {
      var window := Recent(before, cap);
      assert before[i] == window[i - (|before| - |window|)];
    }
  }
}
