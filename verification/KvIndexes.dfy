/** A key-value index whose consumed entries are evicted after a delay. */
module KvIndexes {
  import opened Options

  /** The store and the keys due for eviction, oldest registration first. */
  datatype Kv<K, V> = Kv(store: map<K, V>, queue: seq<(nat, K)>)

  /** Evict from the front of the queue while the front is due. */
  function Evicted<K, V>(kv: Kv<K, V>, now: nat): Kv<K, V>
    decreases |kv.queue|
  {
    if kv.queue != [] && kv.queue[0].0 <= now then Evicted(Kv(kv.store - {kv.queue[0].1}, kv.queue[1..]), now) else kv
  }

  /** Every key whose deadline passes by `end` is one of these. */
  ghost predicate DueAmong<K, V>(kv: Kv<K, V>, end: nat, dying: set<K>) {
    forall i :: 0 <= i < |kv.queue| && kv.queue[i].0 <= end ==> kv.queue[i].1 in dying
  }

  /** Eviction by then touches those keys only, on any queue, and adds none to the queue. */
  lemma {:induction false} EvictedAmong<K, V>(kv: Kv<K, V>, now: nat, end: nat, dying: set<K>)
    requires DueAmong(kv, end, dying) && now <= end
    ensures DueAmong(Evicted(kv, now), end, dying)
    ensures forall k :: k in Evicted(kv, now).store ==> k in kv.store && Evicted(kv, now).store[k] == kv.store[k]
    ensures forall k :: k in kv.store && k !in dying ==> k in Evicted(kv, now).store
    decreases |kv.queue|
  {
    if kv.queue != [] && kv.queue[0].0 <= now {
      EvictedAmong(Kv(kv.store - {kv.queue[0].1}, kv.queue[1..]), now, end, dying);
    }
  }

  /** The queue is in deadline order, as registrations under a monotone clock leave it. */
  ghost predicate QueueOrdered<K, V>(kv: Kv<K, V>) {
    forall i, j :: 0 <= i < j < |kv.queue| ==> kv.queue[i].0 <= kv.queue[j].0
  }

  /** Under a monotone clock eviction removes exactly the keys that are due. */
  lemma {:induction false} EvictedExactly<K, V>(kv: Kv<K, V>, now: nat, k: K)
    requires QueueOrdered(kv)
    ensures k in Evicted(kv, now).store <==>
            k in kv.store && forall i :: 0 <= i < |kv.queue| && kv.queue[i].1 == k ==> kv.queue[i].0 > now
    ensures k in Evicted(kv, now).store ==> Evicted(kv, now).store[k] == kv.store[k]
    decreases |kv.queue|
  {
    if kv.queue != [] && kv.queue[0].0 <= now {
      var kv' := Kv(kv.store - {kv.queue[0].1}, kv.queue[1..]);
      EvictedExactly(kv', now, k);
      assert forall i :: 0 <= i < |kv'.queue| ==> kv'.queue[i] == kv.queue[i + 1];
      assert forall i :: 1 <= i < |kv.queue| ==> kv.queue[i] == kv'.queue[i - 1];
    }
  }

  ghost predicate Pending<K, V>(kv: Kv<K, V>, deadline: nat, k: K) {
    exists i :: 0 <= i < |kv.queue| && kv.queue[i] == (deadline, k)
  }

  /** No pending deadline of the key has passed. */
  ghost predicate NoneDue<K, V>(kv: Kv<K, V>, now: nat, k: K) {
    forall d: nat :: Pending(kv, d, k) ==> d > now
  }

  /** The clock has only moved forward, so the queue is ordered and no deadline lies beyond a full delay. */
  ghost predicate Clocked<K, V>(kv: Kv<K, V>, horizon: nat) {
    QueueOrdered(kv) && forall i :: 0 <= i < |kv.queue| ==> kv.queue[i].0 <= horizon
  }

  /** A pass of eviction leaves the deadlines that have not passed. */
  lemma {:induction false} EvictedPending<K, V>(kv: Kv<K, V>, now: nat, horizon: nat, k: K)
    requires Clocked(kv, horizon)
    ensures Clocked(Evicted(kv, now), horizon)
    ensures forall d: nat :: Pending(Evicted(kv, now), d, k) <==> Pending(kv, d, k) && d > now
    decreases |kv.queue|
  {
    if kv.queue != [] && kv.queue[0].0 <= now {
      var kv' := Kv(kv.store - {kv.queue[0].1}, kv.queue[1..]);
      EvictedPending(kv', now, horizon, k);
      forall d: nat | d > now ensures Pending(kv', d, k) <==> Pending(kv, d, k) {
        if i :| 0 <= i < |kv.queue| && kv.queue[i] == (d, k) { assert kv'.queue[i - 1] == (d, k); }
        if i :| 0 <= i < |kv'.queue| && kv'.queue[i] == (d, k) { assert kv.queue[i + 1] == (d, k); }
      }
    } else {
      assert forall i :: 0 <= i < |kv.queue| ==> kv.queue[i].0 > now;
    }
  }

  lemma EvictedIffDue<K, V>(kv: Kv<K, V>, now: nat, horizon: nat, k: K)
    requires Clocked(kv, horizon)
    ensures k in Evicted(kv, now).store <==> k in kv.store && NoneDue(kv, now, k)
    ensures k in Evicted(kv, now).store ==> Evicted(kv, now).store[k] == kv.store[k]
  {
    EvictedExactly(kv, now, k);
    if NoneDue(kv, now, k) {
      forall i | 0 <= i < |kv.queue| && kv.queue[i].1 == k ensures kv.queue[i].0 > now {
        assert Pending(kv, kv.queue[i].0, k);
      }
    }
  }

  class InMemoryKvIndex<K(==), V> {
    var store: map<K, V>
    var evictionQueue: seq<(nat, K)>
    const evictionDelay: nat

    function View(): Kv<K, V>
      reads this
    {
      Kv(store, evictionQueue)
    }

    constructor (evictionDelay: nat)
      ensures View() == Kv(map[], []) && this.evictionDelay == evictionDelay
    {
      store, evictionQueue := map[], [];
      this.evictionDelay := evictionDelay;
    }

    method Put(id: K, value: V)
      modifies `store
      ensures store == old(store)[id := value]
    {
      store := store[id := value];
    }

    method Get(id: K) returns (r: Option<V>)
      ensures r == if id in store then Some(store[id]) else None
    {
      r := if id in store then Some(store[id]) else None;
    }

    method RegisterForEviction(id: K, now: nat)
      modifies `evictionQueue
      ensures evictionQueue == old(evictionQueue) + [(now + evictionDelay, id)]
    {
      evictionQueue := evictionQueue + [(now + evictionDelay, id)];
    }

    method RunEviction(now: nat)
      modifies this
      ensures View() == Evicted(old(View()), now)
    {
      while true
        invariant Evicted(View(), now) == Evicted(old(View()), now)
        decreases |evictionQueue|
      {
        if evictionQueue != [] {
          var front := evictionQueue[0];
          evictionQueue := evictionQueue[1..];
          if front.0 <= now {
            store := store - {front.1};
            continue;
          }
          evictionQueue := [front] + evictionQueue;
        }
        break;
      }
    }
  }
}
