/** The hot priority backlog with lazy deletion. */
module Backlog {
  import opened Options
  import opened CircularFilters

  datatype Order<Id, Body> = Order(id: Id, weight: real, body: Body)

  datatype Backlogged<Id, Body> = Backlogged(queue: map<Id, real>, store: map<Id, Order<Id, Body>>, capacity: nat)

  /** Capacity is conserved, and every stored order is queued at its own weight; the queue may hold more. */
  ghost predicate Consistent<Id(!new), Body>(s: Backlogged<Id, Body>, total: nat) {
    && s.capacity + |s.store| == total
    && forall id :: id in s.store ==> s.store[id].id == id && id in s.queue && s.queue[id] == s.store[id].weight
  }

  function Put<Id, Body>(s: Backlogged<Id, Body>, evicted: set<Id>, o: Order<Id, Body>): Backlogged<Id, Body> {
    if s.capacity > 0 && o.id !in s.store && o.id !in evicted then
      Backlogged(s.queue[o.id := o.weight], s.store[o.id := o], s.capacity - 1)
    else s
  }

  function Removed<Id, Body>(s: Backlogged<Id, Body>, id: Id): Backlogged<Id, Body> {
    if id in s.store then s.(store := s.store - {id}, capacity := s.capacity + 1) else s
  }

  /** A pop takes a heaviest stored order, or nothing when nothing is stored; on the way it may drop stale queue
      entries, never the entry of an order that stays stored. */
  ghost predicate Pops<Id(!new), Body>(s: Backlogged<Id, Body>, r: Option<Order<Id, Body>>, s': Backlogged<Id, Body>) {
    && (r.None? <==> s.store == map[])
    && (r.None? ==> s' == s.(queue := map[]))
    && (r.Some? ==>
          && r.value.id in s.store && s.store[r.value.id] == r.value
          && (forall id :: id in s.store ==> s.store[id].weight <= r.value.weight)
          && s'.store == s.store - {r.value.id} && s'.capacity == s.capacity + 1)
    && (forall id :: id in s'.queue ==> id in s.queue && s'.queue[id] == s.queue[id])
    && (forall id :: id in s'.store ==> id in s'.queue)
  }

  lemma DropOne<Id, Body>(m: map<Id, Body>, k: Id)
    requires k in m
    ensures |m - {k}| == |m| - 1
  {
    assert (m - {k}).Keys == m.Keys - {k};
  }

  lemma PutConsistent<Id(!new), Body>(s: Backlogged<Id, Body>, total: nat, evicted: set<Id>, o: Order<Id, Body>)
    requires Consistent(s, total)
    ensures Consistent(Put(s, evicted, o), total)
  {
    if o.id !in s.store { assert s.store[o.id := o].Keys == s.store.Keys + {o.id}; }
  }

  /** An order that fits, is not stored and was not soft-evicted is admitted: put into an empty backlog, it is what
      the next pop hands out, stale queue entries notwithstanding. */
  lemma PutIsPopped<Id(!new), Body>(s: Backlogged<Id, Body>, total: nat, evicted: set<Id>, o: Order<Id, Body>,
                                    r: Option<Order<Id, Body>>, s': Backlogged<Id, Body>)
    requires Consistent(s, total) && s.store == map[] && s.capacity > 0 && o.id !in evicted
    requires Pops(Put(s, evicted, o), r, s')
    ensures r == Some(o) && s'.store == map[] && s'.capacity == s.capacity
  {
    assert o.id in Put(s, evicted, o).store;
    assert Put(s, evicted, o).store - {o.id} == map[];
  }

  /** Otherwise the put changes nothing; and it never touches another order. */
  lemma PutAdmits<Id(!new), Body>(s: Backlogged<Id, Body>, evicted: set<Id>, o: Order<Id, Body>, id: Id)
    ensures s.capacity == 0 || o.id in s.store || o.id in evicted ==> Put(s, evicted, o) == s
    ensures s.capacity > 0 && o.id !in s.store && o.id !in evicted ==>
              Put(s, evicted, o).store == s.store[o.id := o] && Put(s, evicted, o).capacity == s.capacity - 1
    ensures id != o.id ==> (id in Put(s, evicted, o).queue <==> id in s.queue)
  {
  }

  /** Removing an order takes back exactly what admitting it did to store and capacity. */
  lemma RemovedUndoesPut<Id, Body>(s: Backlogged<Id, Body>, evicted: set<Id>, o: Order<Id, Body>)
    requires s.capacity > 0 && o.id !in s.store && o.id !in evicted
    ensures Removed(Put(s, evicted, o), o.id).store == s.store
    ensures Removed(Put(s, evicted, o), o.id).capacity == s.capacity
  {
    assert Put(s, evicted, o).store - {o.id} == s.store;
  }

  lemma RemovedConsistent<Id(!new), Body>(s: Backlogged<Id, Body>, total: nat, id: Id)
    requires Consistent(s, total)
    ensures Consistent(Removed(s, id), total)
  {
    if id in s.store { DropOne(s.store, id); }
  }

  lemma PopsConsistent<Id(!new), Body>(s: Backlogged<Id, Body>, total: nat, r: Option<Order<Id, Body>>,
                                       s': Backlogged<Id, Body>)
    requires Consistent(s, total) && Pops(s, r, s')
    ensures Consistent(s', total)
  {
    if r.Some? { DropOne(s.store, r.value.id); }
  }

  /** Every run of pops from a consistent backlog hands out distinct orders by non-increasing weight. */
  lemma {:induction false} DrainSorted<Id(!new), Body>(
      states: seq<Backlogged<Id, Body>>, popped: seq<Order<Id, Body>>, total: nat, i: nat, j: nat)
    requires |states| == |popped| + 1 && Consistent(states[0], total)
    requires forall k :: 0 <= k < |popped| ==> Pops(states[k], Some(popped[k]), states[k + 1])
    requires i < j < |popped|
    ensures popped[j].weight <= popped[i].weight && popped[i].id != popped[j].id
    ensures popped[j].id in states[i].store && states[i].store[popped[j].id] == popped[j]
  {
    StoredBefore(states, popped, i + 1, j);
    assert Pops(states[i], Some(popped[i]), states[i + 1]);
  }

  lemma {:induction false} StoredBefore<Id(!new), Body>(
      states: seq<Backlogged<Id, Body>>, popped: seq<Order<Id, Body>>, i: nat, j: nat)
    requires |states| == |popped| + 1 && i <= j < |popped|
    requires forall k :: 0 <= k < |popped| ==> Pops(states[k], Some(popped[k]), states[k + 1])
    ensures popped[j].id in states[i].store && states[i].store[popped[j].id] == popped[j]
    decreases j - i
  {
    assert Pops(states[i], Some(popped[i]), states[i + 1]);
    if i < j { StoredBefore(states, popped, i + 1, j); }
  }

  lemma {:induction false} HeaviestExists<Id(!new)>(queue: map<Id, real>)
    requires queue != map[]
    ensures exists id :: id in queue && forall k :: k in queue ==> queue[k] <= queue[id]
    decreases |queue|
  {
    assert queue.Keys != {};
    var x :| x in queue;
    var rest := queue - {x};
    DropOne(queue, x);
    if rest != map[] {
      HeaviestExists(rest);
      var m :| m in rest && forall k :: k in rest ==> rest[k] <= rest[m];
      var top := if queue[m] < queue[x] then x else m;
      assert forall k :: k in queue ==> k == x || k in rest;
      assert forall k :: k in queue ==> queue[k] <= queue[top];
    } else {
      assert forall k :: k in queue ==> k == x || k in rest;
    }
  }

  class HotPriorityBacklog<Id(==,!new), Body> {
    var queue: map<Id, real>
    var store: map<Id, Order<Id, Body>>
    const softEvictedOrders: CircularFilter<Id>
    var capacity: nat
    ghost const total: nat

    function View(): Backlogged<Id, Body>
      reads this
    {
      Backlogged(queue, store, capacity)
    }

    ghost predicate Valid()
      reads this, softEvictedOrders
    {
      Consistent(View(), total) && softEvictedOrders.n == 256 && Sound(softEvictedOrders.View(), 256)
    }

    constructor (capacity: nat)
      ensures Valid() && fresh(softEvictedOrders) && total == capacity && View() == Backlogged(map[], map[], capacity)
    {
      queue, store := map[], map[];
      softEvictedOrders := new CircularFilter(256);
      this.capacity, total := capacity, capacity;
    }

    method PutOrder(ord: Order<Id, Body>)
      requires Valid()
      modifies this
      ensures Valid() && View() == Put(old(View()), softEvictedOrders.filter, ord)
    {
      PutConsistent(View(), total, softEvictedOrders.filter, ord);
      if capacity > 0 && ord.id !in store && ord.id !in softEvictedOrders.filter {
        queue := queue[ord.id := ord.weight];
        store := store[ord.id := ord];
        capacity := capacity - 1;
      }
    }

    /** Pop queue entries, heaviest first, until one of them is still stored. */
    method TryPop() returns (r: Option<Order<Id, Body>>)
      requires Valid()
      modifies this
      ensures Valid() && Pops(old(View()), r, View())
    {
      while queue != map[]
        invariant Consistent(View(), total) && store == old(store) && capacity == old(capacity)
        invariant forall id :: id in queue ==> id in old(queue) && queue[id] == old(queue)[id]
        decreases |queue|
      {
        HeaviestExists(queue);
        var oid :| oid in queue && forall k :: k in queue ==> queue[k] <= queue[oid];
        DropOne(queue, oid);
        queue := queue - {oid};
        if oid in store {
          r := Some(store[oid]);
          store := store - {oid};
          capacity := capacity + 1;
          PopsConsistent(old(View()), total, r, View());
          return;
        }
      }
      r := None;
      assert forall id :: id in store ==> id in queue;
    }

    method Exists(id: Id) returns (b: bool)
      ensures b == (id in store)
    {
      b := id in store;
    }

    method Remove(id: Id)
      requires Valid()
      modifies this, softEvictedOrders
      ensures Valid() && View() == Removed(old(View()), id)
      ensures softEvictedOrders.View() == State(old(softEvictedOrders.buffer), old(softEvictedOrders.filter) - {id})
    {
      RemovedConsistent(View(), total, id);
      var _ := softEvictedOrders.Remove(id);
      if id in store {
        store := store - {id};
        capacity := capacity + 1;
      }
    }

    method SoftEvict(id: Id)
      requires Valid()
      modifies softEvictedOrders
      ensures Valid() && View() == old(View())
      ensures softEvictedOrders.View() == Added(old(softEvictedOrders.View()), 256, id)
    {
      var _ := softEvictedOrders.Add(id);
    }
  }
}
