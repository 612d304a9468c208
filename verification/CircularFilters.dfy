/** The circular filter behind the backlog's soft evictions. */
module CircularFilters {
  import opened Options

  datatype State<T(==)> = State(buffer: seq<T>, filter: set<T>)

  ghost predicate Sound<T(!new)>(s: State<T>, n: nat) {
    0 < n && |s.buffer| <= n && forall x :: x in s.filter ==> x in s.buffer
  }

  function Added<T(==)>(s: State<T>, n: nat, a: T): State<T> {
    if a in s.filter then s
    else if |s.buffer| < n || s.buffer == [] then State(s.buffer + [a], s.filter + {a})
    else State(s.buffer[1..] + [a], s.filter + {a} - {s.buffer[0]})
  }

  /** An added element is in the filter afterwards except in one case: it was removed earlier, its stale copy is
      at the front of a full buffer, and evicting that copy takes the new membership with it. */
  lemma AddedIsContainedIff<T>(s: State<T>, n: nat, a: T)
    requires 0 < n
    ensures a in Added(s, n, a).filter <==> a in s.filter || |s.buffer| < n || s.buffer[0] != a
  {
  }

  /** The case is reachable: fill a filter of two, remove the older element and add it again. */
  lemma ReaddedIsLost()
    ensures var full := Added(Added(State([], {}), 2, 1), 2, 2);
            1 !in Added(State(full.buffer, full.filter - {1}), 2, 1).filter
  {
    var full := Added(Added(State([], {}), 2, 1), 2, 2);
    assert full.buffer == [1, 2];
  }

  function AddedAll<T(==)>(s: State<T>, n: nat, xs: seq<T>): State<T> {
    if xs == [] then s else Added(AddedAll(s, n, xs[..|xs| - 1]), n, xs[|xs| - 1])
  }

  /** The last occurrence of an element is followed by at most `k` entries. */
  ghost predicate OnlyNear<T>(buffer: seq<T>, a: T, k: nat) {
    forall i :: 0 <= i < |buffer| && buffer[i] == a ==> |buffer| - 1 - i <= k
  }

  /** An element added when no copy of it is buffered survives any `n - 1` further additions. */
  lemma {:induction false} AddedSurvives<T>(s: State<T>, n: nat, a: T, xs: seq<T>)
    requires 0 < n && |s.buffer| <= n && a !in s.buffer && a !in s.filter && |xs| < n && a !in xs
    ensures var s' := AddedAll(Added(s, n, a), n, xs);
            a in s'.filter && |s'.buffer| <= n && OnlyNear(s'.buffer, a, |xs|)
  {
    var start := Added(s, n, a);
    assert start.buffer[|start.buffer| - 1] == a;
    if xs != [] {
      var most, x := xs[..|xs| - 1], xs[|xs| - 1];
      AddedSurvives(s, n, a, most);
      var before := AddedAll(start, n, most);
      if x !in before.filter && |before.buffer| == n {
        assert before.buffer[0] != a;
      }
    }
  }

  class CircularFilter<T(==,!new)> {
    var buffer: seq<T>
    var filter: set<T>
    const n: nat

    function View(): State<T>
      reads this
    {
      State(buffer, filter)
    }

    constructor (n: nat)
      requires 0 < n
      ensures View() == State([], {}) && this.n == n && Sound(View(), n)
    {
      buffer, filter := [], {};
      this.n := n;
    }

    /** Reports the element pushed out of a full buffer, if any. */
    method Add(a: T) returns (evicted: Option<T>)
      requires Sound(View(), n)
      modifies this
      ensures View() == Added(old(View()), n, a) && Sound(View(), n)
      ensures evicted == if a !in old(filter) && |old(buffer)| == n then Some(old(buffer)[0]) else None
    {
      evicted := None;
      if a !in filter {
        filter := filter + {a};
        if |buffer| < n {
          buffer := buffer + [a];
        } else {
          var front := buffer[0];
          assert buffer == [front] + buffer[1..];
          buffer := buffer[1..];
          filter := filter - {front};
          buffer := buffer + [a];
          evicted := Some(front);
        }
      }
    }

    method Remove(a: T) returns (present: bool)
      requires Sound(View(), n)
      modifies `filter
      ensures View() == State(old(buffer), old(filter) - {a}) && Sound(View(), n)
      ensures present == (a in old(filter))
    {
      present := a in filter;
      filter := filter - {a};
    }
  }
}
