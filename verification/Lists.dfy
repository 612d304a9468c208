/** Concatenating lists of lists. */
module Lists {
  function Flat<T>(lists: seq<seq<T>>): seq<T> {
    if lists == [] then [] else lists[0] + Flat(lists[1..])
  }

  lemma ConcatLast<T>(a: seq<T>, b: seq<T>)
    requires b != []
    ensures (a + b)[..|a + b| - 1] == a + b[..|b| - 1] && (a + b)[|a + b| - 1] == b[|b| - 1]
  {
  }

  lemma ConcatFirst<T>(a: seq<T>, b: seq<T>)
    requires a != []
    ensures (a + b)[1..] == a[1..] + b && (a + b)[0] == a[0]
  {
  }

  lemma ConcatPrefix<T>(a: seq<T>, b: seq<T>, i: nat)
    requires i < |b|
    ensures (a + b)[..|a| + i] == a + b[..i] && (a + b)[|a| + i] == b[i]
  {
  }

  lemma ConcatDrop<T>(a: seq<T>, b: seq<T>, i: nat)
    requires i <= |a|
    ensures (a + b)[i..] == a[i..] + b
  {
  }

  lemma Regroup<T>(a: seq<T>, b: seq<T>, c: seq<T>)
    ensures (a + b) + c == a + (b + c)
  {
  }

  lemma {:induction false} FlatSplit<T>(a: seq<seq<T>>, b: seq<seq<T>>)
    ensures Flat(a + b) == Flat(a) + Flat(b)
  {
    if a == [] {
      assert a + b == b;
    } else {
      FlatSplit(a[1..], b);
      ConcatFirst(a, b);
      Regroup(a[0], Flat(a[1..]), Flat(b));
    }
  }

  lemma FlatOne<T>(x: seq<T>)
    ensures Flat([x]) == x
  {
    assert [x][1..] == [];
  }

  lemma FlatSnoc<T>(a: seq<seq<T>>, x: seq<T>)
    ensures Flat(a + [x]) == Flat(a) + x
  {
    FlatSplit(a, [x]);
    FlatOne(x);
  }

  lemma FlatPrefix<T>(lists: seq<seq<T>>, n: nat)
    requires n < |lists|
    ensures Flat(lists[..n + 1]) == Flat(lists[..n]) + lists[n]
  {
    FlatSnoc(lists[..n], lists[n]);
    assert lists[..n + 1] == lists[..n] + [lists[n]];
  }

  /** Where one of the lists ends up. */
  lemma {:induction false} FlatAt<T>(lists: seq<seq<T>>, i: nat) returns (start: nat)
    requires i < |lists|
    ensures start + |lists[i]| <= |Flat(lists)|
    ensures forall j :: 0 <= j < |lists[i]| ==> Flat(lists)[start + j] == lists[i][j]
  {
    if i == 0 {
      start := 0;
    } else {
      var s := FlatAt(lists[1..], i - 1);
      start := |lists[0]| + s;
    }
  }

  lemma {:induction false} FlatSingles<T>(lists: seq<seq<T>>, all: seq<T>)
    requires |lists| == |all| && forall i :: 0 <= i < |lists| ==> lists[i] == [all[i]]
    ensures Flat(lists) == all
  {
    if lists != [] { FlatSingles(lists[1..], all[1..]); }
  }
}
