/** Ordered iteration over a column family: its keys, each once, in ascending byte order. */
module Scans {
  import opened Bytes

  predicate Ascending(s: seq<seq<byte>>) {
    forall i, j :: 0 <= i < j < |s| ==> Less(s[i], s[j])
  }

  predicate IsLeast(m: seq<byte>, keys: set<seq<byte>>) {
    m in keys && forall k :: k in keys ==> k == m || Less(m, k)
  }

  lemma {:induction false} LeastExists(keys: set<seq<byte>>)
    requires keys != {}
    ensures exists m :: IsLeast(m, keys)
  {
    var x :| x in keys;
    var rest := keys - {x};
    if rest == {} {
      assert keys == {x};
      assert IsLeast(x, keys);
    } else {
      LeastExists(rest);
      var m :| IsLeast(m, rest);
      LessTotal(m, x);
      var least := if Less(x, m) then x else m;
      forall k | k in keys
        ensures k == least || Less(least, k)
      {
        if k in rest && least == x && k != m { LessTransitive(x, m, k); }
      }
      assert IsLeast(least, keys);
    }
  }

  lemma LeastUnique(keys: set<seq<byte>>)
    ensures forall a, b :: IsLeast(a, keys) && IsLeast(b, keys) ==> a == b
  {
    forall a, b | IsLeast(a, keys) && IsLeast(b, keys) ensures a == b {
      if a != b { LessAsymmetric(a, b); }
    }
  }

  /** All keys in iteration order. */
  function Scan(keys: set<seq<byte>>): (r: seq<seq<byte>>)
    ensures Ascending(r)
    ensures forall k :: k in r <==> k in keys
  {
    if keys == {} then [] else
      LeastExists(keys);
      LeastUnique(keys);
      var m :| IsLeast(m, keys);
      var rest := Scan(keys - {m});
      [m] + rest
  }

  /** An iterator opened at `from` that stays within `prefix`. */
  function RangeScan(keys: set<seq<byte>>, prefix: seq<byte>, from: seq<byte>): (r: seq<seq<byte>>)
    ensures Ascending(r)
    ensures forall k :: k in r <==> k in keys && prefix <= k && !Less(k, from)
  {
    Scan(set k | k in keys && prefix <= k && !Less(k, from))
  }

  lemma HeadIsLeast(s: seq<seq<byte>>, x: seq<byte>)
    requires Ascending(s) && x in s
    ensures x == s[0] || Less(s[0], x)
  {
  }

  lemma HasMember(s: seq<seq<byte>>)
    ensures s == [] || exists k :: k in s
  {
    if s != [] { assert s[0] in s; }
  }

  /** A set of keys has exactly one ascending enumeration. */
  lemma {:induction false} AscendingUnique(s: seq<seq<byte>>, t: seq<seq<byte>>)
    requires Ascending(s) && Ascending(t)
    requires forall k :: k in s <==> k in t
    ensures s == t
  {
    HasMember(t);
    if s != [] {
      assert s[0] in t && t != [];
      assert t[0] in s;
      HeadIsLeast(s, t[0]);
      HeadIsLeast(t, s[0]);
      if s[0] != t[0] { LessAsymmetric(s[0], t[0]); }
      forall k ensures k in s[1..] <==> k in t[1..] {
        TailMembers(s, k);
        TailMembers(t, k);
      }
      AscendingUnique(s[1..], t[1..]);
      assert s == [s[0]] + s[1..] && t == [t[0]] + t[1..];
    }
  }

  lemma TailMembers(s: seq<seq<byte>>, k: seq<byte>)
    requires Ascending(s) && s != []
    ensures k in s[1..] <==> k in s && k != s[0]
  {
    LessIrreflexive(s[0]);
    assert s == [s[0]] + s[1..];
  }
}
