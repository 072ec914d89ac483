/** What `ORDER BY` means for rows whose sort keys are distinct. */
module Sorting {
  import opened Ids

  ghost predicate DistinctKeys(keys: map<Uuid, int>) {
    forall a, b :: a in keys && b in keys && keys[a] == keys[b] ==> a == b
  }

  ghost predicate StrictlyAscending(keys: map<Uuid, int>, s: seq<Uuid>) {
    && (forall i :: 0 <= i < |s| ==> s[i] in keys)
    && (forall i, j :: 0 <= i < j < |s| ==> keys[s[i]] < keys[s[j]])
  }

  ghost predicate SameElements(s: seq<Uuid>, ids: set<Uuid>) {
    forall x :: x in s <==> x in ids
  }

  lemma LeastExists(keys: map<Uuid, int>, ids: set<Uuid>)
    requires ids != {} && ids <= keys.Keys
    ensures exists x :: x in ids && forall y :: y in ids ==> keys[x] <= keys[y]
  {
    var x :| x in ids;
    if ids != {x} {
      var rest := ids - {x};
      LeastExists(keys, rest);
      var m :| m in rest && forall y :: y in rest ==> keys[m] <= keys[y];
      var best := if keys[x] <= keys[m] then x else m;
      assert best in ids && forall y :: y in ids ==> keys[best] <= keys[y];
    } else {
      assert forall y :: y in ids ==> keys[x] <= keys[y];
    }
  }

  function Least(keys: map<Uuid, int>, ids: set<Uuid>): (x: Uuid)
    requires ids != {} && ids <= keys.Keys && DistinctKeys(keys)
    ensures x in ids && forall y :: y in ids ==> keys[x] <= keys[y]
  {
    LeastExists(keys, ids);
    var x :| x in ids && forall y | y in ids :: keys[x] <= keys[y];
    x
  }

  /** The ids in ascending key order. */
  function Ascending(keys: map<Uuid, int>, ids: set<Uuid>): (s: seq<Uuid>)
    requires ids <= keys.Keys && DistinctKeys(keys)
    ensures SameElements(s, ids) && StrictlyAscending(keys, s) && |s| == |ids|
    decreases |ids|
  {
    if ids == {} then []
    else
      var x := Least(keys, ids);
      [x] + Ascending(keys, ids - {x})
  }

  /** A listing splits into its least id and a listing of the others. */
  lemma HeadAndTail(keys: map<Uuid, int>, s: seq<Uuid>, ids: set<Uuid>)
    requires SameElements(s, ids) && StrictlyAscending(keys, s) && s != []
    ensures s[0] in ids && forall y :: y in ids ==> keys[s[0]] <= keys[y]
    ensures SameElements(s[1..], ids - {s[0]}) && StrictlyAscending(keys, s[1..])
  {
    assert s[0] in s;
    forall y | y in ids ensures keys[s[0]] <= keys[y] && (y in s[1..] <==> y != s[0]) {
      assert y in s;
      var j :| 0 <= j < |s| && s[j] == y;
      if j > 0 { assert s[1..][j - 1] == y; }
    }
    forall y | y in s[1..] ensures y in ids {
      assert y in s;
    }
  }

  lemma LeastIsUnique(keys: map<Uuid, int>, ids: set<Uuid>, x: Uuid)
    requires ids <= keys.Keys && DistinctKeys(keys)
    requires x in ids && forall y :: y in ids ==> keys[x] <= keys[y]
    ensures Least(keys, ids) == x
  {
    assert keys[Least(keys, ids)] == keys[x];
  }

  /** There is only one way to list a set in ascending order. */
  lemma {:induction false} AscendingIsUnique(keys: map<Uuid, int>, ids: set<Uuid>, s: seq<Uuid>)
    requires ids <= keys.Keys && DistinctKeys(keys)
    requires SameElements(s, ids) && StrictlyAscending(keys, s)
    ensures s == Ascending(keys, ids)
    decreases |s|
  {
    if s == [] {
      assert ids == {} by {
        assert forall x :: x in ids <==> x in s;
      }
    } else {
      HeadAndTail(keys, s, ids);
      LeastIsUnique(keys, ids, s[0]);
      AscendingIsUnique(keys, ids - {s[0]}, s[1..]);
      assert s == [s[0]] + s[1..];
    }
  }

  /** An ascending listing has no repeats: an id listed at `j` is in the first `k` iff `j < k`. */
  lemma PositionDecides(keys: map<Uuid, int>, s: seq<Uuid>, j: nat, k: nat)
    requires StrictlyAscending(keys, s) && j < |s| && k <= |s|
    ensures s[j] in s[..k] <==> j < k
    ensures s[j] in s[k..] <==> k <= j
  {
    if j < k {
      assert s[..k][j] == s[j];
    } else {
      assert s[k..][j - k] == s[j];
    }
  }

  /** Dropping the first `k` listed ids leaves exactly the rest of the listing. */
  lemma AscendingOfRest(keys: map<Uuid, int>, ids: set<Uuid>, k: nat, rest: set<Uuid>)
    requires ids <= keys.Keys && DistinctKeys(keys) && k <= |ids|
    requires forall x :: x in rest <==> x in ids && x !in Ascending(keys, ids)[..k]
    ensures rest <= keys.Keys
    ensures Ascending(keys, rest) == Ascending(keys, ids)[k..]
  {
    var all := Ascending(keys, ids);
    forall x ensures x in all[k..] <==> x in rest {
      if x in all {
        var j :| 0 <= j < |all| && all[j] == x;
        PositionDecides(keys, all, j, k);
      }
    }
    AscendingIsUnique(keys, rest, all[k..]);
  }

  /** In an ascending listing, larger key than the `k`-th id means listed after it. */
  lemma BeyondMeansAfter(keys: map<Uuid, int>, s: seq<Uuid>, k: nat, x: Uuid)
    requires StrictlyAscending(keys, s) && 0 < k <= |s| && x in s
    ensures keys[s[k - 1]] < keys[x] <==> x !in s[..k]
  {
    var j :| 0 <= j < |s| && s[j] == x;
    PositionDecides(keys, s, j, k);
  }

  /** The ids whose key lies beyond the `k`-th listed one are exactly those listed after it. */
  lemma AscendingBeyond(keys: map<Uuid, int>, ids: set<Uuid>, k: nat, beyond: set<Uuid>)
    requires ids <= keys.Keys && DistinctKeys(keys) && 0 < k <= |ids|
    requires forall x :: x in beyond <==> x in ids && keys[Ascending(keys, ids)[k - 1]] < keys[x]
    ensures beyond <= keys.Keys
    ensures Ascending(keys, beyond) == Ascending(keys, ids)[k..]
  {
    var all := Ascending(keys, ids);
    forall x | x in ids ensures x in beyond <==> x !in all[..k] {
      BeyondMeansAfter(keys, all, k, x);
    }
    AscendingOfRest(keys, ids, k, beyond);
  }
}
