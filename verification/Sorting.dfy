/**
 The keys of a map in order. The code ranges over a map, in whatever order Go
 gives, and sorts; the result depends on the set of keys alone.
 */
module Sorting {
  import opened Bytes

  predicate Before(a: bytes, b: bytes) { Leq(a, b) && a != b }

  predicate StrictlySorted(s: seq<bytes>) {
    forall i, j | 0 <= i < j < |s| :: Before(s[i], s[j])
  }

  function Insert(x: bytes, s: seq<bytes>): seq<bytes> {
    if s == [] then [x]
    else if Leq(x, s[0]) then [x] + s
    else [s[0]] + Insert(x, s[1..])
  }

  /** sort.Slice by id: for distinct ids every sorting function gives this list. */
  function Sorted(s: seq<bytes>): seq<bytes> {
    if s == [] then [] else Insert(s[0], Sorted(s[1..]))
  }

  lemma {:induction false} InsertSorts(x: bytes, s: seq<bytes>)
    requires StrictlySorted(s) && x !in s
    ensures StrictlySorted(Insert(x, s)) && |Insert(x, s)| == |s| + 1
    ensures forall y :: y in Insert(x, s) <==> y == x || y in s
  {
    if s == [] {
    } else if Leq(x, s[0]) {
      forall k | 0 <= k < |s| ensures Before(x, s[k]) {
        if k > 0 { LeqTransitive(x, s[0], s[k]); }
      }
    } else {
      InsertSorts(x, s[1..]);
      LeqTotal(x, s[0]);
      var t := Insert(x, s[1..]);
      forall k | 0 <= k < |t| ensures Before(s[0], t[k]) {
        assert t[k] in t;
      }
    }
  }

  lemma {:induction false} SortedSorts(s: seq<bytes>)
    requires forall i, j | 0 <= i < j < |s| :: s[i] != s[j]
    ensures StrictlySorted(Sorted(s)) && |Sorted(s)| == |s|
    ensures forall y :: y in Sorted(s) <==> y in s
  {
    if s != [] {
      SortedSorts(s[1..]);
      InsertSorts(s[0], Sorted(s[1..]));
    }
  }

  lemma {:induction false} SortedUnique(s: seq<bytes>, t: seq<bytes>)
    requires StrictlySorted(s) && StrictlySorted(t) && forall y :: y in s <==> y in t
    ensures s == t
  {
    EmptyIff(s);
    EmptyIff(t);
    if s != [] {
      assert s[0] in t && t[0] in s;
      assert s[0] == t[0] by { FirstIsLeast(s, t[0]); FirstIsLeast(t, s[0]); LeqTotal(s[0], t[0]); }
      forall y ensures y in s[1..] <==> y in t[1..] {
        TailWithoutHead(s, y);
        TailWithoutHead(t, y);
      }
      SortedUnique(s[1..], t[1..]);
      assert s == [s[0]] + s[1..] && t == [t[0]] + t[1..];
    }
  }

  lemma EmptyIff(s: seq<bytes>)
    ensures s == [] <==> forall y :: y !in s
  {
    if s != [] { assert s[0] in s; }
  }

  lemma NoRepeatAfter(s: seq<bytes>, i: nat)
    requires StrictlySorted(s) && i < |s|
    ensures s[i] !in s[i + 1..]
  {
    var later := s[i + 1..];
    forall k | 0 <= k < |later| ensures later[k] != s[i] {
      assert later[k] == s[i + 1 + k] && Before(s[i], s[i + 1 + k]);
    }
  }

  lemma FirstIsLeast(s: seq<bytes>, y: bytes)
    requires StrictlySorted(s) && y in s
    ensures s != [] && Leq(s[0], y)
  {
    LeqTotal(y, y);
  }

  lemma TailWithoutHead(s: seq<bytes>, y: bytes)
    requires StrictlySorted(s) && s != []
    ensures y in s[1..] <==> y in s && y != s[0]
  {
    assert s == [s[0]] + s[1..];
    if y in s[1..] {
      var k :| 0 <= k < |s[1..]| && s[1..][k] == y;
      assert Before(s[0], s[k + 1]);
    }
  }

  /** The keys, collected in whatever order the map gives them, then sorted. */
  method SortKeys(keys: set<bytes>) returns (ids: seq<bytes>)
    ensures StrictlySorted(ids) && forall id :: id in ids <==> id in keys
  {
    hide *;
    ids := [];
    var rest := keys;
    while rest != {}
      invariant rest <= keys
      invariant forall id :: id in ids <==> id in keys - rest
      invariant forall i, j | 0 <= i < j < |ids| :: ids[i] != ids[j]
      decreases |rest|
    {
      var id :| id in rest;
      assert id !in ids && forall y :: y in ids + [id] <==> y in ids || y == id;
      ids := ids + [id];
      rest := rest - {id};
    }
    SortedSorts(ids);
    ids := Sorted(ids);
  }
}
