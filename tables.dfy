/**
 * What a `select ... where ... offset ... limit` returns, over a table held as
 * a map from primary key to row: the rows in ascending key order, the rows a
 * WHERE clause keeps, and the OFFSET/LIMIT slice.
 */
module Tables {

  lemma NonEmptyHasElement(keys: set<int>)
    requires keys != {}
    ensures exists k :: k in keys
  {
    if forall k :: k !in keys {
      assert false;
    }
  }

  /** The least key of a non-empty key set. */
  ghost function MinKey(keys: set<int>): (k: int)
    requires keys != {}
    ensures k in keys
    ensures forall j :: j in keys ==> k <= j
    decreases keys
  {
    NonEmptyHasElement(keys);
    var x :| x in keys;
    var rest := keys - {x};
    assert forall j :: j in keys ==> j == x || j in rest;
    if rest == {} then x
    else
      var m := MinKey(rest);
      if x <= m then x else m
  }

  /** No two keys of the table hold the same row (true whenever a row carries its own key). */
  ghost predicate Injective<R>(m: map<int, R>) {
    forall a, b :: a in m && b in m && a != b ==> m[a] != m[b]
  }

  /** Every row of `small` is a row of `big`, under the same key. */
  ghost predicate Submap<R>(small: map<int, R>, big: map<int, R>) {
    forall k :: k in small ==> k in big && small[k] == big[k]
  }

  /** No element occurs twice. */
  ghost predicate Distinct<T>(s: seq<T>) {
    forall i, j :: 0 <= i < j < |s| ==> s[i] != s[j]
  }

  /** The rows of a table in ascending primary-key order (a scan without ORDER BY). */
  ghost function Rows<R(!new)>(m: map<int, R>): (r: seq<R>)
    ensures |r| == |m|
    ensures forall x :: x in r <==> x in m.Values
    ensures Injective(m) ==> Distinct(r)
    decreases m.Keys
  {
    if m.Keys == {} then []
    else
      var k := MinKey(m.Keys);
      var rest := m - {k};
      assert rest.Keys == m.Keys - {k};
      assert forall x :: x in m.Values <==> x == m[k] || x in rest.Values by {
        forall x | x in m.Values ensures x == m[k] || x in rest.Values {
          var j :| j in m && m[j] == x;
          if j != k { assert j in rest; }
        }
        forall x | x in rest.Values ensures x in m.Values {
          var j :| j in rest && rest[j] == x;
          assert j in m;
        }
      }
      var tail := Rows(rest);
      assert Injective(m) ==> Injective(rest) && m[k] !in tail by {
        if Injective(m) {
          assert forall j :: j in rest ==> rest[j] == m[j] && j != k;
        }
      }
      DistinctCons(m[k], tail);
      [m[k]] + tail
  }

  /** Putting an element that is not in a distinct sequence at its front keeps it distinct. */
  lemma DistinctCons<T>(x: T, s: seq<T>)
    ensures Distinct(s) && x !in s ==> Distinct([x] + s)
  {
    if Distinct(s) && x !in s {
      var r := [x] + s;
      forall i, j | 0 <= i < j < |r| ensures r[i] != r[j] {
        assert r[j] == s[j - 1];
        if i > 0 { assert r[i] == s[i - 1]; }
      }
    }
  }

  /** The elements of `s` that satisfy `p`, in their order in `s`. */
  function Filter<T(!new)>(s: seq<T>, p: T -> bool): (r: seq<T>)
    ensures |r| <= |s|
    ensures forall x :: x in r <==> x in s && p(x)
    ensures forall x :: multiset(r)[x] == if p(x) then multiset(s)[x] else 0
    ensures Distinct(s) ==> Distinct(r)
  {
    if s == [] then []
    else
      assert s == [s[0]] + s[1..];
      var tail := Filter(s[1..], p);
      if p(s[0]) then
        assert Distinct(s) ==> Distinct(s[1..]) && s[0] !in s[1..] by {
          if Distinct(s) {
            forall i, j | 0 <= i < j < |s[1..]| ensures s[1..][i] != s[1..][j] {
              assert s[1..][i] == s[i + 1] && s[1..][j] == s[j + 1];
            }
          }
        }
        DistinctCons(s[0], tail);
        [s[0]] + tail
      else
        assert Distinct(s) ==> Distinct(s[1..]) by {
          if Distinct(s) {
            forall i, j | 0 <= i < j < |s[1..]| ensures s[1..][i] != s[1..][j] {
              assert s[1..][i] == s[i + 1] && s[1..][j] == s[j + 1];
            }
          }
        }
        tail
  }

  /** A sequence without repeats has as many elements as the set of its elements. */
  lemma {:induction false} DistinctCardinality<T>(s: seq<T>)
    requires Distinct(s)
    ensures |(set x | x in s)| == |s|
  {
    if s != [] {
      var rest := s[1..];
      assert s == [s[0]] + rest;
      forall i, j | 0 <= i < j < |rest| ensures rest[i] != rest[j] {
        assert rest[i] == s[i + 1] && rest[j] == s[j + 1];
      }
      DistinctCardinality(rest);
      assert (set x | x in s) == (set x | x in rest) + {s[0]};
    }
  }

  /** A sequence without repeats that lists exactly the elements of `S` is as long as `S` is large. */
  lemma DistinctListsSet<T>(s: seq<T>, S: set<T>)
    requires Distinct(s)
    requires forall x :: x in s <==> x in S
    ensures |s| == |S|
  {
    DistinctCardinality(s);
    assert (set x | x in s) == S;
  }

  /** The window `OFFSET offset LIMIT limit` of `s`. */
  function Page<T>(s: seq<T>, offset: nat, limit: nat): (r: seq<T>)
    ensures |r| <= limit
    ensures |r| == if offset >= |s| then 0 else if |s| - offset < limit then |s| - offset else limit
    ensures forall i :: 0 <= i < |r| ==> r[i] == s[offset + i]
    ensures forall x :: x in r ==> x in s
  {
    if offset >= |s| then []
    else if |s| - offset < limit then s[offset..]
    else s[offset..offset + limit]
  }

  /** A first page at least as long as the rows holds them all. */
  lemma FirstPageHoldsAll<T>(s: seq<T>, limit: nat)
    requires |s| <= limit
    ensures Page(s, 0, limit) == s
  {
    assert Page(s, 0, limit) == s[0..];
  }

  /** Two adjacent windows together are the window that spans both. */
  lemma PagesAdjacent<T>(s: seq<T>, offset: nat, a: nat, b: nat)
    ensures Page(s, offset, a) + Page(s, offset + a, b) == Page(s, offset, a + b)
  {
    var lhs := Page(s, offset, a) + Page(s, offset + a, b);
    var rhs := Page(s, offset, a + b);
    assert |lhs| == |rhs|;
    forall i | 0 <= i < |lhs| ensures lhs[i] == rhs[i] {
      if i < |Page(s, offset, a)| {
        assert lhs[i] == s[offset + i];
      } else {
        assert lhs[i] == Page(s, offset + a, b)[i - |Page(s, offset, a)|];
      }
    }
  }

  /** The concatenation of the pages of size `limit` from `offset` on, as a client fetches them in turn. */
  function AllPages<T>(s: seq<T>, offset: nat, limit: nat): seq<T>
    requires limit > 0
    decreases |s| - offset
  {
    if offset >= |s| then [] else Page(s, offset, limit) + AllPages(s, offset + limit, limit)
  }

  /** Fetching page after page returns every row from `offset` on, each once and in order. */
  lemma {:induction false} AllPagesCoverTail<T>(s: seq<T>, offset: nat, limit: nat)
    requires limit > 0 && offset <= |s|
    ensures AllPages(s, offset, limit) == s[offset..]
    decreases |s| - offset
  {
    if offset < |s| {
      if |s| - offset < limit {
        assert AllPages(s, offset + limit, limit) == [];
        assert Page(s, offset, limit) == s[offset..];
      } else {
        AllPagesCoverTail(s, offset + limit, limit);
        SliceSplit(s, offset, offset + limit);
      }
    }
  }

  /** A tail of `s` is its first `j - i` rows from `i` followed by the tail from `j`. */
  lemma SliceSplit<T>(s: seq<T>, i: nat, j: nat)
    requires i <= j <= |s|
    ensures s[i..] == s[i..j] + s[j..]
  {
  }
}
