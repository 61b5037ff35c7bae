/**
 * The query primitives the routers use on a table, which is a sequence of rows:
 *   - `findFirst({ where })` is FindFirst: the first row, in table order, that satisfies the filter;
 *   - `findMany({ where })` is Filter: every row that satisfies it, in table order;
 *   - `update(...).set(...).where(...)` rewrites every matching row and `delete(...).where(...)`
 *     drops every matching row (written out where they are used);
 *   - an `insert` gives the new row the SQLite rowid rule: one more than the largest id of the table,
 *     or 1 when the table is empty (NextId).
 */
module Query {

  datatype Option<+T> = None | Some(value: T)

  /** First row of `s` satisfying `p`, as drizzle's `findFirst` returns it. */
  function FindFirst<T>(s: seq<T>, p: T -> bool): (r: Option<T>)
    ensures r.None? <==> forall i :: 0 <= i < |s| ==> !p(s[i])
    ensures r.Some? ==> r.value in s && p(r.value)
    ensures r.Some? ==> exists i :: 0 <= i < |s| && s[i] == r.value && forall j :: 0 <= j < i ==> !p(s[j])
  {
    if s == [] then None
    else if p(s[0]) then Some(s[0])
    else
      var r := FindFirst(s[1..], p);
      assert r.Some? ==> exists i :: 1 <= i < |s| && s[i] == r.value && forall j :: 0 <= j < i ==> !p(s[j]) by {
        if r.Some? {
          var i :| 0 <= i < |s[1..]| && s[1..][i] == r.value && forall j :: 0 <= j < i ==> !p(s[1..][j]);
          assert s[i + 1] == r.value;
          assert forall j :: 0 <= j < i + 1 ==> !p(s[j]) by {
            forall j | 0 <= j < i + 1 ensures !p(s[j]) {
              if j > 0 { assert s[j] == s[1..][j - 1]; }
            }
          }
        }
      }
      r
  }

  /** `x` is the first row of `s`, in table order, that satisfies `p`. */
  ghost predicate IsFirst<T>(s: seq<T>, p: T -> bool, x: T) {
    exists i :: 0 <= i < |s| && s[i] == x && p(x) && forall j :: 0 <= j < i ==> !p(s[j])
  }

  /** `findFirst` returns exactly the first matching row. */
  lemma FindFirstIsFirst<T>(s: seq<T>, p: T -> bool, x: T)
    ensures FindFirst(s, p) == Some(x) <==> IsFirst(s, p, x)
  {
    if IsFirst(s, p, x) {
      var i :| 0 <= i < |s| && s[i] == x && p(x) && forall j :: 0 <= j < i ==> !p(s[j]);
      var r := FindFirst(s, p);
      assert p(s[i]);
      var k :| 0 <= k < |s| && s[k] == r.value && forall j :: 0 <= j < k ==> !p(s[j]);
      assert p(s[k]);
      assert k == i;
    }
  }

  /** The same, for every row at once. */
  lemma FindFirstExactly<T>(s: seq<T>, p: T -> bool)
    ensures forall x :: FindFirst(s, p) == Some(x) <==> IsFirst(s, p, x)
  {
    forall x ensures FindFirst(s, p) == Some(x) <==> IsFirst(s, p, x) {
      FindFirstIsFirst(s, p, x);
    }
  }

  /** Every row of `s` satisfying `p`, in table order, as drizzle's `findMany` returns them. */
  function Filter<T>(s: seq<T>, p: T -> bool): (r: seq<T>)
    ensures |r| <= |s|
    ensures forall i :: 0 <= i < |r| ==> r[i] in s && p(r[i])
    ensures forall i :: 0 <= i < |s| && p(s[i]) ==> s[i] in r
  {
    if s == [] then []
    else if p(s[0]) then [s[0]] + Filter(s[1..], p)
    else Filter(s[1..], p)
  }

  /** Filtering a table that grew by one row yields the old answer, followed by that row if it matches. */
  lemma {:induction false} FilterSnoc<T>(s: seq<T>, x: T, p: T -> bool)
    ensures Filter(s + [x], p) == if p(x) then Filter(s, p) + [x] else Filter(s, p)
  {
    if s == [] {
      assert [x][1..] == [];
    } else {
      var t := s + [x];
      assert t[0] == s[0] && t[1..] == s[1..] + [x];
      FilterSnoc(s[1..], x, p);
      if p(s[0]) {
        assert Filter(t, p) == [s[0]] + Filter(s[1..] + [x], p);
        assert Filter(s, p) == [s[0]] + Filter(s[1..], p);
      } else {
        assert Filter(t, p) == Filter(s[1..] + [x], p);
        assert Filter(s, p) == Filter(s[1..], p);
      }
    }
  }

  /** A filter that keeps every row returns the table itself (order included). */
  lemma {:induction false} FilterAll<T>(s: seq<T>, p: T -> bool)
    requires forall i :: 0 <= i < |s| ==> p(s[i])
    ensures Filter(s, p) == s
  {
    if s != [] {
      FilterAll(s[1..], p);
    }
  }

  /** Largest key of a non-empty table. */
  function MaxKey<T>(s: seq<T>, key: T -> int): (m: int)
    requires s != []
    ensures forall i :: 0 <= i < |s| ==> key(s[i]) <= m
    ensures exists i :: 0 <= i < |s| && key(s[i]) == m
  {
    if |s| == 1 then key(s[0])
    else
      var m := MaxKey(s[1..], key);
      assert forall i :: 1 <= i < |s| ==> key(s[i]) <= m by {
        forall i | 1 <= i < |s| ensures key(s[i]) <= m { assert s[i] == s[1..][i - 1]; }
      }
      if key(s[0]) > m then key(s[0]) else m
  }

  /** The id SQLite gives a row inserted without one: max id + 1, or 1 for an empty table. */
  function NextId<T>(s: seq<T>, key: T -> int): (id: int)
    ensures forall i :: 0 <= i < |s| ==> key(s[i]) < id
    ensures s == [] ==> id == 1
    ensures s != [] ==> exists i :: 0 <= i < |s| && key(s[i]) == id - 1
  {
    if s == [] then 1 else MaxKey(s, key) + 1
  }

  /** No two rows of `s` share a key (a primary key, or a column the application keeps unique). */
  ghost predicate UniqueKeys<T>(s: seq<T>, key: T -> int) {
    forall i, j :: 0 <= i < j < |s| ==> key(s[i]) != key(s[j])
  }

  /** Appending a row whose key no row has keeps the keys unique. */
  lemma AppendFreshKey<T>(s: seq<T>, x: T, key: T -> int)
    requires UniqueKeys(s, key)
    requires forall i :: 0 <= i < |s| ==> key(s[i]) != key(x)
    ensures UniqueKeys(s + [x], key)
  {
    forall i, j | 0 <= i < j < |s + [x]| ensures key((s + [x])[i]) != key((s + [x])[j]) {
      if j == |s| {
        assert (s + [x])[i] == s[i];
      } else {
        assert (s + [x])[i] == s[i] && (s + [x])[j] == s[j];
      }
    }
  }

  /** The rows after the first keep unique keys, none of them the first row's. */
  lemma UniqueTail<T>(s: seq<T>, key: T -> int)
    requires UniqueKeys(s, key) && s != []
    ensures UniqueKeys(s[1..], key)
    ensures forall k :: 0 <= k < |s[1..]| ==> key(s[1..][k]) != key(s[0])
  {
    var tail := s[1..];
    forall i, j | 0 <= i < j < |tail| ensures key(tail[i]) != key(tail[j]) {
      assert tail[i] == s[i + 1] && tail[j] == s[j + 1];
    }
    forall k | 0 <= k < |tail| ensures key(tail[k]) != key(s[0]) {
      assert tail[k] == s[k + 1];
    }
  }

  /** Putting a row whose key no row has in front keeps the keys unique. */
  lemma PrependFreshKey<T>(x: T, s: seq<T>, key: T -> int)
    requires UniqueKeys(s, key)
    requires forall i :: 0 <= i < |s| ==> key(s[i]) != key(x)
    ensures UniqueKeys([x] + s, key)
  {
    var r := [x] + s;
    forall i, j | 0 <= i < j < |r| ensures key(r[i]) != key(r[j]) {
      assert r[j] == s[j - 1];
      if i > 0 {
        assert r[i] == s[i - 1];
      }
    }
  }

  /** Deleting rows keeps the keys unique. */
  lemma {:induction false} FilterKeepsUnique<T>(s: seq<T>, p: T -> bool, key: T -> int)
    requires UniqueKeys(s, key)
    ensures UniqueKeys(Filter(s, p), key)
  {
    if s != [] {
      var tail := s[1..];
      UniqueTail(s, key);
      FilterKeepsUnique(tail, p, key);
      if p(s[0]) {
        var f := Filter(tail, p);
        assert Filter(s, p) == [s[0]] + f;
        forall i | 0 <= i < |f| ensures key(f[i]) != key(s[0]) {
          var k :| 0 <= k < |tail| && tail[k] == f[i];
        }
        PrependFreshKey(s[0], f, key);
      }
    }
  }

  /** Under unique keys, the row a key lookup finds is the one row with that key. */
  lemma UniqueKeyLookup<T>(s: seq<T>, key: T -> int, x: T, y: T)
    requires UniqueKeys(s, key)
    requires x in s && y in s && key(x) == key(y)
    ensures x == y
  {
    var i :| 0 <= i < |s| && s[i] == x;
    var j :| 0 <= j < |s| && s[j] == y;
    assert key(s[i]) == key(s[j]);
  }
}
