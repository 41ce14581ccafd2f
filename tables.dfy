/**
 * Relational queries over a table held as a sequence of rows in insertion
 * order: a `where` filter, `limit(1)`, PostgREST's `.single()`, an
 * `update ... where`, and `order by` on an integer column.
 */
module Tables {
  import opened Wrappers

  /** `select ... where p`: the rows satisfying `p`, in table order, each as often as in the table. */
  function Filter<T(!new)>(s: seq<T>, p: T -> bool): (r: seq<T>)
    ensures |r| <= |s|
    ensures forall x :: multiset(r)[x] == if p(x) then multiset(s)[x] else 0
    ensures forall x :: x in r <==> x in s && p(x)
  {
    if s == [] then []
    else
      assert s == [s[0]] + s[1..];
      (if p(s[0]) then [s[0]] else []) + Filter(s[1..], p)
  }

  /** `select ... where p limit 1`, then `result[0]`: the first matching row, if any. */
  function First<T(!new)>(s: seq<T>, p: T -> bool): (r: Option<T>)
    ensures r.Some? ==> r.value in s && p(r.value)
    ensures r.None? <==> forall x :: x in s ==> !p(x)
    ensures r.Some? ==> exists i :: 0 <= i < |s| && s[i] == r.value && forall j :: 0 <= j < i ==> !p(s[j])
  {
    if s == [] then None
    else if p(s[0]) then Some(s[0])
    else
      var r := First(s[1..], p);
      assert r.Some? ==> exists i :: 0 <= i < |s| && s[i] == r.value && forall j :: 0 <= j < i ==> !p(s[j]) by {
        if r.Some? {
          var i :| 0 <= i < |s[1..]| && s[1..][i] == r.value && forall j :: 0 <= j < i ==> !p(s[1..][j]);
          assert s[i + 1] == r.value;
          assert forall j :: 0 <= j < i + 1 ==> !p(s[j]) by {
            forall j | 0 <= j < i + 1 ensures !p(s[j]) {
              if j > 0 { assert s[j] == s[1..][j - 1]; }
            }
          }
        }
      }
      r
  }

  /**
   * PostgREST's `.single()` on `select ... where p`: the row when exactly one
   * row matches, and an error (here `None`) when none or several do.
   */
  function Single<T(==,!new)>(s: seq<T>, p: T -> bool): (r: Option<T>)
    ensures r.Some? ==> r.value in s && p(r.value)
    ensures r.Some? ==> forall x :: x in s && p(x) ==> x == r.value
    ensures (forall x :: x in s ==> !p(x)) ==> r.None?
    ensures forall i :: OnlyMatch(s, p, i) ==> r == Some(s[i])
  {
    var m := Filter(s, p);
    SingleMatches(s, p, m);
    if |m| == 1 then Some(m[0]) else None
  }

  /** What `.single()` reads off the filtered rows `m`. */
  lemma SingleMatches<T(!new)>(s: seq<T>, p: T -> bool, m: seq<T>)
    requires m == Filter(s, p)
    ensures |m| == 1 ==> m[0] in s && p(m[0]) && forall x :: x in s && p(x) ==> x == m[0]
    ensures (forall x :: x in s ==> !p(x)) ==> |m| != 1
    ensures forall i :: OnlyMatch(s, p, i) ==> m == [s[i]]
  {
    forall i | OnlyMatch(s, p, i)
      ensures m == [s[i]]
    {
      FilterOnlyMatch(s, p, i);
    }
    if |m| == 1 {
      assert m[0] in m;
      forall x | x in s && p(x) ensures x == m[0] {
        assert x in m;
      }
    }
  }

  /** Row `i` is the one and only row of `s` satisfying `p`. */
  predicate OnlyMatch<T>(s: seq<T>, p: T -> bool, i: int) {
    0 <= i < |s| && p(s[i]) && forall j :: 0 <= j < |s| && p(s[j]) ==> j == i
  }

  /** Filtering a table in which no row matches yields nothing. */
  lemma {:induction false} FilterNone<T(!new)>(s: seq<T>, p: T -> bool)
    requires forall k :: 0 <= k < |s| ==> !p(s[k])
    ensures Filter(s, p) == []
  {
    if s != [] {
      FilterNone(s[1..], p);
    }
  }

  /** Filtering a table in which exactly one row matches yields that row alone. */
  lemma {:induction false} FilterOnlyMatch<T(!new)>(s: seq<T>, p: T -> bool, i: int)
    requires OnlyMatch(s, p, i)
    ensures Filter(s, p) == [s[i]]
  {
    var tail := s[1..];
    var h: seq<T> := if p(s[0]) then [s[0]] else [];
    assert Filter(s, p) == h + Filter(tail, p);
    if i == 0 {
      assert forall k :: 0 <= k < |tail| ==> !p(tail[k]) by {
        forall k | 0 <= k < |tail| ensures !p(tail[k]) {
          assert tail[k] == s[k + 1];
        }
      }
      FilterNone(tail, p);
    } else {
      assert !p(s[0]);
      assert OnlyMatch(tail, p, i - 1) by {
        forall j | 0 <= j < |tail| && p(tail[j]) ensures j == i - 1 {
          assert tail[j] == s[j + 1];
        }
      }
      FilterOnlyMatch(tail, p, i - 1);
      assert tail[i - 1] == s[i];
    }
  }

  /** A row appended to a table in which nothing else matches is what `.single()` then finds. */
  lemma {:induction false} SingleOfAppend<T(!new)>(s: seq<T>, x: T, p: T -> bool)
    requires forall y :: y in s ==> !p(y)
    requires p(x)
    ensures Single(s + [x], p) == Some(x)
  {
    var m := Filter(s + [x], p);
    assert x !in s;
    assert multiset(m) == multiset{x} by {
      forall y ensures multiset(m)[y] == multiset{x}[y] {
        if y != x && p(y) {
          assert y !in s;
          assert multiset(s + [x])[y] == multiset(s)[y] + multiset([x])[y];
        }
        if y == x {
          assert multiset(s + [x])[x] == multiset(s)[x] + multiset([x])[x];
        }
      }
    }
    assert |m| == |multiset(m)| == 1;
    assert m[0] in multiset(m);
  }

  /** No two rows share a primary key. */
  predicate KeysUnique<T, K(==)>(s: seq<T>, key: T -> K) {
    forall i, j :: 0 <= i < j < |s| ==> key(s[i]) != key(s[j])
  }

  /** The primary keys present in a table. */
  ghost function Keys<T, K>(s: seq<T>, key: T -> K): set<K> {
    set x | x in s :: key(x)
  }

  /** Whether some row has key `k`: the check an insert's key and reference constraints make. */
  predicate HasKey<T, K(==)>(s: seq<T>, key: T -> K, k: K)
    ensures HasKey(s, key, k) <==> k in Keys(s, key)
  {
    if exists i :: 0 <= i < |s| && key(s[i]) == k then
      true
    else
      assert forall x :: x in s ==> key(x) != k by {
        forall x | x in s ensures key(x) != k {
          var i :| 0 <= i < |s| && s[i] == x;
        }
      }
      false
  }

  /** A nullable reference is satisfied when it is null or names an existing key. */
  predicate RefFound<T, K(==)>(s: seq<T>, key: T -> K, ref: Option<K>)
    ensures RefFound(s, key, ref) <==> ref.None? || ref.value in Keys(s, key)
  {
    ref.None? || HasKey(s, key, ref.value)
  }

  /** Every non-null reference of a row names a key in `keys`. */
  ghost predicate RefsIn<T, K>(s: seq<T>, ref: T -> Option<K>, keys: set<K>) {
    forall x :: x in s && ref(x).Some? ==> ref(x).value in keys
  }

  /** Filtering a table keeps its keys unique. */
  lemma {:induction false} FilterKeysUnique<T(!new), K>(s: seq<T>, p: T -> bool, key: T -> K)
    requires KeysUnique(s, key)
    ensures KeysUnique(Filter(s, p), key)
  {
    if s != [] {
      var tail := s[1..];
      TailKeys(s, key);
      FilterKeysUnique(tail, p, key);
      var t := Filter(tail, p);
      var h: seq<T> := if p(s[0]) then [s[0]] else [];
      assert Filter(s, p) == h + t;
      PrependKeysUnique(h, t, key);
    }
  }

  /** Without its first row a table keeps unique keys, none of them the first row's key. */
  lemma TailKeys<T, K>(s: seq<T>, key: T -> K)
    requires s != [] && KeysUnique(s, key)
    ensures KeysUnique(s[1..], key)
    ensures forall x :: x in s[1..] ==> key(x) != key(s[0])
  {
    var tail := s[1..];
    forall i, j | 0 <= i < j < |tail| ensures key(tail[i]) != key(tail[j]) {
      assert tail[i] == s[i + 1] && tail[j] == s[j + 1];
    }
    forall x | x in tail ensures key(x) != key(s[0]) {
      var k :| 0 <= k < |tail| && tail[k] == x;
      assert s[k + 1] == x;
    }
  }

  /** A table of at most one row put before a table whose keys all differ from it keeps keys unique. */
  lemma PrependKeysUnique<T, K>(h: seq<T>, t: seq<T>, key: T -> K)
    requires |h| <= 1 && KeysUnique(t, key)
    requires forall x, y :: x in h && y in t ==> key(x) != key(y)
    ensures KeysUnique(h + t, key)
  {
    var u := h + t;
    forall i, j | 0 <= i < j < |u| ensures key(u[i]) != key(u[j]) {
      assert u[j] == t[j - |h|];
      if i < |h| {
        assert u[i] == h[0];
        assert t[j - |h|] in t;
      } else {
        assert u[i] == t[i - |h|];
      }
    }
  }

  /** Filtering a table can only drop keys. */
  lemma FilterKeys<T(!new), K>(s: seq<T>, p: T -> bool, key: T -> K)
    ensures Keys(Filter(s, p), key) <= Keys(s, key)
  {
    var r := Filter(s, p);
    forall k | k in Keys(r, key) ensures k in Keys(s, key) {
      var x :| x in r && key(x) == k;
      assert x in s;
    }
  }

  /** Appending a row with a fresh key keeps keys unique. */
  lemma AppendKeysUnique<T, K>(s: seq<T>, x: T, key: T -> K)
    requires KeysUnique(s, key) && key(x) !in Keys(s, key)
    ensures KeysUnique(s + [x], key)
    ensures Keys(s + [x], key) == Keys(s, key) + {key(x)}
  {
    forall i | 0 <= i < |s| ensures key(s[i]) != key(x) {
      assert s[i] in s;
    }
  }

  /** Rewriting rows without touching their keys keeps the keys and their uniqueness. */
  lemma MapWhereKeysUnique<T, K>(s: seq<T>, p: T -> bool, f: T -> T, key: T -> K)
    requires KeysUnique(s, key)
    requires forall x :: p(x) ==> key(f(x)) == key(x)
    ensures KeysUnique(MapWhere(s, p, f), key)
    ensures Keys(MapWhere(s, p, f), key) == Keys(s, key)
  {
    var r := MapWhere(s, p, f);
    assert forall i :: 0 <= i < |s| ==> key(r[i]) == key(s[i]);
    forall k | k in Keys(s, key) ensures k in Keys(r, key) {
      var x :| x in s && key(x) == k;
      var i :| 0 <= i < |s| && s[i] == x;
      assert r[i] in r;
    }
    forall k | k in Keys(r, key) ensures k in Keys(s, key) {
      var x :| x in r && key(x) == k;
      var i :| 0 <= i < |r| && r[i] == x;
      assert s[i] in s;
    }
  }

  /** In a table with unique keys, a query for one key finds the one row that has it. */
  lemma FirstByUniqueKey<T(!new), K>(s: seq<T>, key: T -> K, p: T -> bool, k: K, x: T)
    requires KeysUnique(s, key) && x in s && key(x) == k
    requires forall y :: p(y) <==> key(y) == k
    ensures First(s, p) == Some(x)
  {
    var r := First(s, p);
    var i :| 0 <= i < |s| && s[i] == r.value;
    var j :| 0 <= j < |s| && s[j] == x;
    if i < j {
      assert key(s[i]) != key(s[j]);
    } else if j < i {
      assert key(s[j]) != key(s[i]);
    }
  }

  /** `update ... set f where p`: every matching row is rewritten by `f`, every other row is kept. */
  function MapWhere<T>(s: seq<T>, p: T -> bool, f: T -> T): (r: seq<T>)
    ensures |r| == |s|
    ensures forall i :: 0 <= i < |s| ==> r[i] == if p(s[i]) then f(s[i]) else s[i]
  {
    seq(|s|, i requires 0 <= i < |s| => if p(s[i]) then f(s[i]) else s[i])
  }

  /** No matching row: an update changes nothing. */
  lemma {:induction false} MapWhereNoMatch<T(!new)>(s: seq<T>, p: T -> bool, f: T -> T)
    requires forall x :: x in s ==> !p(x)
    ensures MapWhere(s, p, f) == s
  {
    var r := MapWhere(s, p, f);
    assert forall i :: 0 <= i < |s| ==> r[i] == s[i] by {
      forall i | 0 <= i < |s| ensures r[i] == s[i] {
        assert s[i] in s;
      }
    }
  }

  /** An update that keeps rows matching finds, first, the updated first match. */
  lemma FirstOfMapWhere<T(!new)>(s: seq<T>, p: T -> bool, f: T -> T)
    requires forall x :: p(x) ==> p(f(x))
    ensures First(MapWhere(s, p, f), p) == if First(s, p).Some? then Some(f(First(s, p).value)) else None
  {
    var r := MapWhere(s, p, f);
    var a, b := First(s, p), First(r, p);
    if a.None? {
      forall y | y in r ensures !p(y) {
        var i :| 0 <= i < |r| && r[i] == y;
        assert s[i] in s;
      }
    } else {
      var i :| 0 <= i < |s| && s[i] == a.value && forall j :: 0 <= j < i ==> !p(s[j]);
      assert r[i] == f(s[i]);
      var k :| 0 <= k < |r| && r[k] == b.value && forall j :: 0 <= j < k ==> !p(r[j]);
      assert k == i;
    }
  }

  /** An update keeps a table's references valid when every row it rewrites refers to an existing key. */
  lemma MapWhereRefsIn<T, K>(s: seq<T>, p: T -> bool, f: T -> T, ref: T -> Option<K>, keys: set<K>)
    requires RefsIn(s, ref, keys)
    requires forall x :: x in s && p(x) && ref(f(x)).Some? ==> ref(f(x)).value in keys
    ensures RefsIn(MapWhere(s, p, f), ref, keys)
  {
    var r := MapWhere(s, p, f);
    forall y | y in r && ref(y).Some? ensures ref(y).value in keys {
      var i :| 0 <= i < |r| && r[i] == y;
      assert s[i] in s;
    }
  }

  /** An update whose new rows still match and are left as they are by a second application is idempotent. */
  lemma MapWhereIdempotent<T>(s: seq<T>, p: T -> bool, f: T -> T)
    requires forall x :: p(x) ==> p(f(x)) && f(f(x)) == f(x)
    ensures MapWhere(MapWhere(s, p, f), p, f) == MapWhere(s, p, f)
  {
    var once := MapWhere(s, p, f);
    var twice := MapWhere(once, p, f);
    forall i | 0 <= i < |s| ensures twice[i] == once[i] {
    }
  }

  /** Rows in non-decreasing order of `key`. */
  predicate SortedBy<T>(s: seq<T>, key: T -> int) {
    forall i, j :: 0 <= i < j < |s| ==> key(s[i]) <= key(s[j])
  }

  /** Inserts `x` before the first row with a larger or equal key. */
  function InsertBy<T>(x: T, s: seq<T>, key: T -> int): (r: seq<T>)
    requires SortedBy(s, key)
    ensures SortedBy(r, key)
    ensures multiset(r) == multiset(s) + multiset{x}
    ensures |r| == |s| + 1
  {
    if s == [] then [x]
    else if key(x) <= key(s[0]) then [x] + s
    else
      var rest := s[1..];
      var t := InsertBy(x, rest, key);
      assert s == [s[0]] + rest;
      assert forall k :: 0 <= k < |rest| ==> key(s[0]) <= key(rest[k]) by {
        forall k | 0 <= k < |rest| ensures key(s[0]) <= key(rest[k]) {
          assert rest[k] == s[k + 1];
        }
      }
      LowerBound(key(s[0]), t, rest, x, key);
      ConsSorted(s[0], t, key);
      [s[0]] + t
  }

  /** A bound below every row of `rest` and below `x` is below every row of a permutation of `rest + [x]`. */
  lemma LowerBound<T>(lo: int, t: seq<T>, rest: seq<T>, x: T, key: T -> int)
    requires multiset(t) == multiset(rest) + multiset{x}
    requires lo <= key(x)
    requires forall k :: 0 <= k < |rest| ==> lo <= key(rest[k])
    ensures forall j :: 0 <= j < |t| ==> lo <= key(t[j])
  {
    forall j | 0 <= j < |t| ensures lo <= key(t[j]) {
      var y := t[j];
      assert y in multiset(t);
      if y != x {
        assert y in multiset(rest);
        var k :| 0 <= k < |rest| && rest[k] == y;
      }
    }
  }

  /** A row whose key is at most every key of a sorted table stays sorted in front of it. */
  lemma ConsSorted<T>(h: T, t: seq<T>, key: T -> int)
    requires SortedBy(t, key)
    requires forall j :: 0 <= j < |t| ==> key(h) <= key(t[j])
    ensures SortedBy([h] + t, key)
  {
    var r := [h] + t;
    forall i, j | 0 <= i < j < |r| ensures key(r[i]) <= key(r[j]) {
      assert r[j] == t[j - 1];
      if i > 0 {
        assert r[i] == t[i - 1];
      }
    }
  }

  /** `order by key asc`: an insertion sort, stable for equal keys. */
  function SortBy<T>(s: seq<T>, key: T -> int): (r: seq<T>)
    ensures SortedBy(r, key)
    ensures multiset(r) == multiset(s)
    ensures |r| == |s|
  {
    if s == [] then []
    else
      assert s == [s[0]] + s[1..];
      InsertBy(s[0], SortBy(s[1..], key), key)
  }

  /** `order by key desc`. */
  function SortByDesc<T>(s: seq<T>, key: T -> int): (r: seq<T>)
    ensures forall i, j :: 0 <= i < j < |r| ==> key(r[i]) >= key(r[j])
    ensures multiset(r) == multiset(s)
  {
    var r := SortBy(s, x => -key(x));
    assert forall i, j :: 0 <= i < j < |r| ==> -key(r[i]) <= -key(r[j]);
    r
  }

  /**
   * `order by key desc` on a nullable column, as PostgreSQL does it: rows
   * with a null key first, then the others by decreasing key.
   */
  function SortByDescNullsFirst<T(!new)>(s: seq<T>, key: T -> Option<int>): (r: seq<T>)
    ensures multiset(r) == multiset(s)
    ensures forall i, j :: 0 <= i < j < |r| && key(r[j]).None? ==> key(r[i]).None?
    ensures forall i, j :: 0 <= i < j < |r| && key(r[i]).Some? && key(r[j]).Some? ==> key(r[i]).value >= key(r[j]).value
  {
    var nulls := Filter(s, x => key(x).None?);
    var keyed := Filter(s, x => key(x).Some?);
    var sorted := SortByDesc(keyed, x => key(x).GetOr(0));
    NullsFirstParts(s, key, nulls, keyed, sorted);
    nulls + sorted
  }

  /** The rows with a null key, then the others in decreasing key order, are a permutation of the table ordered as `order by key desc` orders it. */
  lemma NullsFirstParts<T>(s: seq<T>, key: T -> Option<int>, nulls: seq<T>, keyed: seq<T>, sorted: seq<T>)
    requires forall x :: multiset(nulls)[x] == if key(x).None? then multiset(s)[x] else 0
    requires forall x :: multiset(keyed)[x] == if key(x).Some? then multiset(s)[x] else 0
    requires multiset(sorted) == multiset(keyed)
    requires forall i, j :: 0 <= i < j < |sorted| ==> key(sorted[i]).GetOr(0) >= key(sorted[j]).GetOr(0)
    ensures multiset(nulls + sorted) == multiset(s)
    ensures var r := nulls + sorted;
            forall i, j :: 0 <= i < j < |r| && key(r[j]).None? ==> key(r[i]).None?
    ensures var r := nulls + sorted;
            forall i, j :: 0 <= i < j < |r| && key(r[i]).Some? && key(r[j]).Some? ==> key(r[i]).value >= key(r[j]).value
  {
    assert forall x :: x in nulls ==> key(x).None? by {
      forall x | x in nulls ensures key(x).None? {
        assert multiset(nulls)[x] > 0;
      }
    }
    assert forall x :: x in sorted ==> key(x).Some? by {
      forall x | x in sorted ensures key(x).Some? {
        assert multiset(keyed)[x] > 0;
      }
    }
    assert forall x :: multiset(nulls + sorted)[x] == multiset(s)[x];
    NullsThenDescending(nulls, sorted, key);
  }

  lemma NullsThenDescending<T>(nulls: seq<T>, sorted: seq<T>, key: T -> Option<int>)
    requires forall x :: x in nulls ==> key(x).None?
    requires forall x :: x in sorted ==> key(x).Some?
    requires forall i, j :: 0 <= i < j < |sorted| ==> key(sorted[i]).GetOr(0) >= key(sorted[j]).GetOr(0)
    ensures var r := nulls + sorted;
            forall i, j :: 0 <= i < j < |r| && key(r[j]).None? ==> key(r[i]).None?
    ensures var r := nulls + sorted;
            forall i, j :: 0 <= i < j < |r| && key(r[i]).Some? && key(r[j]).Some? ==> key(r[i]).value >= key(r[j]).value
  {
    var r := nulls + sorted;
    forall i, j | 0 <= i < j < |r| && key(r[j]).None? ensures key(r[i]).None? {
      assert r[i] == nulls[i];
      assert r[i] in nulls;
    }
    forall i, j | 0 <= i < j < |r| && key(r[i]).Some? && key(r[j]).Some? ensures key(r[i]).value >= key(r[j]).value {
      assert r[i] == sorted[i - |nulls|] && r[j] == sorted[j - |nulls|];
    }
  }
}
