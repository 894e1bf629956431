/** Queries over a table held as its rows in insertion order: what
    `select(...).where(...)` with `.first()`, `.all()`, `.offset()` and
    `.limit()` return. */
module Tables {
  import opened Outcomes

  /** Index of the first row that satisfies `p` (`.first()` of a WHERE query). */
  function Find<T>(rows: seq<T>, p: T -> bool): (r: Option<nat>)
    ensures r.Some? ==> r.value < |rows| && p(rows[r.value])
    ensures r.Some? ==> forall j :: 0 <= j < r.value ==> !p(rows[j])
    ensures r.None? <==> forall j :: 0 <= j < |rows| ==> !p(rows[j])
  {
    if |rows| == 0 then None
    else if p(rows[0]) then Some(0)
    else match Find(rows[1..], p)
      case None => None
      case Some(k) => Some(k + 1)
  }

  /** The first row that satisfies `p` (the row `.first()` returns). */
  function FirstWhere<T>(rows: seq<T>, p: T -> bool): (r: Option<T>)
    ensures r.Some? ==> r.value in rows && p(r.value)
    ensures r.None? <==> forall j :: 0 <= j < |rows| ==> !p(rows[j])
    ensures Find(rows, p).Some? ==> r == Some(rows[Find(rows, p).value])
  {
    match Find(rows, p)
    case Some(i) => Some(rows[i])
    case None => None
  }

  /** All rows that satisfy `p`, in table order (`.all()` of a WHERE query). */
  function Where<T>(rows: seq<T>, p: T -> bool): (r: seq<T>)
    ensures |r| <= |rows|
    ensures forall k :: 0 <= k < |r| ==> r[k] in rows && p(r[k])
    ensures forall k :: 0 <= k < |rows| && p(rows[k]) ==> rows[k] in r
    ensures forall k {:trigger multiset(r)[rows[k]]} :: 0 <= k < |rows| ==>
              multiset(r)[rows[k]] == if p(rows[k]) then multiset(rows)[rows[k]] else 0
  {
    if |rows| == 0 then []
    else
      var rest := Where(rows[1..], p);
      WhereCountsCons(rows, rest, p);
      (if p(rows[0]) then [rows[0]] else []) + rest
  }

  /** The counting step of `Where`: filtering one more row in front adds that
      row once exactly when it matches. */
  lemma WhereCountsCons<T>(rows: seq<T>, rest: seq<T>, p: T -> bool)
    requires |rows| > 0
    requires forall k :: 0 <= k < |rest| ==> rest[k] in rows[1..]
    requires forall k {:trigger multiset(rest)[rows[1..][k]]} :: 0 <= k < |rows[1..]| ==>
               multiset(rest)[rows[1..][k]] == if p(rows[1..][k]) then multiset(rows[1..])[rows[1..][k]] else 0
    ensures var r := (if p(rows[0]) then [rows[0]] else []) + rest;
      forall k {:trigger multiset(r)[rows[k]]} :: 0 <= k < |rows| ==>
           multiset(r)[rows[k]] == if p(rows[k]) then multiset(rows)[rows[k]] else 0
  {
    var x, tail := rows[0], rows[1..];
    var r := (if p(x) then [x] else []) + rest;
    assert rows == [x] + tail;
    assert multiset(r) == multiset(if p(x) then [x] else []) + multiset(rest);
    assert multiset(rows) == multiset{x} + multiset(tail);
    if x !in tail {
      assert multiset(tail)[x] == 0;
      assert x !in rest;
    } else {
      var i :| 0 <= i < |tail| && tail[i] == x;
      assert multiset(rest)[tail[i]] == if p(tail[i]) then multiset(tail)[tail[i]] else 0;
    }
    forall k | 0 <= k < |rows|
      ensures multiset(r)[rows[k]] == if p(rows[k]) then multiset(rows)[rows[k]] else 0
    {
      if k > 0 && rows[k] != x {
        assert rows[k] == tail[k - 1];
        assert multiset(rest)[tail[k - 1]] == if p(tail[k - 1]) then multiset(tail)[tail[k - 1]] else 0;
      }
    }
  }

  /** A permutation holds only elements of the sequence it permutes. */
  lemma SameElements<T>(a: seq<T>, b: seq<T>)
    requires multiset(a) == multiset(b)
    ensures forall k :: 0 <= k < |a| ==> a[k] in b
  {
    forall k | 0 <= k < |a| ensures a[k] in b {
      assert a[k] in multiset(a);
    }
  }

  lemma {:induction false} WhereAppend<T>(a: seq<T>, b: seq<T>, p: T -> bool)
    ensures Where(a + b, p) == Where(a, p) + Where(b, p)
  {
    if |a| > 0 {
      assert (a + b)[1..] == a[1..] + b;
      WhereAppend(a[1..], b, p);
    } else {
      assert a + b == b;
    }
  }

  lemma {:induction false} WhereKeepsAll<T>(rows: seq<T>, p: T -> bool)
    requires forall x :: x in rows ==> p(x)
    ensures Where(rows, p) == rows
  {
    if |rows| > 0 {
      assert rows[0] in rows;
      WhereKeepsAll(rows[1..], p);
    }
  }

  /** No two rows share a key. */
  ghost predicate DistinctBy<T, K>(rows: seq<T>, key: T -> K) {
    forall i, j :: 0 <= i < j < |rows| ==> key(rows[i]) != key(rows[j])
  }

  /** A row that satisfies `p` with none before it is the one `Find` finds. */
  lemma FindIs<T>(rows: seq<T>, p: T -> bool, k: nat)
    requires k < |rows| && p(rows[k])
    requires forall j :: 0 <= j < k ==> !p(rows[j])
    ensures Find(rows, p) == Some(k)
  {
    var f := Find(rows, p);
    assert f.Some?;
    assert !(f.value < k) && !(k < f.value);
  }

  /** Rows appended after a match do not move the first match; when the
      first rows hold none, a matching row appended is the first. */
  lemma FindAppend<T>(a: seq<T>, x: T, p: T -> bool)
    ensures Find(a, p).Some? ==> Find(a + [x], p) == Find(a, p)
    ensures Find(a, p).None? && p(x) ==> Find(a + [x], p) == Some(|a|)
  {
    var b := a + [x];
    if Find(a, p).Some? {
      var k := Find(a, p).value;
      assert b[k] == a[k];
      forall j | 0 <= j < k ensures !p(b[j]) {
        assert b[j] == a[j];
      }
      FindIs(b, p, k);
    } else if p(x) {
      assert b[|a|] == x;
      forall j | 0 <= j < |a| ensures !p(b[j]) {
        assert b[j] == a[j];
      }
      FindIs(b, p, |a|);
    }
  }

  /** Filtering keeps rows in table order, so rows that differed in some key
      still differ in it after filtering. */
  lemma {:induction false} WhereDistinct<T, K>(rows: seq<T>, p: T -> bool, key: T -> K)
    requires DistinctBy(rows, key)
    ensures DistinctBy(Where(rows, p), key)
  {
    if |rows| > 0 {
      var tail := rows[1..];
      forall i, j | 0 <= i < j < |tail| ensures key(tail[i]) != key(tail[j]) {
        assert tail[i] == rows[i + 1] && tail[j] == rows[j + 1];
      }
      WhereDistinct(tail, p, key);
      var rest := Where(tail, p);
      forall k | 0 <= k < |rest| ensures key(rest[k]) != key(rows[0]) {
        var j :| 0 <= j < |tail| && tail[j] == rest[k];
        assert rows[j + 1] == rest[k];
      }
      if p(rows[0]) {
        var r := [rows[0]] + rest;
        assert Where(rows, p) == r;
        forall i, j | 0 <= i < j < |r| ensures key(r[i]) != key(r[j]) {
          if i > 0 {
            assert r[i] == rest[i - 1] && r[j] == rest[j - 1];
          } else {
            assert r[j] == rest[j - 1];
          }
        }
      } else {
        assert Where(rows, p) == rest;
      }
    }
  }

  /** Overwriting one row with a value that `p` judges the same way leaves the
      result of `Find` where it was. */
  lemma FindAfterUpdate<T>(rows: seq<T>, i: nat, x: T, p: T -> bool)
    requires i < |rows| && p(x) == p(rows[i])
    ensures Find(rows[i := x], p) == Find(rows, p)
  {
    var after := rows[i := x];
    assert forall j :: 0 <= j < |rows| ==> p(after[j]) == p(rows[j]);
    match Find(rows, p)
    case Some(k) => FindIs(after, p, k);
    case None =>
  }

  /** The row index a query starts at for OFFSET `offset`; SQLite counts a
      negative offset as zero. */
  function Skip(n: nat, offset: int): (k: nat)
    ensures k <= n
  {
    if offset < 0 then 0 else if offset > n then n else offset
  }

  /** `.offset(offset).limit(limit)` as SQLite evaluates it: a negative OFFSET
      counts as zero and a negative LIMIT means no upper bound. */
  function Page<T>(rows: seq<T>, offset: int, limit: int): (r: seq<T>)
    ensures 0 <= limit ==> |r| <= limit
    ensures 0 <= limit ==> |r| == (if limit < |rows| - Skip(|rows|, offset) then limit else |rows| - Skip(|rows|, offset))
    ensures limit < 0 ==> r == rows[Skip(|rows|, offset)..]
    ensures Skip(|rows|, offset) + |r| <= |rows|
    ensures forall k :: 0 <= k < |r| ==> r[k] == rows[Skip(|rows|, offset) + k]
  {
    var rest := rows[Skip(|rows|, offset)..];
    if limit < 0 || limit >= |rest| then rest else rest[..limit]
  }

  /** Two consecutive pages of the same query, read one after the other, are
      exactly the longer page that spans both. */
  lemma PagesAreConsecutive<T>(rows: seq<T>, offset: nat, n: nat, m: nat)
    ensures Page(rows, offset, n) + Page(rows, offset + n, m) == Page(rows, offset, n + m)
  {
    var a, b, c := Page(rows, offset, n), Page(rows, offset + n, m), Page(rows, offset, n + m);
    assert |a + b| == |c|;
    forall k | 0 <= k < |c| ensures (a + b)[k] == c[k] {
      if k < |a| {
      } else {
        assert (a + b)[k] == b[k - |a|];
      }
    }
  }

  /** When the rows hold no value twice, no value shows up on two different
      pages of the same query. */
  lemma PagesDoNotOverlap<T>(rows: seq<T>, offset: nat, n: nat, m: nat, x: T)
    requires forall i, j :: 0 <= i < j < |rows| ==> rows[i] != rows[j]
    requires x in Page(rows, offset, n)
    ensures x !in Page(rows, offset + n, m)
  {
    var a, b := Page(rows, offset, n), Page(rows, offset + n, m);
    var i :| 0 <= i < |a| && a[i] == x;
    forall j | 0 <= j < |b| ensures b[j] != x {
      assert b[j] == rows[Skip(|rows|, offset + n) + j];
    }
  }
}
