/** Version rows in ascending order-key order, as every snapshot lists them. */
module Rows {
  import opened Types

  predicate Ascending(rows: seq<Row>) {
    forall i, j :: 0 <= i < j < |rows| ==> rows[i].ok.Less(rows[j].ok)
  }

  lemma {:induction false} GreatestExists(s: set<OrderKey>) returns (g: OrderKey)
    requires s != {}
    ensures g in s && forall x :: x in s ==> x == g || x.Less(g)
  {
    var a :| a in s;
    g := a;
    if s - {a} != {} {
      var m := GreatestExists(s - {a});
      if a.Less(m) {
        g := m;
      }
      forall x | x in s
        ensures x == g || x.Less(g)
      {
        assert x == a || x in s - {a};
      }
    } else {
      assert s == {a};
    }
  }

  /** The greatest order key of a nonempty set. */
  function Greatest(s: set<OrderKey>): (m: OrderKey)
    requires s != {}
    ensures m in s && forall x :: x in s ==> x == m || x.Less(m)
  {
    assert exists m :: m in s && forall x :: x in s ==> x == m || x.Less(m) by {
      var g := GreatestExists(s);
    }
    var m :| m in s && forall x :: x in s ==> x == m || x.Less(m);
    m
  }

  /** The rows of a version map, ascending. */
  function SortRows(m: map<OrderKey, Version>): seq<Row>
    decreases |m|
  {
    if m == map[] then []
    else
      var g := Greatest(m.Keys);
      SortRows(m - {g}) + [Row(g, m[g])]
  }

  /** `rows` lists the versions of `m` and nothing else. */
  ghost predicate Lists(rows: seq<Row>, m: map<OrderKey, Version>) {
    && (forall r: Row :: r in rows ==> r.ok in m && m[r.ok] == r.v)
    && (forall ok :: ok in m ==> Row(ok, m[ok]) in rows)
  }

  /** Sorting lists each version exactly once, ascending. */
  lemma {:induction false} SortRowsCorrect(m: map<OrderKey, Version>)
    ensures Ascending(SortRows(m)) && Lists(SortRows(m), m)
    decreases |m|
  {
    if m != map[] {
      var g := Greatest(m.Keys);
      var rows := SortRows(m - {g});
      SortRowsCorrect(m - {g});
      forall i | 0 <= i < |rows|
        ensures rows[i].ok.Less(g)
      {
        assert rows[i] in rows;
      }
      forall ok | ok in m
        ensures Row(ok, m[ok]) in SortRows(m)
      {
        assert ok == g || ok in m - {g};
      }
    }
  }

  /** Only one ascending row list lists `m`. */
  lemma {:induction false} AscendingIsSorted(rows: seq<Row>, m: map<OrderKey, Version>)
    requires Ascending(rows) && Lists(rows, m)
    ensures SortRows(m) == rows
    decreases |rows|
  {
    if rows == [] {
      assert m == map[];
    } else {
      var n := |rows| - 1;
      assert rows[n] in rows;
      var g := Greatest(m.Keys);
      assert Row(g, m[g]) in rows;
      assert g == rows[n].ok;
      var rest := rows[..n];
      forall r: Row | r in rest
        ensures r.ok in m - {g} && m[r.ok] == r.v
      {
        assert r in rows;
      }
      forall ok | ok in m - {g}
        ensures Row(ok, m[ok]) in rest
      {
        assert Row(ok, m[ok]) in rows;
      }
      AscendingIsSorted(rest, m - {g});
      assert rows == rest + [rows[n]];
    }
  }

  function FilterRows(rows: seq<Row>, keep: Row -> bool): seq<Row> {
    if rows == [] then []
    else
      var n := |rows| - 1;
      FilterRows(rows[..n], keep) + if keep(rows[n]) then [rows[n]] else []
  }

  /** Filtering keeps exactly the rows that satisfy `keep`, in order. */
  lemma {:induction false} FilterRowsCorrect(rows: seq<Row>, keep: Row -> bool)
    requires Ascending(rows)
    ensures Ascending(FilterRows(rows, keep))
    ensures forall r :: r in FilterRows(rows, keep) <==> r in rows && keep(r)
  {
    if rows != [] {
      var n := |rows| - 1;
      var rest := FilterRows(rows[..n], keep);
      FilterRowsCorrect(rows[..n], keep);
      forall i | 0 <= i < |rest|
        ensures rest[i].ok.Less(rows[n].ok)
      {
        assert rest[i] in rows[..n];
      }
      assert forall r :: r in rows <==> r in rows[..n] || r == rows[n];
    }
  }

  /** Filtering a sorted listing is the sorted listing of the filtered versions. */
  lemma FilterSorted(m: map<OrderKey, Version>, keep: Row -> bool, kept: map<OrderKey, Version>)
    requires forall ok :: ok in kept <==> ok in m && keep(Row(ok, m[ok]))
    requires forall ok :: ok in kept ==> kept[ok] == m[ok]
    ensures FilterRows(SortRows(m), keep) == SortRows(kept)
  {
    SortRowsCorrect(m);
    FilterRowsCorrect(SortRows(m), keep);
    AscendingIsSorted(FilterRows(SortRows(m), keep), kept);
  }

  /** A version above every other is listed last. */
  lemma SortRowsAppend(m: map<OrderKey, Version>, ok: OrderKey, v: Version)
    requires forall x :: x in m ==> x.Less(ok)
    ensures SortRows(m[ok := v]) == SortRows(m) + [Row(ok, v)]
  {
    assert ok in m[ok := v].Keys && Greatest(m[ok := v].Keys) == ok;
    assert m[ok := v] - {ok} == m;
  }

  /** The last listed row is the version with the greatest order key. */
  lemma LastIsGreatest(m: map<OrderKey, Version>)
    requires m != map[]
    ensures SortRows(m) != [] && SortRows(m)[|SortRows(m)| - 1] == Row(Greatest(m.Keys), m[Greatest(m.Keys)])
  {
  }
}
