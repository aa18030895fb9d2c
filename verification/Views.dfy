/** The masked view as a whole, and exact-value reverse lookup through any view. */
module Views {
  import opened Types
  import opened Rows
  import opened Folds
  import opened FoldLaws
  import opened Snapshots
  import opened Refresh
  import opened Mask
  import opened Queries

  /** A snapshot read through a mask. */
  function MaskedView(s: Snapshot, m: FactMask): View {
    View(
      EachOne(s, m),
      MaskedOneRows(s, m),
      EachMany(s, m),
      MaskedManyRows(s, m))
  }

  function MaskedOneRows(s: Snapshot, m: FactMask): map<Key, seq<Row>> {
    map k | k in EachOneKey(s, m) && OneRowsRead(s, m, k).Some? :: OneRowsRead(s, m, k).value
  }

  function MaskedManyRows(s: Snapshot, m: FactMask): map<Key, History> {
    map k | k in EachManyKey(s, m) && ManyRowsRead(s, m, k).Some? :: ManyRowsRead(s, m, k).value
  }

  lemma MaskedRowMaps(s: Snapshot, m: FactMask, v: Snapshot)
    requires ReadsAs(s, m, v) && EachOneKey(s, m) == v.oneHistory.Keys && EachManyKey(s, m) == v.manyHistory.Keys
    ensures MaskedOneRows(s, m) == v.oneHistory && MaskedManyRows(s, m) == v.manyHistory
  {
    forall k: Key
      ensures Get(MaskedOneRows(s, m), k) == Get(v.oneHistory, k)
      ensures Get(MaskedManyRows(s, m), k) == Get(v.manyHistory, k)
    {
      assert OneRowsRead(s, m, k) == Get(v.oneHistory, k) && ManyRowsRead(s, m, k) == Get(v.manyHistory, k);
    }
    SameMaps(MaskedOneRows(s, m), v.oneHistory);
    SameMaps(MaskedManyRows(s, m), v.manyHistory);
  }

  /** A masked view is the plain view of the store in which the hidden rows were never written, so every
      query answers through it as it would over that store. */
  lemma MaskedViewIsVisibleStore(log: seq<LabeledOp>, m: FactMask, card: Key -> Cardinality, h: Hash)
    requires UniqueKeys(log) && Typed(log, card)
    ensures MaskedView(Observe(FoldLog(log), h), m) == ViewOf(Observe(FoldLog(VisibleLog(log, m)), h))
  {
    MaskedEnumerations(log, m, card, h);
    MaskedReadsAs(log, m, card, h);
    MaskedRowMaps(Observe(FoldLog(log), h), m, Observe(FoldLog(VisibleLog(log, m)), h));
  }

  // --- reverse lookup --------------------------------------------------------------------------

  /** Every row the view shows is a row of the snapshot, and its current value is its last row's. */
  ghost predicate SubView(v: View, s: Snapshot) {
    && (forall k :: k in v.oneRows ==> k in s.oneHistory && forall r :: r in v.oneRows[k] ==> r in s.oneHistory[k])
    && (forall k :: k in v.one ==> k in v.oneRows && v.oneRows[k] != [] && v.one[k] == Last(v.oneRows[k]).v.obj)
  }

  lemma PlainSubView(f: State, h: Hash)
    ensures SubView(ViewOf(Observe(f, h)), Observe(f, h))
  {
  }

  lemma {:induction false} FilterSubset(rows: seq<Row>, keep: Row -> bool)
    ensures forall r :: r in FilterRows(rows, keep) ==> r in rows
  {
    if rows != [] {
      FilterSubset(rows[..|rows| - 1], keep);
    }
  }

  lemma MaskedRowsSubset(s: Snapshot, m: FactMask, k: Key)
    requires OneRowsRead(s, m, k).Some?
    ensures k in s.oneHistory && forall r :: r in OneRowsRead(s, m, k).value ==> r in s.oneHistory[k]
  {
    FilterSubset(s.oneHistory[k], (r: Row) => m.RowVisible(k.1, RowLabel(s, k, r.ok)));
  }

  lemma MaskedSubView(f: State, h: Hash, m: FactMask)
    ensures SubView(MaskedView(Observe(f, h), m), Observe(f, h))
  {
    var s := Observe(f, h);
    forall k | k in MaskedOneRows(s, m)
      ensures k in s.oneHistory && forall r :: r in MaskedOneRows(s, m)[k] ==> r in s.oneHistory[k]
    {
      MaskedRowsSubset(s, m, k);
    }
    forall k | k in EachOne(s, m)
      ensures k in MaskedOneRows(s, m) && MaskedOneRows(s, m)[k] != []
      ensures EachOne(s, m)[k] == Last(MaskedOneRows(s, m)[k]).v.obj
    {
      MaskedValueIsLast(s, m, k);
    }
  }

  lemma MaskedValueIsLast(s: Snapshot, m: FactMask, k: Key)
    requires s.one == Heads(s.oneHistory) && k in EachOne(s, m)
    ensures k in MaskedOneRows(s, m) && MaskedOneRows(s, m)[k] != []
    ensures EachOne(s, m)[k] == Last(MaskedOneRows(s, m)[k]).v.obj
  {
  }

  /** The value a reader sees: the current one, or the one in effect at an instant. */
  function ValueAt(v: View, k: Key, at: Option<i64>): Option<ObjKey> {
    if at.None? then PointOne(v, k) else PointOneAsOf(v, k, at.value)
  }

  lemma ValueIsIndexed(s: Snapshot, v: View, n: NodeId, p: FieldId, value: ObjKey, at: Option<i64>, h: Hash)
    requires s.oneValues == Index(s.oneHistory, h) && SubView(v, s) && ValueAt(v, (n, p), at) == Some(value)
    ensures (p, h(value), n) in s.oneValues
  {
    var k := (n, p);
    var rows := OneRowsOf(v, k);
    if at.None? {
      assert k in v.oneRows && Last(rows) in rows && Last(rows).v.obj == Some(value);
    } else {
      WinnerCorrect(rows, at.value);
      assert Winner(rows, at.value).value in rows;
    }
    var r := if at.None? then Last(rows) else Winner(rows, at.value).value;
    assert r in s.oneHistory[k];
    var i: nat :| i < |s.oneHistory[k]| && s.oneHistory[k][i] == r;
    assert h(value) in Hashes(s.oneHistory[k], h);
  }

  predicate AscendingNodes(ns: seq<NodeId>) {
    forall i, j :: 0 <= i < j < |ns| ==> ns[i] < ns[j]
  }

  lemma {:induction false} LeastExists(s: set<NodeId>) returns (g: NodeId)
    requires s != {}
    ensures g in s && forall x :: x in s ==> g <= x
  {
    g :| g in s;
    if s - {g} != {} {
      var m := LeastExists(s - {g});
      if m < g {
        forall x | x in s
          ensures m <= x
        {
          assert x == g || x in s - {g};
        }
        return m;
      }
      assert forall x :: x in s ==> x == g || x in s - {g};
    } else {
      assert s == {g};
    }
  }

  function Least(s: set<NodeId>): (g: NodeId)
    requires s != {}
    ensures g in s && forall x :: x in s ==> g <= x
  {
    assert exists g :: g in s && forall x :: x in s ==> g <= x by {
      var g := LeastExists(s);
    }
    var g :| g in s && forall x :: x in s ==> g <= x;
    g
  }

  /** The subjects, ascending, whose value of `p` is `value` and that `keep` admits: candidates from the
      hashed index, each confirmed by one point read. */
  method LookupOne(s: Snapshot, v: View, p: FieldId, value: ObjKey, at: Option<i64>, keep: NodeId -> bool, h: Hash)
      returns (out: seq<NodeId>)
    requires s.oneValues == Index(s.oneHistory, h) && SubView(v, s)
    ensures AscendingNodes(out)
    ensures forall n: NodeId :: n in out <==> ValueAt(v, (n, p), at) == Some(value) && keep(n)
  {
    out := [];
    var all := set e | e in s.oneValues && e.0 == p && e.1 == h(value) :: e.2;
    var todo := all;
    while todo != {}
      invariant todo <= all && AscendingNodes(out)
      invariant forall n: NodeId :: n in out <==> n in all - todo && ValueAt(v, (n, p), at) == Some(value) && keep(n)
      invariant forall n, x :: n in out && x in todo ==> n < x
    {
      var n := Least(todo);
      if ValueAt(v, (n, p), at) == Some(value) && keep(n) {
        assert forall i :: 0 <= i < |out| ==> out[i] in out;
        out := out + [n];
      }
      todo := todo - {n};
    }
    forall n: NodeId | ValueAt(v, (n, p), at) == Some(value)
      ensures n in all
    {
      ValueIsIndexed(s, v, n, p, value, at, h);
      assert (p, h(value), n) in s.oneValues;
    }
  }
}
