/** The cached snapshot: refreshed key by key, with its label counts and reverse value index. */
module Refresh {
  import opened Types
  import opened Rows
  import opened Folds
  import opened Snapshots

  function Put<K, V>(m: map<K, V>, k: K, v: Option<V>): map<K, V> {
    if v.Some? then m[k := v.value] else m - {k}
  }

  function NonEmptyRows(rows: seq<Row>): Option<seq<Row>> { if rows == [] then None else Some(rows) }

  function NonEmptyMap<K, V>(m: map<K, V>): Option<map<K, V>> { if m == map[] then None else Some(m) }

  function NonEmptySet<T>(s: set<T>): Option<set<T>> { if s == {} then None else Some(s) }

  function HeadOf(rows: seq<Row>): Option<Option<ObjKey>> { if rows == [] then None else Some(Last(rows).v.obj) }

  lemma PutGet<K, V>(m: map<K, V>, k: K, v: Option<V>)
    ensures Get(Put(m, k, v), k) == v
    ensures forall x :: x != k ==> Get(Put(m, k, v), x) == Get(m, x)
  {
  }

  lemma PutAfterDrop<K, V>(m: map<K, V>, k: K, v: Option<V>)
    ensures Put(m - {k}, k, v) == Put(m, k, v)
  {
  }

  function TypeOf(f: State, n: NodeId): Option<FieldId> {
    if n in f.nodeAttrs && f.nodeAttrs[n].ty.Some? then Some(f.nodeAttrs[n].ty.value.value) else None
  }

  function NodeLabelOf(f: State, n: NodeId): Option<Label> {
    if n in f.nodeAttrs && f.nodeAttrs[n].access.Some? then Some(f.nodeAttrs[n].access.value.value) else None
  }

  // --- the label counts, one labeled row at a time ---------------------------------------------

  function Decrement(c: map<Label, nat>, l: Label): map<Label, nat> {
    if l !in c then c else if c[l] <= 1 then c - {l} else c[l := c[l] - 1]
  }

  function Increment(c: map<Label, nat>, l: Label): map<Label, nat> {
    c[l := GetOr(c, l, 0) + 1]
  }

  type LabelStore = map<Key, map<OrderKey, Label>>

  lemma CountsAt(fl: LabelStore, l: Label)
    ensures l in Counts(fl) <==> Cells(fl, l) != {}
    ensures GetOr(Counts(fl), l, 0) == |Cells(fl, l)|
  {
    if l in LabelsIn(fl) {
      var k, ok :| k in fl && ok in fl[k] && fl[k][ok] == l;
      assert (k, ok) in Cells(fl, l);
    }
  }

  lemma CellsOneMore(fl: LabelStore, k: Key, ok: OrderKey, l: Label, x: Label)
    requires k in fl && ok !in fl[k]
    ensures (k, ok) !in Cells(fl, x)
    ensures Cells(fl[k := fl[k][ok := l]], x) == if x == l then Cells(fl, x) + {(k, ok)} else Cells(fl, x)
  {
  }

  lemma CountOneMoreAt(fl: LabelStore, k: Key, ok: OrderKey, l: Label, x: Label)
    requires k in fl && ok !in fl[k]
    ensures var more := fl[k := fl[k][ok := l]];
      && Get(Counts(more), x) == Get(Increment(Counts(fl), l), x)
      && Get(Decrement(Counts(more), l), x) == Get(Counts(fl), x)
  {
    hide Counts, Cells;
    CountsAt(fl, x);
    CountsAt(fl, l);
    CountsAt(fl[k := fl[k][ok := l]], x);
    CountsAt(fl[k := fl[k][ok := l]], l);
    CellsOneMore(fl, k, ok, l, x);
    CellsOneMore(fl, k, ok, l, l);
  }

  /** One more labeled row moves exactly its own label's count. */
  lemma CountOneMore(fl: LabelStore, k: Key, ok: OrderKey, l: Label)
    requires k in fl && ok !in fl[k]
    ensures Counts(fl[k := fl[k][ok := l]]) == Increment(Counts(fl), l)
    ensures Decrement(Counts(fl[k := fl[k][ok := l]]), l) == Counts(fl)
  {
    var b := Counts(fl[k := fl[k][ok := l]]);
    forall x
      ensures Get(b, x) == Get(Increment(Counts(fl), l), x) && Get(Decrement(b, l), x) == Get(Counts(fl), x)
    {
      CountOneMoreAt(fl, k, ok, l, x);
    }
    SameMaps(b, Increment(Counts(fl), l));
    SameMaps(Decrement(b, l), Counts(fl));
  }

  lemma CountEmptyKey(fl: LabelStore, k: Key)
    requires k !in fl
    ensures Counts(fl[k := map[]]) == Counts(fl)
  {
    forall x
      ensures Get(Counts(fl[k := map[]]), x) == Get(Counts(fl), x)
    {
      CountsAt(fl, x);
      CountsAt(fl[k := map[]], x);
      assert Cells(fl[k := map[]], x) == Cells(fl, x);
    }
    SameMaps(Counts(fl[k := map[]]), Counts(fl));
  }

  /** The entries of `m` whose keys are in `keep`. */
  function Only<K, V>(m: map<K, V>, keep: set<K>): map<K, V> { map k | k in m && k in keep :: m[k] }

  /** Counting the rows of one key, one row at a time. */
  lemma CountStep(fl: LabelStore, k: Key, rows: map<OrderKey, Label>, done: set<OrderKey>, ok: OrderKey)
    requires ok in rows && ok !in done
    ensures Counts(fl[k := Only(rows, done + {ok})]) == Increment(Counts(fl[k := Only(rows, done)]), rows[ok])
    ensures Decrement(Counts(fl[k := Only(rows, done + {ok})]), rows[ok]) == Counts(fl[k := Only(rows, done)])
  {
    var cur := fl[k := Only(rows, done)];
    CountOneMore(cur, k, ok, rows[ok]);
    assert Only(rows, done)[ok := rows[ok]] == Only(rows, done + {ok});
    assert cur[k := cur[k][ok := rows[ok]]] == fl[k := Only(rows, done + {ok})];
  }

  lemma IndexPut(oneHistory: map<Key, seq<Row>>, k: Key, rows: seq<Row>, h: Hash)
    requires k !in oneHistory
    ensures Index(oneHistory[k := rows], h) == Index(oneHistory, h) + set x | x in Hashes(rows, h) :: (k.1, x, k.0)
    ensures forall x :: (k.1, x, k.0) !in Index(oneHistory, h)
  {
    var more := oneHistory[k := rows];
    forall e | e in Index(oneHistory, h)
      ensures e in Index(more, h)
    {
      var k', x :| k' in oneHistory && x in Hashes(oneHistory[k'], h) && e == (k'.1, x, k'.0);
      assert k' in more && more[k'] == oneHistory[k'];
    }
  }

  class SnapshotCache {
    const hash: Hash
    var one: map<Key, Option<ObjKey>>
    var oneHistory: map<Key, seq<Row>>
    var many: map<Key, set<ObjKey>>
    var manyHistory: map<Key, History>
    var edgeProps: map<Key, PropValues>
    var nodeTypes: map<NodeId, FieldId>
    var nodeLabels: map<NodeId, Label>
    var factLabels: map<Key, map<OrderKey, Label>>
    var labelCounts: map<Label, nat>
    var oneValues: set<(FieldId, u64, NodeId)>

    function Value(): Snapshot
      reads this
    {
      Snapshot(one, oneHistory, many, manyHistory, edgeProps, nodeTypes, nodeLabels, factLabels, labelCounts, oneValues)
    }

    constructor (s: Snapshot, h: Hash)
      ensures Value() == s && hash == h
    {
      hash := h;
      one, oneHistory, many, manyHistory, edgeProps := s.one, s.oneHistory, s.many, s.manyHistory, s.edgeProps;
      nodeTypes, nodeLabels, factLabels := s.nodeTypes, s.nodeLabels, s.factLabels;
      labelCounts, oneValues := s.labelCounts, s.oneValues;
    }

    /** The label counts and the reverse index agree with the labels and rows they index. */
    ghost predicate Indexed()
      reads `oneHistory, `oneValues, `factLabels, `labelCounts
    {
      labelCounts == Counts(factLabels) && oneValues == Index(oneHistory, hash)
    }

    /** The entries of key `k` are what `f` shows for it. */
    ghost predicate ShownAt(f: State, k: Key)
      reads `one, `oneHistory, `many, `manyHistory, `edgeProps, `factLabels
    {
      && Get(one, k) == HeadOf(OneRows(f, k))
      && Get(oneHistory, k) == NonEmptyRows(OneRows(f, k))
      && Get(many, k) == NonEmptySet(PresentIn(ManyRows(f, k)))
      && Get(manyHistory, k) == NonEmptyMap(ManyRows(f, k))
      && Get(edgeProps, k) == NonEmptyMap(PropsOf(f, k))
      && Get(factLabels, k) == NonEmptyMap(LiveLabels(f, k))
    }

    ghost predicate NodeShownAt(f: State, n: NodeId)
      reads `nodeTypes, `nodeLabels
    {
      Get(nodeTypes, n) == TypeOf(f, n) && Get(nodeLabels, n) == NodeLabelOf(f, n)
    }

    /** The cache is the full observation of `f`. */
    ghost predicate Shows(f: State)
      reads this
    {
      Indexed() && (forall k :: ShownAt(f, k)) && (forall n :: NodeShownAt(f, n))
    }

    /** Drop a key's row labels, taking them out of the counts. */
    method DropLabels(k: Key)
      requires labelCounts == Counts(factLabels)
      modifies `factLabels, `labelCounts
      ensures factLabels == old(factLabels) - {k} && labelCounts == Counts(factLabels)
    {
      hide Counts, Decrement;
      if k !in factLabels {
        assert factLabels - {k} == factLabels;
        return;
      }
      var rows := factLabels[k];
      factLabels := factLabels - {k};
      var todo := rows.Keys;
      assert Only(rows, todo) == rows;
      assert factLabels[k := rows] == old(factLabels);
      while todo != {}
        invariant todo <= rows.Keys && factLabels == old(factLabels) - {k}
        invariant labelCounts == Counts(factLabels[k := Only(rows, todo)])
      {
        var ok :| ok in todo;
        CountStep(factLabels, k, rows, todo - {ok}, ok);
        assert todo - {ok} + {ok} == todo;
        labelCounts := Decrement(labelCounts, rows[ok]);
        todo := todo - {ok};
      }
      assert Only(rows, todo) == map[];
      CountEmptyKey(factLabels, k);
    }

    /** List a key's row labels and count them. */
    method AddLabels(k: Key, rows: map<OrderKey, Label>)
      requires k !in factLabels && labelCounts == Counts(factLabels)
      modifies `factLabels, `labelCounts
      ensures factLabels == Put(old(factLabels), k, NonEmptyMap(rows)) && labelCounts == Counts(factLabels)
    {
      hide Counts, Increment;
      assert factLabels - {k} == factLabels;
      if rows == map[] {
        return;
      }
      CountEmptyKey(factLabels, k);
      var todo, done: set<OrderKey> := rows.Keys, {};
      assert Only(rows, done) == map[];
      while todo != {}
        invariant done + todo == rows.Keys && done !! todo && factLabels == old(factLabels)
        invariant labelCounts == Counts(factLabels[k := Only(rows, done)])
      {
        var ok :| ok in todo;
        CountStep(factLabels, k, rows, done, ok);
        labelCounts := Increment(labelCounts, rows[ok]);
        todo, done := todo - {ok}, done + {ok};
      }
      assert Only(rows, done) == rows;
      factLabels := factLabels[k := rows];
    }

    /** Drop a One key's rows, taking their values out of the reverse index. */
    method DropOne(k: Key)
      requires oneValues == Index(oneHistory, hash)
      modifies `one, `oneHistory, `oneValues
      ensures one == old(one) - {k} && oneHistory == old(oneHistory) - {k} && oneValues == Index(oneHistory, hash)
    {
      one := one - {k};
      if k !in oneHistory {
        assert oneHistory - {k} == oneHistory;
        return;
      }
      var todo := Hashes(oneHistory[k], hash);
      var kept := oneHistory - {k};
      oneHistory := kept;
      while todo != {}
        invariant oneHistory == kept && one == old(one) - {k}
        invariant oneValues == Index(kept, hash) + set x | x in todo :: (k.1, x, k.0)
      {
        var x :| x in todo;
        oneValues := oneValues - {(k.1, x, k.0)};
        todo := todo - {x};
      }
    }

    /** List a One key's rows, their last value and the values the reverse index finds them by. */
    method AddOne(k: Key, rows: seq<Row>)
      requires k !in one && k !in oneHistory && oneValues == Index(oneHistory, hash) && rows != []
      modifies `one, `oneHistory, `oneValues
      ensures one == old(one)[k := Last(rows).v.obj] && oneHistory == old(oneHistory)[k := rows]
      ensures oneValues == Index(oneHistory, hash)
    {
      one := one[k := Last(rows).v.obj];
      var todo := Hashes(rows, hash);
      IndexPut(oneHistory, k, rows, hash);
      while todo != {}
        invariant todo <= Hashes(rows, hash) && oneHistory == old(oneHistory) && one == old(one)[k := Last(rows).v.obj]
        invariant oneValues == old(oneValues) + set x | x in Hashes(rows, hash) - todo :: (k.1, x, k.0)
      {
        var x :| x in todo;
        oneValues := oneValues + {(k.1, x, k.0)};
        todo := todo - {x};
      }
      oneHistory := oneHistory[k := rows];
    }

    /** One pass over the stored elements of a Many key: the live rows of each, and which are present. */
    method LiveElements(f: Fold, k: Key) returns (present: set<ObjKey>, history: History)
      requires k in f.keys && f.keys[k].ManyState?
      ensures history == ManyRows(f.Value(), k) && present == PresentIn(history)
    {
      ghost var rows := ManyRows(f.Value(), k);
      var st := f.keys[k];
      present, history := {}, map[];
      var todo := st.elems.Keys;
      while todo != {}
        invariant todo <= st.elems.Keys
        invariant forall o :: o in history <==> o in rows && o !in todo
        invariant forall o :: o in history ==> history[o] == rows[o]
        invariant forall o :: o in present <==> o in history && Last(history[o]).v.obj.Some?
      {
        var o :| o in todo;
        assert LiveElem(f.Value(), k, o) == Live(st.elems[o], st.removes, st.hd);
        var live := SortRows(Live(st.elems[o], st.removes, st.hd));
        if live != [] {
          if Last(live).v.obj.Some? {
            present := present + {o};
          }
          history := history[o := live];
        }
        todo := todo - {o};
      }
    }

    /** List a Many key's live elements. */
    method AddMany(f: Fold, k: Key)
      requires k !in many && k !in manyHistory && k in f.keys && f.keys[k].ManyState?
      modifies `many, `manyHistory
      ensures many == Put(old(many), k, NonEmptySet(PresentIn(ManyRows(f.Value(), k))))
      ensures manyHistory == Put(old(manyHistory), k, NonEmptyMap(ManyRows(f.Value(), k)))
    {
      hide ManyRows, PresentIn;
      var present, history := LiveElements(f, k);
      assert many - {k} == many && manyHistory - {k} == manyHistory;
      if present != {} {
        many := many[k := present];
      }
      if history != map[] {
        manyHistory := manyHistory[k := history];
      }
    }

    /** List the rows that key `k` of `f` shows now. */
    method ListRows(f: Fold, k: Key)
      requires k !in one && k !in oneHistory && k !in many && k !in manyHistory && oneValues == Index(oneHistory, hash)
      modifies `one, `oneHistory, `oneValues, `many, `manyHistory
      ensures one == Put(old(one), k, HeadOf(OneRows(f.Value(), k)))
      ensures oneHistory == Put(old(oneHistory), k, NonEmptyRows(OneRows(f.Value(), k)))
      ensures oneValues == Index(oneHistory, hash)
      ensures many == Put(old(many), k, NonEmptySet(PresentIn(ManyRows(f.Value(), k))))
      ensures manyHistory == Put(old(manyHistory), k, NonEmptyMap(ManyRows(f.Value(), k)))
    {
      assert one - {k} == one && oneHistory - {k} == oneHistory && many - {k} == many && manyHistory - {k} == manyHistory;
      if k !in f.keys {
        assert ManyRows(f.Value(), k) == map[];
      } else if f.keys[k].OneState? {
        var rows := SortRows(Live(f.keys[k].versions, {}, f.keys[k].hd));
        assert ManyRows(f.Value(), k) == map[];
        if rows != [] {
          AddOne(k, rows);
        }
      } else {
        AddMany(f, k);
      }
    }

    /** Project the edge properties of key `k`. */
    method ObserveProps(f: Fold, k: Key)
      modifies `edgeProps
      ensures edgeProps == Put(old(edgeProps), k, NonEmptyMap(PropsOf(f.Value(), k)))
    {
      edgeProps := edgeProps - {k};
      var props := PropsOf(f.Value(), k);
      if k in f.edgeProps && props != map[] {
        edgeProps := edgeProps[k := props];
      } else {
        assert props == map[];
      }
    }

    /** Replace the labels of key `k` by those of its live rows. */
    method ObserveLabels(f: Fold, k: Key)
      requires labelCounts == Counts(factLabels)
      modifies `factLabels, `labelCounts
      ensures factLabels == Put(old(factLabels), k, NonEmptyMap(LiveLabels(f.Value(), k)))
      ensures labelCounts == Counts(factLabels)
    {
      DropLabels(k);
      AddLabels(k, LiveLabels(f.Value(), k));
      PutAfterDrop(old(factLabels), k, NonEmptyMap(LiveLabels(f.Value(), k)));
    }

    /** Replace the rows of key `k` by its live rows. */
    method ObserveRows(f: Fold, k: Key)
      requires oneValues == Index(oneHistory, hash)
      modifies `one, `oneHistory, `oneValues, `many, `manyHistory
      ensures one == Put(old(one), k, HeadOf(OneRows(f.Value(), k)))
      ensures oneHistory == Put(old(oneHistory), k, NonEmptyRows(OneRows(f.Value(), k)))
      ensures oneValues == Index(oneHistory, hash)
      ensures many == Put(old(many), k, NonEmptySet(PresentIn(ManyRows(f.Value(), k))))
      ensures manyHistory == Put(old(manyHistory), k, NonEmptyMap(ManyRows(f.Value(), k)))
    {
      DropOne(k);
      many, manyHistory := many - {k}, manyHistory - {k};
      ListRows(f, k);
      PutAfterDrop(old(one), k, HeadOf(OneRows(f.Value(), k)));
      PutAfterDrop(old(oneHistory), k, NonEmptyRows(OneRows(f.Value(), k)));
      PutAfterDrop(old(many), k, NonEmptySet(PresentIn(ManyRows(f.Value(), k))));
      PutAfterDrop(old(manyHistory), k, NonEmptyMap(ManyRows(f.Value(), k)));
    }

    /** Re-observe one key of `f`: its entries are dropped, then it is listed as it shows now. */
    method ObserveKey(f: Fold, k: Key)
      requires Indexed()
      modifies `one, `oneHistory, `oneValues, `many, `manyHistory, `edgeProps, `factLabels, `labelCounts
      ensures Indexed()
      ensures one == Put(old(one), k, HeadOf(OneRows(f.Value(), k)))
      ensures oneHistory == Put(old(oneHistory), k, NonEmptyRows(OneRows(f.Value(), k)))
      ensures many == Put(old(many), k, NonEmptySet(PresentIn(ManyRows(f.Value(), k))))
      ensures manyHistory == Put(old(manyHistory), k, NonEmptyMap(ManyRows(f.Value(), k)))
      ensures edgeProps == Put(old(edgeProps), k, NonEmptyMap(PropsOf(f.Value(), k)))
      ensures factLabels == Put(old(factLabels), k, NonEmptyMap(LiveLabels(f.Value(), k)))
    {
      hide OneRows, ManyRows, PropsOf, LiveLabels, PresentIn, HeadOf, NonEmptyRows, NonEmptySet, NonEmptyMap, Counts,
           Index, Put;
      ObserveRows(f, k);
      ObserveProps(f, k);
      ObserveLabels(f, k);
    }

    /** Re-observe one node's type and label. */
    method ObserveNode(f: Fold, n: NodeId)
      modifies `nodeTypes, `nodeLabels
      ensures nodeTypes == Put(old(nodeTypes), n, TypeOf(f.Value(), n))
      ensures nodeLabels == Put(old(nodeLabels), n, NodeLabelOf(f.Value(), n))
    {
      nodeTypes, nodeLabels := nodeTypes - {n}, nodeLabels - {n};
      if n in f.nodeAttrs {
        var st := f.nodeAttrs[n];
        if st.ty.Some? {
          nodeTypes := nodeTypes[n := st.ty.value.value];
        }
        if st.access.Some? {
          nodeLabels := nodeLabels[n := st.access.value.value];
        }
      }
      PutAfterDrop(old(nodeTypes), n, TypeOf(f.Value(), n));
      PutAfterDrop(old(nodeLabels), n, NodeLabelOf(f.Value(), n));
    }

    /** Re-observe every key of `keys`; the others show the same in `f` as in `was`. */
    method RefreshKeys(f: Fold, ghost was: State, keys: set<Key>)
      requires Indexed()
      requires forall k :: ShownAt(was, k)
      requires forall k :: k !in keys ==> SameAt(was, f.Value(), k)
      modifies `one, `oneHistory, `oneValues, `many, `manyHistory, `edgeProps, `factLabels, `labelCounts
      ensures Indexed()
      ensures forall k :: ShownAt(f.Value(), k)
    {
      hide OneRows, ManyRows, PropsOf, LiveLabels, PresentIn, HeadOf, NonEmptyRows, NonEmptySet, NonEmptyMap, Counts,
           Index, Put;
      forall k | k !in keys
        ensures ShownAt(f.Value(), k)
      {
        assert ShownAt(was, k) && SameAt(was, f.Value(), k);
      }
      var todo := keys;
      while todo != {}
        invariant todo <= keys && Indexed()
        invariant forall k :: k !in todo ==> ShownAt(f.Value(), k)
      {
        var k :| k in todo;
        ghost var o, oh, m, mh, e, l := one, oneHistory, many, manyHistory, edgeProps, factLabels;
        ObserveKey(f, k);
        ghost var g := f.Value();
        PutGet(o, k, HeadOf(OneRows(g, k)));
        PutGet(oh, k, NonEmptyRows(OneRows(g, k)));
        PutGet(m, k, NonEmptySet(PresentIn(ManyRows(g, k))));
        PutGet(mh, k, NonEmptyMap(ManyRows(g, k)));
        PutGet(e, k, NonEmptyMap(PropsOf(g, k)));
        PutGet(l, k, NonEmptyMap(LiveLabels(g, k)));
        todo := todo - {k};
      }
    }

    /** Refresh the keys and nodes that changed since the cache showed `was`. */
    method Refresh(f: Fold, ghost was: State, keys: set<Key>, nodes: set<NodeId>)
      requires Shows(was)
      requires forall k :: k !in keys ==> SameAt(was, f.Value(), k)
      requires forall n :: n !in nodes ==> Get(was.nodeAttrs, n) == Get(f.nodeAttrs, n)
      modifies this
      ensures Shows(f.Value())
    {
      hide OneRows, ManyRows, PropsOf, LiveLabels, PresentIn, HeadOf, NonEmptyRows, NonEmptySet, NonEmptyMap, Counts,
           Index, SameAt;
      RefreshKeys(f, was, keys);
      forall n | n !in nodes
        ensures NodeShownAt(f.Value(), n)
      {
        assert NodeShownAt(was, n) && Get(was.nodeAttrs, n) == Get(f.nodeAttrs, n);
      }
      var todo := nodes;
      while todo != {}
        invariant todo <= nodes && Indexed()
        invariant forall k :: ShownAt(f.Value(), k)
        invariant forall n :: n !in todo ==> NodeShownAt(f.Value(), n)
      {
        var n :| n in todo;
        ObserveNode(f, n);
        todo := todo - {n};
      }
    }

    lemma ShowsOne(f: State)
      requires forall k :: ShownAt(f, k)
      ensures oneHistory == OneHistoryOf(f) && one == Heads(OneHistoryOf(f))
    {
      forall k: Key
        ensures Get(oneHistory, k) == Get(OneHistoryOf(f), k)
        ensures Get(one, k) == Get(Heads(OneHistoryOf(f)), k)
      {
        assert ShownAt(f, k);
      }
      SameMaps(one, Heads(OneHistoryOf(f)));
      SameMaps(oneHistory, OneHistoryOf(f));
    }

    lemma ShowsMany(f: State)
      requires forall k :: ShownAt(f, k)
      ensures manyHistory == ManyHistoryOf(f) && many == PresentSets(ManyHistoryOf(f))
    {
      forall k: Key
        ensures Get(manyHistory, k) == Get(ManyHistoryOf(f), k)
        ensures Get(many, k) == Get(PresentSets(ManyHistoryOf(f)), k)
      {
        assert ShownAt(f, k);
        ManyHistoryAt(f, k);
      }
      SameMaps(many, PresentSets(ManyHistoryOf(f)));
      SameMaps(manyHistory, ManyHistoryOf(f));
    }

    lemma ShowsRest(f: State)
      requires Shows(f)
      ensures edgeProps == EdgePropsOf(f) && factLabels == LabelsOf(f)
      ensures nodeTypes == Observe(f, hash).nodeTypes && nodeLabels == Observe(f, hash).nodeLabels
    {
      forall k: Key
        ensures Get(edgeProps, k) == Get(EdgePropsOf(f), k) && Get(factLabels, k) == Get(LabelsOf(f), k)
      {
        assert ShownAt(f, k);
        EdgePropsAt(f, k);
        LabelsAt(f, k);
      }
      forall n: NodeId
        ensures Get(nodeTypes, n) == Get(Observe(f, hash).nodeTypes, n)
        ensures Get(nodeLabels, n) == Get(Observe(f, hash).nodeLabels, n)
      {
        assert NodeShownAt(f, n);
      }
      SameMaps(edgeProps, EdgePropsOf(f));
      SameMaps(factLabels, LabelsOf(f));
      SameMaps(nodeTypes, Observe(f, hash).nodeTypes);
      SameMaps(nodeLabels, Observe(f, hash).nodeLabels);
    }

    /** Showing every key and node of `f` is being its full observation. */
    lemma ShowsIsObserve(f: State)
      requires Shows(f)
      ensures Value() == Observe(f, hash)
    {
      ShowsOne(f);
      ShowsMany(f);
      ShowsRest(f);
    }
  }
}
