/** Garbage collection is invisible, now and after every later op, merge and collection. */
module Collection {
  import opened Types
  import opened Rows
  import opened Folds
  import opened FoldLaws
  import opened Snapshots

  // --- what a collection keeps -----------------------------------------------------------------

  lemma GcLive(f: State, k: Key)
    ensures LiveOne(Gc(f), k) == LiveOne(f, k)
    ensures forall o :: LiveElem(Gc(f), k, o) == LiveElem(f, k, o)
  {
    forall o
      ensures LiveElem(Gc(f), k, o) == LiveElem(f, k, o)
    {
      if k in f.keys && f.keys[k].ManyState? && f.keys[k].hd.Some? && o in f.keys[k].elems {
        var st, h := f.keys[k], f.keys[k].hd.value;
        if KeepAbove(st.elems[o], h) == map[] {
          assert forall ok :: ok in st.elems[o] && h.Less(ok) ==> ok in KeepAbove(st.elems[o], h);
          assert LiveElem(f, k, o) == map[];
        } else {
          assert LiveElem(Gc(f), k, o) == LiveElem(f, k, o);
        }
      }
    }
  }

  lemma GcManyRows(f: State, k: Key)
    ensures ManyRows(Gc(f), k) == ManyRows(f, k)
  {
    GcLive(f, k);
    forall o
      ensures Get(ManyRows(Gc(f), k), o) == Get(ManyRows(f, k), o)
    {
      assert LiveElem(Gc(f), k, o) == LiveElem(f, k, o);
      if o in Elems(f, k) && o !in Elems(Gc(f), k) {
        assert LiveElem(Gc(f), k, o) == map[];
      }
    }
    SameMaps(ManyRows(Gc(f), k), ManyRows(f, k));
  }

  /** The labels stored for a key's rows. */
  function StoredLabels(f: State, k: Key): map<OrderKey, Label> { GetOr(f.factLabels, k, map[]) }

  lemma GcStoredLabels(f: State, k: Key)
    ensures StoredLabels(Gc(f), k) == GcLabels(f, k)
    ensures Floor(Gc(f), k) == Floor(f, k)
  {
    if k !in f.factLabels {
      assert GcLabels(f, k) == map[];
    }
  }

  lemma LiveKeysAbove(f: State, k: Key, ok: OrderKey)
    requires ok in LiveKeys(f, k)
    ensures Above(ok, Floor(f, k))
  {
  }

  lemma LiveKeysFrom(f: State, k: Key, ok: OrderKey)
    ensures ok in LiveKeys(f, k) <==> ok in LiveOne(f, k) || exists o :: ok in LiveElem(f, k, o)
  {
  }

  lemma GcLiveLabels(f: State, k: Key)
    ensures LiveLabels(Gc(f), k) == LiveLabels(f, k)
  {
    GcLive(f, k);
    GcStoredLabels(f, k);
    forall ok
      ensures Get(LiveLabels(Gc(f), k), ok) == Get(LiveLabels(f, k), ok)
    {
      LiveKeysFrom(f, k, ok);
      LiveKeysFrom(Gc(f), k, ok);
      if ok in LiveKeys(f, k) {
        LiveKeysAbove(f, k, ok);
      }
    }
    SameMaps(LiveLabels(Gc(f), k), LiveLabels(f, k));
  }

  /** A collection preserves the observation. */
  lemma GcObserve(f: State, h: Hash)
    ensures Observe(Gc(f), h) == Observe(f, h)
  {
    forall k
      ensures SameAt(Gc(f), f, k)
    {
      GcLive(f, k);
      GcManyRows(f, k);
      GcLiveLabels(f, k);
    }
    ObserveEqual(Gc(f), f, h);
  }

  // --- collecting before a join ----------------------------------------------------------------

  lemma KeepAboveUnion<V>(a: map<OrderKey, V>, b: map<OrderKey, V>, low: OrderKey, high: OrderKey)
    requires low == high || low.Less(high)
    ensures KeepAbove(KeepAbove(a, low) + b, high) == KeepAbove(a + b, high)
    ensures KeepAbove(KeepAbove(a, low), high) == KeepAbove(a, high)
  {
  }

  function ElemRows(st: KeyState, o: ObjKey): map<OrderKey, Version>
    requires st.ManyState?
  {
    GetOr(st.elems, o, map[])
  }

  lemma GcElem(st: KeyState, o: ObjKey)
    requires st.ManyState? && st.hd.Some?
    ensures ElemRows(GcKey(st), o) == KeepAbove(ElemRows(st, o), st.hd.value)
    ensures o in GcKey(st).elems <==> KeepAbove(ElemRows(st, o), st.hd.value) != map[]
  {
    assert o !in st.elems ==> KeepAbove(ElemRows(st, o), st.hd.value) == map[];
  }

  lemma JoinElem(x: KeyState, y: KeyState, o: ObjKey)
    requires x.ManyState? && y.ManyState?
    ensures ElemRows(JoinKey(x, y), o) == ElemRows(x, o) + ElemRows(y, o)
  {
    assert ElemRows(x, o) + map[] == ElemRows(x, o) && map[] + ElemRows(y, o) == ElemRows(y, o);
  }

  lemma KeepAboveElems(x: KeyState, y: KeyState, o: ObjKey)
    requires x.ManyState? && y.ManyState? && x.hd.Some?
    ensures Get(GcKey(JoinKey(GcKey(x), y)).elems, o) == Get(GcKey(JoinKey(x, y)).elems, o)
  {
    JoinElem(GcKey(x), y, o);
    JoinElem(x, y, o);
    GcElem(x, o);
    GcElem(JoinKey(GcKey(x), y), o);
    GcElem(JoinKey(x, y), o);
    KeepAboveUnion(ElemRows(x, o), ElemRows(y, o), x.hd.value, MaxKey(x.hd, y.hd).value);
  }

  lemma GcKeyJoin(x: KeyState, y: KeyState)
    requires x.Card() == y.Card()
    ensures GcKey(JoinKey(GcKey(x), y)) == GcKey(JoinKey(x, y))
  {
    if x.hd.Some? {
      var low, high := x.hd.value, MaxKey(x.hd, y.hd).value;
      if x.OneState? {
        KeepAboveUnion(x.versions, y.versions, low, high);
      } else {
        forall o
          ensures Get(GcKey(JoinKey(GcKey(x), y)).elems, o) == Get(GcKey(JoinKey(x, y)).elems, o)
        {
          KeepAboveElems(x, y, o);
        }
        SameMaps(GcKey(JoinKey(GcKey(x), y)).elems, GcKey(JoinKey(x, y)).elems);
        assert GcKey(JoinKey(GcKey(x), y)).removes == GcKey(JoinKey(x, y)).removes;
      }
    }
  }

  lemma GcKeyIdempotent(x: KeyState)
    ensures GcKey(GcKey(x)) == GcKey(x)
  {
    if x.hd.Some? {
      if x.OneState? {
        assert KeepAbove(KeepAbove(x.versions, x.hd.value), x.hd.value) == KeepAbove(x.versions, x.hd.value);
      } else {
        assert forall o :: o in x.elems ==>
          KeepAbove(KeepAbove(x.elems[o], x.hd.value), x.hd.value) == KeepAbove(x.elems[o], x.hd.value);
        assert GcKey(GcKey(x)).elems == GcKey(x).elems;
        assert GcKey(GcKey(x)).removes == GcKey(x).removes;
      }
    }
  }

  lemma JoinStoredLabels(f: State, g: State, k: Key)
    ensures StoredLabels(Join(f, g), k) == StoredLabels(f, k) + StoredLabels(g, k)
    ensures Floor(Join(f, g), k) == if k in f.keys && k in g.keys && f.keys[k].Card() != g.keys[k].Card() then Floor(f, k)
                                    else MaxKey(Floor(f, k), Floor(g, k))
  {
    assert map[] + StoredLabels(g, k) == StoredLabels(g, k);
    assert StoredLabels(f, k) + map[] == StoredLabels(f, k);
  }

  lemma GcLabelsJoin(f: State, g: State, k: Key)
    requires SameCards(f, g)
    ensures GcLabels(Join(Gc(f), g), k) == GcLabels(Join(f, g), k)
  {
    JoinStoredLabels(f, g, k);
    JoinStoredLabels(Gc(f), g, k);
    GcStoredLabels(f, k);
    if Floor(f, k).Some? {
      KeepAboveUnion(StoredLabels(f, k), StoredLabels(g, k), Floor(f, k).value, MaxKey(Floor(f, k), Floor(g, k)).value);
    }
  }

  lemma GcCards(f: State)
    ensures Gc(f).keys.Keys == f.keys.Keys
    ensures forall k :: k in f.keys ==> Gc(f).keys[k].Card() == f.keys[k].Card()
  {
  }

  /** Collecting before a merge makes no difference to the merged state once that is collected. */
  lemma GcJoin(f: State, g: State)
    requires SameCards(f, g)
    ensures Gc(Join(Gc(f), g)) == Gc(Join(f, g))
  {
    hide GcKey, JoinKey, GcLabels, JoinEdgeProps, JoinAttrs, JoinLabels;
    GcCards(f);
    forall k | k in f.keys && k in g.keys
      ensures GcKey(JoinKey(GcKey(f.keys[k]), g.keys[k])) == GcKey(JoinKey(f.keys[k], g.keys[k]))
    {
      GcKeyJoin(f.keys[k], g.keys[k]);
    }
    forall k | k in f.keys
      ensures GcKey(GcKey(f.keys[k])) == GcKey(f.keys[k])
    {
      GcKeyIdempotent(f.keys[k]);
    }
    assert Gc(Join(Gc(f), g)).keys == Gc(Join(f, g)).keys;
    forall k
      ensures Get(GcLabelStore(Join(Gc(f), g)), k) == Get(GcLabelStore(Join(f, g)), k)
    {
      GcLabelsJoin(f, g, k);
      GcStoredLabels(Join(Gc(f), g), k);
      GcStoredLabels(Join(f, g), k);
    }
    SameMaps(GcLabelStore(Join(Gc(f), g)), GcLabelStore(Join(f, g)));
  }

  // --- every continuation ----------------------------------------------------------------------

  /** What may happen to a fold after a collection. */
  datatype Step = Write(lop: LabeledOp) | MergeIn(other: State) | CollectNow

  function Run(f: State, steps: seq<Step>): State
    decreases |steps|
  {
    if steps == [] then f
    else
      var g := Run(f, steps[..|steps| - 1]);
      match steps[|steps| - 1]
      case Write(lop) => ApplyLabeled(g, lop)
      case MergeIn(other) => Join(g, other)
      case CollectNow => Gc(g)
  }

  ghost predicate TypedSteps(steps: seq<Step>, card: Key -> Cardinality) {
    forall i :: 0 <= i < |steps| ==>
      match steps[i]
      case Write(lop) => TypedOp(lop.op, card)
      case MergeIn(other) => TypedState(other, card)
      case CollectNow => true
  }

  /** Equal once collected. */
  ghost predicate GcSame(f: State, g: State) { Gc(f) == Gc(g) }

  lemma GcSameJoin(f: State, g: State, x: State, card: Key -> Cardinality)
    requires GcSame(f, g) && TypedState(f, card) && TypedState(g, card) && TypedState(x, card)
    ensures GcSame(Join(f, x), Join(g, x))
  {
    GcJoin(f, x);
    GcJoin(g, x);
  }

  lemma GcIdempotent(f: State)
    ensures Gc(Gc(f)) == Gc(f)
  {
    JoinEmpty(f);
    JoinEmpty(Gc(f));
    GcJoin(f, Empty);
  }

  lemma {:induction false} GcSameRun(f: State, g: State, steps: seq<Step>, card: Key -> Cardinality)
    requires GcSame(f, g) && TypedState(f, card) && TypedState(g, card) && TypedSteps(steps, card)
    ensures GcSame(Run(f, steps), Run(g, steps))
    ensures TypedState(Run(f, steps), card) && TypedState(Run(g, steps), card)
    decreases |steps|
  {
    if steps != [] {
      var n := |steps| - 1;
      GcSameRun(f, g, steps[..n], card);
      var a, b := Run(f, steps[..n]), Run(g, steps[..n]);
      match steps[n]
      case Write(lop) =>
        UnitTyped(lop, card);
        ApplyIsJoin(a, lop);
        ApplyIsJoin(b, lop);
        GcSameJoin(a, b, Unit(lop), card);
        JoinTyped(a, Unit(lop), card);
        JoinTyped(b, Unit(lop), card);
      case MergeIn(other) =>
        GcSameJoin(a, b, other, card);
        JoinTyped(a, other, card);
        JoinTyped(b, other, card);
      case CollectNow =>
        GcIdempotent(a);
        GcIdempotent(b);
        GcCards(a);
        GcCards(b);
    }
  }

  /** Whatever ops, merges and collections follow, a collected fold and an uncollected one look the same. */
  lemma GcInvisible(f: State, steps: seq<Step>, card: Key -> Cardinality, h: Hash)
    requires TypedState(f, card) && TypedSteps(steps, card)
    ensures Observe(Run(Gc(f), steps), h) == Observe(Run(f, steps), h)
  {
    GcIdempotent(f);
    GcCards(f);
    GcSameRun(Gc(f), f, steps, card);
    GcObserve(Run(Gc(f), steps), h);
    GcObserve(Run(f, steps), h);
  }

  // --- nothing dominated is left ---------------------------------------------------------------

  /** The order key outlives the hard deletes of its key. */
  predicate Outlives(f: State, k: Key, ok: OrderKey) { Above(ok, Floor(f, k)) }

  /** A collection keeps of every key's rows, tombstones and labels exactly those above its floor, and the floor itself;
      it leaves no element or label entry empty that it took something from. */
  lemma GcExact(f: State, k: Key, o: ObjKey, ok: OrderKey)
    ensures Floor(Gc(f), k) == Floor(f, k) && Gc(f).edgeProps == f.edgeProps && Gc(f).nodeAttrs == f.nodeAttrs
    ensures k in Gc(f).keys <==> k in f.keys
    ensures k in f.keys && f.keys[k].OneState? ==>
      && Gc(f).keys[k].OneState?
      && Get(Gc(f).keys[k].versions, ok) == if Outlives(f, k, ok) then Get(f.keys[k].versions, ok) else None
    ensures k in f.keys && f.keys[k].ManyState? ==>
      && Gc(f).keys[k].ManyState?
      && (ok in Gc(f).keys[k].removes <==> ok in f.keys[k].removes && Outlives(f, k, ok))
      && Get(GetOr(Gc(f).keys[k].elems, o, map[]), ok) ==
           (if Outlives(f, k, ok) then Get(GetOr(f.keys[k].elems, o, map[]), ok) else None)
      && (o in Gc(f).keys[k].elems && Gc(f).keys[k].elems[o] == map[] ==> f.keys[k].hd.None?)
    ensures Get(StoredLabels(Gc(f), k), ok) == if Outlives(f, k, ok) then Get(StoredLabels(f, k), ok) else None
    ensures k in Gc(f).factLabels ==> Gc(f).factLabels[k] != map[]
  {
    GcStoredLabels(f, k);
  }
}
