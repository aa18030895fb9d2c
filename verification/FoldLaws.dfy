/** The fold's state is a join-semilattice, so folds converge. */
module FoldLaws {
  import opened Types
  import opened Folds

  // --- the laws of the join --------------------------------------------------------------------

  lemma JoinMapAssoc<K, V>(a: map<K, V>, b: map<K, V>, c: map<K, V>, j: (V, V) -> V)
    requires forall k :: k in a && k in b && k in c ==> j(j(a[k], b[k]), c[k]) == j(a[k], j(b[k], c[k]))
    ensures JoinMap(JoinMap(a, b, j), c, j) == JoinMap(a, JoinMap(b, c, j), j)
  {
  }

  lemma UnionAssoc<K, V>(a: map<K, V>, b: map<K, V>, c: map<K, V>)
    ensures (a + b) + c == a + (b + c)
  {
  }

  lemma UnionComm<K, V>(a: map<K, V>, b: map<K, V>)
    requires forall k :: k in a && k in b ==> a[k] == b[k]
    ensures a + b == b + a
  {
  }

  lemma JoinMapIdem<K, V>(a: map<K, V>, j: (V, V) -> V)
    requires forall k :: k in a ==> j(a[k], a[k]) == a[k]
    ensures JoinMap(a, a, j) == a
  {
  }

  lemma JoinPropsAssoc(a: EdgeProps, b: EdgeProps, c: EdgeProps)
    ensures JoinEdgeProps(JoinEdgeProps(a, b), c) == JoinEdgeProps(a, JoinEdgeProps(b, c))
  {
    forall o | o in a && o in b && o in c
      ensures JoinProps(JoinProps(a[o], b[o]), c[o]) == JoinProps(a[o], JoinProps(b[o], c[o]))
    {
      JoinMapAssoc(a[o], b[o], c[o], JoinObjReg);
    }
    JoinMapAssoc(a, b, c, JoinProps);
  }

  lemma JoinKeyAssoc(a: KeyState, b: KeyState, c: KeyState)
    requires a.Card() == b.Card() == c.Card()
    ensures JoinKey(JoinKey(a, b), c) == JoinKey(a, JoinKey(b, c))
  {
    if a.ManyState? {
      forall o | o in a.elems && o in b.elems && o in c.elems
        ensures JoinRows(JoinRows(a.elems[o], b.elems[o]), c.elems[o])
          == JoinRows(a.elems[o], JoinRows(b.elems[o], c.elems[o]))
      {
        UnionAssoc(a.elems[o], b.elems[o], c.elems[o]);
      }
      JoinMapAssoc(a.elems, b.elems, c.elems, JoinRows);
    } else {
      UnionAssoc(a.versions, b.versions, c.versions);
    }
  }

  /** Merging is associative. */
  lemma JoinAssociative(a: State, b: State, c: State)
    requires SameCards(a, b) && SameCards(b, c) && SameCards(a, c)
    ensures Join(Join(a, b), c) == Join(a, Join(b, c))
  {
    hide JoinKey, JoinEdgeProps;
    forall k | k in a.keys && k in b.keys && k in c.keys
      ensures JoinKey(JoinKey(a.keys[k], b.keys[k]), c.keys[k]) == JoinKey(a.keys[k], JoinKey(b.keys[k], c.keys[k]))
    {
      JoinKeyAssoc(a.keys[k], b.keys[k], c.keys[k]);
    }
    JoinMapAssoc(a.keys, b.keys, c.keys, JoinKey);
    forall k | k in a.edgeProps && k in b.edgeProps && k in c.edgeProps
      ensures JoinEdgeProps(JoinEdgeProps(a.edgeProps[k], b.edgeProps[k]), c.edgeProps[k])
           == JoinEdgeProps(a.edgeProps[k], JoinEdgeProps(b.edgeProps[k], c.edgeProps[k]))
    {
      JoinPropsAssoc(a.edgeProps[k], b.edgeProps[k], c.edgeProps[k]);
    }
    JoinMapAssoc(a.edgeProps, b.edgeProps, c.edgeProps, JoinEdgeProps);
    JoinMapAssoc(a.nodeAttrs, b.nodeAttrs, c.nodeAttrs, JoinAttrs);
    forall k | k in a.factLabels && k in b.factLabels && k in c.factLabels
      ensures JoinLabels(JoinLabels(a.factLabels[k], b.factLabels[k]), c.factLabels[k])
           == JoinLabels(a.factLabels[k], JoinLabels(b.factLabels[k], c.factLabels[k]))
    {
      UnionAssoc(a.factLabels[k], b.factLabels[k], c.factLabels[k]);
    }
    JoinMapAssoc(a.factLabels, b.factLabels, c.factLabels, JoinLabels);
  }

  /** Merging a fold with itself changes nothing. */
  lemma JoinIdempotent(a: State)
    ensures Join(a, a) == a
  {
    forall k | k in a.keys
      ensures JoinKey(a.keys[k], a.keys[k]) == a.keys[k]
    {
      var st := a.keys[k];
      if st.OneState? {
        assert JoinRows(st.versions, st.versions) == st.versions;
      } else {
        assert forall o :: o in st.elems ==> JoinRows(st.elems[o], st.elems[o]) == st.elems[o];
        JoinMapIdem(st.elems, JoinRows);
      }
    }
    JoinMapIdem(a.keys, JoinKey);
    forall k | k in a.edgeProps
      ensures JoinEdgeProps(a.edgeProps[k], a.edgeProps[k]) == a.edgeProps[k]
    {
      forall o | o in a.edgeProps[k]
        ensures JoinProps(a.edgeProps[k][o], a.edgeProps[k][o]) == a.edgeProps[k][o]
      {
        JoinMapIdem(a.edgeProps[k][o], JoinObjReg);
      }
      JoinMapIdem(a.edgeProps[k], JoinProps);
    }
    JoinMapIdem(a.edgeProps, JoinEdgeProps);
    JoinMapIdem(a.nodeAttrs, JoinAttrs);
    assert forall k :: k in a.factLabels ==> JoinLabels(a.factLabels[k], a.factLabels[k]) == a.factLabels[k];
    JoinMapIdem(a.factLabels, JoinLabels);
  }

  /** Which op each order key belongs to: order keys are unique, so this is a function. */
  type Universe = OrderKey -> LabeledOp

  predicate HasKey(op: Op) { !op.RemoveMany? }

  ghost predicate OpIn(lop: LabeledOp, u: Universe) {
    HasKey(lop.op) ==> u(lop.op.ok) == lop
  }

  function RowOf(lop: LabeledOp): Version {
    if lop.op.WritesRow() then lop.op.RowVersion() else Version(None, 0, None)
  }

  ghost predicate RowsFrom(m: map<OrderKey, Version>, u: Universe) {
    forall ok :: ok in m ==> m[ok] == RowOf(u(ok))
  }

  ghost predicate KeyFrom(st: KeyState, u: Universe) {
    match st
    case OneState(v, _) => RowsFrom(v, u)
    case ManyState(e, _, _) => forall o :: o in e ==> RowsFrom(e[o], u)
  }

  ghost predicate PropsFrom(m: Props, u: Universe) {
    forall p :: p in m ==> u(m[p].ok).op.SetEdgeProp? && u(m[p].ok).op.value == m[p].value
  }

  ghost predicate EdgePropsFrom(m: EdgeProps, u: Universe) {
    forall o :: o in m ==> PropsFrom(m[o], u)
  }

  ghost predicate AttrsFrom(at: NodeAttrs, u: Universe) {
    && (at.ty.Some? ==> u(at.ty.value.ok).op.SetNodeType? && u(at.ty.value.ok).op.typeId == at.ty.value.value)
    && (at.access.Some? ==>
         u(at.access.value.ok).op.SetNodeLabel? && u(at.access.value.ok).op.access == at.access.value.value)
  }

  ghost predicate LabelsFrom(m: map<OrderKey, Label>, u: Universe) {
    forall ok :: ok in m ==> u(ok).access == Some(m[ok])
  }

  /** Every row, register and label of `f` was written by the op that its order key belongs to. */
  ghost predicate From(f: State, u: Universe) {
    && (forall k :: k in f.keys ==> KeyFrom(f.keys[k], u))
    && (forall k :: k in f.edgeProps ==> EdgePropsFrom(f.edgeProps[k], u))
    && (forall n :: n in f.nodeAttrs ==> AttrsFrom(f.nodeAttrs[n], u))
    && (forall k :: k in f.factLabels ==> LabelsFrom(f.factLabels[k], u))
  }

  lemma JoinMapComm<K, V>(a: map<K, V>, b: map<K, V>, j: (V, V) -> V)
    requires forall k :: k in a && k in b ==> j(a[k], b[k]) == j(b[k], a[k])
    ensures JoinMap(a, b, j) == JoinMap(b, a, j)
  {
  }

  lemma JoinKeyComm(x: KeyState, y: KeyState, u: Universe)
    requires KeyFrom(x, u) && KeyFrom(y, u) && x.Card() == y.Card()
    ensures JoinKey(x, y) == JoinKey(y, x)
  {
    if x.OneState? {
      UnionComm(x.versions, y.versions);
    } else {
      forall o | o in x.elems && o in y.elems
        ensures JoinRows(x.elems[o], y.elems[o]) == JoinRows(y.elems[o], x.elems[o])
      {
        UnionComm(x.elems[o], y.elems[o]);
      }
      JoinMapComm(x.elems, y.elems, JoinRows);
    }
  }

  lemma JoinPropsComm(x: EdgeProps, y: EdgeProps, u: Universe)
    requires EdgePropsFrom(x, u) && EdgePropsFrom(y, u)
    ensures JoinEdgeProps(x, y) == JoinEdgeProps(y, x)
  {
    forall o | o in x && o in y
      ensures JoinProps(x[o], y[o]) == JoinProps(y[o], x[o])
    {
      JoinMapComm(x[o], y[o], JoinObjReg);
    }
    JoinMapComm(x, y, JoinProps);
  }

  /** Merging is commutative on folds written by ops with unique order keys. */
  lemma JoinCommutative(a: State, b: State, u: Universe)
    requires SameCards(a, b) && From(a, u) && From(b, u)
    ensures Join(a, b) == Join(b, a)
  {
    forall k | k in a.keys && k in b.keys
      ensures JoinKey(a.keys[k], b.keys[k]) == JoinKey(b.keys[k], a.keys[k])
    {
      JoinKeyComm(a.keys[k], b.keys[k], u);
    }
    JoinMapComm(a.keys, b.keys, JoinKey);
    forall k | k in a.edgeProps && k in b.edgeProps
      ensures JoinEdgeProps(a.edgeProps[k], b.edgeProps[k]) == JoinEdgeProps(b.edgeProps[k], a.edgeProps[k])
    {
      JoinPropsComm(a.edgeProps[k], b.edgeProps[k], u);
    }
    JoinMapComm(a.edgeProps, b.edgeProps, JoinEdgeProps);
    JoinMapComm(a.nodeAttrs, b.nodeAttrs, JoinAttrs);
    forall k | k in a.factLabels && k in b.factLabels
      ensures JoinLabels(a.factLabels[k], b.factLabels[k]) == JoinLabels(b.factLabels[k], a.factLabels[k])
    {
      UnionComm(a.factLabels[k], b.factLabels[k]);
    }
    JoinMapComm(a.factLabels, b.factLabels, JoinLabels);
  }

  // --- folding a log is joining its ops --------------------------------------------------------

  function Unit(lop: LabeledOp): State { ApplyLabeled(Empty, lop) }

  lemma ApplyKeyIsJoin(st: KeyState, op: Op)
    requires op.KeyCard() == Some(st.Card())
    ensures ApplyKey(st, op) == JoinKey(st, ApplyKey(NewKeyState(st.Card()), op))
    ensures ApplyKey(NewKeyState(st.Card()), op).Card() == st.Card()
  {
    var unit := ApplyKey(NewKeyState(st.Card()), op);
    if st.OneState? {
      assert ApplyKey(st, op).versions == JoinRows(st.versions, unit.versions);
    } else if op.AddMany? || op.CloseMany? {
      AddRowIsJoin(st.elems, op.obj, op.ok, op.RowVersion());
      assert st.removes + {} == st.removes;
    } else {
      JoinMapEmpty(st.elems, JoinRows);
      assert ApplyKey(st, op).removes == st.removes + unit.removes;
    }
  }

  lemma AddRowIsJoin(elems: map<ObjKey, map<OrderKey, Version>>, o: ObjKey, ok: OrderKey, v: Version)
    ensures elems[o := GetOr(elems, o, map[])[ok := v]] == JoinMap(elems, map[o := map[ok := v]], JoinRows)
  {
    JoinMapOne(elems, o, map[ok := v], JoinRows);
    assert GetOr(elems, o, map[])[ok := v] == GetOr(elems, o, map[]) + map[ok := v];
  }

  lemma WritePropIsJoin(m: EdgeProps, o: ObjKey, p: Text, r: Reg<ObjKey>)
    ensures m[o := GetOr(m, o, map[])[p := WriteReg(Get(GetOr(m, o, map[]), p), r.ok, r.value)]]
         == JoinEdgeProps(m, map[o := map[p := r]])
  {
    var props := GetOr(m, o, map[]);
    assert props[p := WriteReg(Get(props, p), r.ok, r.value)] == JoinProps(props, map[p := r]);
  }

  lemma JoinMapEmpty<K, V>(a: map<K, V>, j: (V, V) -> V)
    ensures JoinMap(a, map[], j) == a && JoinMap(map[], a, j) == a
  {
  }

  lemma JoinMapOne<K, V>(a: map<K, V>, k: K, v: V, j: (V, V) -> V)
    ensures JoinMap(a, map[k := v], j) == a[k := if k in a then j(a[k], v) else v]
  {
  }

  lemma JoinEmpty(a: State)
    ensures Join(Empty, a) == a && Join(a, Empty) == a
  {
    JoinMapEmpty(a.keys, JoinKey);
    JoinMapEmpty(a.edgeProps, JoinEdgeProps);
    JoinMapEmpty(a.nodeAttrs, JoinAttrs);
    JoinMapEmpty(a.factLabels, JoinLabels);
  }

  lemma ApplyKeyOpIsJoin(f: State, op: Op)
    requires op.KeyCard().Some? && Accepts(f, op)
    ensures Apply(f, op) == Join(f, Apply(Empty, op))
  {
    var init := NewKeyState(op.KeyCard().value);
    ApplyKeyIsJoin(GetOr(f.keys, op.key, init), op);
    ApplyKeyIsJoin(init, op);
    var unit := ApplyKey(init, op);
    assert Apply(Empty, op) == State(map[op.key := unit], map[], map[], map[]);
    JoinMapOne(f.keys, op.key, unit, JoinKey);
    JoinMapEmpty(f.edgeProps, JoinEdgeProps);
    JoinMapEmpty(f.nodeAttrs, JoinAttrs);
    JoinMapEmpty(f.factLabels, JoinLabels);
  }

  lemma ApplyPropIsJoin(f: State, op: Op)
    requires op.SetEdgeProp?
    ensures Apply(f, op) == Join(f, Apply(Empty, op))
  {
    var r := Reg(op.ok, op.value);
    var unit: EdgeProps := map[op.obj := map[op.prop := r]];
    WritePropIsJoin(GetOr(f.edgeProps, op.key, map[]), op.obj, op.prop, r);
    JoinMapEmpty(unit, JoinProps);
    assert Apply(Empty, op) == State(map[], map[op.key := unit], map[], map[]);
    JoinMapOne(f.edgeProps, op.key, unit, JoinEdgeProps);
    JoinMapEmpty(f.keys, JoinKey);
    JoinMapEmpty(f.nodeAttrs, JoinAttrs);
    JoinMapEmpty(f.factLabels, JoinLabels);
  }

  lemma ApplyAttrIsJoin(f: State, op: Op)
    requires op.NodeAttr()
    ensures Apply(f, op) == Join(f, Apply(Empty, op))
  {
    var unit := if op.SetNodeType? then NodeAttrs(Some(Reg(op.ok, op.typeId)), None)
                else NodeAttrs(None, Some(Reg(op.ok, op.access)));
    assert Apply(Empty, op) == State(map[], map[], map[op.node := unit], map[]);
    JoinMapOne(f.nodeAttrs, op.node, unit, JoinAttrs);
    JoinMapEmpty(f.keys, JoinKey);
    JoinMapEmpty(f.edgeProps, JoinEdgeProps);
    JoinMapEmpty(f.factLabels, JoinLabels);
  }

  /** Folding an op in is joining with the fold of that op alone. */
  lemma ApplyIsJoin(f: State, lop: LabeledOp)
    requires Accepts(f, lop.op)
    ensures ApplyLabeled(f, lop) == Join(f, Unit(lop))
  {
    hide Apply;
    ApplyKeepsLabels(f, lop.op);
    ApplyKeepsLabels(Empty, lop.op);
    if lop.op.KeyCard().Some? {
      ApplyKeyOpIsJoin(f, lop.op);
    } else if lop.op.SetEdgeProp? {
      ApplyPropIsJoin(f, lop.op);
    } else {
      ApplyAttrIsJoin(f, lop.op);
    }
    if lop.access.Some? && lop.op.WritesRow() {
      var k, rows, unit := lop.op.key, GetOr(f.factLabels, lop.op.key, map[]), map[lop.op.ok := lop.access.value];
      UnitLabels(lop);
      JoinMapOne(f.factLabels, k, unit, JoinLabels);
      assert rows[lop.op.ok := lop.access.value] == rows + unit;
      assert map[] + unit == unit;
    }
  }

  lemma ApplyKeepsLabels(f: State, op: Op)
    ensures Apply(f, op).factLabels == f.factLabels
  {
    hide ApplyKey;
  }

  /** Which stores an op changes, and how it changes its key's state. */
  lemma StoresAfter(f: State, lop: LabeledOp)
    requires Accepts(f, lop.op)
    ensures var g, op := ApplyLabeled(f, lop), lop.op;
      && (op.KeyCard().Some? ==>
           g.keys == f.keys[op.key := ApplyKey(GetOr(f.keys, op.key, NewKeyState(op.KeyCard().value)), op)])
      && (op.KeyCard().None? ==> g.keys == f.keys)
      && (!op.SetEdgeProp? ==> g.edgeProps == f.edgeProps)
      && (!op.NodeAttr() ==> g.nodeAttrs == f.nodeAttrs)
  {
    hide ApplyKey, WriteReg;
  }

  lemma UnitLabels(lop: LabeledOp)
    requires lop.access.Some? && lop.op.WritesRow()
    ensures Unit(lop) == Apply(Empty, lop.op).(factLabels := map[lop.op.key := map[lop.op.ok := lop.access.value]])
  {
  }

  // --- convergence -----------------------------------------------------------------------------

  lemma JoinTyped(a: State, b: State, card: Key -> Cardinality)
    requires TypedState(a, card) && TypedState(b, card)
    ensures SameCards(a, b) && TypedState(Join(a, b), card)
  {
  }

  lemma UnitTyped(lop: LabeledOp, card: Key -> Cardinality)
    requires TypedOp(lop.op, card)
    ensures TypedState(Unit(lop), card)
  {
  }

  lemma ApplyTyped(f: State, lop: LabeledOp, card: Key -> Cardinality)
    requires TypedState(f, card) && TypedOp(lop.op, card)
    ensures Accepts(f, lop.op) && TypedState(ApplyLabeled(f, lop), card)
  {
    if lop.op.KeyCard().Some? {
      var st := GetOr(f.keys, lop.op.key, NewKeyState(lop.op.KeyCard().value));
      assert ApplyKey(st, lop.op).Card() == st.Card();
      hide ApplyKey;
      assert ApplyLabeled(f, lop).keys == f.keys[lop.op.key := ApplyKey(st, lop.op)];
    } else {
      assert ApplyLabeled(f, lop).keys == f.keys;
    }
  }

  lemma {:induction false} FoldTyped(f: State, log: seq<LabeledOp>, card: Key -> Cardinality)
    requires TypedState(f, card) && Typed(log, card)
    ensures TypedState(FoldInto(f, log), card)
    decreases |log|
  {
    if log != [] {
      hide ApplyLabeled;
      FoldTyped(f, log[..|log| - 1], card);
      ApplyTyped(FoldInto(f, log[..|log| - 1]), log[|log| - 1], card);
    }
  }

  /** Folding a log into `f` joins `f` with the fold of the log alone. */
  lemma {:induction false} FoldIntoJoin(f: State, log: seq<LabeledOp>, card: Key -> Cardinality)
    requires TypedState(f, card) && Typed(log, card)
    ensures FoldInto(f, log) == Join(f, FoldLog(log))
    decreases |log|
  {
    if log == [] {
      JoinEmpty(f);
    } else {
      var rest, last := log[..|log| - 1], log[|log| - 1];
      assert TypedOp(last.op, card);
      FoldIntoJoin(f, rest, card);
      FoldTyped(f, rest, card);
      FoldTyped(Empty, rest, card);
      UnitTyped(last, card);
      ApplyIsJoin(FoldInto(f, rest), last);
      ApplyIsJoin(FoldLog(rest), last);
      JoinTyped(f, FoldLog(rest), card);
      JoinTyped(f, Unit(last), card);
      JoinTyped(FoldLog(rest), Unit(last), card);
      JoinAssociative(f, FoldLog(rest), Unit(last));
    }
  }

  ghost predicate LogIn(log: seq<LabeledOp>, u: Universe) {
    forall i :: 0 <= i < |log| ==> OpIn(log[i], u)
  }

  lemma UnitFrom(lop: LabeledOp, u: Universe)
    requires OpIn(lop, u)
    ensures From(Unit(lop), u)
  {
  }

  lemma RowsFromUnion(a: map<OrderKey, Version>, b: map<OrderKey, Version>, u: Universe)
    requires RowsFrom(a, u) && RowsFrom(b, u)
    ensures RowsFrom(a + b, u)
  {
  }

  lemma JoinKeyFrom(a: KeyState, b: KeyState, u: Universe)
    requires KeyFrom(a, u) && KeyFrom(b, u)
    ensures KeyFrom(JoinKey(a, b), u)
  {
    if a.ManyState? && b.ManyState? {
      forall o | o in a.elems && o in b.elems
        ensures RowsFrom(JoinRows(a.elems[o], b.elems[o]), u)
      {
        RowsFromUnion(a.elems[o], b.elems[o], u);
      }
    }
  }

  lemma JoinEdgePropsFrom(a: EdgeProps, b: EdgeProps, u: Universe)
    requires EdgePropsFrom(a, u) && EdgePropsFrom(b, u)
    ensures EdgePropsFrom(JoinEdgeProps(a, b), u)
  {
    forall o | o in a && o in b
      ensures PropsFrom(JoinProps(a[o], b[o]), u)
    {
    }
  }

  lemma JoinFrom(a: State, b: State, u: Universe)
    requires From(a, u) && From(b, u)
    ensures From(Join(a, b), u)
  {
    forall k | k in a.keys && k in b.keys
      ensures KeyFrom(JoinKey(a.keys[k], b.keys[k]), u)
    {
      JoinKeyFrom(a.keys[k], b.keys[k], u);
    }
    forall k | k in a.edgeProps && k in b.edgeProps
      ensures EdgePropsFrom(JoinEdgeProps(a.edgeProps[k], b.edgeProps[k]), u)
    {
      JoinEdgePropsFrom(a.edgeProps[k], b.edgeProps[k], u);
    }
  }

  lemma {:induction false} FoldFrom(log: seq<LabeledOp>, card: Key -> Cardinality, u: Universe)
    requires Typed(log, card) && LogIn(log, u)
    ensures From(FoldLog(log), u)
    decreases |log|
  {
    if log != [] {
      var rest, last := log[..|log| - 1], log[|log| - 1];
      assert TypedOp(last.op, card);
      FoldFrom(rest, card, u);
      FoldTyped(Empty, rest, card);
      ApplyIsJoin(FoldLog(rest), last);
      UnitFrom(last, u);
      JoinFrom(FoldLog(rest), Unit(last), u);
    }
  }

  /** Folding a log again into a fold of it, one op at a time, changes nothing. */
  lemma {:induction false} Absorbs(log: seq<LabeledOp>, lop: LabeledOp, card: Key -> Cardinality, u: Universe)
    requires Typed(log, card) && LogIn(log, u) && lop in log
    ensures Join(FoldLog(log), Unit(lop)) == FoldLog(log)
    decreases |log|
  {
    var rest, last := log[..|log| - 1], log[|log| - 1];
    var f, a, b := FoldLog(rest), Unit(last), Unit(lop);
    assert TypedOp(last.op, card) && TypedOp(lop.op, card) && OpIn(lop, u);
    FoldTyped(Empty, rest, card);
    UnitTyped(last, card);
    UnitTyped(lop, card);
    JoinTyped(f, a, card);
    JoinTyped(f, b, card);
    JoinTyped(a, b, card);
    ApplyIsJoin(f, last);
    JoinAssociative(f, a, b);
    if lop == last {
      JoinIdempotent(a);
    } else {
      Absorbs(rest, lop, card, u);
      UnitFrom(last, u);
      UnitFrom(lop, u);
      JoinCommutative(a, b, u);
      JoinAssociative(f, b, a);
    }
  }

  lemma {:induction false} AbsorbsAll(log: seq<LabeledOp>, sub: seq<LabeledOp>, card: Key -> Cardinality, u: Universe)
    requires Typed(log, card) && LogIn(log, u) && forall lop :: lop in sub ==> lop in log
    ensures Join(FoldLog(log), FoldLog(sub)) == FoldLog(log)
    decreases |sub|
  {
    if sub == [] {
      JoinEmpty(FoldLog(log));
    } else {
      var rest, last := sub[..|sub| - 1], sub[|sub| - 1];
      assert last in log && TypedOp(last.op, card);
      assert forall i :: 0 <= i < |rest| ==> rest[i] in log;
      AbsorbsAll(log, rest, card, u);
      Absorbs(log, last, card, u);
      FoldTyped(Empty, log, card);
      FoldTyped(Empty, rest, card);
      UnitTyped(last, card);
      JoinTyped(FoldLog(log), FoldLog(rest), card);
      JoinTyped(FoldLog(rest), Unit(last), card);
      JoinTyped(FoldLog(log), Unit(last), card);
      ApplyIsJoin(FoldLog(rest), last);
      JoinAssociative(FoldLog(log), FoldLog(rest), Unit(last));
    }
  }

  /** No two ops of the log share an order key. */
  ghost predicate UniqueKeys(log: seq<LabeledOp>) {
    forall i, j ::
      0 <= i < |log| && 0 <= j < |log| && HasKey(log[i].op) && HasKey(log[j].op) && log[i].op.ok == log[j].op.ok
      ==> log[i] == log[j]
  }

  ghost function Owner(log: seq<LabeledOp>, ok: OrderKey): LabeledOp {
    if exists i :: 0 <= i < |log| && HasKey(log[i].op) && log[i].op.ok == ok
    then var i :| 0 <= i < |log| && HasKey(log[i].op) && log[i].op.ok == ok; log[i]
    else LabeledOp(SetNodeType(0, 0, ok), None)
  }

  ghost function UniverseOf(log: seq<LabeledOp>): Universe { ok => Owner(log, ok) }

  lemma InUniverse(log: seq<LabeledOp>)
    requires UniqueKeys(log)
    ensures LogIn(log, UniverseOf(log))
  {
  }

  predicate SameOps(a: seq<LabeledOp>, b: seq<LabeledOp>) {
    (forall lop :: lop in a ==> lop in b) && (forall lop :: lop in b ==> lop in a)
  }

  /** Logs of the same ops fold to the same state: order and redelivery are invisible. */
  lemma Convergence(a: seq<LabeledOp>, b: seq<LabeledOp>, card: Key -> Cardinality)
    requires SameOps(a, b) && UniqueKeys(a) && Typed(a, card)
    ensures FoldLog(a) == FoldLog(b)
  {
    var u := UniverseOf(a);
    InUniverse(a);
    assert forall i :: 0 <= i < |b| ==> b[i] in a;
    assert Typed(b, card) && LogIn(b, u);
    AbsorbsAll(a, b, card, u);
    AbsorbsAll(b, a, card, u);
    FoldTyped(Empty, a, card);
    FoldTyped(Empty, b, card);
    FoldFrom(a, card, u);
    FoldFrom(b, card, u);
    JoinTyped(FoldLog(a), FoldLog(b), card);
    JoinCommutative(FoldLog(a), FoldLog(b), u);
  }

  /** Replicas that fold parts of a stream and merge, in any shape. */
  datatype MergeTree = Part(log: seq<LabeledOp>) | Merged(left: MergeTree, right: MergeTree) {
    function Ops(): seq<LabeledOp> {
      match this
      case Part(log) => log
      case Merged(l, r) => l.Ops() + r.Ops()
    }

    function Value(): State {
      match this
      case Part(log) => FoldLog(log)
      case Merged(l, r) => Join(l.Value(), r.Value())
    }
  }

  lemma {:induction false} FoldConcat(f: State, a: seq<LabeledOp>, b: seq<LabeledOp>)
    ensures FoldInto(f, a + b) == FoldInto(FoldInto(f, a), b)
    decreases |b|
  {
    if b == [] {
      assert a + b == a;
    } else {
      var n := |b| - 1;
      assert (a + b)[..|a + b| - 1] == a + b[..n];
      FoldConcat(f, a, b[..n]);
    }
  }

  lemma {:induction false} TreeIsFold(t: MergeTree, card: Key -> Cardinality)
    requires Typed(t.Ops(), card)
    ensures t.Value() == FoldLog(t.Ops())
  {
    match t
    case Part(_) =>
    case Merged(l, r) =>
      var n := |l.Ops()|;
      assert forall i :: 0 <= i < n ==> l.Ops()[i] == t.Ops()[i];
      assert forall i :: 0 <= i < |r.Ops()| ==> r.Ops()[i] == t.Ops()[n + i];
      TreeIsFold(l, card);
      TreeIsFold(r, card);
      FoldTyped(Empty, l.Ops(), card);
      FoldIntoJoin(FoldLog(l.Ops()), r.Ops(), card);
      FoldConcat(Empty, l.Ops(), r.Ops());
  }

  /** Any two ways to partition, duplicate, reorder and merge the same ops reach the same state. */
  lemma ReplicasConverge(t: MergeTree, s: MergeTree, card: Key -> Cardinality)
    requires SameOps(t.Ops(), s.Ops()) && UniqueKeys(t.Ops()) && Typed(t.Ops(), card)
    ensures t.Value() == s.Value()
  {
    assert forall i :: 0 <= i < |s.Ops()| ==> s.Ops()[i] in t.Ops();
    assert Typed(s.Ops(), card);
    TreeIsFold(t, card);
    TreeIsFold(s, card);
    Convergence(t.Ops(), s.Ops(), card);
  }
}
