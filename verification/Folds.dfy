/** The fold: diffs become per-key CRDT state. */
module Folds {
  import opened Types

  /** A stream diff with the order key that the changelog assigned to it. */
  datatype Op =
    | SetOne(key: Key, obj: ObjKey, validFrom: i64, validTo: Option<i64>, ok: OrderKey)
    | CloseOne(key: Key, validFrom: i64, ok: OrderKey)
    | AddMany(key: Key, obj: ObjKey, validFrom: i64, validTo: Option<i64>, ok: OrderKey)
    | CloseMany(key: Key, obj: ObjKey, validFrom: i64, ok: OrderKey)
    | RemoveMany(key: Key, observed: seq<OrderKey>)
    | HardDelete(key: Key, ok: OrderKey, cardinality: Cardinality)
    | SetEdgeProp(key: Key, obj: ObjKey, prop: Text, value: ObjKey, ok: OrderKey)
    | SetNodeType(node: NodeId, typeId: FieldId, ok: OrderKey)
    | SetNodeLabel(node: NodeId, access: Label, ok: OrderKey)
  {
    /** Whether the op targets a node's attributes rather than a `(subject, predicate)` key. */
    predicate NodeAttr() { SetNodeType? || SetNodeLabel? }

    /** Whether the op writes a version row (the only ops an access label applies to). */
    predicate WritesRow() { SetOne? || CloseOne? || AddMany? || CloseMany? }

    /** The cardinality of the key state the op folds into, for the ops that fold into one. */
    function KeyCard(): Option<Cardinality> {
      match this
      case SetOne(_, _, _, _, _) | CloseOne(_, _, _) => Some(One)
      case AddMany(_, _, _, _, _) | CloseMany(_, _, _, _) | RemoveMany(_, _) => Some(Many)
      case HardDelete(_, _, c) => Some(c)
      case _ => None
    }

    function RowVersion(): Version
      requires WritesRow()
    {
      match this
      case SetOne(_, o, vf, vt, _) => Version(Some(o), vf, vt)
      case CloseOne(_, vf, _) => Version(None, vf, None)
      case AddMany(_, o, vf, vt, _) => Version(Some(o), vf, vt)
      case CloseMany(_, _, vf, _) => Version(None, vf, None)
    }
  }

  /** An op and the access label of the row it writes. */
  datatype LabeledOp = LabeledOp(op: Op, access: Option<Label>)

  /** The rows of a key: an LWW register with history, or an OR-Set of per-element rows. */
  datatype KeyState =
    | OneState(versions: map<OrderKey, Version>, hd: Option<OrderKey>)
    | ManyState(elems: map<ObjKey, map<OrderKey, Version>>, removes: set<OrderKey>, hd: Option<OrderKey>)
  {
    function Card(): Cardinality { if OneState? then One else Many }
  }

  function NewKeyState(c: Cardinality): KeyState {
    if c.One? then OneState(map[], None) else ManyState(map[], {}, None)
  }

  /** A last-writer-wins register. */
  datatype Reg<T> = Reg(ok: OrderKey, value: T)

  datatype NodeAttrs = NodeAttrs(ty: Option<Reg<FieldId>>, access: Option<Reg<Label>>)

  type Props = map<Text, Reg<ObjKey>>
  type EdgeProps = map<ObjKey, Props>

  /** The value of a fold: graph keys and three stores independent of them. */
  datatype State = State(
    keys: map<Key, KeyState>,
    edgeProps: map<Key, EdgeProps>,
    nodeAttrs: map<NodeId, NodeAttrs>,
    factLabels: map<Key, map<OrderKey, Label>>)

  const Empty: State := State(map[], map[], map[], map[])

  // --- joins ---------------------------------------------------------------------------------

  function JoinMap<K, V>(a: map<K, V>, b: map<K, V>, j: (V, V) -> V): map<K, V> {
    map k | k in a.Keys + b.Keys ::
      if k in a then (if k in b then j(a[k], b[k]) else a[k]) else b[k]
  }

  function JoinRows(a: map<OrderKey, Version>, b: map<OrderKey, Version>): map<OrderKey, Version> { a + b }

  function JoinLabels(a: map<OrderKey, Label>, b: map<OrderKey, Label>): map<OrderKey, Label> { a + b }

  /** Last writer wins; on an equal order key the left register stays. */
  function JoinReg<T>(a: Reg<T>, b: Reg<T>): Reg<T> {
    if a.ok.Less(b.ok) then b else a
  }

  function JoinOptReg<T>(a: Option<Reg<T>>, b: Option<Reg<T>>): Option<Reg<T>> {
    if a.None? then b else if b.None? then a else Some(JoinReg(a.value, b.value))
  }

  function JoinObjReg(a: Reg<ObjKey>, b: Reg<ObjKey>): Reg<ObjKey> { JoinReg(a, b) }

  function JoinProps(a: Props, b: Props): Props { JoinMap(a, b, JoinObjReg) }

  function JoinEdgeProps(a: EdgeProps, b: EdgeProps): EdgeProps { JoinMap(a, b, JoinProps) }

  function JoinAttrs(a: NodeAttrs, b: NodeAttrs): NodeAttrs {
    NodeAttrs(JoinOptReg(a.ty, b.ty), JoinOptReg(a.access, b.access))
  }

  /** The join of two states of one key; meaningful only for equal cardinalities. */
  function JoinKey(a: KeyState, b: KeyState): KeyState {
    match (a, b)
    case (OneState(v, h), OneState(v', h')) => OneState(JoinRows(v, v'), MaxKey(h, h'))
    case (ManyState(e, r, h), ManyState(e', r', h')) =>
      ManyState(JoinMap(e, e', JoinRows), r + r', MaxKey(h, h'))
    case _ => a
  }

  /** The least upper bound of two fold states. */
  function Join(a: State, b: State): State {
    State(
      JoinMap(a.keys, b.keys, JoinKey),
      JoinMap(a.edgeProps, b.edgeProps, JoinEdgeProps),
      JoinMap(a.nodeAttrs, b.nodeAttrs, JoinAttrs),
      JoinMap(a.factLabels, b.factLabels, JoinLabels))
  }

  /** Both states give every shared key the same cardinality (the fold panics otherwise). */
  predicate SameCards(a: State, b: State) {
    forall k :: k in a.keys && k in b.keys ==> a.keys[k].Card() == b.keys[k].Card()
  }

  /** `cur` is `a` with the entries of `b` outside `todo` joined into it. */
  ghost predicate PartlyJoined<K(!new), V(!new)>(cur: map<K, V>, a: map<K, V>, b: map<K, V>, j: (V, V) -> V,
                                 todo: set<K>) {
    && todo <= b.Keys
    && (forall k :: k in cur <==> k in a || (k in b && k !in todo))
    && (forall k :: k in cur ==>
         cur[k] == if k in b && k !in todo then (if k in a then j(a[k], b[k]) else b[k]) else a[k])
  }

  // --- one op --------------------------------------------------------------------------------

  /** The op names the cardinality of the key state it folds into. */
  predicate Accepts(f: State, op: Op) {
    op.KeyCard().Some? && op.key in f.keys ==> f.keys[op.key].Card() == op.KeyCard().value
  }

  /** The fold takes the op; a hard delete only raises the floor, whatever cardinality it names. */
  predicate Foldable(f: State, op: Op) { op.HardDelete? || Accepts(f, op) }

  /** The key state after folding `op` into `st`. */
  function ApplyKey(st: KeyState, op: Op): KeyState
    requires op.HardDelete? || op.KeyCard() == Some(st.Card())
  {
    match op
    case SetOne(_, _, _, _, ok) => st.(versions := st.versions[ok := op.RowVersion()])
    case CloseOne(_, _, ok) => st.(versions := st.versions[ok := op.RowVersion()])
    case AddMany(_, o, _, _, ok) => st.(elems := st.elems[o := GetOr(st.elems, o, map[])[ok := op.RowVersion()]])
    case CloseMany(_, o, _, ok) => st.(elems := st.elems[o := GetOr(st.elems, o, map[])[ok := op.RowVersion()]])
    case RemoveMany(_, observed) => st.(removes := st.removes + set t | t in observed)
    case HardDelete(_, ok, _) =>
      st.(hd := MaxKey(st.hd, Some(ok)))
  }

  /** A register after a write: only a strictly greater order key replaces it. */
  function WriteReg<T>(cur: Option<Reg<T>>, ok: OrderKey, value: T): Reg<T> {
    if cur.None? || cur.value.ok.Less(ok) then Reg(ok, value) else cur.value
  }

  /** Fold one op. An op of the wrong cardinality, on which the fold panics, leaves the state as it is. */
  function Apply(f: State, op: Op): State {
    match op
    case SetEdgeProp(k, o, p, v, ok) =>
      var objs := GetOr(f.edgeProps, k, map[]);
      var props := GetOr(objs, o, map[]);
      f.(edgeProps := f.edgeProps[k := objs[o := props[p := WriteReg(Get(props, p), ok, v)]]])
    case SetNodeType(n, t, ok) =>
      var at := GetOr(f.nodeAttrs, n, NodeAttrs(None, None));
      f.(nodeAttrs := f.nodeAttrs[n := at.(ty := Some(WriteReg(at.ty, ok, t)))])
    case SetNodeLabel(n, l, ok) =>
      var at := GetOr(f.nodeAttrs, n, NodeAttrs(None, None));
      f.(nodeAttrs := f.nodeAttrs[n := at.(access := Some(WriteReg(at.access, ok, l)))])
    case _ =>
      var st := GetOr(f.keys, op.key, NewKeyState(op.KeyCard().value));
      if op.HardDelete? || op.KeyCard() == Some(st.Card()) then f.(keys := f.keys[op.key := ApplyKey(st, op)]) else f
  }

  /** Fold one op whose row carries an access label; an op without a row ignores it. */
  function ApplyLabeled(f: State, lop: LabeledOp): State {
    var g := Apply(f, lop.op);
    if lop.access.Some? && lop.op.WritesRow() then
      g.(factLabels :=
        g.factLabels[lop.op.key := GetOr(g.factLabels, lop.op.key, map[])[lop.op.ok := lop.access.value]])
    else g
  }

  /** Fold a log, first op first, into `f`. */
  function FoldInto(f: State, log: seq<LabeledOp>): State
    decreases |log|
  {
    if log == [] then f else ApplyLabeled(FoldInto(f, log[..|log| - 1]), log[|log| - 1])
  }

  function FoldLog(log: seq<LabeledOp>): State { FoldInto(Empty, log) }

  /** Every op of the log folds into a key of the cardinality `card` declares. */
  ghost predicate Typed(log: seq<LabeledOp>, card: Key -> Cardinality) {
    forall i :: 0 <= i < |log| ==> TypedOp(log[i].op, card)
  }

  ghost predicate TypedOp(op: Op, card: Key -> Cardinality) {
    op.KeyCard().Some? ==> op.KeyCard().value == card(op.key)
  }

  ghost predicate TypedState(f: State, card: Key -> Cardinality) {
    forall k :: k in f.keys ==> f.keys[k].Card() == card(k)
  }

  // --- garbage collection --------------------------------------------------------------------

  function KeepAbove<V>(m: map<OrderKey, V>, floor: OrderKey): map<OrderKey, V> {
    map ok | ok in m && floor.Less(ok) :: m[ok]
  }

  function GcKey(st: KeyState): KeyState {
    if st.hd.None? then st
    else if st.OneState? then st.(versions := KeepAbove(st.versions, st.hd.value))
    else
      st.(elems := map o | o in st.elems && KeepAbove(st.elems[o], st.hd.value) != map[] ::
                     KeepAbove(st.elems[o], st.hd.value),
          removes := set t | t in st.removes && st.hd.value.Less(t))
  }

  function Floor(f: State, k: Key): Option<OrderKey> {
    if k in f.keys then f.keys[k].hd else None
  }

  function GcLabels(f: State, k: Key): map<OrderKey, Label> {
    var rows := GetOr(f.factLabels, k, map[]);
    if Floor(f, k).Some? then KeepAbove(rows, Floor(f, k).value) else rows
  }

  function GcLabelStore(f: State): map<Key, map<OrderKey, Label>> {
    map k | k in f.factLabels && GcLabels(f, k) != map[] :: GcLabels(f, k)
  }

  /** Drop what the hard-delete floors dominate. */
  function Gc(f: State): State {
    f.(keys := map k | k in f.keys :: GcKey(f.keys[k]),
       factLabels := GcLabelStore(f))
  }

  // --- the fold object -----------------------------------------------------------------------

  /** The mutable fold. `Value` is its abstract state. */
  class Fold {
    var keys: map<Key, KeyState>
    var edgeProps: map<Key, EdgeProps>
    var nodeAttrs: map<NodeId, NodeAttrs>
    var factLabels: map<Key, map<OrderKey, Label>>

    function Value(): State
      reads this
    {
      State(keys, edgeProps, nodeAttrs, factLabels)
    }

    constructor (init: State)
      ensures Value() == init
    {
      keys, edgeProps, nodeAttrs, factLabels := init.keys, init.edgeProps, init.nodeAttrs, init.factLabels;
    }

    /** Fold one diff. */
    method ApplyOp(op: Op)
      requires Foldable(Value(), op)
      modifies this
      ensures Value() == Apply(old(Value()), op)
    {
      match op {
        case SetEdgeProp(k, o, p, v, ok) =>
          ApplyProp(k, o, p, v, ok);
        case SetNodeType(n, t, ok) =>
          var st := GetOr(nodeAttrs, n, NodeAttrs(None, None));
          if st.ty.None? || st.ty.value.ok.Less(ok) {
            st := st.(ty := Some(Reg(ok, t)));
          }
          nodeAttrs := nodeAttrs[n := st];
        case SetNodeLabel(n, l, ok) =>
          var st := GetOr(nodeAttrs, n, NodeAttrs(None, None));
          if st.access.None? || st.access.value.ok.Less(ok) {
            st := st.(access := Some(Reg(ok, l)));
          }
          nodeAttrs := nodeAttrs[n := st];
        case _ =>
          ApplyKeyed(op);
      }
    }

    method ApplyProp(k: Key, o: ObjKey, p: Text, v: ObjKey, ok: OrderKey)
      modifies `edgeProps
      ensures var objs := GetOr(old(edgeProps), k, map[]);
        var props := GetOr(objs, o, map[]);
        edgeProps == old(edgeProps)[k := objs[o := props[p := WriteReg(Get(props, p), ok, v)]]]
    {
      var objs := GetOr(edgeProps, k, map[]);
      var props := GetOr(objs, o, map[]);
      if p !in props || props[p].ok.Less(ok) {
        props := props[p := Reg(ok, v)];
      } else {
        assert props == props[p := props[p]];
      }
      edgeProps := edgeProps[k := objs[o := props]];
    }

    method ApplyKeyed(op: Op)
      requires op.KeyCard().Some? && Foldable(Value(), op)
      modifies `keys
      ensures keys == old(keys)[op.key := ApplyKey(GetOr(old(keys), op.key, NewKeyState(op.KeyCard().value)), op)]
    {
      hide ApplyKey;
      if op.key !in keys {
        keys := keys[op.key := NewKeyState(op.KeyCard().value)];
      }
      keys := keys[op.key := ApplyKey(keys[op.key], op)];
    }

    /** Fold one diff whose row carries an access label. */
    method ApplyLabeledOp(lop: LabeledOp)
      requires Foldable(Value(), lop.op)
      modifies this
      ensures Value() == ApplyLabeled(old(Value()), lop)
    {
      ApplyOp(lop.op);
      if lop.access.None? || !lop.op.WritesRow() {
        return;
      }
      var rows := GetOr(factLabels, lop.op.key, map[]);
      factLabels := factLabels[lop.op.key := rows[lop.op.ok := lop.access.value]];
    }

    /** Least-upper-bound merge. */
    method Merge(other: Fold)
      requires other != this && SameCards(Value(), other.Value())
      modifies this
      ensures Value() == Join(old(Value()), other.Value())
    {
      MergeKeys(other);
      MergeEdgeProps(other);
      MergeNodeAttrs(other);
      MergeLabels(other);
    }

    method MergeKeys(other: Fold)
      requires other != this && SameCards(Value(), other.Value())
      modifies `keys
      ensures keys == JoinMap(old(keys), other.keys, JoinKey)
    {
      var todo := other.keys.Keys;
      while todo != {}
        invariant PartlyJoined(keys, old(keys), other.keys, JoinKey, todo)
      {
        var k :| k in todo;
        keys := keys[k := if k in keys then JoinKey(keys[k], other.keys[k]) else other.keys[k]];
        todo := todo - {k};
      }
    }

    method MergeEdgeProps(other: Fold)
      requires other != this
      modifies `edgeProps
      ensures edgeProps == JoinMap(old(edgeProps), other.edgeProps, JoinEdgeProps)
    {
      var todo := other.edgeProps.Keys;
      while todo != {}
        invariant PartlyJoined(edgeProps, old(edgeProps), other.edgeProps, JoinEdgeProps, todo)
      {
        var k :| k in todo;
        assert JoinEdgeProps(map[], other.edgeProps[k]) == other.edgeProps[k];
        edgeProps := edgeProps[k := JoinEdgeProps(GetOr(edgeProps, k, map[]), other.edgeProps[k])];
        todo := todo - {k};
      }
    }

    method MergeNodeAttrs(other: Fold)
      requires other != this
      modifies `nodeAttrs
      ensures nodeAttrs == JoinMap(old(nodeAttrs), other.nodeAttrs, JoinAttrs)
    {
      var todo := other.nodeAttrs.Keys;
      while todo != {}
        invariant PartlyJoined(nodeAttrs, old(nodeAttrs), other.nodeAttrs, JoinAttrs, todo)
      {
        var n :| n in todo;
        var me, st := GetOr(nodeAttrs, n, NodeAttrs(None, None)), other.nodeAttrs[n];
        if st.ty.Some? && (me.ty.None? || me.ty.value.ok.Less(st.ty.value.ok)) {
          me := me.(ty := st.ty);
        }
        if st.access.Some? && (me.access.None? || me.access.value.ok.Less(st.access.value.ok)) {
          me := me.(access := st.access);
        }
        nodeAttrs := nodeAttrs[n := me];
        todo := todo - {n};
      }
    }

    method MergeLabels(other: Fold)
      requires other != this
      modifies `factLabels
      ensures factLabels == JoinMap(old(factLabels), other.factLabels, JoinLabels)
    {
      var todo := other.factLabels.Keys;
      while todo != {}
        invariant PartlyJoined(factLabels, old(factLabels), other.factLabels, JoinLabels, todo)
      {
        var k :| k in todo;
        assert map[] + other.factLabels[k] == other.factLabels[k];
        factLabels := factLabels[k := GetOr(factLabels, k, map[]) + other.factLabels[k]];
        todo := todo - {k};
      }
    }

    /** Drop the rows, tombstones and labels that the hard-delete floors dominate. */
    method Collect()
      modifies this
      ensures Value() == Gc(old(Value()))
    {
      hide Apply, Join, KeepAbove;
      CollectKeys();
      ghost var f := Value();
      CollectLabels();
      assert forall k :: k in f.factLabels ==> GcLabels(f, k) == GcLabels(old(Value()), k);
    }

    method CollectKeys()
      modifies `keys
      ensures keys == Gc(old(Value())).keys
    {
      var todo := keys.Keys;
      while todo != {}
        invariant todo <= old(keys).Keys == keys.Keys
        invariant forall k :: k in keys ==> keys[k] == if k in todo then old(keys[k]) else GcKey(old(keys[k]))
      {
        var k :| k in todo;
        keys := keys[k := GcKey(keys[k])];
        todo := todo - {k};
      }
    }

    method CollectLabels()
      modifies `factLabels
      ensures factLabels == GcLabelStore(old(Value()))
    {
      ghost var f := Value();
      var todo := factLabels.Keys;
      while todo != {}
        invariant todo <= f.factLabels.Keys
        invariant forall k :: k in factLabels <==> k in f.factLabels && (k in todo || GcLabels(f, k) != map[])
        invariant forall k :: k in factLabels ==>
                    factLabels[k] == if k in todo then f.factLabels[k] else GcLabels(f, k)
      {
        var k :| k in todo;
        var hd := if k in keys then keys[k].hd else None;
        var rows := if hd.Some? then KeepAbove(factLabels[k], hd.value) else factLabels[k];
        assert rows == GcLabels(f, k);
        factLabels := if rows == map[] then factLabels - {k} else factLabels[k := rows];
        todo := todo - {k};
      }
    }
  }
}
