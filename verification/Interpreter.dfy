/** The snapshot of a log read off by a plain interpreter that overwrites, inserts and deletes. */
module Interpreter {
  import opened Types
  import opened Rows
  import opened Folds
  import opened FoldLaws
  import opened Snapshots
  import opened Refresh
  import opened Changelogs
  import opened Engines

  datatype Plain = Plain(
    one: map<Key, Option<ObjKey>>,
    many: map<Key, set<ObjKey>>,
    props: map<Key, PropValues>,
    types: map<NodeId, FieldId>,
    labels: map<NodeId, Label>)

  const Blank: Plain := Plain(map[], map[], map[], map[], map[])

  function PutSet(m: map<Key, set<ObjKey>>, k: Key, s: set<ObjKey>): map<Key, set<ObjKey>> {
    if s == {} then m - {k} else m[k := s]
  }

  /** One write in log order; `elem` is the element a retraction was asked to remove. */
  function Interpret(p: Plain, w: WriteKind, elem: ObjKey): Plain {
    match w
    case SetOne(k, o, _, _) => p.(one := p.one[k := Some(o)])
    case CloseOne(k, _) => p.(one := p.one[k := None])
    case AddMany(k, o, _, _) => p.(many := PutSet(p.many, k, GetOr(p.many, k, {}) + {o}))
    case CloseMany(k, o, _) => p.(many := PutSet(p.many, k, GetOr(p.many, k, {}) - {o}))
    case RemoveMany(k, _) => p.(many := PutSet(p.many, k, GetOr(p.many, k, {}) - {elem}))
    case HardDelete(k, _) => p.(one := p.one - {k}, many := p.many - {k})
    case SetEdgeProp(k, o, key, v) =>
      var objs := GetOr(p.props, k, map[]);
      p.(props := p.props[k := objs[o := GetOr(objs, o, map[])[key := v]]])
    case SetNodeType(n, t) => p.(types := p.types[n := t])
    case SetNodeLabel(n, l) => p.(labels := p.labels[n := l])
  }

  function InterpretAll(history: seq<Record>, elems: seq<ObjKey>): Plain
    requires |elems| == |history|
  {
    if history == [] then Blank
    else
      var n := |history| - 1;
      Interpret(InterpretAll(history[..n], elems[..n]), history[n].kind, elems[n])
  }

  /** Every observed-remove was resolved by the engine, for the element listed beside it. */
  ghost predicate Resolved(history: seq<Record>, elems: seq<ObjKey>) {
    && |elems| == |history| <= U64_LIMIT
    && forall i :: 0 <= i < |history| && history[i].kind.RemoveMany? ==>
         history[i].kind.observed == LiveTags(FoldOf(history[..i]), history[i].kind.key, elems[i])
  }

  // --- where the rows of a fold come from ------------------------------------------------------

  /** `ok` is the order key of record `i` of the history. */
  predicate KeyOf(ok: OrderKey, history: seq<Record>, i: nat) {
    i < |history| && ok.tx as int == i
  }

  /** A row of element `o` of `k` was written by the record its order key names. */
  predicate ElemRow(ok: OrderKey, history: seq<Record>, k: Key, o: ObjKey) {
    && ok.tx as int < |history|
    && var w := history[ok.tx].kind;
       (w.AddMany? && w.key == k && w.obj == o) || (w.CloseMany? && w.key == k && w.obj == o)
  }

  /** Every order key in the key state belongs to an earlier record, and every row to its own element. */
  ghost predicate KeyTraced(st: KeyState, k: Key, history: seq<Record>) {
    && (st.hd.Some? ==> st.hd.value.tx as int < |history|)
    && match st
       case OneState(vs, _) => forall ok :: ok in vs ==> ok.tx as int < |history|
       case ManyState(es, rs, _) =>
         && (forall o, ok :: o in es && ok in es[o] ==> ElemRow(ok, history, k, o))
         && (forall ok :: ok in rs ==> ok.tx as int < |history|)
  }

  ghost predicate Traced(f: State, history: seq<Record>) {
    && (forall k :: k in f.keys ==> KeyTraced(f.keys[k], k, history))
    && PropsTraced(f, history)
    && (forall n :: n in f.nodeAttrs ==> AttrsTraced(f.nodeAttrs[n], history))
  }

  // --- presence --------------------------------------------------------------------------------

  function ElemRows(f: State, k: Key, o: ObjKey): seq<Row> { SortRows(LiveElem(f, k, o)) }

  /** The element's greatest live row is an add. */
  predicate Present(f: State, k: Key, o: ObjKey) {
    ElemRows(f, k, o) != [] && Last(ElemRows(f, k, o)).v.obj.Some?
  }

  lemma PresentInRows(f: State, k: Key)
    ensures PresentIn(ManyRows(f, k)) == set o | o in Elems(f, k) && Present(f, k, o)
  {
  }

  // --- one op on a key state -------------------------------------------------------------------

  lemma NewestOne(st: KeyState, k: Key, history: seq<Record>, ok: OrderKey, v: Version)
    requires st.OneState? && KeyTraced(st, k, history) && ok.tx as int == |history|
    ensures SortRows(Live(st.versions[ok := v], {}, st.hd)) == SortRows(Live(st.versions, {}, st.hd)) + [Row(ok, v)]
  {
    assert Live(st.versions[ok := v], {}, st.hd) == Live(st.versions, {}, st.hd)[ok := v];
    SortRowsAppend(Live(st.versions, {}, st.hd), ok, v);
  }

  lemma NewestElem(st: KeyState, k: Key, history: seq<Record>, o: ObjKey, ok: OrderKey, v: Version)
    requires st.ManyState? && KeyTraced(st, k, history) && ok.tx as int == |history|
    ensures var rows := GetOr(st.elems, o, map[]);
      SortRows(Live(rows[ok := v], st.removes, st.hd)) == SortRows(Live(rows, st.removes, st.hd)) + [Row(ok, v)]
  {
    var rows := GetOr(st.elems, o, map[]);
    assert Live(rows[ok := v], st.removes, st.hd) == Live(rows, st.removes, st.hd)[ok := v];
    SortRowsAppend(Live(rows, st.removes, st.hd), ok, v);
  }

  /** The live tags of an element are exactly its live add rows. */
  lemma TagsAreAdds(f: State, k: Key, o: ObjKey, ok: OrderKey)
    ensures ok in LiveTags(f, k, o) <==> ok in LiveElem(f, k, o) && LiveElem(f, k, o)[ok].obj.Some?
  {
    var live := LiveElem(f, k, o);
    SortRowsCorrect(live);
    FilterRowsCorrect(SortRows(live), (r: Row) => r.v.obj.Some?);
    var adds := FilterRows(SortRows(live), (r: Row) => r.v.obj.Some?);
    if ok in LiveTags(f, k, o) {
      var i :| 0 <= i < |adds| && LiveTags(f, k, o)[i] == ok;
      assert adds[i] in adds;
    }
    if ok in live && live[ok].obj.Some? {
      assert Row(ok, live[ok]) in adds;
      var i :| 0 <= i < |adds| && adds[i] == Row(ok, live[ok]);
      assert LiveTags(f, k, o)[i] == adds[i].ok;
    }
  }

  lemma OwnTagsRemoved(st: KeyState, f: State, k: Key, o: ObjKey)
    requires k in f.keys && st == f.keys[k] && st.ManyState? && o in st.elems
    ensures var live := Live(st.elems[o], st.removes + (set t | t in LiveTags(f, k, o)), st.hd);
      forall ok :: ok in live ==> live[ok].obj.None?
  {
    var live := Live(st.elems[o], st.removes + (set t | t in LiveTags(f, k, o)), st.hd);
    forall ok | ok in live
      ensures live[ok].obj.None?
    {
      TagsAreAdds(f, k, o, ok);
    }
  }

  lemma OtherTagsKept(st: KeyState, f: State, history: seq<Record>, k: Key, o: ObjKey, x: ObjKey)
    requires k in f.keys && st == f.keys[k] && st.ManyState? && x in st.elems && x != o && KeyTraced(st, k, history)
    ensures Live(st.elems[x], st.removes + (set t | t in LiveTags(f, k, o)), st.hd) == LiveElem(f, k, x)
  {
    forall ok | ok in LiveTags(f, k, o)
      ensures ok !in st.elems[x]
    {
      TagsAreAdds(f, k, o, ok);
      assert ElemRow(ok, history, k, o);
    }
  }

  /** A retraction makes exactly its own element absent. */
  lemma RetractRemovesOne(f: State, history: seq<Record>, k: Key, o: ObjKey, x: ObjKey)
    requires k in f.keys ==> KeyTraced(f.keys[k], k, history) && f.keys[k].ManyState?
    ensures Present(Apply(f, Op.RemoveMany(k, LiveTags(f, k, o))), k, x) <==> x != o && Present(f, k, x)
  {
    hide LiveTags;
    var op := Op.RemoveMany(k, LiveTags(f, k, o));
    var g := Apply(f, op);
    if k in f.keys && x in f.keys[k].elems {
      var st := f.keys[k];
      assert g.keys[k] == st.(removes := st.removes + set t | t in LiveTags(f, k, o));
      if x == o {
        OwnTagsRemoved(st, f, k, o);
        if LiveElem(g, k, o) != map[] {
          LastIsGreatest(LiveElem(g, k, o));
        }
      } else {
        OtherTagsKept(st, f, history, k, o, x);
      }
    } else {
      assert LiveElem(f, k, x) == map[];
      assert LiveElem(g, k, x) == map[];
    }
  }

  // --- one write -------------------------------------------------------------------------------

  ghost predicate MatchesAt(f: State, p: Plain, k: Key) {
    && HeadOf(OneRows(f, k)) == Get(p.one, k)
    && (forall o :: Present(f, k, o) <==> o in GetOr(p.many, k, {}))
    && PropsOf(f, k) == GetOr(p.props, k, map[])
  }

  /** The interpreter's state is what the fold shows now. */
  ghost predicate Matches(f: State, p: Plain) {
    && (forall k :: MatchesAt(f, p, k))
    && (forall k :: k in p.many ==> p.many[k] != {})
    && (forall k :: k in p.props ==> p.props[k] != map[])
    && (forall n :: TypeOf(f, n) == Get(p.types, n) && NodeLabelOf(f, n) == Get(p.labels, n))
  }

  lemma OtherKeyMatches(f: State, g: State, p: Plain, q: Plain, k: Key)
    requires Get(f.keys, k) == Get(g.keys, k) && Get(f.edgeProps, k) == Get(g.edgeProps, k)
    requires Get(p.one, k) == Get(q.one, k) && Get(p.many, k) == Get(q.many, k) && Get(p.props, k) == Get(q.props, k)
    requires MatchesAt(f, p, k)
    ensures MatchesAt(g, q, k)
  {
    SameKeyRows(f, g, k);
    forall o
      ensures Present(g, k, o) <==> Present(f, k, o)
    {
      assert k in f.keys <==> k in g.keys;
      assert LiveElem(f, k, o) == LiveElem(g, k, o);
    }
    assert GetOr(f.edgeProps, k, map[]) == GetOr(g.edgeProps, k, map[]);
    assert GetOr(p.many, k, {}) == GetOr(q.many, k, {}) && GetOr(p.props, k, map[]) == GetOr(q.props, k, map[]);
  }

  /** A new row on a One key becomes its current value. */
  lemma OneStep(f: State, g: State, history: seq<Record>, k: Key, ok: OrderKey, v: Version)
    requires k in f.keys ==> f.keys[k].OneState? && KeyTraced(f.keys[k], k, history)
    requires ok.tx as int == |history|
    requires var st := GetOr(f.keys, k, OneState(map[], None));
      k in g.keys && g.keys[k] == OneState(st.versions[ok := v], st.hd)
    ensures OneRows(g, k) == OneRows(f, k) + [Row(ok, v)]
    ensures forall o :: !Present(f, k, o) && !Present(g, k, o)
  {
    var st := GetOr(f.keys, k, OneState(map[], None));
    NewestOne(st, k, history, ok, v);
    assert k !in f.keys ==> LiveOne(f, k) == Live(st.versions, {}, st.hd);
    assert forall o :: LiveElem(f, k, o) == map[] && LiveElem(g, k, o) == map[];
  }

  /** A new row on an element decides whether it is present, and leaves the others alone. */
  lemma ElemStep(f: State, g: State, history: seq<Record>, k: Key, e: ObjKey, ok: OrderKey, v: Version)
    requires k in f.keys ==> f.keys[k].ManyState? && KeyTraced(f.keys[k], k, history)
    requires ok.tx as int == |history|
    requires var st := GetOr(f.keys, k, ManyState(map[], {}, None));
      k in g.keys && g.keys[k] == ManyState(st.elems[e := GetOr(st.elems, e, map[])[ok := v]], st.removes, st.hd)
    ensures OneRows(f, k) == OneRows(g, k) == []
    ensures forall o :: Present(g, k, o) <==> if o == e then v.obj.Some? else Present(f, k, o)
  {
    var st := GetOr(f.keys, k, ManyState(map[], {}, None));
    NewestElem(st, k, history, e, ok, v);
    forall o
      ensures Present(g, k, o) <==> if o == e then v.obj.Some? else Present(f, k, o)
    {
      if o != e {
        assert LiveElem(g, k, o) == LiveElem(f, k, o);
      }
    }
  }

  lemma RetractStep(f: State, history: seq<Record>, k: Key, e: ObjKey)
    requires k in f.keys ==> f.keys[k].ManyState? && KeyTraced(f.keys[k], k, history)
    ensures var g := Apply(f, Op.RemoveMany(k, LiveTags(f, k, e)));
      && OneRows(f, k) == OneRows(g, k) == []
      && (forall o :: Present(g, k, o) <==> o != e && Present(f, k, o))
  {
    forall o
      ensures Present(Apply(f, Op.RemoveMany(k, LiveTags(f, k, e))), k, o) <==> o != e && Present(f, k, o)
    {
      RetractRemovesOne(f, history, k, e, o);
    }
  }

  /** A hard delete outlives every earlier row of its key. */
  lemma HardDeleteStep(f: State, g: State, history: seq<Record>, k: Key, c: Cardinality, ok: OrderKey)
    requires k in f.keys ==> f.keys[k].Card() == c && KeyTraced(f.keys[k], k, history)
    requires ok.tx as int == |history|
    requires var st := GetOr(f.keys, k, NewKeyState(c));
      k in g.keys && g.keys[k] == st.(hd := MaxKey(st.hd, Some(ok)))
    ensures OneRows(g, k) == [] && forall o :: !Present(g, k, o)
  {
    var st := GetOr(f.keys, k, NewKeyState(c));
    assert KeyTraced(st, k, history);
    assert g.keys[k].hd == Some(ok);
    assert LiveOne(g, k) == map[];
    forall o
      ensures LiveElem(g, k, o) == map[]
    {
      if st.ManyState? && o in st.elems {
        assert forall x :: x in st.elems[o] ==> ElemRow(x, history, k, o);
      }
    }
  }

  lemma PropStep(f: State, g: State, history: seq<Record>, k: Key, o: ObjKey, prop: Text, r: Reg<ObjKey>)
    requires k in f.edgeProps && o in f.edgeProps[k] && prop in f.edgeProps[k][o] ==>
      f.edgeProps[k][o][prop].ok.tx as int < |history|
    requires r.ok.tx as int == |history|
    requires var objs := GetOr(f.edgeProps, k, map[]);
      var props := GetOr(objs, o, map[]);
      k in g.edgeProps && g.edgeProps[k] == objs[o := props[prop := WriteReg(Get(props, prop), r.ok, r.value)]]
    ensures var q := PropsOf(f, k); PropsOf(g, k) == q[o := GetOr(q, o, map[])[prop := r.value]]
  {
    var q := PropsOf(f, k);
    assert PropsOf(g, k)[o] == GetOr(q, o, map[])[prop := r.value];
  }

  // --- every write -----------------------------------------------------------------------------

  /** The key whose graph entries a write may change. */
  function WrittenKey(w: WriteKind): Option<Key> {
    if w.SetNodeType? || w.SetNodeLabel? then None else Some(w.key)
  }

  /** A write leaves the entries of every other key alone, in the fold and in the interpreter. */
  lemma OnlyWrittenKey(f: State, lop: LabeledOp, p: Plain, w: WriteKind, elem: ObjKey, n: u64, r: Record, k: Key)
    requires lop == RecordToOp(n, r) && w == r.kind && Some(k) != WrittenKey(w)
    ensures var g, q := ApplyLabeled(f, lop), Interpret(p, w, elem);
      && Get(f.keys, k) == Get(g.keys, k) && Get(f.edgeProps, k) == Get(g.edgeProps, k)
      && Get(p.one, k) == Get(q.one, k) && Get(p.many, k) == Get(q.many, k) && Get(p.props, k) == Get(q.props, k)
  {
    OtherEntries(f, lop, k);
    hide ApplyLabeled, ApplyKey, PutSet;
  }

  lemma OtherEntries(f: State, lop: LabeledOp, k: Key)
    requires !lop.op.NodeAttr() ==> lop.op.key != k
    ensures Get(f.keys, k) == Get(ApplyLabeled(f, lop).keys, k)
    ensures Get(f.edgeProps, k) == Get(ApplyLabeled(f, lop).edgeProps, k)
  {
    hide ApplyKey;
  }

  function OpOf(history: seq<Record>, r: Record): LabeledOp
    requires |history| < U64_LIMIT
  {
    RecordToOp(|history| as u64, r)
  }

  /** Record `r` may come next, and writes key `k`, on which fold and interpreter agree so far. */
  ghost predicate Writable(f: State, history: seq<Record>, r: Record, p: Plain, elem: ObjKey, k: Key) {
    && |history| < U64_LIMIT
    && WrittenKey(r.kind) == Some(k)
    && Accepts(f, OpOf(history, r).op)
    && Traced(f, history)
    && MatchesAt(f, p, k)
    && (r.kind.RemoveMany? ==> r.kind.observed == LiveTags(f, k, elem))
  }

  lemma PutSetAt(m: map<Key, set<ObjKey>>, k: Key, s: set<ObjKey>)
    ensures GetOr(PutSet(m, k, s), k, {}) == s
  {
  }

  /** The fold's key state after a graph write, and what the write leaves alone. */
  lemma KeyApplied(f: State, history: seq<Record>, r: Record, p: Plain, elem: ObjKey, k: Key)
    requires Writable(f, history, r, p, elem, k) && !r.kind.SetEdgeProp?
    ensures var g, op := ApplyLabeled(f, OpOf(history, r)), OpOf(history, r).op;
      && op.KeyCard().Some? && op.key == k
      && Get(g.keys, k) == Some(ApplyKey(GetOr(f.keys, k, NewKeyState(op.KeyCard().value)), op))
      && PropsOf(g, k) == PropsOf(f, k)
  {
    OpShape(|history| as u64, r);
    hide ApplyLabeled, ApplyKey, RecordToOp, Traced, MatchesAt, LiveTags;
    StoresAfter(f, OpOf(history, r));
  }

  /** How an op's kind, key and order key follow from its record. */
  lemma OpShape(n: u64, r: Record)
    ensures var op, w := RecordToOp(n, r).op, r.kind;
      && (op.KeyCard().Some? <==> WrittenKey(w).Some? && !w.SetEdgeProp?)
      && (op.SetEdgeProp? <==> w.SetEdgeProp?)
      && (op.NodeAttr() <==> WrittenKey(w).None?)
      && (WrittenKey(w).Some? ==> op.key == w.key)
  {
  }

  lemma OneMatches(f: State, history: seq<Record>, r: Record, p: Plain, elem: ObjKey, k: Key)
    requires Writable(f, history, r, p, elem, k) && (r.kind.SetOne? || r.kind.CloseOne?)
    ensures MatchesAt(ApplyLabeled(f, OpOf(history, r)), Interpret(p, r.kind, elem), k)
  {
    var g, op := ApplyLabeled(f, OpOf(history, r)), OpOf(history, r).op;
    KeyApplied(f, history, r, p, elem, k);
    hide Present, PropsOf, ApplyLabeled, LiveTags, AttrsTraced, PropsTraced;
    OneStep(f, g, history, k, op.ok, op.RowVersion());
  }

  lemma ElemMatches(f: State, history: seq<Record>, r: Record, p: Plain, elem: ObjKey, k: Key)
    requires Writable(f, history, r, p, elem, k) && (r.kind.AddMany? || r.kind.CloseMany?)
    ensures MatchesAt(ApplyLabeled(f, OpOf(history, r)), Interpret(p, r.kind, elem), k)
  {
    var g, op := ApplyLabeled(f, OpOf(history, r)), OpOf(history, r).op;
    KeyApplied(f, history, r, p, elem, k);
    ElemStep(f, g, history, k, r.kind.obj, op.ok, op.RowVersion());
    var s := GetOr(p.many, k, {});
    PutSetAt(p.many, k, if r.kind.AddMany? then s + {r.kind.obj} else s - {r.kind.obj});
  }

  lemma RetractMatches(f: State, history: seq<Record>, r: Record, p: Plain, elem: ObjKey, k: Key)
    requires Writable(f, history, r, p, elem, k) && r.kind.RemoveMany?
    ensures MatchesAt(ApplyLabeled(f, OpOf(history, r)), Interpret(p, r.kind, elem), k)
  {
    var g, op := ApplyLabeled(f, OpOf(history, r)), OpOf(history, r).op;
    KeyApplied(f, history, r, p, elem, k);
    RetractStep(f, history, k, elem);
    assert op == Op.RemoveMany(k, LiveTags(f, k, elem)) && g == Apply(f, op);
    PutSetAt(p.many, k, GetOr(p.many, k, {}) - {elem});
  }

  lemma HardDeleteMatches(f: State, history: seq<Record>, r: Record, p: Plain, elem: ObjKey, k: Key)
    requires Writable(f, history, r, p, elem, k) && r.kind.HardDelete?
    ensures MatchesAt(ApplyLabeled(f, OpOf(history, r)), Interpret(p, r.kind, elem), k)
  {
    var g, op := ApplyLabeled(f, OpOf(history, r)), OpOf(history, r).op;
    KeyApplied(f, history, r, p, elem, k);
    HardDeleteStep(f, g, history, k, r.kind.cardinality, op.ok);
  }

  lemma PropMatches(f: State, history: seq<Record>, r: Record, p: Plain, elem: ObjKey, k: Key)
    requires Writable(f, history, r, p, elem, k) && r.kind.SetEdgeProp?
    ensures MatchesAt(ApplyLabeled(f, OpOf(history, r)), Interpret(p, r.kind, elem), k)
  {
    PropApplied(f, history, r, p, elem, k);
    hide ApplyLabeled, Interpret, RecordToOp, PropsOf, OneRows, LiveElem;
    var g := ApplyLabeled(f, OpOf(history, r));
    PropStep(f, g, history, k, r.kind.obj, r.kind.prop, Reg(OpOf(history, r).op.ok, r.kind.value));
  }

  /** What a property write changes, in the fold and in the interpreter. */
  lemma PropApplied(f: State, history: seq<Record>, r: Record, p: Plain, elem: ObjKey, k: Key)
    requires |history| < U64_LIMIT && r.kind.SetEdgeProp? && r.kind.key == k
    ensures var g, q := ApplyLabeled(f, OpOf(history, r)), Interpret(p, r.kind, elem);
      && OpOf(history, r).op.SetEdgeProp?
      && OpOf(history, r).op.ok.tx as int == |history|
      && g.edgeProps == Apply(f, OpOf(history, r).op).edgeProps
      && OneRows(g, k) == OneRows(f, k)
      && (forall o :: Present(g, k, o) <==> Present(f, k, o))
      && q.one == p.one && q.many == p.many
      && GetOr(q.props, k, map[]) == (var objs := GetOr(p.props, k, map[]);
           objs[r.kind.obj := GetOr(objs, r.kind.obj, map[])[r.kind.prop := r.kind.value]])
  {
    var g := ApplyLabeled(f, OpOf(history, r));
    hide OneRows;
    SameKeyRows(f, g, k);
    assert forall o :: LiveElem(f, k, o) == LiveElem(g, k, o);
  }

  /** On the key it writes, a write changes the fold's view as it changes the interpreter's. */
  lemma WrittenKeyMatches(f: State, history: seq<Record>, r: Record, p: Plain, elem: ObjKey, k: Key)
    requires Writable(f, history, r, p, elem, k)
    ensures MatchesAt(ApplyLabeled(f, OpOf(history, r)), Interpret(p, r.kind, elem), k)
  {
    if r.kind.SetOne? || r.kind.CloseOne? {
      OneMatches(f, history, r, p, elem, k);
    } else if r.kind.AddMany? || r.kind.CloseMany? {
      ElemMatches(f, history, r, p, elem, k);
    } else if r.kind.RemoveMany? {
      RetractMatches(f, history, r, p, elem, k);
    } else if r.kind.HardDelete? {
      HardDeleteMatches(f, history, r, p, elem, k);
    } else {
      PropMatches(f, history, r, p, elem, k);
    }
  }

  // --- whole histories -------------------------------------------------------------------------

  lemma KeyTracedLater(st: KeyState, k: Key, history: seq<Record>, r: Record)
    requires KeyTraced(st, k, history)
    ensures KeyTraced(st, k, history + [r])
  {
    if st.ManyState? {
      forall o, ok | o in st.elems && ok in st.elems[o]
        ensures ElemRow(ok, history + [r], k, o)
      {
        assert ElemRow(ok, history, k, o);
      }
    }
  }

  lemma KeyTracedStep(f: State, history: seq<Record>, r: Record, elem: ObjKey, k: Key)
    requires |history| < U64_LIMIT && Traced(f, history) && WrittenKey(r.kind) == Some(k) && !r.kind.SetEdgeProp?
    requires Accepts(f, OpOf(history, r).op)
    requires r.kind.RemoveMany? ==> r.kind.observed == LiveTags(f, k, elem)
    ensures var st := GetOr(f.keys, k, NewKeyState(OpOf(history, r).op.KeyCard().value));
      KeyTraced(ApplyKey(st, OpOf(history, r).op), k, history + [r])
  {
    var op := OpOf(history, r).op;
    var st := GetOr(f.keys, k, NewKeyState(op.KeyCard().value));
    KeyTracedLater(st, k, history, r);
    if r.kind.RemoveMany? {
      forall t | t in r.kind.observed
        ensures t.tx as int < |history|
      {
        TagsAreAdds(f, k, elem, t);
        assert ElemRow(t, history, k, elem);
      }
    } else if r.kind.AddMany? || r.kind.CloseMany? {
      assert ElemRow(op.ok, history + [r], k, r.kind.obj);
    }
  }

  /** Which stores a write leaves alone. */
  lemma StoresApplied(f: State, history: seq<Record>, r: Record)
    requires |history| < U64_LIMIT && Accepts(f, OpOf(history, r).op)
    ensures var g := ApplyLabeled(f, OpOf(history, r));
      && (!r.kind.SetNodeType? && !r.kind.SetNodeLabel? ==> g.nodeAttrs == f.nodeAttrs)
      && (!r.kind.SetEdgeProp? ==> g.edgeProps == f.edgeProps)
      && (r.kind.SetNodeType? || r.kind.SetNodeLabel? || r.kind.SetEdgeProp? ==> g.keys == f.keys)
  {
    OpShape(|history| as u64, r);
    hide ApplyLabeled, ApplyKey, RecordToOp;
    StoresAfter(f, OpOf(history, r));
  }

  ghost predicate PropsTraced(f: State, history: seq<Record>) {
    forall k, o, p :: k in f.edgeProps && o in f.edgeProps[k] && p in f.edgeProps[k][o] ==>
      f.edgeProps[k][o][p].ok.tx as int < |history|
  }

  ghost predicate AttrsTraced(at: NodeAttrs, history: seq<Record>) {
    && (at.ty.Some? ==> at.ty.value.ok.tx as int < |history|)
    && (at.access.Some? ==> at.access.value.ok.tx as int < |history|)
  }

  lemma PropsTracedStep(f: State, history: seq<Record>, r: Record)
    requires |history| < U64_LIMIT && PropsTraced(f, history) && Accepts(f, OpOf(history, r).op)
    ensures PropsTraced(ApplyLabeled(f, OpOf(history, r)), history + [r])
  {
    StoresApplied(f, history, r);
    if r.kind.SetEdgeProp? {
      var g := ApplyLabeled(f, OpOf(history, r));
      forall k, o, p | k in g.edgeProps && o in g.edgeProps[k] && p in g.edgeProps[k][o]
        ensures g.edgeProps[k][o][p].ok.tx as int <= |history|
      {
      }
    }
  }

  lemma AttrsTracedStep(f: State, history: seq<Record>, r: Record)
    requires |history| < U64_LIMIT && Accepts(f, OpOf(history, r).op)
    requires forall n :: n in f.nodeAttrs ==> AttrsTraced(f.nodeAttrs[n], history)
    ensures var g := ApplyLabeled(f, OpOf(history, r));
      forall n :: n in g.nodeAttrs ==> AttrsTraced(g.nodeAttrs[n], history + [r])
  {
    StoresApplied(f, history, r);
  }

  lemma KeysTracedStep(f: State, history: seq<Record>, r: Record, elem: ObjKey)
    requires |history| < U64_LIMIT && Traced(f, history)
    requires Accepts(f, OpOf(history, r).op)
    requires r.kind.RemoveMany? ==> r.kind.observed == LiveTags(f, r.kind.key, elem)
    ensures var g := ApplyLabeled(f, OpOf(history, r));
      forall k :: k in g.keys ==> KeyTraced(g.keys[k], k, history + [r])
  {
    forall k | k in f.keys
      ensures KeyTraced(f.keys[k], k, history + [r])
    {
      KeyTracedLater(f.keys[k], k, history, r);
    }
    StoresApplied(f, history, r);
    if WrittenKey(r.kind).Some? && !r.kind.SetEdgeProp? {
      KeyTracedStep(f, history, r, elem, r.kind.key);
      KeysApplied(f, history, r);
    }
  }

  lemma KeysApplied(f: State, history: seq<Record>, r: Record)
    requires |history| < U64_LIMIT && WrittenKey(r.kind).Some? && !r.kind.SetEdgeProp?
    requires Accepts(f, OpOf(history, r).op)
    ensures var op, k := OpOf(history, r).op, r.kind.key;
      && op.KeyCard().Some?
      && ApplyLabeled(f, OpOf(history, r)).keys ==
         f.keys[k := ApplyKey(GetOr(f.keys, k, NewKeyState(op.KeyCard().value)), op)]
  {
    OpShape(|history| as u64, r);
    hide ApplyLabeled, ApplyKey, RecordToOp;
    StoresAfter(f, OpOf(history, r));
  }

  lemma TracedStep(f: State, history: seq<Record>, r: Record, elem: ObjKey)
    requires |history| < U64_LIMIT && Traced(f, history)
    requires Accepts(f, OpOf(history, r).op)
    requires r.kind.RemoveMany? ==> r.kind.observed == LiveTags(f, r.kind.key, elem)
    ensures Traced(ApplyLabeled(f, OpOf(history, r)), history + [r])
  {
    KeysTracedStep(f, history, r, elem);
    PropsTracedStep(f, history, r);
    AttrsTracedStep(f, history, r);
  }

  lemma AttrsApplied(f: State, history: seq<Record>, r: Record)
    requires |history| < U64_LIMIT && (r.kind.SetNodeType? || r.kind.SetNodeLabel?)
    ensures var ok := OpOf(history, r).op.ok;
      var at := GetOr(f.nodeAttrs, r.kind.node, NodeAttrs(None, None));
      ApplyLabeled(f, OpOf(history, r)).nodeAttrs ==
        f.nodeAttrs[r.kind.node := if r.kind.SetNodeType? then at.(ty := Some(WriteReg(at.ty, ok, r.kind.typeId)))
                                   else at.(access := Some(WriteReg(at.access, ok, r.kind.access)))]
  {
  }

  lemma PlainAttrs(p: Plain, w: WriteKind, elem: ObjKey)
    ensures Interpret(p, w, elem).types == if w.SetNodeType? then p.types[w.node := w.typeId] else p.types
    ensures Interpret(p, w, elem).labels == if w.SetNodeLabel? then p.labels[w.node := w.access] else p.labels
  {
  }

  lemma NodesMatch(f: State, history: seq<Record>, r: Record, p: Plain, elem: ObjKey, n: NodeId)
    requires |history| < U64_LIMIT && (n in f.nodeAttrs ==> AttrsTraced(f.nodeAttrs[n], history))
    requires Accepts(f, OpOf(history, r).op)
    requires TypeOf(f, n) == Get(p.types, n) && NodeLabelOf(f, n) == Get(p.labels, n)
    ensures var g, q := ApplyLabeled(f, OpOf(history, r)), Interpret(p, r.kind, elem);
      TypeOf(g, n) == Get(q.types, n) && NodeLabelOf(g, n) == Get(q.labels, n)
  {
    PlainAttrs(p, r.kind, elem);
    if r.kind.SetNodeType? || r.kind.SetNodeLabel? {
      AttrsApplied(f, history, r);
    } else {
      StoresApplied(f, history, r);
    }
  }

  lemma NoEmptyEntries(p: Plain, w: WriteKind, elem: ObjKey)
    requires forall k :: k in p.many ==> p.many[k] != {}
    requires forall k :: k in p.props ==> p.props[k] != map[]
    ensures var q := Interpret(p, w, elem);
      (forall k :: k in q.many ==> q.many[k] != {}) && (forall k :: k in q.props ==> q.props[k] != map[])
  {
  }

  lemma StepMatches(f: State, history: seq<Record>, r: Record, p: Plain, elem: ObjKey)
    requires |history| < U64_LIMIT && Traced(f, history) && Matches(f, p)
    requires Accepts(f, OpOf(history, r).op)
    requires r.kind.RemoveMany? ==> r.kind.observed == LiveTags(f, r.kind.key, elem)
    ensures Matches(ApplyLabeled(f, OpOf(history, r)), Interpret(p, r.kind, elem))
  {
    var g, q := ApplyLabeled(f, OpOf(history, r)), Interpret(p, r.kind, elem);
    forall k
      ensures MatchesAt(g, q, k)
    {
      assert MatchesAt(f, p, k);
      if WrittenKey(r.kind) == Some(k) {
        WrittenKeyMatches(f, history, r, p, elem, k);
      } else {
        OnlyWrittenKey(f, OpOf(history, r), p, r.kind, elem, |history| as u64, r, k);
        OtherKeyMatches(f, g, p, q, k);
      }
    }
    NoEmptyEntries(p, r.kind, elem);
    forall n
      ensures TypeOf(g, n) == Get(q.types, n) && NodeLabelOf(g, n) == Get(q.labels, n)
    {
      NodesMatch(f, history, r, p, elem, n);
    }
  }

  lemma FoldOfNext(history: seq<Record>, card: Key -> Cardinality)
    requires TypedHistory(history, card) && history != []
    ensures var n := |history| - 1;
      && Accepts(FoldOf(history[..n]), OpOf(history[..n], history[n]).op)
      && FoldOf(history) == ApplyLabeled(FoldOf(history[..n]), OpOf(history[..n], history[n]))
  {
    var n := |history| - 1;
    OpsTail(history, n);
    assert Ops(history)[n] == OpOf(history[..n], history[n]);
    FoldOfTyped(history[..n], card);
    assert TypedRecord(history[n], card);
  }

  lemma {:induction false} HistoryMatches(history: seq<Record>, elems: seq<ObjKey>, card: Key -> Cardinality)
    requires TypedHistory(history, card) && Resolved(history, elems)
    ensures Matches(FoldOf(history), InterpretAll(history, elems)) && Traced(FoldOf(history), history)
    decreases |history|
  {
    hide ApplyLabeled, Interpret, RecordToOp, LiveTags;
    if history == [] {
      forall k
        ensures MatchesAt(Empty, Blank, k)
      {
        assert PropsOf(Empty, k) == map[];
      }
    } else {
      var n := |history| - 1;
      var before, r := history[..n], history[n];
      forall i | 0 <= i < n && before[i].kind.RemoveMany?
        ensures before[i].kind.observed == LiveTags(FoldOf(before[..i]), before[i].kind.key, elems[..n][i])
      {
        assert before[..i] == history[..i];
      }
      HistoryMatches(before, elems[..n], card);
      FoldOfNext(history, card);
      TracedStep(FoldOf(before), before, r, elems[n]);
      StepMatches(FoldOf(before), before, r, InterpretAll(before, elems[..n]), elems[n]);
      assert history == before + [r];
    }
  }

  /** The snapshot of any engine log is what a plain interpreter of the log ends with. */
  lemma SnapshotIsInterpretation(history: seq<Record>, elems: seq<ObjKey>, card: Key -> Cardinality, h: Hash)
    requires TypedHistory(history, card) && Resolved(history, elems)
    ensures var s, p := Observe(FoldOf(history), h), InterpretAll(history, elems);
      s.one == p.one && s.many == p.many && s.edgeProps == p.props && s.nodeTypes == p.types && s.nodeLabels == p.labels
  {
    HistoryMatches(history, elems, card);
    var f := FoldOf(history);
    var s, p := Observe(f, h), InterpretAll(history, elems);
    forall k: Key
      ensures Get(s.one, k) == Get(p.one, k) && Get(s.edgeProps, k) == Get(p.props, k)
      ensures Get(s.many, k) == Get(p.many, k)
    {
      assert MatchesAt(f, p, k);
      EdgePropsAt(f, k);
      ManyHistoryAt(f, k);
      PresentInRows(f, k);
      assert PresentIn(ManyRows(f, k)) == GetOr(p.many, k, {}) by {
        assert forall o :: o !in Elems(f, k) ==> LiveElem(f, k, o) == map[];
      }
      if ManyRows(f, k) == map[] {
        assert PresentIn(ManyRows(f, k)) == {};
      }
    }
    SameMaps(s.one, p.one);
    SameMaps(s.many, p.many);
    SameMaps(s.edgeProps, p.props);
    SameMaps(s.nodeTypes, p.types);
    SameMaps(s.nodeLabels, p.labels);
  }
}
