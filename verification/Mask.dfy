/** Per-fact access labels at read time. A bitmask of labels is the set of its bits. */
module Mask {
  import opened Types
  import opened Rows
  import opened Folds
  import opened FoldLaws
  import opened Snapshots
  import opened Refresh
  import opened Collection

  const MAX_LABEL: Label := 31

  predicate LabelAllowed(allowed: set<Label>, l: Label) {
    l <= MAX_LABEL && l in allowed
  }

  /** A principal's label mask with the label floors that predicates declare. */
  datatype FactMask = FactMask(allowed: set<Label>, floors: map<FieldId, Label>) {
    predicate Allows(l: Option<Label>) { l.Some? ==> LabelAllowed(allowed, l.value) }

    predicate PredicateHidden(p: FieldId) { !Allows(Get(floors, p)) }

    /** Both the floor and the row's own label, where present, are allowed. */
    predicate RowVisible(p: FieldId, l: Option<Label>) { Allows(Get(floors, p)) && Allows(l) }

    /** Some stored label or some declared floor is not allowed. */
    predicate HidesAny(s: Snapshot) {
      || (exists l :: l in s.labelCounts && !LabelAllowed(allowed, l))
      || (exists p :: p in floors && !LabelAllowed(allowed, floors[p]))
    }

    predicate KeyAffected(s: Snapshot, k: Key) {
      || PredicateHidden(k.1)
      || (k in s.factLabels && exists ok :: ok in s.factLabels[k] && !RowVisible(k.1, Some(s.factLabels[k][ok])))
    }

    predicate Affected(s: Snapshot, k: Key) { HidesAny(s) && KeyAffected(s, k) }
  }

  // --- reads through a mask --------------------------------------------------------------------

  function RowLabel(s: Snapshot, k: Key, ok: OrderKey): Option<Label> {
    Get(GetOr(s.factLabels, k, map[]), ok)
  }

  function VisibleRows(s: Snapshot, m: FactMask, k: Key, rows: seq<Row>): seq<Row> {
    FilterRows(rows, (r: Row) => m.RowVisible(k.1, RowLabel(s, k, r.ok)))
  }

  function OneRowsRead(s: Snapshot, m: FactMask, k: Key): Option<seq<Row>> {
    if k !in s.oneHistory then None
    else if !m.Affected(s, k) then Some(s.oneHistory[k])
    else NonEmptyRows(VisibleRows(s, m, k, s.oneHistory[k]))
  }

  function OneValueRead(s: Snapshot, m: FactMask, k: Key): Option<Option<ObjKey>> {
    if !m.Affected(s, k) then Get(s.one, k)
    else
      var rows := OneRowsRead(s, m, k);
      if rows.None? then None else HeadOf(rows.value)
  }

  function ManyRowsRead(s: Snapshot, m: FactMask, k: Key): Option<History> {
    if k !in s.manyHistory then None
    else if !m.Affected(s, k) then Some(s.manyHistory[k])
    else
      var elems := s.manyHistory[k];
      NonEmptyMap(map o | o in elems && VisibleRows(s, m, k, elems[o]) != [] :: VisibleRows(s, m, k, elems[o]))
  }

  function ManySetRead(s: Snapshot, m: FactMask, k: Key): Option<set<ObjKey>> {
    if !m.Affected(s, k) then Get(s.many, k)
    else
      var rows := ManyRowsRead(s, m, k);
      if rows.None? then None else NonEmptySet(PresentIn(rows.value))
  }

  /** The keys and current values that an enumeration of One keys visits. */
  function EachOne(s: Snapshot, m: FactMask): map<Key, Option<ObjKey>> {
    map k | k in s.one && (!m.Affected(s, k) || OneValueRead(s, m, k).Some?) ::
      if !m.Affected(s, k) then s.one[k] else OneValueRead(s, m, k).value
  }

  /** The keys and present sets that an enumeration of Many keys visits: it walks the histories when the
      mask hides anything, because hiding a close can make an element present. */
  function EachMany(s: Snapshot, m: FactMask): map<Key, set<ObjKey>> {
    if !m.HidesAny(s) then s.many
    else
      map k | k in s.manyHistory && (if !m.Affected(s, k) then k in s.many else ManySetRead(s, m, k).Some?) ::
        if !m.Affected(s, k) then s.many[k] else ManySetRead(s, m, k).value
  }

  function EachOneKey(s: Snapshot, m: FactMask): set<Key> {
    set k | k in s.oneHistory && (!m.Affected(s, k) || OneRowsRead(s, m, k).Some?)
  }

  function EachManyKey(s: Snapshot, m: FactMask): set<Key> {
    set k | k in s.manyHistory && (!m.Affected(s, k) || ManyRowsRead(s, m, k).Some?)
  }

  // --- a log without its hidden rows -----------------------------------------------------------

  predicate Hidden(m: FactMask, lop: LabeledOp) {
    lop.op.WritesRow() && !m.RowVisible(lop.op.key.1, lop.access)
  }

  /** The log as if the hidden rows had never been written. */
  function VisibleLog(log: seq<LabeledOp>, m: FactMask): seq<LabeledOp> {
    if log == [] then []
    else
      var last := log[|log| - 1];
      VisibleLog(log[..|log| - 1], m) + if Hidden(m, last) then [] else [last]
  }

  function OneVersions(f: State, k: Key): map<OrderKey, Version> {
    if k in f.keys && f.keys[k].OneState? then f.keys[k].versions else map[]
  }

  function ElemVersions(f: State, k: Key, o: ObjKey): map<OrderKey, Version> {
    if k in f.keys && f.keys[k].ManyState? then GetOr(f.keys[k].elems, o, map[]) else map[]
  }

  function RemovesOf(f: State, k: Key): set<OrderKey> {
    if k in f.keys && f.keys[k].ManyState? then f.keys[k].removes else {}
  }

  lemma ApplyKeyAt(f: State, lop: LabeledOp, k: Key)
    requires Accepts(f, lop.op)
    ensures var op := lop.op;
      Get(ApplyLabeled(f, lop).keys, k) ==
        if op.KeyCard().Some? && op.key == k then Some(ApplyKey(GetOr(f.keys, k, NewKeyState(op.KeyCard().value)), op))
        else Get(f.keys, k)
  {
    hide ApplyKey, WriteReg;
  }

  /** The stored rows of a key after one op. */
  lemma ApplyRows(f: State, lop: LabeledOp, k: Key)
    requires Accepts(f, lop.op)
    ensures var g, op := ApplyLabeled(f, lop), lop.op;
      && OneVersions(g, k) == (if (op.SetOne? || op.CloseOne?) && op.key == k
                               then OneVersions(f, k)[op.ok := op.RowVersion()]
                               else OneVersions(f, k))
      && Floor(g, k) == (if op.HardDelete? && op.key == k then MaxKey(Floor(f, k), Some(op.ok)) else Floor(f, k))
      && RemovesOf(g, k) == RemovesOf(f, k) + (if op.RemoveMany? && op.key == k then set t | t in op.observed else {})
  {
    ApplyKeyAt(f, lop, k);
    var g := ApplyLabeled(f, lop);
    if lop.op.KeyCard().Some? && lop.op.key == k {
      assert g.keys[k] == ApplyKey(GetOr(f.keys, k, NewKeyState(lop.op.KeyCard().value)), lop.op);
    } else {
      assert k in f.keys <==> k in g.keys;
    }
  }

  function ElemsOf(st: Option<KeyState>, o: ObjKey): map<OrderKey, Version> {
    if st.Some? && st.value.ManyState? then GetOr(st.value.elems, o, map[]) else map[]
  }

  lemma ApplyElemsOf(st: KeyState, op: Op, o: ObjKey)
    requires op.KeyCard() == Some(st.Card())
    ensures ElemsOf(Some(ApplyKey(st, op)), o) ==
      if (op.AddMany? || op.CloseMany?) && op.obj == o then ElemsOf(Some(st), o)[op.ok := op.RowVersion()]
        else ElemsOf(Some(st), o)
  {
  }

  lemma ElemVersionsAt(f: State, k: Key, o: ObjKey)
    ensures ElemVersions(f, k, o) == ElemsOf(Get(f.keys, k), o)
  {
  }

  lemma ApplyElemRows(f: State, lop: LabeledOp, k: Key, o: ObjKey)
    requires Accepts(f, lop.op)
    ensures var g, op := ApplyLabeled(f, lop), lop.op;
      ElemVersions(g, k, o) == if (op.AddMany? || op.CloseMany?) && op.key == k && op.obj == o
                               then ElemVersions(f, k, o)[op.ok := op.RowVersion()] else ElemVersions(f, k, o)
  {
    ApplyKeyAt(f, lop, k);
    ElemVersionsAt(f, k, o);
    ElemVersionsAt(ApplyLabeled(f, lop), k, o);
    hide ApplyLabeled, ApplyKey, ElemVersions;
    if lop.op.KeyCard().Some? && lop.op.key == k {
      ApplyElemsOf(GetOr(f.keys, k, NewKeyState(lop.op.KeyCard().value)), lop.op, o);
    }
  }

  lemma ApplyStoredLabels(f: State, lop: LabeledOp, k: Key)
    ensures StoredLabels(ApplyLabeled(f, lop), k) ==
      if lop.op.WritesRow() && lop.access.Some? && lop.op.key == k
      then StoredLabels(f, k)[lop.op.ok := lop.access.value] else StoredLabels(f, k)
  {
  }

  lemma LiveOfVersions(f: State, k: Key, o: ObjKey)
    ensures LiveOne(f, k) == Live(OneVersions(f, k), {}, Floor(f, k))
    ensures LiveElem(f, k, o) == Live(ElemVersions(f, k, o), RemovesOf(f, k), Floor(f, k))
  {
  }

  // --- the fold of the visible log -------------------------------------------------------------

  /** The rows whose op, by order key, the mask shows. */
  function Kept(rows: map<OrderKey, Version>, k: Key, u: Universe, m: FactMask): map<OrderKey, Version> {
    map ok | ok in rows && m.RowVisible(k.1, u(ok).access) :: rows[ok]
  }

  /** On key `k`, `g` stores exactly the visible rows of `f`, with the same floor and tombstones. */
  ghost predicate SeesAt(f: State, g: State, k: Key, u: Universe, m: FactMask) {
    && Floor(g, k) == Floor(f, k)
    && RemovesOf(g, k) == RemovesOf(f, k)
    && OneVersions(g, k) == Kept(OneVersions(f, k), k, u, m)
    && forall o :: ElemVersions(g, k, o) == Kept(ElemVersions(f, k, o), k, u, m)
  }

  lemma KeptAdd(rows: map<OrderKey, Version>, k: Key, u: Universe, m: FactMask, ok: OrderKey, v: Version)
    ensures Kept(rows[ok := v], k, u, m) ==
      if m.RowVisible(k.1, u(ok).access) then Kept(rows, k, u, m)[ok := v] else Kept(rows, k, u, m) - {ok}
    ensures !m.RowVisible(k.1, u(ok).access) ==> Kept(rows[ok := v], k, u, m) == Kept(rows, k, u, m)
  {
  }

  lemma KeptStep(f: State, g: State, k: Key, u: Universe, m: FactMask, lop: LabeledOp)
    requires SeesAt(f, g, k, u, m) && OpIn(lop, u) && Accepts(f, lop.op) && Accepts(g, lop.op)
    ensures SeesAt(ApplyLabeled(f, lop), if Hidden(m, lop) then g else ApplyLabeled(g, lop), k, u, m)
  {
    var f', g' := ApplyLabeled(f, lop), if Hidden(m, lop) then g else ApplyLabeled(g, lop);
    ApplyRows(f, lop, k);
    ApplyRows(g, lop, k);
    if lop.op.WritesRow() && lop.op.key == k {
      KeptAdd(OneVersions(f, k), k, u, m, lop.op.ok, lop.op.RowVersion());
    }
    forall o
      ensures ElemVersions(g', k, o) == Kept(ElemVersions(f', k, o), k, u, m)
    {
      ApplyElemRows(f, lop, k, o);
      ApplyElemRows(g, lop, k, o);
      if lop.op.WritesRow() && lop.op.key == k {
        KeptAdd(ElemVersions(f, k, o), k, u, m, lop.op.ok, lop.op.RowVersion());
      }
    }
  }

  lemma KeptNothing(k: Key, u: Universe, m: FactMask)
    ensures Kept(map[], k, u, m) == map[]
  {
  }

  lemma {:induction false} VisibleTyped(log: seq<LabeledOp>, m: FactMask, card: Key -> Cardinality)
    requires Typed(log, card)
    ensures Typed(VisibleLog(log, m), card)
    decreases |log|
  {
    if log != [] {
      VisibleTyped(log[..|log| - 1], m, card);
      assert TypedOp(log[|log| - 1].op, card);
    }
  }

  lemma TypedAccepts(f: State, op: Op, card: Key -> Cardinality)
    requires TypedState(f, card) && TypedOp(op, card)
    ensures Accepts(f, op)
  {
  }

  lemma {:induction false} VisibleFold(log: seq<LabeledOp>, m: FactMask, card: Key -> Cardinality, u: Universe, k: Key)
    requires Typed(log, card) && LogIn(log, u)
    ensures SeesAt(FoldLog(log), FoldLog(VisibleLog(log, m)), k, u, m)
    decreases |log|
  {
    if log != [] {
      var rest, last := log[..|log| - 1], log[|log| - 1];
      VisibleFold(rest, m, card, u, k);
      VisibleTyped(rest, m, card);
      FoldTyped(Empty, rest, card);
      FoldTyped(Empty, VisibleLog(rest, m), card);
      assert TypedOp(last.op, card) && OpIn(last, u);
      TypedAccepts(FoldLog(rest), last.op, card);
      TypedAccepts(FoldLog(VisibleLog(rest, m)), last.op, card);
      KeptStep(FoldLog(rest), FoldLog(VisibleLog(rest, m)), k, u, m, last);
      if Hidden(m, last) {
        assert VisibleLog(log, m) == VisibleLog(rest, m);
      } else {
        FoldConcat(Empty, VisibleLog(rest, m), [last]);
        assert [last][..0] == [];
        assert FoldInto(FoldLog(VisibleLog(rest, m)), [last]) == ApplyLabeled(FoldLog(VisibleLog(rest, m)), last);
      }
    } else {
      KeptNothing(k, u, m);
      forall o
        ensures ElemVersions(Empty, k, o) == Kept(ElemVersions(Empty, k, o), k, u, m)
      {
        assert ElemVersions(Empty, k, o) == map[];
      }
    }
  }

  // --- stored labels ---------------------------------------------------------------------------

  /** Every stored row of key `k` has the label its op was written with. */
  ghost predicate LabelsExact(f: State, k: Key, u: Universe) {
    && LabelsFrom(StoredLabels(f, k), u)
    && (forall ok :: ok in OneVersions(f, k) ==> Get(StoredLabels(f, k), ok) == u(ok).access)
    && (forall o, ok :: ok in ElemVersions(f, k, o) ==> Get(StoredLabels(f, k), ok) == u(ok).access)
  }

  lemma LabelsExactStep(f: State, k: Key, u: Universe, lop: LabeledOp)
    requires LabelsExact(f, k, u) && OpIn(lop, u) && Accepts(f, lop.op)
    ensures LabelsExact(ApplyLabeled(f, lop), k, u)
  {
    ApplyRows(f, lop, k);
    ApplyStoredLabels(f, lop, k);
    var g := ApplyLabeled(f, lop);
    forall o, ok | ok in ElemVersions(g, k, o)
      ensures Get(StoredLabels(g, k), ok) == u(ok).access
    {
      ApplyElemRows(f, lop, k, o);
    }
  }

  lemma {:induction false} FoldLabelsExact(log: seq<LabeledOp>, card: Key -> Cardinality, u: Universe, k: Key)
    requires Typed(log, card) && LogIn(log, u)
    ensures LabelsExact(FoldLog(log), k, u)
    decreases |log|
  {
    if log != [] {
      var rest, last := log[..|log| - 1], log[|log| - 1];
      FoldLabelsExact(rest, card, u, k);
      FoldTyped(Empty, rest, card);
      assert TypedOp(last.op, card) && OpIn(last, u);
      TypedAccepts(FoldLog(rest), last.op, card);
      LabelsExactStep(FoldLog(rest), k, u, last);
    }
  }

  // --- masked reads are reads of the visible log -----------------------------------------------

  /** The rows that a read through the mask lists, of the rows that an unmasked read lists. */
  lemma VisibleRowsAre(f: State, g: State, k: Key, u: Universe, m: FactMask, s: Snapshot, all: map<OrderKey, Version>,
                       seen: map<OrderKey, Version>)
    requires forall ok :: ok in all ==> RowLabel(s, k, ok) == u(ok).access
    requires seen == Kept(all, k, u, m)
    ensures VisibleRows(s, m, k, SortRows(all)) == SortRows(seen)
  {
    FilterSorted(all, (r: Row) => m.RowVisible(k.1, RowLabel(s, k, r.ok)), seen);
  }

  lemma KeptLive(rows: map<OrderKey, Version>, removes: set<OrderKey>, hd: Option<OrderKey>, k: Key, u: Universe,
                 m: FactMask)
    ensures Live(Kept(rows, k, u, m), removes, hd) == Kept(Live(rows, removes, hd), k, u, m)
  {
  }

  /** What the snapshot says about the labels of a key's live rows is what their ops were written with. */
  lemma SnapshotLabels(f: State, h: Hash, k: Key, u: Universe, ok: OrderKey)
    requires LabelsExact(f, k, u) && ok in LiveKeys(f, k)
    ensures RowLabel(Observe(f, h), k, ok) == u(ok).access
  {
    LabelsAt(f, k);
    LiveKeysFrom(f, k, ok);
    if ok !in LiveOne(f, k) {
      var o :| ok in LiveElem(f, k, o);
      assert ok in ElemVersions(f, k, o);
    }
    assert Get(LiveLabels(f, k), ok) == Get(StoredLabels(f, k), ok);
    if LiveLabels(f, k) == map[] {
      assert ok !in LiveLabels(f, k);
    }
  }

  /** When the mask does not affect a key, it shows every live row of it. */
  lemma UnaffectedShowsAll(f: State, h: Hash, k: Key, u: Universe, m: FactMask, ok: OrderKey)
    requires LabelsExact(f, k, u) && ok in LiveKeys(f, k) && !m.Affected(Observe(f, h), k)
    ensures m.RowVisible(k.1, u(ok).access)
  {
    var s := Observe(f, h);
    SnapshotLabels(f, h, k, u, ok);
    if u(ok).access.Some? {
      var l := u(ok).access.value;
      assert k in s.factLabels && ok in s.factLabels[k] && s.factLabels[k][ok] == l;
      assert l in LabelsIn(s.factLabels);
      assert l in s.labelCounts;
    }
  }

  lemma LabelsShown(f: State, h: Hash, k: Key, u: Universe, m: FactMask, rows: map<OrderKey, Version>)
    requires LabelsExact(f, k, u) && rows.Keys <= LiveKeys(f, k)
    ensures var s := Observe(f, h);
      && (forall ok :: ok in rows ==> RowLabel(s, k, ok) == u(ok).access)
      && (!m.Affected(s, k) ==> Kept(rows, k, u, m) == rows)
  {
    var s := Observe(f, h);
    forall ok | ok in rows
      ensures RowLabel(s, k, ok) == u(ok).access
      ensures !m.Affected(s, k) ==> m.RowVisible(k.1, u(ok).access)
    {
      SnapshotLabels(f, h, k, u, ok);
      if !m.Affected(s, k) {
        UnaffectedShowsAll(f, h, k, u, m, ok);
      }
    }
  }

  /** The rows of a One key in the fold of the visible log are the rows the mask shows of it. */
  lemma VisibleOneRows(f: State, g: State, h: Hash, k: Key, u: Universe, m: FactMask)
    requires LabelsExact(f, k, u) && SeesAt(f, g, k, u, m)
    ensures OneRows(g, k) == VisibleRows(Observe(f, h), m, k, OneRows(f, k))
    ensures !m.Affected(Observe(f, h), k) ==> OneRows(g, k) == OneRows(f, k)
  {
    LabelsShown(f, h, k, u, m, LiveOne(f, k));
    LiveOfVersions(f, k, Bool(false));
    LiveOfVersions(g, k, Bool(false));
    KeptLive(OneVersions(f, k), {}, Floor(f, k), k, u, m);
    VisibleRowsAre(f, g, k, u, m, Observe(f, h), LiveOne(f, k), LiveOne(g, k));
  }

  /** The rows of an element in the fold of the visible log are the rows the mask shows of it. */
  lemma VisibleElemRows(f: State, g: State, h: Hash, k: Key, o: ObjKey, u: Universe, m: FactMask)
    requires LabelsExact(f, k, u) && SeesAt(f, g, k, u, m)
    ensures SortRows(LiveElem(g, k, o)) == VisibleRows(Observe(f, h), m, k, SortRows(LiveElem(f, k, o)))
    ensures !m.Affected(Observe(f, h), k) ==> LiveElem(g, k, o) == LiveElem(f, k, o)
  {
    forall ok | ok in LiveElem(f, k, o)
      ensures ok in LiveKeys(f, k)
    {
      LiveKeysFrom(f, k, ok);
    }
    LabelsShown(f, h, k, u, m, LiveElem(f, k, o));
    LiveOfVersions(f, k, o);
    LiveOfVersions(g, k, o);
    KeptLive(ElemVersions(f, k, o), RemovesOf(f, k), Floor(f, k), k, u, m);
    VisibleRowsAre(f, g, k, u, m, Observe(f, h), LiveElem(f, k, o), LiveElem(g, k, o));
  }

  /** The history of each element, in the fold of the visible log. */
  lemma VisibleManyRows(f: State, g: State, h: Hash, k: Key, u: Universe, m: FactMask)
    requires LabelsExact(f, k, u) && SeesAt(f, g, k, u, m)
    ensures var s, rows := Observe(f, h), ManyRows(f, k);
      && ManyRows(g, k) ==
         (map o | o in rows && VisibleRows(s, m, k, rows[o]) != [] :: VisibleRows(s, m, k, rows[o]))
      && (!m.Affected(s, k) ==> ManyRows(g, k) == rows)
  {
    var s, rows := Observe(f, h), ManyRows(f, k);
    var seen := map o | o in rows && VisibleRows(s, m, k, rows[o]) != [] :: VisibleRows(s, m, k, rows[o]);
    forall o
      ensures Get(ManyRows(g, k), o) == Get(seen, o)
      ensures !m.Affected(s, k) ==> Get(ManyRows(g, k), o) == Get(rows, o)
    {
      ManyRowsAt(f, k, o);
      ManyRowsAt(g, k, o);
      assert VisibleRows(s, m, k, []) == [];
      VisibleElemRows(f, g, h, k, o, u, m);
    }
    SameMaps(ManyRows(g, k), seen);
    if !m.Affected(s, k) {
      SameMaps(ManyRows(g, k), rows);
    }
  }

  lemma ManyRowsAt(f: State, k: Key, o: ObjKey)
    ensures o in ManyRows(f, k) <==> SortRows(LiveElem(f, k, o)) != []
    ensures o in ManyRows(f, k) ==> ManyRows(f, k)[o] == SortRows(LiveElem(f, k, o))
  {
    if o !in Elems(f, k) {
      assert LiveElem(f, k, o) == map[];
    }
  }

  /** Every masked read of a key equals the read of the store in which the hidden rows were never written. */
  lemma MaskedReads(log: seq<LabeledOp>, m: FactMask, card: Key -> Cardinality, h: Hash, k: Key)
    requires UniqueKeys(log) && Typed(log, card)
    ensures var s, v := Observe(FoldLog(log), h), Observe(FoldLog(VisibleLog(log, m)), h);
      && OneRowsRead(s, m, k) == Get(v.oneHistory, k)
      && OneValueRead(s, m, k) == Get(v.one, k)
      && ManyRowsRead(s, m, k) == Get(v.manyHistory, k)
      && ManySetRead(s, m, k) == Get(v.many, k)
  {
    var u := UniverseOf(log);
    var f, g := FoldLog(log), FoldLog(VisibleLog(log, m));
    InUniverse(log);
    VisibleFold(log, m, card, u, k);
    FoldLabelsExact(log, card, u, k);
    MaskedOneReads(f, g, h, k, u, m);
    MaskedManyReads(f, g, h, k, u, m);
  }

  lemma MaskedOneReads(f: State, g: State, h: Hash, k: Key, u: Universe, m: FactMask)
    requires LabelsExact(f, k, u) && SeesAt(f, g, k, u, m)
    ensures var s, v := Observe(f, h), Observe(g, h);
      OneRowsRead(s, m, k) == Get(v.oneHistory, k) && OneValueRead(s, m, k) == Get(v.one, k)
  {
    VisibleOneRows(f, g, h, k, u, m);
    assert VisibleRows(Observe(f, h), m, k, []) == [];
  }

  lemma MaskedManyRowsRead(f: State, g: State, h: Hash, k: Key, u: Universe, m: FactMask)
    requires LabelsExact(f, k, u) && SeesAt(f, g, k, u, m)
    ensures ManyRowsRead(Observe(f, h), m, k) == Get(Observe(g, h).manyHistory, k) == NonEmptyMap(ManyRows(g, k))
  {
    VisibleManyRows(f, g, h, k, u, m);
    ManyHistoryAt(f, k);
    ManyHistoryAt(g, k);
    if ManyRows(f, k) == map[] {
      assert ManyRows(g, k) == map[];
    }
  }

  lemma MaskedManyReads(f: State, g: State, h: Hash, k: Key, u: Universe, m: FactMask)
    requires LabelsExact(f, k, u) && SeesAt(f, g, k, u, m)
    ensures var s, v := Observe(f, h), Observe(g, h);
      ManyRowsRead(s, m, k) == Get(v.manyHistory, k) && ManySetRead(s, m, k) == Get(v.many, k)
  {
    hide ManyRows, VisibleRows, LabelsExact, SeesAt;
    MaskedManyRowsRead(f, g, h, k, u, m);
    ManyHistoryAt(g, k);
    if !m.Affected(Observe(f, h), k) {
      VisibleManyRows(f, g, h, k, u, m);
      ManyHistoryAt(f, k);
    }
  }

  /** One view reads, key by key, as another lists. */
  ghost predicate ReadsAs(s: Snapshot, m: FactMask, v: Snapshot) {
    forall k: Key ::
      && OneRowsRead(s, m, k) == Get(v.oneHistory, k)
      && OneValueRead(s, m, k) == Get(v.one, k)
      && ManyRowsRead(s, m, k) == Get(v.manyHistory, k)
      && ManySetRead(s, m, k) == Get(v.many, k)
  }

  lemma EnumerateOne(s: Snapshot, m: FactMask, v: Snapshot)
    requires ReadsAs(s, m, v) && s.one.Keys == s.oneHistory.Keys
    ensures EachOne(s, m) == v.one && EachOneKey(s, m) == v.oneHistory.Keys
  {
    forall k: Key
      ensures Get(EachOne(s, m), k) == Get(v.one, k)
    {
      assert OneValueRead(s, m, k) == Get(v.one, k);
    }
    SameMaps(EachOne(s, m), v.one);
    forall k: Key
      ensures k in EachOneKey(s, m) <==> k in v.oneHistory
    {
      assert OneRowsRead(s, m, k) == Get(v.oneHistory, k);
    }
  }

  lemma EnumerateMany(s: Snapshot, m: FactMask, v: Snapshot)
    requires ReadsAs(s, m, v) && s.many.Keys <= s.manyHistory.Keys
    ensures EachMany(s, m) == v.many && EachManyKey(s, m) == v.manyHistory.Keys
  {
    forall k: Key
      ensures Get(EachMany(s, m), k) == Get(v.many, k)
    {
      assert ManySetRead(s, m, k) == Get(v.many, k);
    }
    SameMaps(EachMany(s, m), v.many);
    forall k: Key
      ensures k in EachManyKey(s, m) <==> k in v.manyHistory
    {
      assert ManyRowsRead(s, m, k) == Get(v.manyHistory, k);
    }
  }

  lemma MaskedReadsAs(log: seq<LabeledOp>, m: FactMask, card: Key -> Cardinality, h: Hash)
    requires UniqueKeys(log) && Typed(log, card)
    ensures ReadsAs(Observe(FoldLog(log), h), m, Observe(FoldLog(VisibleLog(log, m)), h))
  {
    var s, v := Observe(FoldLog(log), h), Observe(FoldLog(VisibleLog(log, m)), h);
    forall k: Key
      ensures OneRowsRead(s, m, k) == Get(v.oneHistory, k) && OneValueRead(s, m, k) == Get(v.one, k)
      ensures ManyRowsRead(s, m, k) == Get(v.manyHistory, k) && ManySetRead(s, m, k) == Get(v.many, k)
    {
      MaskedReads(log, m, card, h, k);
    }
  }

  /** Every masked enumeration visits exactly what one of the visible store visits. */
  lemma MaskedEnumerations(log: seq<LabeledOp>, m: FactMask, card: Key -> Cardinality, h: Hash)
    requires UniqueKeys(log) && Typed(log, card)
    ensures var s, v := Observe(FoldLog(log), h), Observe(FoldLog(VisibleLog(log, m)), h);
      && EachOne(s, m) == v.one
      && EachMany(s, m) == v.many
      && EachOneKey(s, m) == v.oneHistory.Keys
      && EachManyKey(s, m) == v.manyHistory.Keys
  {
    var s, v := Observe(FoldLog(log), h), Observe(FoldLog(VisibleLog(log, m)), h);
    hide FoldLog, VisibleLog, OneRows, ManyRows, VisibleRows;
    MaskedReadsAs(log, m, card, h);
    assert forall k :: k in s.one <==> k in s.oneHistory;
    EnumerateOne(s, m, v);
    EnumerateMany(s, m, v);
  }
}
