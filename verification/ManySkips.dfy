/** Skipping an assertion of a Many key that matches a live row which is not the element's head: what valid-time
    and masked reads of the element notice. */
module ManySkips {
  import opened Types
  import opened Rows
  import opened Folds
  import opened FoldLaws
  import opened Snapshots
  import opened Collection
  import opened Changelogs
  import opened Engines
  import opened Interpreter
  import opened Mask
  import opened Queries
  import opened Views
  import opened Reach
  import opened Ledger
  import opened Ingest
  import opened Suppression

  // --- an element through a mask ---------------------------------------------------------------

  /** The rows of an element that a view lists. */
  function ElemRowsOf(v: View, k: Key, o: ObjKey): seq<Row> {
    var elems: History := GetOr(v.manyRows, k, map[]);
    GetOr(elems, o, [])
  }

  lemma ElemRead(v: View, k: Key, o: ObjKey, at: i64)
    ensures o in PointManyAsOf(v, k, at) <==> AsOf(ElemRowsOf(v, k, o), at).Some?
  {
    assert AsOf([], at) == None;
  }

  /** A masked view lists the visible rows of an element, and shows it when the last of them is an add. */
  lemma MaskedElem(log: seq<LabeledOp>, card: Key -> Cardinality, m: FactMask, h: Hash, k: Key, o: ObjKey)
    requires UniqueKeys(log) && Typed(log, card)
    ensures var s := Observe(FoldLog(log), h);
      var v, seen := MaskedView(s, m), VisibleRows(s, m, k, SortRows(LiveElem(FoldLog(log), k, o)));
      && ElemRowsOf(v, k, o) == seen
      && (o in GetOr(v.many, k, {}) <==> seen != [] && Last(seen).v.obj.Some?)
  {
    hide FoldLog, VisibleLog, Observe, VisibleRows, LiveElem, LabelsExact, SeesAt;
    var u, f, g := UniverseOf(log), FoldLog(log), FoldLog(VisibleLog(log, m));
    MaskedViewIsVisibleStore(log, m, card, h);
    InUniverse(log);
    VisibleFold(log, m, card, u, k);
    FoldLabelsExact(log, card, u, k);
    VisibleElemRows(f, g, h, k, o, u, m);
    ElemShown(g, h, k, o);
  }

  /** An element in the snapshot of a fold. */
  lemma ElemShown(f: State, h: Hash, k: Key, o: ObjKey)
    ensures var v, rows := ViewOf(Observe(f, h)), SortRows(LiveElem(f, k, o));
      && ElemRowsOf(v, k, o) == rows
      && (o in GetOr(v.many, k, {}) <==> rows != [] && Last(rows).v.obj.Some?)
  {
    ManyHistoryAt(f, k);
    ManyRowsAt(f, k, o);
    hide LiveElem, ManyRows;
  }

  // --- one more row on top of an element -------------------------------------------------------

  /** The element that a fact or close line of a Many key names. */
  function ElemOf(x: Line): ObjKey
    requires x.Fact? || (x.Close? && x.elem.Some?)
  {
    if x.Fact? then x.obj else x.elem.value
  }

  function Written(x: Line, card: Key -> Cardinality): Record
    requires x.Fact? || x.Close?
  {
    if x.Fact? then FactRecord(x, card) else CloseRecord(x)
  }

  /** The history with the line appended. */
  function With(es: seq<Entry>, x: Line, card: Key -> Cardinality): (more: seq<Entry>)
    requires x.Fact? || x.Close?
    ensures |more| == |es| + 1
  {
    es + [Entry(Written(x, card), NoElem)]
  }

  /** The row that the line writes. */
  function NewRow(es: seq<Entry>, x: Line): Row
    requires (x.Fact? || x.Close?) && |es| < U64_LIMIT
  {
    Row(OrderKey(|es| as u64, x.source, |es| as u64),
        if x.Fact? then Version(Some(x.obj), x.validFrom, x.validTo) else Version(None, x.validFrom, None))
  }

  /** A line about an element of a Many key that may be appended. */
  ghost predicate Appendable(es: seq<Entry>, x: Line, card: Key -> Cardinality) {
    (x.Fact? || (x.Close? && x.elem.Some?)) && card(x.key).Many? && Sound(es, card) && |es| < U64_LIMIT
  }

  ghost predicate Assertable(es: seq<Entry>, x: Line, card: Key -> Cardinality) { x.Fact? && Appendable(es, x, card) }

  lemma WithSound(es: seq<Entry>, x: Line, card: Key -> Cardinality)
    requires Appendable(es, x, card)
    ensures Sound(With(es, x, card), card)
  {
    hide FoldOf, LiveTags;
    assert TypedRecord(Written(x, card), card);
    SoundSnoc(es, Entry(Written(x, card), NoElem), card);
  }

  /** The row that an add or a close of an element writes as record `n`. */
  function TopRow(n: nat, r: Record): Row
    requires n < U64_LIMIT && (r.kind.AddMany? || r.kind.CloseMany?)
  {
    Row(OrderKey(n as u64, r.source, n as u64),
        if r.kind.AddMany? then Version(Some(r.kind.obj), r.kind.validFrom, r.kind.validTo)
        else Version(None, r.kind.validFrom, None))
  }

  /** The key state after an add or a close of an element. */
  lemma KeyWithRow(es: seq<Entry>, e: Entry, card: Key -> Cardinality)
    requires Sound(es, card) && |es| < U64_LIMIT
    requires (e.record.kind.AddMany? || e.record.kind.CloseMany?) && card(e.record.kind.key).Many?
    ensures var f, g, w, top := FoldOf(Records(es)), FoldOf(Records(es + [e])), e.record.kind, TopRow(|es|, e.record);
      var st := GetOr(f.keys, w.key, NewKeyState(Many));
      && (w.key in f.keys ==> st.ManyState? && KeyTraced(st, w.key, Records(es)))
      && Get(g.keys, w.key) ==
           Some(ManyState(st.elems[w.obj := GetOr(st.elems, w.obj, map[])[top.ok := top.v]], st.removes, st.hd))
  {
    var f, k, lop := FoldOf(Records(es)), e.record.kind.key, OpOf(Records(es), e.record);
    assert TypedRecord(e.record, card);
    FoldOfMore(es, e, card);
    hide FoldOf, LiveTags;
    ApplyKeyAt(f, lop, k);
  }

  /** A further row of an element comes last among its rows. */
  lemma RowOnTop(es: seq<Entry>, e: Entry, card: Key -> Cardinality)
    requires Sound(es, card) && |es| < U64_LIMIT
    requires (e.record.kind.AddMany? || e.record.kind.CloseMany?) && card(e.record.kind.key).Many?
    ensures var f, g, w := FoldOf(Records(es)), FoldOf(Records(es + [e])), e.record.kind;
      && SortRows(LiveElem(g, w.key, w.obj)) == SortRows(LiveElem(f, w.key, w.obj)) + [TopRow(|es|, e.record)]
      && Sound(es + [e], card)
  {
    hide FoldOf, LiveTags, Live, KeyTraced;
    var f, w, top := FoldOf(Records(es)), e.record.kind, TopRow(|es|, e.record);
    var st := GetOr(f.keys, w.key, NewKeyState(Many));
    assert TypedRecord(e.record, card);
    SoundSnoc(es, e, card);
    KeyWithRow(es, e, card);
    NewKeyTraced(w.key, Records(es));
    NewestElem(st, w.key, Records(es), w.obj, top.ok, top.v);
    NothingLive(f, w.key, w.obj, st);
  }

  lemma NewKeyTraced(k: Key, rs: seq<Record>)
    ensures KeyTraced(NewKeyState(Many), k, rs)
  {
  }

  lemma NothingLive(f: State, k: Key, o: ObjKey, st: KeyState)
    requires st == GetOr(f.keys, k, NewKeyState(Many)) && st.ManyState?
    ensures LiveElem(f, k, o) == Live(GetOr(st.elems, o, map[]), st.removes, st.hd)
  {
  }

  /** The other elements keep their rows. */
  lemma OtherRows(es: seq<Entry>, e: Entry, card: Key -> Cardinality, o: ObjKey)
    requires Sound(es, card) && |es| < U64_LIMIT
    requires (e.record.kind.AddMany? || e.record.kind.CloseMany?) && card(e.record.kind.key).Many?
    requires o != e.record.kind.obj
    ensures var f, g, k := FoldOf(Records(es)), FoldOf(Records(es + [e])), e.record.kind.key;
      LiveElem(g, k, o) == LiveElem(f, k, o)
  {
    hide FoldOf, LiveTags, Live, LiveElem, KeyTraced, Sound;
    var f, g, k := FoldOf(Records(es)), FoldOf(Records(es + [e])), e.record.kind.key;
    KeyWithRow(es, e, card);
    NothingLive(f, k, o, GetOr(f.keys, k, NewKeyState(Many)));
    NothingLive(g, k, o, GetOr(g.keys, k, NewKeyState(Many)));
  }

  /** The element gains the row, last; every other element keeps its rows. */
  lemma WithRows(es: seq<Entry>, x: Line, card: Key -> Cardinality, o: ObjKey)
    requires Appendable(es, x, card)
    ensures var f, g := FoldOf(Records(es)), FoldOf(Records(With(es, x, card)));
      && SortRows(LiveElem(g, x.key, o)) ==
         SortRows(LiveElem(f, x.key, o)) + (if o == ElemOf(x) then [NewRow(es, x)] else [])
      && (forall r :: r in SortRows(LiveElem(f, x.key, o)) ==> r.ok.Less(NewRow(es, x).ok))
  {
    var e := Entry(Written(x, card), NoElem);
    assert TypedRecord(e.record, card);
    FoldOfMore(es, e, card);
    hide FoldOf, LiveElem, Sound, ApplyLabeled, Traced, TypedState;
    if o == ElemOf(x) {
      RowOnTop(es, e, card);
    } else {
      OtherRows(es, e, card, o);
    }
    OlderRows(FoldOf(Records(es)), Records(es), x.key, o, NewRow(es, x).ok);
  }

  lemma OlderRows(f: State, rs: seq<Record>, k: Key, o: ObjKey, ok: OrderKey)
    requires Traced(f, rs) && ok.tx as int == |rs|
    ensures forall r :: r in SortRows(LiveElem(f, k, o)) ==> r.ok.Less(ok)
  {
    SortRowsCorrect(LiveElem(f, k, o));
    forall r | r in SortRows(LiveElem(f, k, o))
      ensures r.ok.Less(ok)
    {
      assert KeyTraced(f.keys[k], k, rs) && r.ok in f.keys[k].elems[o];
      assert ElemRow(r.ok, rs, k, o);
    }
  }

  /** One assignment of order keys covers the history before and after the line. */
  lemma OneUniverse(es: seq<Entry>, x: Line, card: Key -> Cardinality) returns (u: Universe)
    requires Appendable(es, x, card)
    ensures LabelsExact(FoldOf(Records(es)), x.key, u) && LabelsExact(FoldOf(Records(With(es, x, card))), x.key, u)
    ensures u(NewRow(es, x).ok).access == x.access
  {
    WithSound(es, x, card);
    var rs, more := Records(es), Records(With(es, x, card));
    var log := Ops(more);
    u := UniverseOf(log);
    OpsUnique(more);
    InUniverse(log);
    OpsTyped(rs, card);
    OpsTyped(more, card);
    OpsTail(more, |rs|);
    assert more[..|rs|] == rs;
    assert LogIn(Ops(rs), u);
    FoldLabelsExact(Ops(rs), card, u, x.key);
    FoldLabelsExact(log, card, u, x.key);
    assert OpIn(log[|rs|], u);
  }

  /** The snapshot with the row labels the old rows as before, and the new one as the line says. */
  lemma WithLabels(es: seq<Entry>, x: Line, card: Key -> Cardinality, h: Hash, o: ObjKey)
    requires Appendable(es, x, card)
    ensures var f, s, t := FoldOf(Records(es)), Observe(FoldOf(Records(es)), h),
      Observe(FoldOf(Records(With(es, x, card))), h);
      && (forall r :: r in SortRows(LiveElem(f, x.key, o)) ==> RowLabel(t, x.key, r.ok) == RowLabel(s, x.key, r.ok))
      && RowLabel(t, x.key, NewRow(es, x).ok) == x.access
  {
    var k, f, g := x.key, FoldOf(Records(es)), FoldOf(Records(With(es, x, card)));
    var u := OneUniverse(es, x, card);
    WithRows(es, x, card, o);
    WithRows(es, x, card, ElemOf(x));
    hide FoldOf, Observe, LabelsExact, RowLabel, LiveElem, SortRows, With, NewRow, Sound;
    forall r | r in SortRows(LiveElem(f, k, o))
      ensures RowLabel(Observe(g, h), k, r.ok) == RowLabel(Observe(f, h), k, r.ok)
    {
      LabelOfRow(f, h, k, o, u, r);
      LabelOfRow(g, h, k, o, u, r);
    }
    LabelOfRow(g, h, k, ElemOf(x), u, NewRow(es, x));
  }

  lemma LabelOfRow(f: State, h: Hash, k: Key, o: ObjKey, u: Universe, r: Row)
    requires LabelsExact(f, k, u) && r in SortRows(LiveElem(f, k, o))
    ensures RowLabel(Observe(f, h), k, r.ok) == u(r.ok).access
  {
    hide Observe, LabelsExact, LiveElem, RowLabel;
    SortRowsCorrect(LiveElem(f, k, o));
    LiveKeysFrom(f, k, r.ok);
    SnapshotLabels(f, h, k, u, r.ok);
  }

  lemma {:induction false} SameFilter(rows: seq<Row>, keep: Row -> bool, other: Row -> bool)
    requires forall r :: r in rows ==> keep(r) == other(r)
    ensures FilterRows(rows, keep) == FilterRows(rows, other)
    decreases |rows|
  {
    if rows != [] {
      var n := |rows| - 1;
      assert rows[n] in rows;
      SameFilter(rows[..n], keep, other);
    }
  }

  /** Two snapshots that label some rows alike show the same of them. */
  lemma SeenAlike(s: Snapshot, t: Snapshot, m: FactMask, k: Key, rows: seq<Row>)
    requires forall r :: r in rows ==> RowLabel(t, k, r.ok) == RowLabel(s, k, r.ok)
    ensures VisibleRows(t, m, k, rows) == VisibleRows(s, m, k, rows)
  {
    hide RowLabel, FactMask.RowVisible;
    SameFilter(rows, (r: Row) => m.RowVisible(k.1, RowLabel(t, k, r.ok)),
               (r: Row) => m.RowVisible(k.1, RowLabel(s, k, r.ok)));
  }

  lemma SeenSnoc(t: Snapshot, m: FactMask, k: Key, rows: seq<Row>, top: Row)
    ensures VisibleRows(t, m, k, rows + [top]) ==
      VisibleRows(t, m, k, rows) + if m.RowVisible(k.1, RowLabel(t, k, top.ok)) then [top] else []
  {
    assert (rows + [top])[..|rows|] == rows;
  }

  /** What a mask shows of the element with the row. */
  lemma WithSeen(es: seq<Entry>, x: Line, card: Key -> Cardinality, h: Hash, m: FactMask, o: ObjKey)
    requires Appendable(es, x, card)
    ensures var f, g := FoldOf(Records(es)), FoldOf(Records(With(es, x, card)));
      VisibleRows(Observe(g, h), m, x.key, SortRows(LiveElem(g, x.key, o))) ==
        VisibleRows(Observe(f, h), m, x.key, SortRows(LiveElem(f, x.key, o)))
        + (if o == ElemOf(x) && m.RowVisible(x.key.1, x.access) then [NewRow(es, x)] else [])
  {
    WithRows(es, x, card, o);
    WithLabels(es, x, card, h, o);
    hide FoldOf, Observe, LiveElem, Sound, RowLabel, SortRows, FactMask.RowVisible, With, NewRow, VisibleRows;
    var f, g, k := FoldOf(Records(es)), FoldOf(Records(With(es, x, card))), x.key;
    var rows := SortRows(LiveElem(f, k, o));
    SeenAlike(Observe(f, h), Observe(g, h), m, k, rows);
    if o == ElemOf(x) {
      SeenSnoc(Observe(g, h), m, k, rows, NewRow(es, x));
    } else {
      assert rows + [] == rows;
    }
  }

  // --- what the reads notice -------------------------------------------------------------------

  /** The read at `at` is decided by a close that starts where the asserted interval starts. */
  predicate ClosedOver(rows: seq<Row>, x: Line, at: i64)
    requires x.Fact?
  {
    var w := Winner(rows, at);
    w.Some? && w.value.v.obj.None? && w.value.v.validFrom == x.validFrom
  }

  predicate Spans(x: Line, at: i64)
    requires x.Fact?
  {
    x.validFrom <= at && (x.validTo.Some? ==> at < x.validTo.value)
  }

  /** An add row of the asserted interval. */
  predicate Repeats(r: Row, x: Line)
    requires x.Fact?
  {
    r.v.obj.Some? && r.v.validFrom == x.validFrom && r.v.validTo == x.validTo
  }

  /** A repeat of a listed row on top of the list changes what is in effect exactly when it covers the instant
      and a close with its own start decides the read. */
  lemma RepeatNoticed(seen: seq<Row>, r: Row, top: Row, x: Line, at: i64)
    requires x.Fact? && r in seen && Repeats(r, x) && top.v == Version(Some(x.obj), x.validFrom, x.validTo)
    requires forall s :: s in seen ==> s.ok.Less(top.ok)
    ensures AsOf(seen + [top], at).Some? == AsOf(seen, at).Some? <==> !(Spans(x, at) && ClosedOver(seen, x, at))
    ensures AsOf(seen, at).Some? ==> AsOf(seen + [top], at).Some?
  {
    assert (seen + [top])[..|seen|] == seen;
    WinnerCorrect(seen, at);
  }

  lemma {:induction false} SeenMatches(s: Snapshot, m: FactMask, k: Key, rows: seq<Row>, r: Row)
    requires r in rows && m.RowVisible(k.1, RowLabel(s, k, r.ok))
    ensures r in VisibleRows(s, m, k, rows)
    decreases |rows|
  {
    var n := |rows| - 1;
    if rows[n] != r {
      assert r in rows[..n];
      SeenMatches(s, m, k, rows[..n], r);
    }
  }

  /** A row that matches the assertion shows through exactly the masks that the new row would show through. */
  lemma MatchLabel(es: seq<Entry>, x: Line, card: Key -> Cardinality, h: Hash, i: nat)
    requires Assertable(es, x, card)
    requires var f := FoldOf(Records(es));
      var rows := Interpreter.ElemRows(f, x.key, x.obj); i < |rows| && AssertedBy(f, x, rows[i])
    ensures var f := FoldOf(Records(es));
      RowLabel(Observe(f, h), x.key, Interpreter.ElemRows(f, x.key, x.obj)[i].ok) == x.access
  {
    var f := FoldOf(Records(es));
    var rs, k := Records(es), x.key;
    var log, u := Ops(rs), UniverseOf(Ops(rs));
    OpsUnique(rs);
    InUniverse(log);
    OpsTyped(rs, card);
    FoldLabelsExact(log, card, u, k);
    var r := Interpreter.ElemRows(f, k, x.obj)[i];
    hide FoldOf, FoldLog, Observe, UniverseOf;
    LabelOfRow(f, h, k, x.obj, u, r);
    SortRowsCorrect(LiveElem(f, k, x.obj));
    assert r in SortRows(LiveElem(f, k, x.obj));
    assert r.ok in ElemVersions(f, k, x.obj);
  }

  lemma MatchSeen(es: seq<Entry>, x: Line, card: Key -> Cardinality, h: Hash, m: FactMask) returns (r: Row)
    requires Assertable(es, x, card) && Asserted(FoldOf(Records(es)), x) && m.RowVisible(x.key.1, x.access)
    ensures var f := FoldOf(Records(es));
      r in VisibleRows(Observe(f, h), m, x.key, SortRows(LiveElem(f, x.key, x.obj)))
    ensures Repeats(r, x)
  {
    var f := FoldOf(Records(es));
    var rows := Interpreter.ElemRows(f, x.key, x.obj);
    var i: nat :| i < |rows| && AssertedBy(f, x, rows[i]);
    hide FoldOf, Observe, Sound;
    r := rows[i];
    MatchLabel(es, x, card, h, i);
    SeenMatches(Observe(f, h), m, x.key, rows, r);
  }

  /** What is read of a history through a mask. */
  function Masked(es: seq<Entry>, h: Hash, m: FactMask): View
    requires |es| <= U64_LIMIT
  {
    MaskedView(Observe(FoldOf(Records(es)), h), m)
  }

  lemma HistoryElem(es: seq<Entry>, card: Key -> Cardinality, m: FactMask, h: Hash, k: Key, o: ObjKey)
    requires Sound(es, card)
    ensures var f, v := FoldOf(Records(es)), Masked(es, h, m);
      var seen := VisibleRows(Observe(f, h), m, k, SortRows(LiveElem(f, k, o)));
      && ElemRowsOf(v, k, o) == seen
      && (o in GetOr(v.many, k, {}) <==> seen != [] && Last(seen).v.obj.Some?)
  {
    hide FoldLog, Observe, MaskedView;
    OpsUnique(Records(es));
    OpsTyped(Records(es), card);
    MaskedElem(Ops(Records(es)), card, m, h, k, o);
  }

  /** The other elements of the key are read as before. */
  lemma OthersAsOf(es: seq<Entry>, x: Line, card: Key -> Cardinality, h: Hash, m: FactMask, at: i64, o: ObjKey)
    requires Appendable(es, x, card) && o != ElemOf(x)
    ensures var a, b := Masked(es, h, m), Masked(With(es, x, card), h, m);
      && (o in PointManyAsOf(a, x.key, at) <==> o in PointManyAsOf(b, x.key, at))
      && (o in GetOr(a.many, x.key, {}) <==> o in GetOr(b.many, x.key, {}))
  {
    var a, b, k := Masked(es, h, m), Masked(With(es, x, card), h, m), x.key;
    WithSound(es, x, card);
    hide FoldOf, Observe, Masked, VisibleRows, LiveElem, PointManyAsOf, ElemRowsOf, AsOf, Sound, With, ApplyLabeled;
    ElemGrows(es, x, card, h, m, o);
    assert ElemRowsOf(a, k, o) + [] == ElemRowsOf(a, k, o);
    ElemRead(a, k, o, at);
    ElemRead(b, k, o, at);
    HistoryElem(es, card, m, h, k, o);
    HistoryElem(With(es, x, card), card, m, h, k, o);
  }

  lemma OwnAsOf(es: seq<Entry>, x: Line, card: Key -> Cardinality, h: Hash, m: FactMask, at: i64)
    requires Assertable(es, x, card) && Asserted(FoldOf(Records(es)), x)
    ensures var a, b := Masked(es, h, m), Masked(With(es, x, card), h, m);
      (x.obj in PointManyAsOf(a, x.key, at) <==> x.obj in PointManyAsOf(b, x.key, at)) <==>
        !(m.RowVisible(x.key.1, x.access) && Spans(x, at) && ClosedOver(ElemRowsOf(a, x.key, x.obj), x, at))
  {
    var a, b, k := Masked(es, h, m), Masked(With(es, x, card), h, m), x.key;
    hide FoldOf, Observe, Masked, VisibleRows, LiveElem, Asserted, AsOf, ClosedOver, PointManyAsOf, ElemRowsOf, With,
         FactMask.RowVisible, Sound;
    ElemGrows(es, x, card, h, m, x.obj);
    ElemRead(a, k, x.obj, at);
    ElemRead(b, k, x.obj, at);
    var seen := ElemRowsOf(a, k, x.obj);
    if m.RowVisible(k.1, x.access) {
      var r := MatchSeen(es, x, card, h, m);
      HistoryElem(es, card, m, h, k, x.obj);
      SeenOlder(es, x, card, h, m);
      RepeatNoticed(seen, r, NewRow(es, x), x, at);
    } else {
      assert seen + [] == seen;
    }
  }

  /** A skipped assertion is noticed by a read as of an instant exactly when the mask shows the asserted row, the
      instant lies in its interval, and the row that decides the read is a close with the same start. */
  lemma SkipNoticedAsOf(es: seq<Entry>, x: Line, card: Key -> Cardinality, h: Hash, m: FactMask, at: i64)
    requires Assertable(es, x, card) && Asserted(FoldOf(Records(es)), x)
    ensures var a, b := Masked(es, h, m), Masked(With(es, x, card), h, m);
      PointManyAsOf(a, x.key, at) == PointManyAsOf(b, x.key, at) <==>
        !(m.RowVisible(x.key.1, x.access) && Spans(x, at) && ClosedOver(ElemRowsOf(a, x.key, x.obj), x, at))
  {
    hide FoldOf, Masked, Asserted, ClosedOver, PointManyAsOf, ElemRowsOf, With, Sound, FactMask.RowVisible;
    OwnAsOf(es, x, card, h, m, at);
    forall o | o != x.obj
      ensures o in PointManyAsOf(Masked(es, h, m), x.key, at)
        <==> o in PointManyAsOf(Masked(With(es, x, card), h, m), x.key, at)
    {
      OthersAsOf(es, x, card, h, m, at, o);
    }
  }

  lemma ElemGrows(es: seq<Entry>, x: Line, card: Key -> Cardinality, h: Hash, m: FactMask, o: ObjKey)
    requires Appendable(es, x, card)
    ensures ElemRowsOf(Masked(With(es, x, card), h, m), x.key, o) ==
      ElemRowsOf(Masked(es, h, m), x.key, o)
      + if o == ElemOf(x) && m.RowVisible(x.key.1, x.access) then [NewRow(es, x)] else []
  {
    hide FoldOf, Observe, Masked, VisibleRows, LiveElem;
    WithSound(es, x, card);
    HistoryElem(es, card, m, h, x.key, o);
    HistoryElem(With(es, x, card), card, m, h, x.key, o);
    WithSeen(es, x, card, h, m, o);
  }

  lemma SeenOlder(es: seq<Entry>, x: Line, card: Key -> Cardinality, h: Hash, m: FactMask)
    requires Appendable(es, x, card)
    ensures forall r :: r in ElemRowsOf(Masked(es, h, m), x.key, ElemOf(x)) ==> r.ok.Less(NewRow(es, x).ok)
  {
    hide FoldOf, Observe, Masked, LiveElem;
    HistoryElem(es, card, m, h, x.key, ElemOf(x));
    WithRows(es, x, card, ElemOf(x));
    var f := FoldOf(Records(es));
    FilterSubset(SortRows(LiveElem(f, x.key, ElemOf(x))),
                 (r: Row) => m.RowVisible(x.key.1, RowLabel(Observe(f, h), x.key, r.ok)));
  }

  lemma TopShows(seen: seq<Row>, more: seq<Row>, top: Row, shown: bool)
    requires more == seen + (if shown then [top] else []) && top.v.obj.Some?
    ensures more != [] && Last(more).v.obj.Some? <==> shown || (seen != [] && Last(seen).v.obj.Some?)
  {
  }

  /** With the row appended the element is present wherever the row shows. */
  lemma OwnNow(es: seq<Entry>, x: Line, card: Key -> Cardinality, h: Hash, m: FactMask)
    requires Assertable(es, x, card)
    ensures x.obj in GetOr(Masked(With(es, x, card), h, m).many, x.key, {}) <==>
      m.RowVisible(x.key.1, x.access) || x.obj in GetOr(Masked(es, h, m).many, x.key, {})
  {
    var a, b := Masked(es, h, m), Masked(With(es, x, card), h, m);
    WithSound(es, x, card);
    hide FoldOf, Observe, Masked, VisibleRows, LiveElem, ElemRowsOf, With, Sound, FactMask.RowVisible;
    ElemGrows(es, x, card, h, m, x.obj);
    HistoryElem(es, card, m, h, x.key, x.obj);
    HistoryElem(With(es, x, card), card, m, h, x.key, x.obj);
    TopShows(ElemRowsOf(a, x.key, x.obj), ElemRowsOf(b, x.key, x.obj), NewRow(es, x), m.RowVisible(x.key.1, x.access));
  }

  /** ... and by a read of the present set exactly when the mask shows the asserted row but not the element as
      present, because the last row it shows is a close. */
  lemma SkipNoticedNow(es: seq<Entry>, x: Line, card: Key -> Cardinality, h: Hash, m: FactMask)
    requires Assertable(es, x, card) && Asserted(FoldOf(Records(es)), x)
    ensures var a, b := Masked(es, h, m), Masked(With(es, x, card), h, m);
      GetOr(a.many, x.key, {}) == GetOr(b.many, x.key, {}) <==>
        !(m.RowVisible(x.key.1, x.access) && x.obj !in GetOr(a.many, x.key, {}))
  {
    hide FoldOf, Masked, Asserted, With, Sound, FactMask.RowVisible;
    OwnNow(es, x, card, h, m);
    var a, b := Masked(es, h, m), Masked(With(es, x, card), h, m);
    forall o | o != x.obj
      ensures o in GetOr(a.many, x.key, {}) <==> o in GetOr(b.many, x.key, {})
    {
      OthersAsOf(es, x, card, h, m, 0, o);
    }
  }

  /** A visible head is the last visible row. */
  lemma HeadSeen(es: seq<Entry>, x: Line, card: Key -> Cardinality, h: Hash, m: FactMask)
    requires Assertable(es, x, card) && m.RowVisible(x.key.1, x.access)
    requires var f := FoldOf(Records(es));
      var rows := Interpreter.ElemRows(f, x.key, x.obj); rows != [] && AssertedBy(f, x, Last(rows))
    ensures var seen := ElemRowsOf(Masked(es, h, m), x.key, x.obj);
      seen != [] && Repeats(Last(seen), x) && Ascending(seen)
  {
    var f := FoldOf(Records(es));
    var rows := Interpreter.ElemRows(f, x.key, x.obj);
    HistoryElem(es, card, m, h, x.key, x.obj);
    MatchLabel(es, x, card, h, |rows| - 1);
    SortRowsCorrect(LiveElem(f, x.key, x.obj));
    FilterRowsCorrect(rows, (r: Row) => m.RowVisible(x.key.1, RowLabel(Observe(f, h), x.key, r.ok)));
  }

  /** Where the last row repeats the assertion, no close of the same start decides a read inside its interval. */
  lemma HeadDecides(seen: seq<Row>, x: Line, at: i64)
    requires x.Fact? && Ascending(seen) && seen != [] && Repeats(Last(seen), x)
    ensures !(Spans(x, at) && ClosedOver(seen, x, at))
  {
    var n := |seen| - 1;
    WinnerCorrect(seen[..n], at);
    assert Winner(seen[..n], at).Some? ==> Winner(seen[..n], at).value.ok.Less(seen[n].ok);
  }

  /** So, when the matching row is the element's head, nobody notices: no read, now or as of any instant, under any
      mask. */
  lemma HeadRepeatUnnoticed(es: seq<Entry>, x: Line, card: Key -> Cardinality, h: Hash, m: FactMask, at: i64)
    requires Assertable(es, x, card)
    requires var f := FoldOf(Records(es));
      var rows := Interpreter.ElemRows(f, x.key, x.obj); rows != [] && AssertedBy(f, x, Last(rows))
    ensures var a, b := Masked(es, h, m), Masked(With(es, x, card), h, m);
      && GetOr(a.many, x.key, {}) == GetOr(b.many, x.key, {})
      && PointManyAsOf(a, x.key, at) == PointManyAsOf(b, x.key, at)
  {
    var f, k := FoldOf(Records(es)), x.key;
    var rows := Interpreter.ElemRows(f, k, x.obj);
    assert AssertedBy(f, x, rows[|rows| - 1]);
    SkipNoticedAsOf(es, x, card, h, m, at);
    SkipNoticedNow(es, x, card, h, m);
    hide FoldOf, Observe, Masked, LiveElem, PointManyAsOf, Sound;
    if m.RowVisible(k.1, x.access) {
      HeadSeen(es, x, card, h, m);
      HeadDecides(ElemRowsOf(Masked(es, h, m), k, x.obj), x, at);
      HistoryElem(es, card, m, h, k, x.obj);
    }
  }

  // --- a skipped close -------------------------------------------------------------------------

  /** A close row has no end. */
  lemma {:induction false} ClosesStayOpen(es: seq<Entry>, card: Key -> Cardinality, k: Key, o: ObjKey)
    requires Sound(es, card)
    ensures var rows := ElemVersions(FoldOf(Records(es)), k, o);
      forall ok :: ok in rows && rows[ok].obj.None? ==> rows[ok].validTo.None?
    decreases |es|
  {
    if es == [] {
      assert ElemVersions(FoldOf(Records(es)), k, o) == map[];
    } else {
      var n := |es| - 1;
      SoundPrefix(es, n, card);
      ClosesStayOpen(es[..n], card, k, o);
      assert es == es[..n] + [es[n]];
      EntryTyped(es, card);
      FoldOfMore(es[..n], es[n], card);
      ApplyElemRows(FoldOf(Records(es[..n])), OpOf(Records(es[..n]), es[n].record), k, o);
    }
  }

  lemma EntryTyped(es: seq<Entry>, card: Key -> Cardinality)
    requires Sound(es, card) && es != []
    ensures TypedRecord(es[|es| - 1].record, card) && |es| <= U64_LIMIT
  {
    assert TypedRecord(Records(es)[|es| - 1], card);
  }

  /** A row that repeats the last one decides no read otherwise. */
  lemma LastAgain(seen: seq<Row>, top: Row, at: i64)
    requires seen != [] && Ascending(seen) && Last(seen).v == top.v && Last(seen).ok.Less(top.ok)
    ensures AsOf(seen + [top], at) == AsOf(seen, at)
  {
    var n := |seen| - 1;
    assert (seen + [top])[..|seen|] == seen;
    WinnerCorrect(seen[..n], at);
    assert Winner(seen[..n], at).Some? ==> Winner(seen[..n], at).value.ok.Less(seen[n].ok);
  }

  /** The head that a skipped close repeats: its version and its label. */
  lemma ClosedHead(es: seq<Entry>, x: Line, card: Key -> Cardinality, h: Hash)
    requires Appendable(es, x, card) && x.Close? && ClosedAlready(Observe(FoldOf(Records(es)), h), x)
    ensures var f := FoldOf(Records(es));
      var rows := SortRows(LiveElem(f, x.key, ElemOf(x)));
      rows != [] && Last(rows).v == NewRow(es, x).v && RowLabel(Observe(f, h), x.key, Last(rows).ok) == x.access
  {
    var f, o := FoldOf(Records(es)), ElemOf(x);
    ClosesStayOpen(es, card, x.key, o);
    ManyHistoryAt(f, x.key);
    ManyRowsAt(f, x.key, o);
    SortRowsCorrect(LiveElem(f, x.key, o));
    hide FoldOf, ManyRows;
    var rows := SortRows(LiveElem(f, x.key, o));
    if rows != [] {
      assert Last(rows) in rows;
      assert Last(rows).ok in ElemVersions(f, x.key, o);
    }
  }

  lemma FilterLast(rows: seq<Row>, keep: Row -> bool)
    requires rows != [] && keep(Last(rows))
    ensures FilterRows(rows, keep) != [] && Last(FilterRows(rows, keep)) == Last(rows)
  {
  }

  /** The visible rows end with the head, wherever the close would show. */
  lemma ClosedSeen(es: seq<Entry>, x: Line, card: Key -> Cardinality, h: Hash, m: FactMask)
    requires Appendable(es, x, card) && x.Close? && ClosedAlready(Observe(FoldOf(Records(es)), h), x)
    requires m.RowVisible(x.key.1, x.access)
    ensures var seen := ElemRowsOf(Masked(es, h, m), x.key, ElemOf(x));
      seen != [] && Ascending(seen) && Last(seen).v == NewRow(es, x).v
  {
    var f, o := FoldOf(Records(es)), ElemOf(x);
    var rows := SortRows(LiveElem(f, x.key, o));
    hide FoldOf, Observe, Masked, LiveElem, Sound, ElemRowsOf, ClosedAlready;
    ClosedHead(es, x, card, h);
    HistoryElem(es, card, m, h, x.key, o);
    SortRowsCorrect(LiveElem(f, x.key, o));
    var keep := (r: Row) => m.RowVisible(x.key.1, RowLabel(Observe(f, h), x.key, r.ok));
    FilterRowsCorrect(rows, keep);
    FilterLast(rows, keep);
    hide FilterRows;
  }

  predicate Ends(rows: seq<Row>) { rows != [] && Last(rows).v.obj.Some? }

  lemma ElemReads(es: seq<Entry>, card: Key -> Cardinality, m: FactMask, h: Hash, k: Key, o: ObjKey, at: i64)
    requires Sound(es, card)
    ensures var v := Masked(es, h, m);
      && (o in PointManyAsOf(v, k, at) <==> AsOf(ElemRowsOf(v, k, o), at).Some?)
      && (o in GetOr(v.many, k, {}) <==> Ends(ElemRowsOf(v, k, o)))
  {
    hide FoldOf, Observe, Masked, LiveElem, PointManyAsOf, ElemRowsOf, AsOf, VisibleRows;
    ElemRead(Masked(es, h, m), k, o, at);
    HistoryElem(es, card, m, h, k, o);
  }

  /** With the close appended the element's rows decide every read as before. */
  lemma CloseDecides(es: seq<Entry>, x: Line, card: Key -> Cardinality, h: Hash, m: FactMask, at: i64)
    requires Appendable(es, x, card) && x.Close? && ClosedAlready(Observe(FoldOf(Records(es)), h), x)
    ensures var k, o := x.key, ElemOf(x);
      var seen, more := ElemRowsOf(Masked(es, h, m), k, o), ElemRowsOf(Masked(With(es, x, card), h, m), k, o);
      AsOf(more, at) == AsOf(seen, at) && Ends(more) == Ends(seen)
  {
    hide FoldOf, Observe, Masked, LiveElem, Sound, ElemRowsOf, ClosedAlready, With, AsOf, FactMask.RowVisible;
    var seen := ElemRowsOf(Masked(es, h, m), x.key, ElemOf(x));
    ElemGrows(es, x, card, h, m, ElemOf(x));
    if m.RowVisible(x.key.1, x.access) {
      ClosedSeen(es, x, card, h, m);
      SeenOlder(es, x, card, h, m);
      LastAgain(seen, NewRow(es, x), at);
    } else {
      assert seen + [] == seen;
    }
  }

  /** A skipped close changes no read of its key, now or as of any instant, under any mask: it repeats the head of
      its element. */
  lemma SkippedCloseUnnoticed(es: seq<Entry>, x: Line, card: Key -> Cardinality, h: Hash, m: FactMask, at: i64)
    requires Appendable(es, x, card) && x.Close? && ClosedAlready(Observe(FoldOf(Records(es)), h), x)
    ensures var a, b := Masked(es, h, m), Masked(With(es, x, card), h, m);
      && GetOr(a.many, x.key, {}) == GetOr(b.many, x.key, {})
      && PointManyAsOf(a, x.key, at) == PointManyAsOf(b, x.key, at)
  {
    var a, b, k := Masked(es, h, m), Masked(With(es, x, card), h, m), x.key;
    WithSound(es, x, card);
    hide FoldOf, Observe, Masked, PointManyAsOf, Sound, ElemRowsOf, ClosedAlready, With, AsOf, Ends;
    forall o
      ensures o in PointManyAsOf(a, k, at) <==> o in PointManyAsOf(b, k, at)
      ensures o in GetOr(a.many, k, {}) <==> o in GetOr(b.many, k, {})
    {
      if o == ElemOf(x) {
        CloseDecides(es, x, card, h, m, at);
        ElemReads(es, card, m, h, k, o, at);
        ElemReads(With(es, x, card), card, m, h, k, o, at);
      } else {
        OthersAsOf(es, x, card, h, m, at, o);
      }
    }
  }

  // --- concrete elements -----------------------------------------------------------------------

  const Edge: Key := (1, 7)
  const Target: ObjKey := ObjKey.Node(5)

  function Add(from: i64, access: Option<Label>): Entry {
    Entry(Record(0, WriteKind.AddMany(Edge, Target, from, None), access), NoElem)
  }

  /** Granted from 5, ended at 5, granted again from 10 under a label. */
  function Regranted(access: Option<Label>): seq<Entry> {
    [Add(5, None), Entry(Record(0, WriteKind.CloseMany(Edge, Target, 5), None), NoElem), Add(10, access)]
  }

  function KeyAt(i: u64): OrderKey { OrderKey(i, 0, i) }

  const FirstRow: Row := Row(KeyAt(0), Version(Some(Target), 5, None))
  const EndRow: Row := Row(KeyAt(1), Version(None, 5, None))
  const LaterRow: Row := Row(KeyAt(2), Version(Some(Target), 10, None))

  /** The first grant again. */
  const Regrant: Line := Line.Fact(0, Edge, Target, 5, None, None, [])

  lemma NothingYet(card: Key -> Cardinality)
    ensures SortRows(LiveElem(FoldOf(Records([])), Edge, Target)) == [] && Sound([], card)
  {
  }

  lemma RegrantedRows(access: Option<Label>, card: Key -> Cardinality)
    requires card(Edge).Many?
    ensures SortRows(LiveElem(FoldOf(Records(Regranted(access))), Edge, Target)) == [FirstRow, EndRow, LaterRow]
    ensures Assertable(Regranted(access), Regrant, card)
  {
    var es := Regranted(access);
    NothingYet(card);
    hide FoldOf, LiveElem, Sound, Records, SortRows;
    RowOnTop([], es[0], card);
    assert [] + [es[0]] == [es[0]];
    RowOnTop([es[0]], es[1], card);
    assert [es[0]] + [es[1]] == [es[0], es[1]];
    RowOnTop([es[0], es[1]], es[2], card);
    assert [es[0], es[1]] + [es[2]] == es;
  }

  /** A snapshot labels the row of an element as the record that wrote it was labeled. */
  lemma ElemLabel(es: seq<Entry>, card: Key -> Cardinality, h: Hash, k: Key, o: ObjKey, i: nat)
    requires Sound(es, card) && i < |es| && (es[i].record.kind.AddMany? || es[i].record.kind.CloseMany?)
    requires TopRow(i, es[i].record) in SortRows(LiveElem(FoldOf(Records(es)), k, o))
    ensures RowLabel(Observe(FoldOf(Records(es)), h), k, TopRow(i, es[i].record).ok) == es[i].record.access
  {
    var rs := Records(es);
    var log, u := Ops(rs), UniverseOf(Ops(rs));
    OpsUnique(rs);
    InUniverse(log);
    OpsTyped(rs, card);
    assert OpIn(log[i], u);
    FoldLabelsExact(log, card, u, k);
    hide FoldOf, FoldLog, Observe, UniverseOf, LabelsExact, LiveElem, RowLabel;
    LabelOfRow(FoldOf(rs), h, k, o, u, TopRow(i, es[i].record));
  }

  lemma RegrantedLabels(access: Option<Label>, card: Key -> Cardinality, h: Hash)
    requires card(Edge).Many?
    ensures var s := Observe(FoldOf(Records(Regranted(access))), h);
      && RowLabel(s, Edge, KeyAt(0)) == None && RowLabel(s, Edge, KeyAt(1)) == None
      && RowLabel(s, Edge, KeyAt(2)) == access
  {
    var es := Regranted(access);
    RegrantedRows(access, card);
    assert TopRow(0, es[0].record) == FirstRow && TopRow(1, es[1].record) == EndRow;
    assert TopRow(2, es[2].record) == LaterRow;
    hide FoldOf, Observe, LiveElem, Sound, RowLabel, SortRows, Records;
    ElemLabel(es, card, h, Edge, Target, 0);
    ElemLabel(es, card, h, Edge, Target, 1);
    ElemLabel(es, card, h, Edge, Target, 2);
  }

  lemma SeenThree(s: Snapshot, m: FactMask, access: Option<Label>)
    requires m.floors == map[] && RowLabel(s, Edge, KeyAt(2)) == access
    requires RowLabel(s, Edge, KeyAt(0)) == None && RowLabel(s, Edge, KeyAt(1)) == None
    ensures VisibleRows(s, m, Edge, [FirstRow, EndRow, LaterRow])
      == [FirstRow, EndRow] + if m.Allows(access) then [LaterRow] else []
  {
    hide RowLabel;
    SeenSnoc(s, m, Edge, [], FirstRow);
    SeenSnoc(s, m, Edge, [FirstRow], EndRow);
    SeenSnoc(s, m, Edge, [FirstRow, EndRow], LaterRow);
    assert [] + [FirstRow] == [FirstRow] && [FirstRow] + [EndRow] == [FirstRow, EndRow];
    assert [FirstRow, EndRow] + [LaterRow] == [FirstRow, EndRow, LaterRow];
  }

  /** A mask without floors shows the first grant and its end to everyone, the later grant by its label. */
  lemma RegrantedSeen(access: Option<Label>, card: Key -> Cardinality, h: Hash, m: FactMask)
    requires card(Edge).Many? && m.floors == map[]
    ensures ElemRowsOf(Masked(Regranted(access), h, m), Edge, Target) ==
      [FirstRow, EndRow] + if m.Allows(access) then [LaterRow] else []
  {
    RegrantedRows(access, card);
    hide FoldOf, Observe, Masked, LiveElem, Sound, RowLabel, ElemRowsOf, SortRows, VisibleRows, Records, Regranted,
         FactMask.Allows;
    HistoryElem(Regranted(access), card, m, h, Edge, Target);
    RegrantedLabels(access, card, h);
    SeenThree(Observe(FoldOf(Records(Regranted(access))), h), m, access);
  }

  lemma RegrantProbed(access: Option<Label>, card: Key -> Cardinality, h: Hash)
    requires card(Edge).Many?
    ensures Assertable(Regranted(access), Regrant, card) && Asserted(FoldOf(Records(Regranted(access))), Regrant)
  {
    var es := Regranted(access);
    RegrantedRows(access, card);
    var f := FoldOf(Records(es));
    ProbeLabel(es, card, h);
    assert AssertedBy(f, Regrant, Interpreter.ElemRows(f, Edge, Target)[0]);
  }

  /** The label that the probe compares is the stored one of the first row. */
  lemma ProbeLabel(es: seq<Entry>, card: Key -> Cardinality, h: Hash)
    requires Sound(es, card) && es != [] && es[0] == Add(5, None)
      && FirstRow in SortRows(LiveElem(FoldOf(Records(es)), Edge, Target))
    ensures Get(StoredLabels(FoldOf(Records(es)), Edge), FirstRow.ok) == None
  {
    var rs := Records(es);
    var log, u := Ops(rs), UniverseOf(Ops(rs));
    OpsUnique(rs);
    InUniverse(log);
    OpsTyped(rs, card);
    assert OpIn(log[0], u);
    FoldLabelsExact(log, card, u, Edge);
    hide FoldLog, UniverseOf;
    SortRowsCorrect(LiveElem(FoldOf(rs), Edge, Target));
    assert FirstRow.ok in ElemVersions(FoldOf(rs), Edge, Target);
  }

  const Public: FactMask := FactMask({}, map[])

  /** Granted from 5, ended at 5, granted again from 10: re-asserting the first grant is skipped. A store that
      had appended it answers as of 7 with the element; the store that skipped it does not. */
  lemma SkipChangesAsOf(card: Key -> Cardinality, h: Hash)
    requires card(Edge).Many?
    ensures var es := Regranted(None);
      && Assertable(es, Regrant, card) && Asserted(FoldOf(Records(es)), Regrant)
      && Target !in PointManyAsOf(Masked(es, h, Public), Edge, 7)
      && Target in PointManyAsOf(Masked(With(es, Regrant, card), h, Public), Edge, 7)
  {
    var es := Regranted(None);
    RegrantProbed(None, card, h);
    RegrantedSeen(None, card, h, Public);
    var seen := ElemRowsOf(Masked(es, h, Public), Edge, Target);
    assert seen == [FirstRow, EndRow, LaterRow];
    EndDecides();
    OwnAsOf(es, Regrant, card, h, Public, 7);
    ElemRead(Masked(es, h, Public), Edge, Target, 7);
  }

  lemma EndDecides()
    ensures Winner([FirstRow, EndRow, LaterRow], 7) == Some(EndRow)
  {
    assert [FirstRow, EndRow, LaterRow][..2] == [FirstRow, EndRow];
    assert [FirstRow, EndRow][..1] == [FirstRow] && [FirstRow][..0] == [];
    assert Winner([FirstRow], 7) == Some(FirstRow);
    assert Winner([FirstRow, EndRow], 7) == Some(EndRow);
  }

  lemma HiddenAway(es: seq<Entry>, card: Key -> Cardinality, h: Hash)
    requires Sound(es, card) && ElemRowsOf(Masked(es, h, Public), Edge, Target) == [FirstRow, EndRow]
    ensures Target !in GetOr(Masked(es, h, Public).many, Edge, {})
  {
    hide FoldOf, Masked, LiveElem, Sound, ElemRowsOf, VisibleRows, Observe;
    HistoryElem(es, card, Public, h, Edge, Target);
  }

  /** With the later grant under a label, a reader who may not see it finds the element in the store that had
      appended the re-assertion, and not in the store that skipped it. */
  lemma SkipChangesMasked(card: Key -> Cardinality, h: Hash)
    requires card(Edge).Many?
    ensures var es := Regranted(Some(5));
      && Assertable(es, Regrant, card) && Asserted(FoldOf(Records(es)), Regrant)
      && Target !in GetOr(Masked(es, h, Public).many, Edge, {})
      && Target in GetOr(Masked(With(es, Regrant, card), h, Public).many, Edge, {})
  {
    var es := Regranted(Some(5));
    hide FoldOf, Masked, LiveElem, Sound, ElemRowsOf, SortRows, VisibleRows, Records, Regranted, Asserted;
    RegrantProbed(Some(5), card, h);
    RegrantedSeen(Some(5), card, h, Public);
    HiddenAway(es, card, h);
    OwnNow(es, Regrant, card, h, Public);
  }
}
