/** What a history says about one key, read off record by record: its rows in write order, its present
    set and its edge properties. */
module Ledger {
  import opened Types
  import opened Rows
  import opened Folds
  import opened FoldLaws
  import opened Snapshots
  import opened Collection
  import opened Changelogs
  import opened Engines
  import opened Interpreter
  import opened Mask
  import opened Faces

  /** A record and, for a retraction, the element it was asked to remove. */
  datatype Entry = Entry(record: Record, elem: ObjKey)

  datatype KeyFacts = KeyFacts(rows: seq<Face>, present: set<ObjKey>, props: PropValues)

  const Nothing: KeyFacts := KeyFacts([], {}, map[])

  function Records(es: seq<Entry>): (rs: seq<Record>)
    ensures |rs| == |es|
  {
    seq(|es|, i requires 0 <= i < |es| => es[i].record)
  }

  function Elements(es: seq<Entry>): (os: seq<ObjKey>)
    ensures |os| == |es|
  {
    seq(|es|, i requires 0 <= i < |es| => es[i].elem)
  }

  /** What one entry does to the facts of key `k`. */
  function Absorb(x: KeyFacts, e: Entry, k: Key): KeyFacts {
    var w := e.record.kind;
    if WrittenKey(w) != Some(k) then x
    else
      match w
      case SetOne(_, o, vf, vt) => x.(rows := x.rows + [Face(Version(Some(o), vf, vt), e.record.access)])
      case CloseOne(_, vf) => x.(rows := x.rows + [Face(Version(None, vf, None), e.record.access)])
      case AddMany(_, o, _, _) => x.(present := x.present + {o})
      case CloseMany(_, o, _) => x.(present := x.present - {o})
      case RemoveMany(_, _) => x.(present := x.present - {e.elem})
      case HardDelete(_, _) => KeyFacts([], {}, x.props)
      case SetEdgeProp(_, o, p, v) => x.(props := x.props[o := GetOr(x.props, o, map[])[p := v]])
      case _ => x
  }

  function FactsFrom(x: KeyFacts, es: seq<Entry>, k: Key): KeyFacts
    decreases |es|
  {
    if es == [] then x else Absorb(FactsFrom(x, es[..|es| - 1], k), es[|es| - 1], k)
  }

  function Facts(es: seq<Entry>, k: Key): KeyFacts { FactsFrom(Nothing, es, k) }

  lemma {:induction false} FactsConcat(x: KeyFacts, a: seq<Entry>, b: seq<Entry>, k: Key)
    ensures FactsFrom(x, a + b, k) == FactsFrom(FactsFrom(x, a, k), b, k)
    decreases |b|
  {
    hide Absorb;
    if b == [] {
      assert a + b == a;
    } else {
      assert (a + b)[..|a + b| - 1] == a + b[..|b| - 1];
      FactsConcat(x, a, b[..|b| - 1], k);
    }
  }

  lemma FactsSnoc(x: KeyFacts, es: seq<Entry>, e: Entry, k: Key)
    ensures FactsFrom(x, es + [e], k) == Absorb(FactsFrom(x, es, k), e, k)
  {
    hide Absorb;
    assert (es + [e])[..|es|] == es;
  }

  lemma {:induction false} FactsUntouched(x: KeyFacts, es: seq<Entry>, k: Key)
    requires forall i :: 0 <= i < |es| ==> WrittenKey(es[i].record.kind) != Some(k)
    ensures FactsFrom(x, es, k) == x
    decreases |es|
  {
    if es != [] {
      FactsUntouched(x, es[..|es| - 1], k);
    }
  }

  // --- the facts of a history are what its fold shows ------------------------------------------

  /** A history whose retractions were resolved against the writes before them. */
  ghost predicate Sound(es: seq<Entry>, card: Key -> Cardinality) {
    TypedHistory(Records(es), card) && Resolved(Records(es), Elements(es))
  }

  lemma SoundPrefix(es: seq<Entry>, n: nat, card: Key -> Cardinality)
    requires Sound(es, card) && n <= |es|
    ensures Sound(es[..n], card) && Records(es[..n]) == Records(es)[..n] && Elements(es[..n]) == Elements(es)[..n]
  {
    var rs := Records(es);
    assert Records(es[..n]) == rs[..n];
    forall i | 0 <= i < n && rs[..n][i].kind.RemoveMany?
      ensures rs[..n][i].kind.observed == LiveTags(FoldOf(rs[..n][..i]), rs[..n][i].kind.key, Elements(es[..n])[i])
    {
      assert rs[..n][..i] == rs[..i];
    }
  }

  /** The fold of one more entry. */
  lemma FoldOfMore(es: seq<Entry>, e: Entry, card: Key -> Cardinality)
    requires Sound(es, card) && |es| < U64_LIMIT && TypedRecord(e.record, card)
    ensures var f, lop := FoldOf(Records(es)), OpOf(Records(es), e.record);
      && Records(es + [e]) == Records(es) + [e.record]
      && FoldOf(Records(es + [e])) == ApplyLabeled(f, lop) && Accepts(f, lop.op)
      && Traced(f, Records(es)) && TypedState(f, card)
  {
    hide FoldOf, LiveTags, ApplyLabeled, Traced, RecordToOp;
    var rs := Records(es);
    assert Records(es + [e]) == rs + [e.record] && (rs + [e.record])[..|rs|] == rs;
    TypedAppend(rs, e.record, card);
    FoldOfNext(Records(es + [e]), card);
    HistoryMatches(rs, Elements(es), card);
    FoldOfTyped(rs, card);
  }

  lemma PlainFactsStep(p: Plain, x: KeyFacts, e: Entry, k: Key)
    requires x.present == GetOr(p.many, k, {}) && x.props == GetOr(p.props, k, map[])
    ensures var q, y := Interpret(p, e.record.kind, e.elem), Absorb(x, e, k);
      y.present == GetOr(q.many, k, {}) && y.props == GetOr(q.props, k, map[])
  {
    var w := e.record.kind;
    if WrittenKey(w) != Some(k) {
      PlainElsewhere(p, w, e.elem, k);
      hide Interpret;
    } else if w.AddMany? || w.CloseMany? || w.RemoveMany? {
      PlainElemStep(p, x, e, k);
      hide Interpret, Absorb;
    }
  }

  lemma PlainElemStep(p: Plain, x: KeyFacts, e: Entry, k: Key)
    requires x.present == GetOr(p.many, k, {}) && x.props == GetOr(p.props, k, map[])
    requires WrittenKey(e.record.kind) == Some(k)
    requires e.record.kind.AddMany? || e.record.kind.CloseMany? || e.record.kind.RemoveMany?
    ensures var q, y := Interpret(p, e.record.kind, e.elem), Absorb(x, e, k);
      y.present == GetOr(q.many, k, {}) && y.props == GetOr(q.props, k, map[])
  {
    hide PutSet;
    var w := e.record.kind;
    PutSetAt(p.many, k, GetOr(p.many, k, {}) + if w.AddMany? then {w.obj} else {});
    PutSetAt(p.many, k, GetOr(p.many, k, {}) - if w.CloseMany? then {w.obj} else {e.elem});
  }

  lemma PlainElsewhere(p: Plain, w: WriteKind, elem: ObjKey, k: Key)
    requires WrittenKey(w) != Some(k)
    ensures var q := Interpret(p, w, elem);
      GetOr(q.many, k, {}) == GetOr(p.many, k, {}) && GetOr(q.props, k, map[]) == GetOr(p.props, k, map[])
  {
  }

  lemma {:induction false} PlainFacts(es: seq<Entry>, k: Key)
    ensures Facts(es, k).present == GetOr(InterpretAll(Records(es), Elements(es)).many, k, {})
    ensures Facts(es, k).props == GetOr(InterpretAll(Records(es), Elements(es)).props, k, map[])
    decreases |es|
  {
    if es != [] {
      hide Interpret, Absorb;
      var n := |es| - 1;
      PlainFacts(es[..n], k);
      assert Records(es)[..n] == Records(es[..n]) && Elements(es)[..n] == Elements(es[..n]);
      PlainFactsStep(InterpretAll(Records(es[..n]), Elements(es[..n])), Facts(es[..n], k), es[n], k);
    }
  }

  /** The order key of a row names the record that wrote it. */
  predicate OwnKey(ok: OrderKey, rs: seq<Record>) {
    && ok.tx as int < |rs|
    && ok == OrderKey(ok.tx, rs[ok.tx].source, ok.tx)
    && !rs[ok.tx].kind.RemoveMany?
  }

  function AccessOf(ok: OrderKey, rs: seq<Record>): Option<Label> {
    if ok.tx as int < |rs| then rs[ok.tx].access else None
  }

  function FacesIn(rows: seq<Row>, rs: seq<Record>): seq<Face> { FacesOf(rows, ok => AccessOf(ok, rs)) }

  ghost predicate RowsAre(rows: seq<Row>, rs: seq<Record>, faces: seq<Face>) {
    (forall r :: r in rows ==> OwnKey(r.ok, rs)) && FacesIn(rows, rs) == faces
  }

  lemma RowsKept(rows: seq<Row>, rs: seq<Record>, r: Record, faces: seq<Face>)
    requires RowsAre(rows, rs, faces)
    ensures RowsAre(rows, rs + [r], faces)
  {
    assert forall i :: 0 <= i < |rows| ==> rows[i] in rows && AccessOf(rows[i].ok, rs + [r]) == AccessOf(rows[i].ok, rs);
    assert FacesIn(rows, rs + [r]) == FacesIn(rows, rs);
  }

  lemma RowAdded(rows: seq<Row>, rs: seq<Record>, r: Record, faces: seq<Face>, ok: OrderKey, v: Version)
    requires RowsAre(rows, rs, faces) && |rs| < U64_LIMIT && !r.kind.RemoveMany?
    requires ok == OrderKey(|rs| as u64, r.source, |rs| as u64)
    ensures RowsAre(rows + [Row(ok, v)], rs + [r], faces + [Face(v, r.access)])
  {
    RowsKept(rows, rs, r, faces);
    var n := |rs| as u64;
    assert ok == OrderKey(n, r.source, n);
    var more := rows + [Row(ok, v)];
    assert (rs + [r])[n] == r;
    assert FacesIn(more, rs + [r]) == FacesIn(rows, rs + [r]) + [Face(v, r.access)];
  }

  lemma RowsStep(f: State, rs: seq<Record>, e: Entry, k: Key, x: KeyFacts, card: Key -> Cardinality)
    requires |rs| < U64_LIMIT && Traced(f, rs) && TypedState(f, card) && card(k) == One && TypedRecord(e.record, card)
    requires Accepts(f, OpOf(rs, e.record).op) && RowsAre(OneRows(f, k), rs, x.rows)
    ensures RowsAre(OneRows(ApplyLabeled(f, OpOf(rs, e.record)), k), rs + [e.record], Absorb(x, e, k).rows)
  {
    var r := e.record;
    var g := ApplyLabeled(f, OpOf(rs, r));
    RowsKept(OneRows(f, k), rs, r, x.rows);
    if WrittenKey(r.kind) != Some(k) {
      OnlyWrittenKey(f, OpOf(rs, r), Blank, r.kind, e.elem, |rs| as u64, r, k);
      SameKeyRows(f, g, k);
    } else if r.kind.SetEdgeProp? {
      PropApplied(f, rs, r, Blank, e.elem, k);
    } else {
      KeysApplied(f, rs, r);
      WrittenRows(f, rs, e, k, x, card);
    }
  }

  lemma WrittenRows(f: State, rs: seq<Record>, e: Entry, k: Key, x: KeyFacts, card: Key -> Cardinality)
    requires |rs| < U64_LIMIT && Traced(f, rs) && TypedState(f, card) && card(k) == One && TypedRecord(e.record, card)
    requires Accepts(f, OpOf(rs, e.record).op) && RowsAre(OneRows(f, k), rs, x.rows)
    requires WrittenKey(e.record.kind) == Some(k) && !e.record.kind.SetEdgeProp?
    ensures RowsAre(OneRows(ApplyLabeled(f, OpOf(rs, e.record)), k), rs + [e.record], Absorb(x, e, k).rows)
  {
    var r, op := e.record, OpOf(rs, e.record).op;
    var g := ApplyLabeled(f, OpOf(rs, r));
    KeysApplied(f, rs, r);
    if r.kind.HardDelete? {
      HardDeleteStep(f, g, rs, k, r.kind.cardinality, op.ok);
    } else if r.kind.SetOne? || r.kind.CloseOne? {
      hide ApplyLabeled;
      OneStep(f, g, rs, k, op.ok, op.RowVersion());
      RowAdded(OneRows(f, k), rs, r, x.rows, op.ok, op.RowVersion());
    }
  }

  lemma EmptyRows(k: Key)
    ensures RowsAre(OneRows(FoldOf(Records([])), k), Records([]), [])
  {
  }

  lemma {:induction false} RowsOfHistory(es: seq<Entry>, k: Key, card: Key -> Cardinality)
    requires Sound(es, card) && card(k) == One
    ensures RowsAre(OneRows(FoldOf(Records(es)), k), Records(es), Facts(es, k).rows)
    decreases |es|
  {
    hide Absorb, ApplyLabeled, LiveTags, FoldOf, OneRows, RowsAre, Traced, Matches, RecordToOp;
    if es == [] {
      EmptyRows(k);
    } else {
      var n := |es| - 1;
      var rs := Records(es);
      SoundPrefix(es, n, card);
      RowsOfHistory(es[..n], k, card);
      HistoryMatches(rs[..n], Elements(es)[..n], card);
      FoldOfNext(rs, card);
      FoldOfTyped(rs[..n], card);
      assert rs == rs[..n] + [rs[n]];
      RowsStep(FoldOf(rs[..n]), rs[..n], es[n], k, Facts(es[..n], k), card);
    }
  }

  lemma OpsUnique(rs: seq<Record>)
    requires |rs| <= U64_LIMIT
    ensures UniqueKeys(Ops(rs))
  {
    forall i | 0 <= i < |rs| && HasKey(Ops(rs)[i].op)
      ensures Ops(rs)[i].op.ok.tx as int == i
    {
    }
  }

  /** A snapshot labels each row of a One key as the record that wrote it was labeled. */
  lemma LabelsFromRecords(rs: seq<Record>, card: Key -> Cardinality, k: Key, h: Hash, ok: OrderKey)
    requires TypedHistory(rs, card) && OwnKey(ok, rs) && ok in LiveOne(FoldOf(rs), k)
    ensures RowLabel(Observe(FoldOf(rs), h), k, ok) == AccessOf(ok, rs)
  {
    hide FoldLog, Observe, LiveOne, LabelsExact, UniverseOf, UniqueKeys, RowLabel;
    var u := UniverseOf(Ops(rs));
    OpsUnique(rs);
    InUniverse(Ops(rs));
    OpsTyped(rs, card);
    FoldLabelsExact(Ops(rs), card, u, k);
    LiveKeysFrom(FoldOf(rs), k, ok);
    SnapshotLabels(FoldOf(rs), h, k, u, ok);
    assert OpIn(Ops(rs)[ok.tx], u);
  }

  /** The faces of a One key in the snapshot of a history are the key's records in write order. */
  lemma FacesOfHistory(es: seq<Entry>, k: Key, card: Key -> Cardinality, h: Hash)
    requires Sound(es, card) && card(k) == One
    ensures FacesAt(Observe(FoldOf(Records(es)), h), k) == Facts(es, k).rows
  {
    var f, s := FoldOf(Records(es)), Observe(FoldOf(Records(es)), h);
    var rows := OneRows(f, k);
    RowsOfHistory(es, k, card);
    SortRowsCorrect(LiveOne(f, k));
    forall i | 0 <= i < |rows|
      ensures RowLabel(s, k, rows[i].ok) == AccessOf(rows[i].ok, Records(es))
    {
      assert rows[i] in rows;
      LabelsFromRecords(Records(es), card, k, h, rows[i].ok);
    }
    assert GetOr(s.oneHistory, k, []) == rows;
    assert FacesAt(s, k) == FacesIn(rows, Records(es));
  }

  /** Presence and edge properties in the fold of a history. */
  lemma PresenceOfHistory(es: seq<Entry>, k: Key, card: Key -> Cardinality)
    requires Sound(es, card)
    ensures forall o :: Present(FoldOf(Records(es)), k, o) <==> o in Facts(es, k).present
    ensures PropsOf(FoldOf(Records(es)), k) == Facts(es, k).props
  {
    hide Present, PropsOf, FoldOf, OneRows;
    HistoryMatches(Records(es), Elements(es), card);
    PlainFacts(es, k);
    assert MatchesAt(FoldOf(Records(es)), InterpretAll(Records(es), Elements(es)), k);
  }
}
