/** Histories in which the mask stands in the way: changes that a principal should read and is not told. */
module Overlooked {
  import opened Types
  import opened Rows
  import opened Folds
  import opened Snapshots
  import opened Refresh
  import opened Changelogs
  import opened Engines
  import opened Interpreter
  import opened Ingest
  import opened Mask
  import opened Queries
  import opened Conformance
  import opened Verdicts
  import opened Incremental
  import opened Live
  import opened MaskedChanges

  function SnapOf(history: seq<Record>, h: Hash): Snapshot
    requires |history| <= U64_LIMIT
  {
    Observe(FoldOf(history), h)
  }

  lemma SnapIs(history: seq<Record>, h: Hash)
    requires |history| <= U64_LIMIT
    ensures SnapOf(history, h) == Observe(FoldOf(history), h)
  {
  }

  function Plainly(kind: WriteKind): Record { Record(0, kind, None) }

  /** The fold of some first records of a history, and of one more. */
  lemma FoldNext(whole: seq<Record>, n: nat, card: Key -> Cardinality)
    requires TypedHistory(whole, card) && n < |whole|
    ensures FoldOf(whole[..n + 1]) == ApplyLabeled(FoldOf(whole[..n]), OpOf(whole[..n], whole[n]))
    ensures whole[..|whole|] == whole
  {
    hide FoldOf;
    FoldOfNext(whole[..n + 1], card);
    assert whole[..n + 1][..n] == whole[..n];
  }

  lemma FoldNone()
    ensures FoldOf([]) == Empty
  {
  }

  // --- a subject that comes in sight -----------------------------------------------------------

  /** Node 1 gets a type, and then the label 5. */
  function Typed5(t: FieldId): seq<Record> {
    [Plainly(WriteKind.SetNodeType(1, t)), Plainly(WriteKind.SetNodeLabel(1, 5))]
  }

  const Relabel: Record := Plainly(WriteKind.SetNodeLabel(1, 0))

  lemma Typed5Typed(t: FieldId, card: Key -> Cardinality)
    ensures TypedHistory(Typed5(t) + [Relabel], card)
  {
  }

  function Typed5State(t: FieldId, labeled: Reg<Label>): State {
    State(map[], map[], map[1 := NodeAttrs(Some(Reg(OrderKey(0, 0, 0), t)), Some(labeled))], map[])
  }

  lemma Typed5Applied(t: FieldId)
    ensures var rs := Typed5(t);
      ApplyLabeled(ApplyLabeled(Empty, OpOf([], rs[0])), OpOf([rs[0]], rs[1]))
        == Typed5State(t, Reg(OrderKey(1, 0, 1), 5))
  {
  }

  lemma Relabeled(t: FieldId, history: seq<Record>)
    requires |history| == 2
    ensures ApplyLabeled(Typed5State(t, Reg(OrderKey(1, 0, 1), 5)), OpOf(history, Relabel))
         == Typed5State(t, Reg(OrderKey(2, 0, 2), 0))
  {
  }

  lemma Typed5Attrs(t: FieldId, card: Key -> Cardinality)
    ensures FoldOf(Typed5(t)) == Typed5State(t, Reg(OrderKey(1, 0, 1), 5))
    ensures FoldOf(Typed5(t) + [Relabel]) == Typed5State(t, Reg(OrderKey(2, 0, 2), 0))
  {
    var rs := Typed5(t) + [Relabel];
    assert rs[..0] == [] && rs[..1] == [rs[0]] && rs[..2] == [rs[0], rs[1]] == Typed5(t);
    Typed5Typed(t, card);
    Typed5Applied(t);
    Relabeled(t, Typed5(t));
    FoldNone();
    hide FoldOf, TypedHistory, Typed5, ApplyLabeled, OpOf;
    FoldNext(rs, 0, card);
    FoldNext(rs, 1, card);
    FoldNext(rs, 2, card);
  }

  lemma SnapNode(history: seq<Record>, h: Hash, n: NodeId)
    requires |history| <= U64_LIMIT
    ensures Get(SnapOf(history, h).nodeTypes, n) == TypeOf(FoldOf(history), n)
    ensures Get(SnapOf(history, h).nodeLabels, n) == NodeLabelOf(FoldOf(history), n)
  {
    hide FoldOf;
  }

  /** A write of a node's attributes leaves the judgment of every node of the same type as it was. */
  lemma JudgedAlike(was: seq<Record>, now: seq<Record>, h: Hash, cat: Catalog, rule: Rule, n: NodeId)
    requires |was| <= U64_LIMIT && |now| <= U64_LIMIT
    requires var f, g := FoldOf(was), FoldOf(now);
      && f.keys == g.keys && f.edgeProps == g.edgeProps && f.factLabels == g.factLabels
      && f.nodeAttrs.Keys == g.nodeAttrs.Keys == {n} && TypeOf(f, n) == TypeOf(g, n)
    ensures Fresh(SnapOf(now, h), cat, rule, n) == Fresh(SnapOf(was, h), cat, rule, n)
  {
    hide FoldOf, Fresh, Observe;
    forall k
      ensures SameAt(FoldOf(was), FoldOf(now), k)
    {
      SameEntriesShowSame(FoldOf(was), FoldOf(now), k);
    }
    TouchedIsEnough(FoldOf(was), FoldOf(now), h, {}, {n});
    SnapNode(was, h, n);
    SnapNode(now, h, n);
    UntouchedSame(SnapOf(was, h), SnapOf(now, h), {}, {n}, cat, rule, n);
  }

  /** A subject whose label hid it from a principal that may see label 0 gets the label 0. The principal is told
      nothing, and does not have the verdict that it would be shown now. */
  lemma RelabeledSubjectMissed(cat: Catalog, rule: Rule, card: Key -> Cardinality, h: Hash, diffs: seq<VerdictDiff>)
    requires rule.subjectType in cat.ids
    requires var was := Typed5(cat.ids[rule.subjectType]);
      DiffsBetween(diffs, SnapOf(was, h), SnapOf(was + [Relabel], h), cat, rule)
    ensures var m, before := FactMask({0}, map[]), Typed5(cat.ids[rule.subjectType]);
      var was, now := SnapOf(before, h), SnapOf(before + [Relabel], h);
      && !Tells(diffs, now, m, 1)
      && 1 !in Reached([was, now], [diffs], cat, rule, m) && 1 in Evaluate(now, cat, rule, m, map[])
  {
    var before, m := Typed5(cat.ids[rule.subjectType]), FactMask({0}, map[]);
    var was, now := SnapOf(before, h), SnapOf(before + [Relabel], h);
    Typed5Attrs(cat.ids[rule.subjectType], card);
    hide FoldOf, Observe, DiffsBetween, Reached, Evaluate, Tells, Judge, SnapOf, Typed5, RowLabelsOf, TypeOf, NodeLabelOf;
    SnapNode(before, h, 1);
    SnapNode(before + [Relabel], h, 1);
    JudgedAlike(before, before + [Relabel], h, cat, rule, 1);
    Silent(diffs, was, now, cat, rule, now, m, 1);
    UnhiddenSubjectMissed(was, now, cat, rule, m, diffs, 1);
  }

  // --- a floor that silently enters what a judgment reads --------------------------------------

  /** The names of the rules below. */
  function Names(cmp: (ObjKey, ObjKey) -> Option<Ordering>): Catalog {
    Catalog(map["t" := 1, "a" := 2, "b" := 3, "c" := 4, "p" := 5, "q" := 6], cmp)
  }

  lemma NamesResolve(cmp: (ObjKey, ObjKey) -> Option<Ordering>)
    ensures var ids := Names(cmp).ids;
      && Get(ids, "t") == Some(1) && Get(ids, "a") == Some(2) && Get(ids, "b") == Some(3) && Get(ids, "c") == Some(4)
      && Get(ids, "p") == Some(5) && Get(ids, "q") == Some(6)
  {
    assert "t"[0] == 't' && "a"[0] == 'a' && "b"[0] == 'b' && "c"[0] == 'c' && "p"[0] == 'p' && "q"[0] == 'q';
  }

  /** The value of `p` must be the one at the end of `a`, `b`, `c`. */
  const ThreeHops: Rule :=
    Rule("t", None, [PathHop("a", None), PathHop("b", None), PathHop("c", None)], [], [], "p", None)

  const Unremarkable: Verdict := Verdict(1, Outcome.Ok, None, None, None, None, None, None, None, [], [])

  const StartWalk: Walk := Walk(Some(1), None, None, None)

  lemma ThreeHopsLiteral(v: View, cmp: (ObjKey, ObjKey) -> Option<Ordering>)
    requires PointOne(v, (1, 2)) == Some(Int(1)) && PointOne(v, (1, 5)) == None
    ensures Judge(v, Names(cmp), ThreeHops, 1, map[]) == (Unremarkable, [(1, 2), (1, 5)])
  {
    var cat := Names(cmp);
    NamesResolve(cmp);
    hide PointOne, Names;
    var t1 := Trace([], [], [(1, 2)]);
    assert NoTrace.Read((1, 2)) == t1;
    assert t1.Read((1, 5)) == Trace([], [], [(1, 2), (1, 5)]);
    assert WalkHop(v, cat, 1, ThreeHops.required[0], false, map[], StartWalk, NoTrace)
        == (StartWalk.(cur := None), t1);
    assert WalkFrom(v, cat, 1, ThreeHops.required, 1, map[], StartWalk.(cur := None), t1)
        == (StartWalk.(cur := None), t1);
    assert WalkPath(v, cat, 1, ThreeHops.required, map[], NoTrace) == (StartWalk.(cur := None), t1);
    assert WalkPath(v, cat, 1, [], map[], t1) == (StartWalk, t1);
  }

  lemma ThreeHopsNode(v: View, cmp: (ObjKey, ObjKey) -> Option<Ordering>)
    requires PointOne(v, (1, 2)) == Some(ObjKey.Node(9)) && PointOne(v, (9, 3)) == Some(Int(2))
    requires PointOne(v, (1, 5)) == None
    ensures Judge(v, Names(cmp), ThreeHops, 1, map[]) == (Unremarkable, [(1, 2), (9, 3), (1, 5)])
  {
    var cat := Names(cmp);
    NamesResolve(cmp);
    hide PointOne, Names;
    var t1, t2 := Trace([], [], [(1, 2)]), Trace([], [], [(1, 2), (9, 3)]);
    assert NoTrace.Read((1, 2)) == t1 && t1.Read((9, 3)) == t2;
    assert t2.Read((1, 5)) == Trace([], [], [(1, 2), (9, 3), (1, 5)]);
    var at, stuck := StartWalk.(cur := Some(9)), StartWalk.(cur := None);
    assert WalkHop(v, cat, 1, ThreeHops.required[0], false, map[], StartWalk, NoTrace) == (at, t1);
    assert WalkHop(v, cat, 1, ThreeHops.required[1], false, map[], at, t1) == (stuck, t2);
    assert WalkFrom(v, cat, 1, ThreeHops.required, 2, map[], stuck, t2) == (stuck, t2);
    assert WalkFrom(v, cat, 1, ThreeHops.required, 1, map[], at, t1) == (stuck, t2);
    assert WalkPath(v, cat, 1, ThreeHops.required, map[], NoTrace) == (stuck, t2);
    assert WalkPath(v, cat, 1, [], map[], t2) == (StartWalk, t2);
  }

  lemma NoLabelsShown(f: State, h: Hash)
    requires f.factLabels == map[]
    ensures Observe(f, h).factLabels == map[]
  {
    assert forall k :: LiveLabels(f, k) == map[];
  }

  /** A history without access labels stores none. */
  lemma {:induction false} Unlabeled(history: seq<Record>, card: Key -> Cardinality, h: Hash)
    requires TypedHistory(history, card) && forall i :: 0 <= i < |history| ==> history[i].access.None?
    ensures FoldOf(history).factLabels == map[] && SnapOf(history, h).factLabels == map[]
    decreases |history|
  {
    if history != [] {
      var n := |history| - 1;
      Unlabeled(history[..n], card, h);
      hide FoldOf;
      FoldOfNext(history, card);
    }
    NoLabelsShown(FoldOf(history), h);
  }

  lemma {:induction false} NoRowLabels(keys: seq<Key>, s: Snapshot)
    requires s.factLabels == map[]
    ensures RowLabelsOf(keys, s) == {}
    decreases |keys|
  {
    if keys != [] {
      NoRowLabels(keys[..|keys| - 1], s);
    }
  }

  /** The subject's `a` is a literal, and node 9 has a literal `b`. */
  const LiteralA: seq<Record> :=
    [Plainly(WriteKind.SetNodeType(1, 1)), Plainly(WriteKind.SetOne((9, 3), Int(2), 0, None)),
     Plainly(WriteKind.SetOne((1, 2), Int(1), 0, None))]

  /** The subject's `a` becomes node 9. */
  const RepointA: Record := Plainly(WriteKind.SetOne((1, 2), ObjKey.Node(9), 0, None))

  ghost predicate Singles(card: Key -> Cardinality) { card((1, 2)).One? && card((9, 3)).One? }

  lemma InterpretSnoc(history: seq<Record>, elems: seq<ObjKey>, r: Record, e: ObjKey)
    requires |elems| == |history|
    ensures InterpretAll(history + [r], elems + [e]) == Interpret(InterpretAll(history, elems), r.kind, e)
  {
    assert (history + [r])[..|history|] == history && (elems + [e])[..|history|] == elems;
  }

  lemma LiteralAPlain()
    ensures InterpretAll(LiteralA, [NoElem, NoElem, NoElem]) ==
      Plain(map[(9, 3) := Some(Int(2)), (1, 2) := Some(Int(1))], map[], map[], map[1 := 1], map[])
    ensures InterpretAll(LiteralA + [RepointA], [NoElem, NoElem, NoElem, NoElem]) ==
      Plain(map[(9, 3) := Some(Int(2)), (1, 2) := Some(ObjKey.Node(9))], map[], map[], map[1 := 1], map[])
  {
    var r := LiteralA;
    hide InterpretAll;
    assert [] + [r[0]] == [r[0]] && [r[0]] + [r[1]] == [r[0], r[1]] && [r[0], r[1]] + [r[2]] == r;
    InterpretNone();
    InterpretSnoc([], [], r[0], NoElem);
    InterpretSnoc([r[0]], [NoElem], r[1], NoElem);
    InterpretSnoc([r[0], r[1]], [NoElem, NoElem], r[2], NoElem);
    InterpretSnoc(r, [NoElem, NoElem, NoElem], RepointA, NoElem);
    assert [] + [NoElem] == [NoElem] && [NoElem] + [NoElem] == [NoElem, NoElem];
    assert [NoElem, NoElem] + [NoElem] == [NoElem, NoElem, NoElem];
    assert [NoElem, NoElem, NoElem] + [NoElem] == [NoElem, NoElem, NoElem, NoElem];
  }

  lemma InterpretNone()
    ensures InterpretAll([], []) == Blank
  {
  }

  lemma LiteralATyped(card: Key -> Cardinality)
    requires Singles(card)
    ensures var es: seq<ObjKey> := [NoElem, NoElem, NoElem];
      && TypedHistory(LiteralA, card) && TypedHistory(LiteralA + [RepointA], card)
      && Resolved(LiteralA, es) && Resolved(LiteralA + [RepointA], es + [NoElem])
    ensures |LiteralA| + 1 <= U64_LIMIT
    ensures forall i :: 0 <= i < |LiteralA| ==> LiteralA[i].access.None?
    ensures forall i :: 0 <= i < |LiteralA + [RepointA]| ==> (LiteralA + [RepointA])[i].access.None?
  {
    hide LiveTags, FoldOf;
  }

  lemma LiteralASnaps(card: Key -> Cardinality, h: Hash)
    requires Singles(card)
    ensures var was, now := SnapOf(LiteralA, h), SnapOf(LiteralA + [RepointA], h);
      && was.nodeTypes == now.nodeTypes == map[1 := 1] && was.nodeLabels == now.nodeLabels == map[]
      && was.one == map[(9, 3) := Some(Int(2)), (1, 2) := Some(Int(1))]
      && now.one == map[(9, 3) := Some(Int(2)), (1, 2) := Some(ObjKey.Node(9))]
      && was.factLabels == now.factLabels == map[]
  {
    hide *;
    LiteralAPlain();
    LiteralATyped(card);
    SnapIs(LiteralA, h);
    SnapIs(LiteralA + [RepointA], h);
    Unlabeled(LiteralA, card, h);
    Unlabeled(LiteralA + [RepointA], card, h);
    SnapshotIsInterpretation(LiteralA, [NoElem, NoElem, NoElem], card, h);
    SnapshotIsInterpretation(LiteralA + [RepointA], [NoElem, NoElem, NoElem] + [NoElem], card, h);
    assert [NoElem, NoElem, NoElem] + [NoElem] == [NoElem, NoElem, NoElem, NoElem];
  }

  /** A judgment of subject 1, told from what it came to. */
  lemma FreshIs(s: Snapshot, cmp: (ObjKey, ObjKey) -> Option<Ordering>, rule: Rule, v: Verdict, keys: seq<Key>)
    requires rule.subjectType == "t" && Get(s.nodeTypes, 1) == Some(1)
    requires Judge(ViewOf(s), Names(cmp), rule, 1, map[]) == (v, keys)
    ensures Fresh(s, Names(cmp), rule, 1) == Judged(Some(v), keys, RowLabelsOf(keys, s))
  {
    NamesResolve(cmp);
    hide Judge, ViewOf, RowLabelsOf, Names;
  }

  lemma LiteralPoints(s: Snapshot)
    requires s.one == map[(9, 3) := Some(Int(2)), (1, 2) := Some(Int(1))]
    ensures PointOne(ViewOf(s), (1, 2)) == Some(Int(1)) && PointOne(ViewOf(s), (1, 5)) == None
  {
  }

  lemma NodePoints(s: Snapshot)
    requires s.one == map[(9, 3) := Some(Int(2)), (1, 2) := Some(ObjKey.Node(9))]
    ensures PointOne(ViewOf(s), (1, 2)) == Some(ObjKey.Node(9)) && PointOne(ViewOf(s), (9, 3)) == Some(Int(2))
    ensures PointOne(ViewOf(s), (1, 5)) == None
  {
  }

  /** The same verdict before and after, from other keys. */
  lemma LiteralAJudged(cmp: (ObjKey, ObjKey) -> Option<Ordering>, was: Snapshot, now: Snapshot)
    requires Get(was.nodeTypes, 1) == Get(now.nodeTypes, 1) == Some(1) && was.factLabels == now.factLabels == map[]
    requires was.one == map[(9, 3) := Some(Int(2)), (1, 2) := Some(Int(1))]
    requires now.one == map[(9, 3) := Some(Int(2)), (1, 2) := Some(ObjKey.Node(9))]
    ensures Fresh(was, Names(cmp), ThreeHops, 1) == Judged(Some(Unremarkable), [(1, 2), (1, 5)], {})
    ensures Fresh(now, Names(cmp), ThreeHops, 1) == Judged(Some(Unremarkable), [(1, 2), (9, 3), (1, 5)], {})
  {
    hide Judge, Names, Fresh, ViewOf, RowLabelsOf, PointOne, Observe;
    LiteralPoints(was);
    NodePoints(now);
    ThreeHopsLiteral(ViewOf(was), cmp);
    ThreeHopsNode(ViewOf(now), cmp);
    FreshIs(was, cmp, ThreeHops, Unremarkable, [(1, 2), (1, 5)]);
    FreshIs(now, cmp, ThreeHops, Unremarkable, [(1, 2), (9, 3), (1, 5)]);
    NoRowLabels([(1, 2), (1, 5)], was);
    NoRowLabels([(1, 2), (9, 3), (1, 5)], now);
  }

  const FloorOnB: FactMask := FactMask({}, map[3 := 7])

  /** The floor lets the first judgment through and withholds the second. */
  lemma FloorOnBShows(s: Snapshot)
    requires s.nodeLabels == map[]
    ensures ShownAt(Judged(Some(Unremarkable), [(1, 2), (1, 5)], {}), s, FloorOnB, 1) == Some(Unremarkable)
    ensures ShownAt(Judged(Some(Unremarkable), [(1, 2), (9, 3), (1, 5)], {}), s, FloorOnB, 1)
      == Some(NotApplicableFor(1, HiddenByLabel))
  {
    hide WalkPath, CondHolds;
    var a, b: seq<Key> := [(1, 2), (1, 5)], [(1, 2), (9, 3), (1, 5)];
    assert FloorOnB.PredicateHidden(b[1].1) && 3 in FloorOnB.floors;
    assert forall i :: 0 <= i < |a| ==> !FloorOnB.PredicateHidden(a[i].1);
  }

  /** The judgment walks on to a predicate with a floor that the principal is not allowed, and comes to the verdict it
      had. The principal is told nothing, and keeps a verdict that is withheld from it now. */
  lemma EnteredFloorMissed(cmp: (ObjKey, ObjKey) -> Option<Ordering>, card: Key -> Cardinality, h: Hash,
                           diffs: seq<VerdictDiff>)
    requires Singles(card)
    requires DiffsBetween(diffs, SnapOf(LiteralA, h), SnapOf(LiteralA + [RepointA], h), Names(cmp), ThreeHops)
    ensures var was, now := SnapOf(LiteralA, h), SnapOf(LiteralA + [RepointA], h);
      && !Tells(diffs, now, FloorOnB, 1)
      && Get(Reached([was, now], [diffs], Names(cmp), ThreeHops, FloorOnB), 1) == Some(Unremarkable)
      && Get(Evaluate(now, Names(cmp), ThreeHops, FloorOnB, map[]), 1) == Some(NotApplicableFor(1, HiddenByLabel))
  {
    var was, now, cat := SnapOf(LiteralA, h), SnapOf(LiteralA + [RepointA], h), Names(cmp);
    LiteralASnaps(card, h);
    hide SnapOf, Judge, Names, Fresh, RowLabelsOf, DiffsBetween, Reached, Evaluate, Tells, ShownAt;
    LiteralAJudged(cmp, was, now);
    Silent(diffs, was, now, cat, ThreeHops, now, FloorOnB, 1);
    ReachedOne(was, now, cat, ThreeHops, FloorOnB, diffs, 1);
    EvaluateAt(was, cat, ThreeHops, FloorOnB, 1);
    EvaluateAt(now, cat, ThreeHops, FloorOnB, 1);
    FloorOnBShows(was);
    FloorOnBShows(now);
  }

  // --- a node on which the judgment misses something -------------------------------------------

  /** The value of `p` must be the one at the end of `a`, `b`. */
  const TwoHops: Rule := Rule("t", None, [PathHop("a", None), PathHop("b", None)], [], [], "p", None)

  /** Node 9 has no `b`. */
  const Incomplete: Verdict :=
    Verdict(1, Outcome.Ok, None, None, None, None, None, None, None, [Missing.Hop(9, "b")], [])

  /** The subject's `a` is node 9, which has the label 5. */
  const HiddenEnd: seq<Record> :=
    [Plainly(WriteKind.SetNodeType(1, 1)), Plainly(WriteKind.SetOne((1, 2), ObjKey.Node(9), 0, None)),
     Plainly(WriteKind.SetNodeLabel(9, 5))]

  const RelabelEnd: Record := Plainly(WriteKind.SetNodeLabel(9, 0))

  lemma TwoHopsMiss(v: View, cmp: (ObjKey, ObjKey) -> Option<Ordering>)
    requires PointOne(v, (1, 2)) == Some(ObjKey.Node(9)) && PointOne(v, (9, 3)) == None && PointOne(v, (1, 5)) == None
    ensures Judge(v, Names(cmp), TwoHops, 1, map[]) == (Incomplete, [(1, 2), (9, 3), (1, 5)])
  {
    var cat := Names(cmp);
    NamesResolve(cmp);
    hide PointOne, Names;
    var t1, t2 := Trace([], [], [(1, 2)]), Trace([Missing.Hop(9, "b")], [], [(1, 2), (9, 3)]);
    assert NoTrace.Read((1, 2)) == t1 && t1.Read((9, 3)).Miss(Missing.Hop(9, "b")) == t2;
    assert t2.Read((1, 5)) == Trace([Missing.Hop(9, "b")], [], [(1, 2), (9, 3), (1, 5)]);
    var at := StartWalk.(cur := Some(9));
    assert WalkHop(v, cat, 1, TwoHops.required[0], false, map[], StartWalk, NoTrace) == (at, t1);
    assert WalkHop(v, cat, 1, TwoHops.required[1], true, map[], at, t1) == (at, t2);
    assert WalkFrom(v, cat, 1, TwoHops.required, 2, map[], at, t2) == (at, t2);
    assert WalkFrom(v, cat, 1, TwoHops.required, 1, map[], at, t1) == (at, t2);
    assert WalkPath(v, cat, 1, TwoHops.required, map[], NoTrace) == (at, t2);
    assert WalkPath(v, cat, 1, [], map[], t2) == (StartWalk, t2);
  }

  lemma HiddenEndPlain()
    ensures InterpretAll(HiddenEnd, [NoElem, NoElem, NoElem]) ==
      Plain(map[(1, 2) := Some(ObjKey.Node(9))], map[], map[], map[1 := 1], map[9 := 5])
    ensures InterpretAll(HiddenEnd + [RelabelEnd], [NoElem, NoElem, NoElem, NoElem]) ==
      Plain(map[(1, 2) := Some(ObjKey.Node(9))], map[], map[], map[1 := 1], map[9 := 0])
  {
    var r := HiddenEnd;
    hide InterpretAll;
    assert [] + [r[0]] == [r[0]] && [r[0]] + [r[1]] == [r[0], r[1]] && [r[0], r[1]] + [r[2]] == r;
    InterpretNone();
    InterpretSnoc([], [], r[0], NoElem);
    InterpretSnoc([r[0]], [NoElem], r[1], NoElem);
    InterpretSnoc([r[0], r[1]], [NoElem, NoElem], r[2], NoElem);
    InterpretSnoc(r, [NoElem, NoElem, NoElem], RelabelEnd, NoElem);
    assert [] + [NoElem] == [NoElem] && [NoElem] + [NoElem] == [NoElem, NoElem];
    assert [NoElem, NoElem] + [NoElem] == [NoElem, NoElem, NoElem];
    assert [NoElem, NoElem, NoElem] + [NoElem] == [NoElem, NoElem, NoElem, NoElem];
  }

  lemma HiddenEndTyped(card: Key -> Cardinality)
    requires Singles(card)
    ensures var es: seq<ObjKey> := [NoElem, NoElem, NoElem];
      && TypedHistory(HiddenEnd, card) && TypedHistory(HiddenEnd + [RelabelEnd], card)
      && Resolved(HiddenEnd, es) && Resolved(HiddenEnd + [RelabelEnd], es + [NoElem])
    ensures |HiddenEnd| + 1 <= U64_LIMIT
    ensures forall i :: 0 <= i < |HiddenEnd| ==> HiddenEnd[i].access.None?
    ensures forall i :: 0 <= i < |HiddenEnd + [RelabelEnd]| ==> (HiddenEnd + [RelabelEnd])[i].access.None?
  {
    hide LiveTags, FoldOf;
  }

  lemma HiddenEndSnaps(card: Key -> Cardinality, h: Hash)
    requires Singles(card)
    ensures var was, now := SnapOf(HiddenEnd, h), SnapOf(HiddenEnd + [RelabelEnd], h);
      && was.nodeTypes == now.nodeTypes == map[1 := 1]
      && was.nodeLabels == map[9 := 5] && now.nodeLabels == map[9 := 0]
      && was.one == now.one == map[(1, 2) := Some(ObjKey.Node(9))]
      && was.factLabels == now.factLabels == map[]
  {
    hide *;
    HiddenEndPlain();
    HiddenEndTyped(card);
    SnapIs(HiddenEnd, h);
    SnapIs(HiddenEnd + [RelabelEnd], h);
    Unlabeled(HiddenEnd, card, h);
    Unlabeled(HiddenEnd + [RelabelEnd], card, h);
    SnapshotIsInterpretation(HiddenEnd, [NoElem, NoElem, NoElem], card, h);
    SnapshotIsInterpretation(HiddenEnd + [RelabelEnd], [NoElem, NoElem, NoElem] + [NoElem], card, h);
    assert [NoElem, NoElem, NoElem] + [NoElem] == [NoElem, NoElem, NoElem, NoElem];
  }

  lemma EndPoints(s: Snapshot)
    requires s.one == map[(1, 2) := Some(ObjKey.Node(9))]
    ensures PointOne(ViewOf(s), (1, 2)) == Some(ObjKey.Node(9)) && PointOne(ViewOf(s), (9, 3)) == None
    ensures PointOne(ViewOf(s), (1, 5)) == None
  {
  }

  lemma HiddenEndJudged(cmp: (ObjKey, ObjKey) -> Option<Ordering>, s: Snapshot)
    requires Get(s.nodeTypes, 1) == Some(1) && s.factLabels == map[]
    requires s.one == map[(1, 2) := Some(ObjKey.Node(9))]
    ensures Fresh(s, Names(cmp), TwoHops, 1) == Judged(Some(Incomplete), [(1, 2), (9, 3), (1, 5)], {})
  {
    hide Judge, Names, Fresh, ViewOf, RowLabelsOf, PointOne, Observe;
    EndPoints(s);
    TwoHopsMiss(ViewOf(s), cmp);
    FreshIs(s, cmp, TwoHops, Incomplete, [(1, 2), (9, 3), (1, 5)]);
    NoRowLabels([(1, 2), (9, 3), (1, 5)], s);
  }

  const SeesZero: FactMask := FactMask({0}, map[])

  lemma SeesZeroShows(was: Snapshot, now: Snapshot)
    requires was.nodeLabels == map[9 := 5] && now.nodeLabels == map[9 := 0]
    ensures var j := Judged(Some(Incomplete), [(1, 2), (9, 3), (1, 5)], {});
      && ShownAt(j, was, SeesZero, 1) == Some(NotApplicableFor(1, HiddenByLabel))
      && ShownAt(j, now, SeesZero, 1) == Some(Incomplete)
  {
    hide WalkPath, CondHolds;
    assert !NodeVisible(was, Incomplete.missing[0].node, SeesZero.allowed);
    SeenBlocked(Incomplete, Support([(1, 2), (9, 3), (1, 5)], {}), was, SeesZero);
    SeenBlocked(Incomplete, Support([(1, 2), (9, 3), (1, 5)], {}), now, SeesZero);
  }

  /** The node on which a judgment misses a value comes in sight of the principal. The principal is told nothing, and
      keeps a verdict withheld from it that it would be shown now. */
  lemma RelabeledEndMissed(cmp: (ObjKey, ObjKey) -> Option<Ordering>, card: Key -> Cardinality, h: Hash,
                           diffs: seq<VerdictDiff>)
    requires Singles(card)
    requires DiffsBetween(diffs, SnapOf(HiddenEnd, h), SnapOf(HiddenEnd + [RelabelEnd], h), Names(cmp), TwoHops)
    ensures var was, now := SnapOf(HiddenEnd, h), SnapOf(HiddenEnd + [RelabelEnd], h);
      && !Tells(diffs, now, SeesZero, 1)
      && Get(Reached([was, now], [diffs], Names(cmp), TwoHops, SeesZero), 1) == Some(NotApplicableFor(1, HiddenByLabel))
      && Get(Evaluate(now, Names(cmp), TwoHops, SeesZero, map[]), 1) == Some(Incomplete)
  {
    var was, now, cat := SnapOf(HiddenEnd, h), SnapOf(HiddenEnd + [RelabelEnd], h), Names(cmp);
    HiddenEndSnaps(card, h);
    hide SnapOf, Judge, Names, Fresh, RowLabelsOf, DiffsBetween, Reached, Evaluate, Tells, ShownAt;
    HiddenEndJudged(cmp, was);
    HiddenEndJudged(cmp, now);
    Silent(diffs, was, now, cat, TwoHops, now, SeesZero, 1);
    ReachedOne(was, now, cat, TwoHops, SeesZero, diffs, 1);
    EvaluateAt(was, cat, TwoHops, SeesZero, 1);
    EvaluateAt(now, cat, TwoHops, SeesZero, 1);
    SeesZeroShows(was, now);
  }

  // --- the last hidden row ---------------------------------------------------------------------

  /** Absent when `q` is 0. */
  const AbsentByQ: Rule := Rule("t", None, [], [], [], "p", Some(Cond("q", Equals(Int(0)), None)))

  /** The Many key that `q` names on the subject. */
  const Marks: Key := (1, 6)

  /** The subject has one element of `q`, under the label 5. */
  const Marked: seq<Record> :=
    [Plainly(WriteKind.SetNodeType(1, 1)), Record(0, WriteKind.AddMany(Marks, Int(4), 0, None), Some(5))]

  const MarkKey: OrderKey := OrderKey(1, 0, 1)

  /** The element is retracted. */
  const Unmark: Record := Plainly(WriteKind.RemoveMany(Marks, [MarkKey]))

  lemma AbsentByQJudged(v: View, cmp: (ObjKey, ObjKey) -> Option<Ordering>)
    requires PointOne(v, (1, 5)) == None && PointOne(v, Marks) == None
    ensures Judge(v, Names(cmp), AbsentByQ, 1, map[]) == (Unremarkable, [(1, 5), Marks])
  {
    var cat := Names(cmp);
    NamesResolve(cmp);
    hide PointOne, Names;
    var t1, t2 := Trace([], [], [(1, 5)]), Trace([], [], [(1, 5), Marks]);
    assert NoTrace.Read((1, 5)) == t1 && t1.Read(Marks) == t2;
    assert WalkPath(v, cat, 1, [], map[], NoTrace) == (StartWalk, NoTrace);
    assert CondHolds(v, cat, 1, AbsentByQ.absentWhen.value, map[], t1) == (false, t2);
  }

  /** One element whose only row is labeled 5, retracted or not. */
  function MarkedState(removes: set<OrderKey>): State {
    State(
      map[Marks := ManyState(map[Int(4) := map[MarkKey := Version(Some(Int(4)), 0, None)]], removes, None)],
      map[],
      map[1 := NodeAttrs(Some(Reg(OrderKey(0, 0, 0), 1)), None)],
      map[Marks := map[MarkKey := 5]])
  }

  lemma MarkedTyped(card: Key -> Cardinality)
    requires card(Marks).Many?
    ensures TypedHistory(Marked + [Unmark], card)
  {
  }

  lemma MarkedApplied()
    ensures ApplyLabeled(ApplyLabeled(Empty, OpOf([], Marked[0])), OpOf([Marked[0]], Marked[1])) == MarkedState({})
  {
  }

  lemma Unmarked(history: seq<Record>)
    requires |history| == 2
    ensures ApplyLabeled(MarkedState({}), OpOf(history, Unmark)) == MarkedState({MarkKey})
  {
    assert {} + (set t | t in [MarkKey]) == {MarkKey};
  }

  lemma MarkedFold(card: Key -> Cardinality)
    requires card(Marks).Many?
    ensures FoldOf(Marked) == MarkedState({})
    ensures FoldOf(Marked + [Unmark]) == MarkedState({MarkKey})
  {
    var rs := Marked + [Unmark];
    assert rs[..0] == [] && rs[..1] == [rs[0]] && rs[..2] == [rs[0], rs[1]] == Marked;
    MarkedTyped(card);
    MarkedApplied();
    Unmarked(Marked);
    FoldNone();
    hide FoldOf, TypedHistory, MarkedState, ApplyLabeled, OpOf;
    FoldNext(rs, 0, card);
    FoldNext(rs, 1, card);
    FoldNext(rs, 2, card);
  }

  /** The retraction observes the one add row there is. */
  lemma UnmarkResolved()
    ensures Unmark.kind.observed == LiveTags(MarkedState({}), Marks, Int(4))
  {
    var f, v := MarkedState({}), Version(Some(Int(4)), 0, None);
    assert LiveElem(f, Marks, Int(4)) == map[MarkKey := v];
    var none: map<OrderKey, Version> := map[];
    SortRowsAppend(none, MarkKey, v);
    assert none[MarkKey := v] == map[MarkKey := v] && SortRows(none) == [];
    assert SortRows(map[MarkKey := v]) == [Row(MarkKey, v)];
    FilterSorted(map[MarkKey := v], (r: Row) => r.v.obj.Some?, map[MarkKey := v]);
  }

  lemma ManyOnly(f: State, h: Hash)
    requires forall k :: k in f.keys ==> f.keys[k].ManyState?
    ensures Observe(f, h).one == map[]
  {
    assert forall k :: OneRows(f, k) == [];
  }

  lemma MarkedLabels()
    ensures LiveLabels(MarkedState({}), Marks) == map[MarkKey := 5]
    ensures LiveLabels(MarkedState({MarkKey}), Marks) == map[]
    ensures forall k :: k != Marks ==> LiveLabels(MarkedState({MarkKey}), k) == LiveLabels(MarkedState({}), k) == map[]
  {
    var f, g := MarkedState({}), MarkedState({MarkKey});
    assert MarkKey in LiveElem(f, Marks, Int(4)) && Int(4) in Elems(f, Marks);
    assert MarkKey in LiveKeys(f, Marks);
    assert forall o :: LiveElem(g, Marks, o) == map[];
    assert LiveKeys(g, Marks) == {};
  }

  /** Before the retraction the row is stored with its label, afterwards nothing is. */
  lemma MarkedShown(h: Hash)
    ensures Observe(MarkedState({}), h).factLabels == map[Marks := map[MarkKey := 5]]
    ensures Observe(MarkedState({MarkKey}), h).factLabels == map[]
  {
    var f, g := MarkedState({}), MarkedState({MarkKey});
    MarkedLabels();
    assert MarkKey in LiveLabels(f, Marks);
    forall k
      ensures Get(LabelsOf(f), k) == if k == Marks then Some(map[MarkKey := 5]) else None
      ensures Get(LabelsOf(g), k) == None
    {
      LabelsAt(f, k);
      LabelsAt(g, k);
    }
    hide LiveLabels;
    SameMaps(LabelsOf(f), map[Marks := map[MarkKey := 5]]);
    SameMaps(LabelsOf(g), map[]);
  }

  lemma MarkedRead(removes: set<OrderKey>, h: Hash)
    ensures var s := Observe(MarkedState(removes), h);
      && s.nodeTypes == map[1 := 1] && s.nodeLabels == map[] && s.labelCounts == Counts(s.factLabels)
      && PointOne(ViewOf(s), (1, 5)) == None && PointOne(ViewOf(s), Marks) == None
  {
    ManyOnly(MarkedState(removes), h);
  }

  lemma MarkLabelsOf(s: Snapshot)
    requires s.factLabels == map[Marks := map[MarkKey := 5]]
    ensures RowLabelsOf([(1, 5), Marks], s) == {5}
  {
    var keys: seq<Key> := [(1, 5), Marks];
    assert keys[..1] == [(1, 5)] && keys[..1][..0] == [];
    var rows: map<OrderKey, Label> := map[MarkKey := 5];
    assert rows.Values == {5} by {
      assert rows[MarkKey] == 5;
    }
    assert StoredOn((1, 5), s) == {} && StoredOn(Marks, s) == {5};
    assert RowLabelsOf([], s) == {} && RowLabelsOf([(1, 5)], s) == {};
  }

  /** The same verdict before and after, but no longer from a labeled row. */
  lemma MarkedJudged(cmp: (ObjKey, ObjKey) -> Option<Ordering>, h: Hash)
    ensures var was, now := Observe(MarkedState({}), h), Observe(MarkedState({MarkKey}), h);
      && Fresh(was, Names(cmp), AbsentByQ, 1) == Judged(Some(Unremarkable), [(1, 5), Marks], {5})
      && Fresh(now, Names(cmp), AbsentByQ, 1) == Judged(Some(Unremarkable), [(1, 5), Marks], {})
  {
    var was, now := Observe(MarkedState({}), h), Observe(MarkedState({MarkKey}), h);
    MarkedRead({}, h);
    MarkedRead({MarkKey}, h);
    MarkedShown(h);
    hide Judge, Names, Fresh, ViewOf, RowLabelsOf, PointOne, Observe, MarkedState;
    AbsentByQJudged(ViewOf(was), cmp);
    AbsentByQJudged(ViewOf(now), cmp);
    FreshIs(was, cmp, AbsentByQ, Unremarkable, [(1, 5), Marks]);
    FreshIs(now, cmp, AbsentByQ, Unremarkable, [(1, 5), Marks]);
    MarkLabelsOf(was);
    NoRowLabels([(1, 5), Marks], now);
  }

  const NoLabels: FactMask := FactMask({}, map[])

  /** While the labeled row is live the mask hides something, and withholds the judgment from it; afterwards it hides
      nothing, and shows either judgment. */
  lemma NoLabelsShows(was: Snapshot, now: Snapshot)
    requires was.nodeLabels == now.nodeLabels == map[]
    requires was.factLabels == map[Marks := map[MarkKey := 5]] && now.factLabels == map[]
    requires was.labelCounts == Counts(was.factLabels) && now.labelCounts == Counts(now.factLabels)
    ensures var a, b := Judged(Some(Unremarkable), [(1, 5), Marks], {5}), Judged(Some(Unremarkable), [(1, 5), Marks], {});
      && ShownAt(a, was, NoLabels, 1) == Some(NotApplicableFor(1, HiddenByLabel))
      && ShownAt(a, now, NoLabels, 1) == ShownAt(b, now, NoLabels, 1) == Some(Unremarkable)
  {
    hide WalkPath, CondHolds;
    assert 5 in LabelsIn(was.factLabels) by {
      assert Marks in was.factLabels && MarkKey in was.factLabels[Marks] && was.factLabels[Marks][MarkKey] == 5;
    }
    assert 5 in was.labelCounts && !LabelAllowed({}, 5);
    assert LabelsIn(now.factLabels) == {} && now.labelCounts == map[];
    assert NoLabels.HidesAny(was) && !NoLabels.HidesAny(now);
    assert 5 in Support([(1, 5), Marks], {5}).rowLabels;
  }

  /** The last row hidden from the principal is retracted. The change is journaled, but both its sides are masked as
      of now, when the mask hides nothing: they look the same, and the principal keeps a verdict withheld from it
      that it would be shown now. */
  lemma LastHiddenRowMissed(cmp: (ObjKey, ObjKey) -> Option<Ordering>, card: Key -> Cardinality, h: Hash,
                            diffs: seq<VerdictDiff>)
    requires card(Marks).Many?
    requires DiffsBetween(diffs, SnapOf(Marked, h), SnapOf(Marked + [Unmark], h), Names(cmp), AbsentByQ)
    ensures var was, now := SnapOf(Marked, h), SnapOf(Marked + [Unmark], h);
      && 1 in Subjects(diffs) && !Tells(diffs, now, NoLabels, 1)
      && Get(Reached([was, now], [diffs], Names(cmp), AbsentByQ, NoLabels), 1) == Some(NotApplicableFor(1, HiddenByLabel))
      && Get(Evaluate(now, Names(cmp), AbsentByQ, NoLabels, map[]), 1) == Some(Unremarkable)
  {
    var was, now, cat := SnapOf(Marked, h), SnapOf(Marked + [Unmark], h), Names(cmp);
    MarkedFold(card);
    MarkedRead({}, h);
    MarkedRead({MarkKey}, h);
    MarkedShown(h);
    hide Judge, Names, Fresh, RowLabelsOf, DiffsBetween, Reached, Evaluate, Tells, ShownAt, Observe, FoldOf, MarkedState,
         ViewOf, PointOne, Subjects;
    MarkedJudged(cmp, h);
    NoLabelsShows(was, now);
    Alike(diffs, was, now, cat, AbsentByQ, NoLabels, 1);
    ReachedOne(was, now, cat, AbsentByQ, NoLabels, diffs, 1);
    EvaluateAt(was, cat, AbsentByQ, NoLabels, 1);
    EvaluateAt(now, cat, AbsentByQ, NoLabels, 1);
  }

  /** A judgment whose two sides look the same now is not told. */
  lemma Alike(diffs: seq<VerdictDiff>, was: Snapshot, now: Snapshot, cat: Catalog, rule: Rule, m: FactMask, n: NodeId)
    requires DiffsBetween(diffs, was, now, cat, rule) && NodeVisible(now, n, m.allowed)
    requires ShownAt(Fresh(was, cat, rule, n), now, m, n) == ShownAt(Fresh(now, cat, rule, n), now, m, n)
    ensures !Tells(diffs, now, m, n)
    ensures !SameToReader(Fresh(was, cat, rule, n), Fresh(now, cat, rule, n)) ==> n in Subjects(diffs)
  {
    hide Fresh, Seen, NodeVisible;
    forall d | d in diffs && d.subject == n
      ensures !Told(d, now, m)
    {
      assert DiffOf(d, was, now, cat, rule);
    }
  }
}
