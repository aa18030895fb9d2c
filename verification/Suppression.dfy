/** Skipping no-op writes changes no answer about One keys, properties or nodes, and what it changes about
    Many keys. */
module Suppression {
  import opened Types
  import opened Rows
  import opened Folds
  import opened Snapshots
  import opened Changelogs
  import opened Engines
  import opened Interpreter
  import opened Mask
  import opened Queries
  import opened Views
  import opened Faces
  import opened Ledger
  import opened Ingest

  // --- an ingest that appends every record -----------------------------------------------------

  function AppendLine(es: seq<Entry>, x: Line, card: Key -> Cardinality): seq<Entry>
    requires |es| + Most(x) <= U64_LIMIT
  {
    match x
    case Fact(_, _, _, _, _, _, _) => es + Bare([FactRecord(x, card)] + AllProps(x, x.props))
    case Close(_, _, _, _, _) => es + Bare([CloseRecord(x)])
    case Retract(source, k, o) =>
      var tags := LiveTags(FoldOf(Records(es)), k, o);
      if tags == [] then es else es + [Entry(Retraction(source, k, tags), o)]
    case NodeLine(_, ty, access) =>
      es + (if ty.Some? then [TypeEntry(x)] else []) + if access.Some? then [LabelEntry(x)] else []
  }

  lemma {:induction false} AllPropsLength(x: Line, ps: seq<(Text, ObjKey)>)
    requires x.Fact?
    ensures |AllProps(x, ps)| == |ps|
  {
    if ps != [] {
      AllPropsLength(x, ps[..|ps| - 1]);
    }
  }

  lemma AppendLineRoom(es: seq<Entry>, x: Line, card: Key -> Cardinality)
    requires |es| + Most(x) <= U64_LIMIT
    ensures |AppendLine(es, x, card)| <= |es| + Most(x)
  {
    if x.Fact? {
      AllPropsLength(x, x.props);
    }
  }

  function AppendLines(es: seq<Entry>, xs: seq<Line>, card: Key -> Cardinality): seq<Entry>
    requires |es| + MostOf(xs) <= U64_LIMIT
    decreases |xs|
  {
    if xs == [] then es
    else
      AppendLineRoom(es, xs[0], card);
      AppendLines(AppendLine(es, xs[0], card), xs[1..], card)
  }

  // --- what the two ingests agree on -----------------------------------------------------------

  /** What the writes and the waiting batch say about a key. */
  function Pending(d: Draft, k: Key): KeyFacts { FactsFrom(Facts(d.history, k), Bare(d.batch), k) }

  /** `x` answers as `y` does, except that it lacks the present elements listed in `lost`. */
  ghost predicate Agrees(x: KeyFacts, y: KeyFacts, k: Key, c: Cardinality, lost: set<(Key, ObjKey)>) {
    && x.props == y.props
    && (c.One? ==> Collapse(x.rows) == Collapse(y.rows))
    && (c.Many? ==> forall o :: Lacks(x.present, y.present, o, (k, o) in lost))
  }

  predicate Lacks(x: set<ObjKey>, y: set<ObjKey>, o: ObjKey, lost: bool) {
    (o in y <==> o in x || lost) && (lost ==> o !in x)
  }

  ghost predicate SameAttrs(d: Draft, es: seq<Entry>) {
    var p := InterpretAll(Records(es), Elements(es));
    d.types == p.types && d.labels == p.labels
  }

  /** The draft answers as the history `es` of everything, except for `lost`. */
  ghost predicate Follows(d: Draft, es: seq<Entry>, lost: set<(Key, ObjKey)>, card: Key -> Cardinality) {
    && Sound(es, card)
    && SameAttrs(d, es)
    && forall k :: Agrees(Pending(d, k), Facts(es, k), k, card(k), lost)
  }

  predicate BatchKind(w: WriteKind) { w.SetOne? || w.CloseOne? || w.AddMany? || w.CloseMany? || w.SetEdgeProp? }

  ghost predicate Queued(r: Record, dirty: set<Key>, card: Key -> Cardinality) {
    TypedRecord(r, card) && BatchKind(r.kind) && r.kind.key in dirty
  }

  /** Writes that reach the engine without going through the batch. */
  predicate Direct(w: WriteKind) { w.RemoveMany? || w.SetNodeType? || w.SetNodeLabel? }

  /** Every waiting write is to a dirty key; past the drained mark there are only direct writes. */
  ghost predicate Orderly(d: Draft, card: Key -> Cardinality) {
    && Sound(d.history, card)
    && SameAttrs(d, d.history)
    && d.drained <= |d.history|
    && (forall r :: r in d.batch ==> Queued(r, d.dirty, card))
    && (forall i :: d.drained <= i < |d.history| ==> Direct(d.history[i].record.kind))
  }

  // --- growing a history -----------------------------------------------------------------------

  lemma InterpretSnoc(es: seq<Entry>, e: Entry)
    ensures InterpretAll(Records(es + [e]), Elements(es + [e])) ==
            Interpret(InterpretAll(Records(es), Elements(es)), e.record.kind, e.elem)
  {
    hide Interpret;
    var n := |es|;
    assert Records(es + [e])[..n] == Records(es) && Elements(es + [e])[..n] == Elements(es);
  }

  ghost predicate Resolves(es: seq<Entry>, e: Entry) {
    |es| < U64_LIMIT && (e.record.kind.RemoveMany? ==>
      e.record.kind.observed == LiveTags(FoldOf(Records(es)), e.record.kind.key, e.elem))
  }

  lemma SoundSnoc(es: seq<Entry>, e: Entry, card: Key -> Cardinality)
    requires Sound(es, card) && TypedRecord(e.record, card) && Resolves(es, e)
    ensures Sound(es + [e], card)
  {
    hide FoldOf, LiveTags;
    var rs, more := Records(es), Records(es + [e]);
    assert more == rs + [e.record];
    forall i | 0 <= i < |more| && more[i].kind.RemoveMany?
      ensures more[i].kind.observed == LiveTags(FoldOf(more[..i]), more[i].kind.key, Elements(es + [e])[i])
    {
      assert more[..i] == if i < |rs| then rs[..i] else rs;
      if i < |rs| {
        assert rs[i].kind.observed == LiveTags(FoldOf(rs[..i]), rs[i].kind.key, Elements(es)[i]);
      }
    }
  }

  /** Queued writes keep a history sound and its node attributes as they are. */
  lemma {:induction false} GrowBatch(d: Draft, es: seq<Entry>, rs: seq<Record>, dirty: set<Key>, card: Key -> Cardinality)
    requires Sound(es, card) && SameAttrs(d, es) && |es| + |rs| <= U64_LIMIT
    requires forall r :: r in rs ==> Queued(r, dirty, card)
    ensures Sound(es + Bare(rs), card) && SameAttrs(d, es + Bare(rs))
    decreases |rs|
  {
    if rs == [] {
      assert es + Bare(rs) == es;
    } else {
      hide Sound, TypedRecord, Interpret;
      var n := |rs| - 1;
      GrowBatch(d, es, rs[..n], dirty, card);
      var rest, e := es + Bare(rs[..n]), Bare(rs)[n];
      assert rs[n] in rs && Queued(rs[n], dirty, card);
      assert rest + [e] == es + Bare(rs);
      SoundSnoc(rest, e, card);
      InterpretSnoc(rest, e);
      PlainAttrs(InterpretAll(Records(rest), Elements(rest)), e.record.kind, e.elem);
    }
  }

  lemma BareConcat(a: seq<Record>, b: seq<Record>)
    ensures Bare(a + b) == Bare(a) + Bare(b)
  {
  }

  /** Flushing changes where the writes are, not what they say. */
  lemma FlushKeeps(d: Draft, limit: nat, card: Key -> Cardinality)
    requires Orderly(d, card) && Room(d, 0) && Flush(d, limit).Going?
    ensures var n := Flush(d, limit).draft;
      && n.batch == [] && n.types == d.types && n.labels == d.labels
      && Orderly(n.(dirty := {}), card) && Orderly(n, card)
      && forall k :: Pending(n, k) == Pending(d, k)
  {
    hide Sound, InterpretAll;
    var n := Flush(d, limit).draft;
    GrowBatch(d, d.history, d.batch, d.dirty, card);
    forall k
      ensures Pending(n, k) == Pending(d, k)
    {
      FactsConcat(Nothing, d.history, Bare(d.batch), k);
    }
  }

  lemma FlushFullKeeps(d: Draft, limit: nat, es: seq<Entry>, lost: set<(Key, ObjKey)>, card: Key -> Cardinality)
    requires Orderly(d, card) && Room(d, 0) && FlushFull(d, limit).Going? && Follows(d, es, lost, card)
    ensures Orderly(FlushFull(d, limit).draft, card) && Follows(FlushFull(d, limit).draft, es, lost, card)
  {
    hide Orderly, Agrees, Flush, Pending, Sound;
    if |d.batch| >= FLUSH_AT {
      FlushKeeps(d, limit, card);
      PendingIgnoresDirty(Flush(d, limit).draft);
    }
  }

  lemma PendingIgnoresDirty(d: Draft)
    ensures forall k :: Pending(d.(dirty := {}), k) == Pending(d, k)
  {
  }

  /** Queueing writes to a key adds them to what is pending, for that key only. */
  lemma QueueKeeps(d: Draft, rs: seq<Record>, k: Key, card: Key -> Cardinality)
    requires Orderly(d, card) && forall r :: r in rs ==> Queued(r, {k}, card)
    ensures Orderly(Queue(d, rs, k), card)
    ensures forall x :: Pending(Queue(d, rs, k), x) == FactsFrom(Pending(d, x), Bare(rs), x)
    ensures forall x :: x != k ==> Pending(Queue(d, rs, k), x) == Pending(d, x)
  {
    hide Sound, InterpretAll, TypedRecord, Absorb;
    var q := Queue(d, rs, k);
    forall r | r in q.batch
      ensures Queued(r, q.dirty, card)
    {
      assert r in d.batch || r in rs;
    }
    forall x
      ensures Pending(q, x) == FactsFrom(Pending(d, x), Bare(rs), x)
      ensures x != k ==> Pending(q, x) == Pending(d, x)
    {
      BareConcat(d.batch, rs);
      FactsConcat(Facts(d.history, x), Bare(d.batch), Bare(rs), x);
      if x != k {
        OnlyKey(Pending(d, x), rs, k, x, card);
      }
    }
  }

  lemma OnlyKey(f: KeyFacts, rs: seq<Record>, k: Key, x: Key, card: Key -> Cardinality)
    requires x != k && forall r :: r in rs ==> Queued(r, {k}, card)
    ensures FactsFrom(f, Bare(rs), x) == f
  {
    forall i | 0 <= i < |rs|
      ensures WrittenKey(Bare(rs)[i].record.kind) != Some(x)
    {
      assert rs[i] in rs && Queued(rs[i], {k}, card);
    }
    FactsUntouched(f, Bare(rs), x);
  }

  // --- a clean key is as the drained snapshot shows it -----------------------------------------

  lemma {:induction false} DirectOnly(x: KeyFacts, es: seq<Entry>, k: Key)
    requires forall i :: 0 <= i < |es| ==> Direct(es[i].record.kind)
    ensures var y := FactsFrom(x, es, k); y.rows == x.rows && y.props == x.props && y.present <= x.present
    decreases |es|
  {
    if es != [] {
      DirectOnly(x, es[..|es| - 1], k);
    }
  }

  /** The dirty set never lets a stale head or property decide: only retractions can be missing. */
  lemma CleanIsDrained(d: Draft, k: Key, card: Key -> Cardinality)
    requires Orderly(d, card) && k !in d.dirty
    ensures var now, was := Pending(d, k), Facts(d.history[..d.drained], k);
      now.rows == was.rows && now.props == was.props && now.present <= was.present
  {
    hide Sound, InterpretAll, TypedRecord, Absorb;
    var tail := d.history[d.drained..];
    forall i | 0 <= i < |d.batch|
      ensures WrittenKey(Bare(d.batch)[i].record.kind) != Some(k)
    {
      assert d.batch[i] in d.batch && Queued(d.batch[i], d.dirty, card);
    }
    FactsUntouched(Facts(d.history, k), Bare(d.batch), k);
    assert d.history == d.history[..d.drained] + tail;
    FactsConcat(Nothing, d.history[..d.drained], tail, k);
    forall i | 0 <= i < |tail|
      ensures Direct(tail[i].record.kind)
    {
      assert tail[i] == d.history[d.drained + i];
    }
    DirectOnly(Facts(d.history[..d.drained], k), tail, k);
  }

  lemma DrainedSound(d: Draft, card: Key -> Cardinality)
    requires Orderly(d, card)
    ensures Sound(d.history[..d.drained], card) && |d.history| <= U64_LIMIT
  {
    SoundPrefix(d.history, d.drained, card);
  }

  /** The head row in the drained snapshot is the last face of the key. */
  lemma HeadIsLast(es: seq<Entry>, k: Key, card: Key -> Cardinality, h: Hash)
    requires Sound(es, card) && card(k) == One
    ensures var s, rows, faces := Observe(FoldOf(Records(es)), h),
        GetOr(Observe(FoldOf(Records(es)), h).oneHistory, k, []), Facts(es, k).rows;
      && (rows == [] <==> faces == [])
      && (rows != [] ==> faces[|faces| - 1] == Face(Last(rows).v, RowLabel(s, k, Last(rows).ok)))
  {
    hide Observe, FoldOf, Sound, RowLabel, Facts;
    FacesOfHistory(es, k, card, h);
  }

  /** Reading the last rows of an element in the snapshot tells whether it is present. */
  lemma ElementRows(es: seq<Entry>, k: Key, o: ObjKey, card: Key -> Cardinality, h: Hash)
    requires Sound(es, card)
    ensures var rows := GetOr(GetOr(Observe(FoldOf(Records(es)), h).manyHistory, k, map[]), o, []);
      && rows == Interpreter.ElemRows(FoldOf(Records(es)), k, o)
      && (o in Facts(es, k).present <==> rows != [] && Last(rows).v.obj.Some?)
  {
    PresenceOfHistory(es, k, card);
    hide FoldOf, Sound, Facts, LiveElem;
    ManyHistoryAt(FoldOf(Records(es)), k);
    ManyRowsAt(FoldOf(Records(es)), k, o);
  }

  lemma PropsShown(es: seq<Entry>, k: Key, card: Key -> Cardinality, h: Hash)
    requires Sound(es, card)
    ensures GetOr(Observe(FoldOf(Records(es)), h).edgeProps, k, map[]) == Facts(es, k).props
  {
    PresenceOfHistory(es, k, card);
    hide FoldOf, Sound, Facts, PropsOf;
    EdgePropsAt(FoldOf(Records(es)), k);
  }

  // --- one assertion, one close ----------------------------------------------------------------

  /** Skipping a row that repeats the last one leaves the key as appending it would. */
  lemma RepeatAgrees(x: KeyFacts, y: KeyFacts, k: Key, lost: set<(Key, ObjKey)>, f: Face)
    requires Agrees(x, y, k, One, lost)
    ensures x.rows != [] && x.rows[|x.rows| - 1] == f ==> Agrees(x, y.(rows := y.rows + [f]), k, One, lost)
    ensures Agrees(x.(rows := x.rows + [f]), y.(rows := y.rows + [f]), k, One, lost)
  {
    CollapseSnoc(x.rows, f);
    CollapseSnoc(y.rows, f);
  }

  function FaceOf(r: Record): Face
    requires r.kind.SetOne? || r.kind.CloseOne?
  {
    Face(if r.kind.SetOne? then Version(Some(r.kind.obj), r.kind.validFrom, r.kind.validTo)
         else Version(None, r.kind.validFrom, None), r.access)
  }

  lemma BareOne(x: KeyFacts, r: Record, k: Key)
    ensures FactsFrom(x, Bare([r]), k) == Absorb(x, Entry(r, NoElem), k) && FactsFrom(x, Bare([]), k) == x
  {
    hide Absorb;
    FactsSnoc(x, [], Entry(r, NoElem), k);
    assert Bare([r]) == [] + [Entry(r, NoElem)];
  }

  /** Appending or rightly skipping one write to a One key. */
  lemma OneRowAgrees(x: KeyFacts, y: KeyFacts, k: Key, lost: set<(Key, ObjKey)>, r: Record, skipped: bool)
    requires Agrees(x, y, k, One, lost) && (r.kind.SetOne? || r.kind.CloseOne?) && r.kind.key == k
    requires skipped ==> x.rows != [] && x.rows[|x.rows| - 1] == FaceOf(r)
    ensures Agrees(FactsFrom(x, Bare(if skipped then [] else [r]), k), FactsFrom(y, Bare([r]), k), k, One, lost)
  {
    hide Collapse;
    BareOne(x, r, k);
    BareOne(y, r, k);
    RepeatAgrees(x, y, k, lost, FaceOf(r));
  }

  /** Appending one write to a Many key, or skipping it: a skipped add of an absent element loses it. */
  lemma ElemAgrees(x: KeyFacts, y: KeyFacts, k: Key, lost: set<(Key, ObjKey)>, r: Record, skipped: bool)
    requires Agrees(x, y, k, Many, lost) && (r.kind.AddMany? || r.kind.CloseMany?) && r.kind.key == k
    requires skipped && r.kind.CloseMany? ==> r.kind.obj !in x.present
    ensures Agrees(FactsFrom(x, Bare(if skipped then [] else [r]), k), FactsFrom(y, Bare([r]), k), k, Many,
                   if skipped && r.kind.AddMany? && r.kind.obj !in x.present then lost + {(k, r.kind.obj)}
                   else lost - {(k, r.kind.obj)})
  {
    BareOne(x, r, k);
    BareOne(y, r, k);
    assert forall o :: Lacks(x.present, y.present, o, (k, o) in lost);
  }

  // --- edge properties -------------------------------------------------------------------------

  lemma {:induction false} PropsElsewhere(f: KeyFacts, x: Line, ps: seq<(Text, ObjKey)>, name: Text)
    requires x.Fact? && forall i :: 0 <= i < |ps| ==> ps[i].0 != name
    ensures var g := FactsFrom(f, Bare(AllProps(x, ps)), x.key);
      && g.rows == f.rows && g.present == f.present
      && Get(GetOr(g.props, x.obj, map[]), name) == Get(GetOr(f.props, x.obj, map[]), name)
    decreases |ps|
  {
    if ps == [] {
      assert Bare(AllProps(x, ps)) == [];
    } else {
      var n := |ps| - 1;
      PropsElsewhere(f, x, ps[..n], name);
      PropsSnoc(f, x, AllProps(x, ps[..n]), ps[n]);
    }
  }

  /** Skipping the properties that hold already changes none. */
  lemma {:induction false} PropsAgree(f: KeyFacts, g: KeyFacts, s: Snapshot, x: Line, clean: bool,
                                      ps: seq<(Text, ObjKey)>)
    requires x.Fact? && DistinctNames(ps) && f.props == g.props
    requires clean ==> GetOr(s.edgeProps, x.key, map[]) == f.props
    ensures var a, b := FactsFrom(f, Bare(KeptProps(s, x, clean, ps)), x.key), FactsFrom(g, Bare(AllProps(x, ps)), x.key);
      && a.props == b.props && a.rows == f.rows && a.present == f.present && b.rows == g.rows && b.present == g.present
    decreases |ps|
  {
    hide Absorb;
    if ps == [] {
      assert Bare(AllProps(x, ps)) == [] && Bare(KeptProps(s, x, clean, ps)) == [];
    } else {
      var n := |ps| - 1;
      var kept, all, r := KeptProps(s, x, clean, ps[..n]), AllProps(x, ps[..n]), PropRecord(x, ps[n]);
      PropsAgree(f, g, s, x, clean, ps[..n]);
      PropsElsewhere(g, x, ps[..n], ps[n].0);
      PropsSnoc(g, x, all, ps[n]);
      PropsSnoc(f, x, kept, ps[n]);
      PropRepeats(FactsFrom(g, Bare(all), x.key).props, x.obj, ps[n]);
      assert kept + [] == kept;
    }
  }

  lemma PropRepeats(props: PropValues, o: ObjKey, p: (Text, ObjKey))
    ensures Get(GetOr(props, o, map[]), p.0) == Some(p.1) ==> props[o := GetOr(props, o, map[])[p.0 := p.1]] == props
  {
    if Get(GetOr(props, o, map[]), p.0) == Some(p.1) {
      assert props[o][p.0 := p.1] == props[o];
    }
  }

  /** Absorbing the waiting property write after the ones before it. */
  lemma PropsSnoc(f: KeyFacts, x: Line, rs: seq<Record>, p: (Text, ObjKey))
    requires x.Fact?
    ensures var g := FactsFrom(f, Bare(rs), x.key);
      FactsFrom(f, Bare(rs + [PropRecord(x, p)]), x.key) ==
        g.(props := g.props[x.obj := GetOr(g.props, x.obj, map[])[p.0 := p.1]])
  {
    BareConcat(rs, [PropRecord(x, p)]);
    FactsConcat(f, Bare(rs), Bare([PropRecord(x, p)]), x.key);
    BareOne(FactsFrom(f, Bare(rs), x.key), PropRecord(x, p), x.key);
  }

  // --- one line --------------------------------------------------------------------------------

  /** The present elements that are missing after a line: only a fact line skipped while its element is
      absent adds to them, and any other write to the element mends it. */
  function LostAfter(lost: set<(Key, ObjKey)>, d: Draft, x: Line, card: Key -> Cardinality, h: Hash): set<(Key, ObjKey)>
    requires Room(d, Most(x))
  {
    match x
    case Fact(_, k, o, _, _, _, _) =>
      if card(k).One? then lost
      else if FactSkipped(d, x, card, h) && o !in Pending(d, k).present then lost + {(k, o)}
      else lost - {(k, o)}
    case Close(_, k, elem, _, _) => if elem.None? then lost else lost - {(k, elem.value)}
    case Retract(_, k, o) => lost - {(k, o)}
    case NodeLine(_, _, _) => lost
  }

  /** A line on a key says nothing about the elements of the others. */
  lemma OtherKeyAgrees(x: KeyFacts, y: KeyFacts, k: Key, c: Cardinality, a: set<(Key, ObjKey)>, b: set<(Key, ObjKey)>)
    requires Agrees(x, y, k, c, a) && forall o :: (k, o) in a <==> (k, o) in b
    ensures Agrees(x, y, k, c, b)
  {
    hide Collapse;
    if c.Many? {
      assert forall o :: Lacks(x.present, y.present, o, (k, o) in a);
    }
  }

  lemma SkippedFace(d: Draft, x: Line, card: Key -> Cardinality, h: Hash)
    requires Orderly(d, card) && x.Fact? && card(x.key) == One && Room(d, 0) && FactSkipped(d, x, card, h)
    ensures var rows := Pending(d, x.key).rows; rows != [] && rows[|rows| - 1] == FaceOf(FactRecord(x, card))
  {
    hide Orderly, Sound, Facts, FactsFrom, Observe, FoldOf, RowLabel;
    DrainedSound(d, card);
    CleanIsDrained(d, x.key, card);
    HeadIsLast(d.history[..d.drained], x.key, card, h);
  }

  /** A close row has no end. */
  lemma {:induction false} ClosesEndNothing(es: seq<Entry>, k: Key)
    ensures forall f :: f in Facts(es, k).rows && f.v.obj.None? ==> f.v.validTo.None?
    decreases |es|
  {
    if es != [] {
      ClosesEndNothing(es[..|es| - 1], k);
    }
  }

  lemma SkippedClose(d: Draft, x: Line, card: Key -> Cardinality, h: Hash)
    requires Orderly(d, card) && x.Close? && (card(x.key).One? <==> x.elem.None?) && Room(d, 0)
    requires x.key !in d.dirty && ClosedAlready(Observe(Drained(d), h), x)
    ensures x.elem.Some? ==> x.elem.value !in Pending(d, x.key).present
    ensures var rows := Pending(d, x.key).rows;
      x.elem.None? ==> rows != [] && rows[|rows| - 1] == FaceOf(CloseRecord(x))
  {
    hide Orderly, Sound, Facts, FactsFrom, Observe, FoldOf, RowLabel, Interpreter.ElemRows;
    DrainedSound(d, card);
    CleanIsDrained(d, x.key, card);
    if x.elem.None? {
      HeadIsLast(d.history[..d.drained], x.key, card, h);
      ClosesEndNothing(d.history[..d.drained], x.key);
    } else {
      ElementRows(d.history[..d.drained], x.key, x.elem.value, card, h);
    }
  }

  lemma PendingAgrees(d: Draft, es: seq<Entry>, lost: set<(Key, ObjKey)>, card: Key -> Cardinality, k: Key)
    requires Follows(d, es, lost, card)
    ensures Agrees(Pending(d, k), Facts(es, k), k, card(k), lost) && Sound(es, card)
  {
  }

  /** The key a fact line writes, after what of the line is kept and after all of it. */
  lemma FactAtKey(d: Draft, es: seq<Entry>, lost: set<(Key, ObjKey)>, x: Line, card: Key -> Cardinality, h: Hash)
    requires x.Fact? && Orderly(d, card) && Follows(d, es, lost, card) && Room(d, Most(x))
    ensures Agrees(FactsFrom(Pending(d, x.key), Bare(KeptOf(d, x, card, h)), x.key),
                   FactsFrom(Facts(es, x.key), Bare([FactRecord(x, card)] + AllProps(x, x.props)), x.key),
                   x.key, card(x.key), LostAfter(lost, d, x, card, h))
  {
    var k, r, skipped := x.key, FactRecord(x, card), FactSkipped(d, x, card, h);
    var s, clean := Observe(Drained(d), h), x.key !in d.dirty;
    var a, b, body := Pending(d, k), Facts(es, k), if skipped then [] else [r];
    if skipped && card(k).One? {
      SkippedFace(d, x, card, h);
    }
    if clean {
      DrainedSound(d, card);
      CleanIsDrained(d, k, card);
      PropsShown(d.history[..d.drained], k, card, h);
    }
    PendingAgrees(d, es, lost, card, k);
    FactAgrees(a, b, lost, s, x, card, skipped, clean);
  }

  lemma FactAgrees(a: KeyFacts, b: KeyFacts, lost: set<(Key, ObjKey)>, s: Snapshot, x: Line, card: Key -> Cardinality,
                   skipped: bool, clean: bool)
    requires x.Fact? && Agrees(a, b, x.key, card(x.key), lost)
    requires skipped && card(x.key).One? ==> a.rows != [] && a.rows[|a.rows| - 1] == FaceOf(FactRecord(x, card))
    requires clean ==> GetOr(s.edgeProps, x.key, map[]) == a.props
    ensures Agrees(
      FactsFrom(a, Bare((if skipped then [] else [FactRecord(x, card)]) + KeptProps(s, x, clean, x.props)), x.key),
      FactsFrom(b, Bare([FactRecord(x, card)] + AllProps(x, x.props)), x.key),
      x.key, card(x.key),
      if card(x.key).One? then lost else if skipped && x.obj !in a.present then lost + {(x.key, x.obj)}
      else lost - {(x.key, x.obj)})
  {
    var k, r := x.key, FactRecord(x, card);
    var body := if skipped then [] else [r];
    if card(k).One? {
      OneRowAgrees(a, b, k, lost, r, skipped);
    } else {
      ElemAgrees(a, b, k, lost, r, skipped);
    }
    hide Collapse, Absorb;
    BareOne(a, r, k);
    BareOne(b, r, k);
    BodyKeepsProps(a, r, k);
    PropsAgree(FactsFrom(a, Bare(body), k), FactsFrom(b, Bare([r]), k), s, x, clean, x.props);
    BareConcat(body, KeptProps(s, x, clean, x.props));
    BareConcat([r], AllProps(x, x.props));
    FactsConcat(a, Bare(body), Bare(KeptProps(s, x, clean, x.props)), k);
    FactsConcat(b, Bare([r]), Bare(AllProps(x, x.props)), k);
  }

  lemma BodyKeepsProps(a: KeyFacts, r: Record, k: Key)
    requires r.kind.SetOne? || r.kind.AddMany?
    ensures Absorb(a, Entry(r, NoElem), k).props == a.props
  {
  }

  lemma {:induction false} PropsQueued(s: Snapshot, x: Line, clean: bool, ps: seq<(Text, ObjKey)>,
                                       card: Key -> Cardinality)
    requires x.Fact?
    ensures forall r :: r in KeptProps(s, x, clean, ps) || r in AllProps(x, ps) ==> Queued(r, {x.key}, card)
    decreases |ps|
  {
    if ps != [] {
      PropsQueued(s, x, clean, ps[..|ps| - 1], card);
    }
  }

  lemma FactQueued(d: Draft, x: Line, card: Key -> Cardinality, h: Hash)
    requires x.Fact? && Room(d, Most(x))
    ensures forall r :: r in KeptOf(d, x, card, h) || r in [FactRecord(x, card)] + AllProps(x, x.props) ==>
      Queued(r, {x.key}, card)
  {
    var r := FactRecord(x, card);
    assert Queued(r, {x.key}, card);
    hide Queued, FactSkipped, PropHeld, Observe, FoldOf;
    PropsQueued(Observe(Drained(d), h), x, x.key !in d.dirty, x.props, card);
  }

  /** A fact line, before the batch may be flushed. */
  lemma FactFollows(d: Draft, es: seq<Entry>, lost: set<(Key, ObjKey)>, x: Line, card: Key -> Cardinality, h: Hash)
    requires x.Fact? && Orderly(d, card) && Follows(d, es, lost, card)
    requires Room(d, Most(x)) && |es| + Most(x) <= U64_LIMIT
    ensures var q := Queue(d, KeptOf(d, x, card, h), x.key);
      Orderly(q, card) && Follows(q, AppendLine(es, x, card), LostAfter(lost, d, x, card, h), card)
  {
    var rs, all := KeptOf(d, x, card, h), [FactRecord(x, card)] + AllProps(x, x.props);
    var lost', q := LostAfter(lost, d, x, card, h), Queue(d, rs, x.key);
    FactQueued(d, x, card, h);
    FactAtKey(d, es, lost, x, card, h);
    AllPropsLength(x, x.props);
    hide Orderly, Agrees, Queued, FactSkipped, KeptOf, Pending;
    QueueKeeps(d, rs, x.key, card);
    QueueFollows(d, es, lost, lost', rs, all, x.key, card);
  }

  /** Queueing some writes to one key while the full history takes them all. */
  lemma QueueFollows(d: Draft, es: seq<Entry>, lost: set<(Key, ObjKey)>, lost': set<(Key, ObjKey)>,
                     rs: seq<Record>, all: seq<Record>, k: Key, card: Key -> Cardinality)
    requires Orderly(d, card) && Follows(d, es, lost, card) && |es| + |all| <= U64_LIMIT
    requires forall r :: r in rs || r in all ==> Queued(r, {k}, card)
    requires forall o: ObjKey, x: Key :: x != k ==> ((x, o) in lost <==> (x, o) in lost')
    requires Agrees(FactsFrom(Pending(d, k), Bare(rs), k), FactsFrom(Facts(es, k), Bare(all), k), k, card(k), lost')
    ensures Follows(Queue(d, rs, k), es + Bare(all), lost', card)
  {
    hide Orderly, Agrees, Queued, Pending, Sound;
    var q := Queue(d, rs, k);
    QueueKeeps(d, rs, k, card);
    GrowBatch(d, es, all, {k}, card);
    forall x
      ensures Agrees(Pending(q, x), Facts(es + Bare(all), x), x, card(x), lost')
    {
      FactsConcat(Nothing, es, Bare(all), x);
      if x != k {
        PendingAgrees(d, es, lost, card, x);
        OnlyKey(Facts(es, x), all, k, x, card);
        OtherKeyAgrees(Pending(d, x), Facts(es, x), x, card(x), lost, lost');
      }
    }
  }

  lemma CloseAtKey(d: Draft, es: seq<Entry>, lost: set<(Key, ObjKey)>, x: Line, card: Key -> Cardinality, h: Hash)
    requires x.Close? && (card(x.key).One? <==> x.elem.None?)
    requires Orderly(d, card) && Follows(d, es, lost, card) && Room(d, 1)
    ensures var skipped := x.key !in d.dirty && ClosedAlready(Observe(Drained(d), h), x);
      Agrees(FactsFrom(Pending(d, x.key), Bare(if skipped then [] else [CloseRecord(x)]), x.key),
             FactsFrom(Facts(es, x.key), Bare([CloseRecord(x)]), x.key),
             x.key, card(x.key), LostAfter(lost, d, x, card, h))
  {
    hide Orderly, Observe, FoldOf, ClosedAlready, Sound, Collapse;
    var skipped := x.key !in d.dirty && ClosedAlready(Observe(Drained(d), h), x);
    var a, b, r := Pending(d, x.key), Facts(es, x.key), CloseRecord(x);
    if skipped {
      SkippedClose(d, x, card, h);
    }
    PendingAgrees(d, es, lost, card, x.key);
    if card(x.key).One? {
      OneRowAgrees(a, b, x.key, lost, r, skipped);
    } else {
      ElemAgrees(a, b, x.key, lost, r, skipped);
    }
  }

  lemma CloseQueued(x: Line, card: Key -> Cardinality)
    requires x.Close? && (card(x.key).One? <==> x.elem.None?)
    ensures Queued(CloseRecord(x), {x.key}, card)
  {
  }

  lemma CloseFollows(d: Draft, es: seq<Entry>, lost: set<(Key, ObjKey)>, x: Line, limit: nat,
                     card: Key -> Cardinality, h: Hash)
    requires x.Close? && Orderly(d, card) && Follows(d, es, lost, card) && Room(d, 1) && |es| < U64_LIMIT
    requires TakeClose(d, x, limit, card, h).Going?
    ensures var n := TakeClose(d, x, limit, card, h).draft;
      Orderly(n, card) && Follows(n, AppendLine(es, x, card), LostAfter(lost, d, x, card, h), card)
  {
    var r, lost' := CloseRecord(x), LostAfter(lost, d, x, card, h);
    CloseQueued(x, card);
    assert AppendLine(es, x, card) == es + Bare([r]);
    hide Orderly, Agrees, Queued, Pending, Follows, FlushFull, Observe, FoldOf, ClosedAlready, AppendLine, Bare,
         FactsFrom, Flush;
    CloseAtKey(d, es, lost, x, card, h);
    var skipped := x.key !in d.dirty && ClosedAlready(Observe(Drained(d), h), x);
    var rs := if skipped then [] else [r];
    QueueKeeps(d, rs, x.key, card);
    QueueFollows(d, es, lost, lost', rs, [r], x.key, card);
    FlushFullKeeps(Queue(d, rs, x.key), limit, AppendLine(es, x, card), lost', card);
  }

  // --- retractions -----------------------------------------------------------------------------

  /** A history after a retraction: nothing is written for an element without a live tag. */
  function WithRetraction(es: seq<Entry>, x: Line): seq<Entry>
    requires x.Retract? && |es| < U64_LIMIT
  {
    var tags := LiveTags(FoldOf(Records(es)), x.key, x.obj);
    if tags == [] then es else es + [Entry(Retraction(x.source, x.key, tags), x.obj)]
  }

  lemma NoTagsAbsent(f: State, k: Key, o: ObjKey)
    requires LiveTags(f, k, o) == []
    ensures !Present(f, k, o)
  {
    SortRowsCorrect(LiveElem(f, k, o));
    if Interpreter.ElemRows(f, k, o) != [] {
      var r := Last(Interpreter.ElemRows(f, k, o));
      assert r in Interpreter.ElemRows(f, k, o);
      TagsAreAdds(f, k, o, r.ok);
    }
  }

  /** Either way the element is absent afterwards, and nothing else changes. */
  lemma RetractFacts(es: seq<Entry>, x: Line, d: Draft, card: Key -> Cardinality, k: Key)
    requires x.Retract? && card(x.key) == Many && |es| < U64_LIMIT && Sound(es, card) && SameAttrs(d, es)
    ensures Sound(WithRetraction(es, x), card) && SameAttrs(d, WithRetraction(es, x))
    ensures var f := Facts(es, k);
      Facts(WithRetraction(es, x), k) == if k == x.key then f.(present := f.present - {x.obj}) else f
  {
    var tags := LiveTags(FoldOf(Records(es)), x.key, x.obj);
    if tags == [] {
      PresenceOfHistory(es, x.key, card);
      NoTagsAbsent(FoldOf(Records(es)), x.key, x.obj);
    } else {
      var e := Entry(Retraction(x.source, x.key, tags), x.obj);
      hide FoldOf, LiveTags, Sound;
      assert TypedRecord(e.record, card);
      SoundSnoc(es, e, card);
      InterpretSnoc(es, e);
      PlainAttrs(InterpretAll(Records(es), Elements(es)), e.record.kind, e.elem);
      FactsSnoc(Nothing, es, e, k);
    }
  }

  lemma RetractAgrees(a: KeyFacts, b: KeyFacts, k: Key, c: Cardinality, lost: set<(Key, ObjKey)>, o: ObjKey)
    requires Agrees(a, b, k, c, lost)
    ensures Agrees(a.(present := a.present - {o}), b.(present := b.present - {o}), k, c, lost - {(k, o)})
  {
    hide Collapse;
    assert c.Many? ==> forall e :: Lacks(a.present, b.present, e, (k, e) in lost);
  }

  lemma PendingNothing(d: Draft, k: Key)
    requires d.batch == []
    ensures Pending(d, k) == Facts(d.history, k)
  {
    assert Bare(d.batch) == [];
  }

  lemma RetractFollows(d: Draft, es: seq<Entry>, lost: set<(Key, ObjKey)>, x: Line, limit: nat,
                       card: Key -> Cardinality, h: Hash)
    requires x.Retract? && Orderly(d, card) && Follows(d, es, lost, card) && Room(d, 1) && |es| < U64_LIMIT
    requires TakeRetract(d, x, limit, card).Going?
    ensures var n := TakeRetract(d, x, limit, card).draft;
      Orderly(n, card) && Follows(n, AppendLine(es, x, card), lost - {(x.key, x.obj)}, card)
  {
    FlushRoom(d, limit, 1);
    FlushKeeps(d, limit, card);
    var c := Flush(d, limit).draft.(dirty := {});
    forall k
      ensures Pending(c, k) == Pending(d, k)
    {
      PendingIgnoresDirty(Flush(d, limit).draft);
    }
    hide Flush, FoldOf, LiveTags, Agrees, Sound, InterpretAll, Pending;
    forall k
      ensures Agrees(Pending(c, k), Facts(es, k), k, card(k), lost)
    {
      PendingAgrees(d, es, lost, card, k);
    }
    RetractOnFlushed(c, es, lost, x, limit, card);
  }

  lemma RetractOnFlushed(c: Draft, es: seq<Entry>, lost: set<(Key, ObjKey)>, x: Line, limit: nat,
                         card: Key -> Cardinality)
    requires x.Retract? && c.batch == [] && Orderly(c, card) && Follows(c, es, lost, card)
    requires |c.history| < U64_LIMIT && |es| < U64_LIMIT && card(x.key) == Many && Retracted(c, x, limit).Going?
    ensures Orderly(Retracted(c, x, limit).draft, card)
    ensures Follows(Retracted(c, x, limit).draft, AppendLine(es, x, card), lost - {(x.key, x.obj)}, card)
  {
    hide FoldOf, LiveTags, Agrees, Sound, InterpretAll, FactsFrom;
    var n, lost' := Retracted(c, x, limit).draft, lost - {(x.key, x.obj)};
    RetractFacts(c.history, x, c, card, x.key);
    RetractFacts(es, x, c, card, x.key);
    assert n.history == WithRetraction(c.history, x) && AppendLine(es, x, card) == WithRetraction(es, x);
    forall k
      ensures Agrees(Pending(n, k), Facts(AppendLine(es, x, card), k), k, card(k), lost')
    {
      RetractFacts(c.history, x, c, card, k);
      RetractFacts(es, x, c, card, k);
      PendingNothing(c, k);
      PendingNothing(n, k);
      PendingAgrees(c, es, lost, card, k);
      if k == x.key {
        RetractAgrees(Facts(c.history, k), Facts(es, k), k, card(k), lost, x.obj);
      } else {
        OtherKeyAgrees(Facts(c.history, k), Facts(es, k), k, card(k), lost, lost');
      }
    }
  }

  // --- node lines ------------------------------------------------------------------------------

  /** A node attribute write says nothing about any key. */
  lemma NodeEntry(es: seq<Entry>, e: Entry, d: Draft, card: Key -> Cardinality)
    requires Sound(es, card) && |es| < U64_LIMIT && (e.record.kind.SetNodeType? || e.record.kind.SetNodeLabel?)
    requires SameAttrs(d, es)
    ensures Sound(es + [e], card) && forall k :: Facts(es + [e], k) == Facts(es, k)
    ensures var w := e.record.kind;
      SameAttrs(d.(types := if w.SetNodeType? then d.types[w.node := w.typeId] else d.types,
                   labels := if w.SetNodeLabel? then d.labels[w.node := w.access] else d.labels), es + [e])
  {
    assert TypedRecord(e.record, card);
    hide Sound, Interpret, InterpretAll;
    SoundSnoc(es, e, card);
    InterpretSnoc(es, e);
    PlainAttrs(InterpretAll(Records(es), Elements(es)), e.record.kind, e.elem);
    forall k
      ensures Facts(es + [e], k) == Facts(es, k)
    {
      FactsSnoc(Nothing, es, e, k);
    }
  }

  /** Appending one node attribute to the full history and, unless it is a no-op, to the draft's. */
  lemma AttrFollows(d: Draft, es: seq<Entry>, lost: set<(Key, ObjKey)>, e: Entry, card: Key -> Cardinality, n: Draft)
    requires Orderly(d, card) && Follows(d, es, lost, card) && |es| < U64_LIMIT && |d.history| < U64_LIMIT
    requires e.record.kind.SetNodeType? || e.record.kind.SetNodeLabel?
    requires var w := e.record.kind;
      && n.types == (if w.SetNodeType? then d.types[w.node := w.typeId] else d.types)
      && n.labels == (if w.SetNodeLabel? then d.labels[w.node := w.access] else d.labels)
      && n == d.(history := n.history, types := n.types, labels := n.labels)
      && (n.history == d.history + [e] || n == d)
    ensures Orderly(n, card) && Follows(n, es + [e], lost, card)
  {
    hide Agrees, Sound, InterpretAll, FactsFrom, Queued;
    NodeEntry(d.history, e, d, card);
    NodeEntry(es, e, d, card);
    forall k
      ensures Agrees(Pending(n, k), Facts(es + [e], k), k, card(k), lost)
    {
      PendingAgrees(d, es, lost, card, k);
    }
  }

  lemma NodeFollows(d: Draft, es: seq<Entry>, lost: set<(Key, ObjKey)>, x: Line, limit: nat, card: Key -> Cardinality)
    requires x.NodeLine? && Orderly(d, card) && Follows(d, es, lost, card) && Room(d, 2) && |es| + 2 <= U64_LIMIT
    requires TakeNode(d, x, limit).Going?
    ensures Orderly(TakeNode(d, x, limit).draft, card)
    ensures Follows(TakeNode(d, x, limit).draft, AppendLine(es, x, card), lost, card)
  {
    hide Orderly, Follows;
    var t := TakeType(d, x, limit).draft;
    var es' := if x.ty.Some? then es + [TypeEntry(x)] else es;
    if x.ty.Some? {
      AttrFollows(d, es, lost, TypeEntry(x), card, t);
    }
    if x.access.Some? {
      AttrFollows(t, es', lost, LabelEntry(x), card, TakeLabel(t, x, limit).draft);
    }
    assert AppendLine(es, x, card) == if x.access.Some? then es' + [LabelEntry(x)] else es';
  }

  // --- whole calls -----------------------------------------------------------------------------

  lemma TakeFollows(d: Draft, es: seq<Entry>, lost: set<(Key, ObjKey)>, x: Line, limit: nat, card: Key -> Cardinality,
                    h: Hash)
    requires Orderly(d, card) && Follows(d, es, lost, card) && Room(d, Most(x)) && |es| + Most(x) <= U64_LIMIT
    requires Take(d, x, limit, card, h).Going?
    ensures var n := Take(d, x, limit, card, h).draft;
      Orderly(n, card) && Follows(n, AppendLine(es, x, card), LostAfter(lost, d, x, card, h), card)
  {
    hide Orderly, Follows, KeptOf, FlushFull, Queue, TakeClose, TakeRetract, TakeNode, AppendLine, FactSkipped, Pending;
    match x
    case Fact(_, _, _, _, _, _, _) =>
      FactFollows(d, es, lost, x, card, h);
      TakeRoom(d, x, limit, card, h, 0);
      KeptRoom(d, x, card, h);
      FlushFullKeeps(Queue(d, KeptOf(d, x, card, h), x.key), limit, AppendLine(es, x, card),
                     LostAfter(lost, d, x, card, h), card);
    case Close(_, _, _, _, _) => CloseFollows(d, es, lost, x, limit, card, h);
    case Retract(_, _, _) => RetractFollows(d, es, lost, x, limit, card, h);
    case NodeLine(_, _, _) => NodeFollows(d, es, lost, x, limit, card);
  }

  lemma KeptRoom(d: Draft, x: Line, card: Key -> Cardinality, h: Hash)
    requires x.Fact? && Room(d, Most(x))
    ensures Room(Queue(d, KeptOf(d, x, card, h), x.key), 0)
  {
    hide FactSkipped, Observe, FoldOf, PropHeld;
    KeptPropsFewer(Observe(Drained(d), h), x, x.key !in d.dirty, x.props);
  }

  /** What a whole call loses. */
  function LostAll(lost: set<(Key, ObjKey)>, d: Draft, xs: seq<Line>, limit: nat, card: Key -> Cardinality,
                   h: Hash): set<(Key, ObjKey)>
    requires Room(d, MostOf(xs))
    decreases |xs|
  {
    if xs == [] then lost
    else
      TakeRoom(d, xs[0], limit, card, h, MostOf(xs[1..]));
      var p := Take(d, xs[0], limit, card, h);
      var lost' := LostAfter(lost, d, xs[0], card, h);
      if p.Stopped? then lost' else LostAll(lost', p.draft, xs[1..], limit, card, h)
  }

  /** A call that is not stopped leaves the store answering as the append-all store, but for what it lost. */
  lemma {:induction false} TakeAllFollows(d: Draft, es: seq<Entry>, lost: set<(Key, ObjKey)>, xs: seq<Line>,
                                          limit: nat, card: Key -> Cardinality, h: Hash)
    requires Orderly(d, card) && Follows(d, es, lost, card) && Room(d, MostOf(xs)) && |es| + MostOf(xs) <= U64_LIMIT
    requires TakeAll(d, xs, limit, card, h).Going?
    ensures var n := TakeAll(d, xs, limit, card, h).draft;
      && Orderly(n, card) && Room(n, 0)
      && Follows(n, AppendLines(es, xs, card), LostAll(lost, d, xs, limit, card, h), card)
    decreases |xs|
  {
    hide Orderly, Follows, Take, AppendLine, LostAfter;
    if xs != [] {
      TakeRoom(d, xs[0], limit, card, h, MostOf(xs[1..]));
      TakeFollows(d, es, lost, xs[0], limit, card, h);
      AppendLineRoom(es, xs[0], card);
      TakeAllFollows(Take(d, xs[0], limit, card, h).draft, AppendLine(es, xs[0], card),
                     LostAfter(lost, d, xs[0], card, h), xs[1..], limit, card, h);
    }
  }
}
