/** Append-on-change ingest: which of the incoming writes may be skipped, and what skipping them leaves
    the same. */
module Ingest {
  import opened Types
  import opened Rows
  import opened Folds
  import opened FoldLaws
  import opened Snapshots
  import opened Collection
  import opened Changelogs
  import opened Engines
  import opened Interpreter
  import opened Mask
  import opened Queries
  import opened Views
  import opened Faces
  import opened Ledger

  type PropList = ps: seq<(Text, ObjKey)> | DistinctNames(ps)

  predicate DistinctNames(ps: seq<(Text, ObjKey)>) { forall i, j :: 0 <= i < j < |ps| ==> ps[i].0 != ps[j].0 }

  /** A parsed line of an ingest call, its names already resolved. */
  datatype Line =
    | Fact(source: FieldId, key: Key, obj: ObjKey, validFrom: i64, validTo: Option<i64>, access: Option<Label>,
      props: PropList)
    | Close(source: FieldId, key: Key, elem: Option<ObjKey>, validFrom: i64, access: Option<Label>)
    | Retract(source: FieldId, key: Key, obj: ObjKey)
    | NodeLine(node: NodeId, ty: Option<FieldId>, access: Option<Label>)

  /** The batch length at which an ingest call flushes. */
  const FLUSH_AT: nat := 10_000

  /** An ingest call in progress: the engine's writes, how many are drained, what waits in the batch, which
      keys it wrote since the last flush, and the write side's mirrors of the node attributes. */
  datatype Draft = Draft(
    history: seq<Entry>, drained: nat, batch: seq<Record>, dirty: set<Key>,
    types: map<NodeId, FieldId>, labels: map<NodeId, Label>)

  /** The call goes on, or it stopped with an error and its batch was lost. */
  datatype Progress = Going(draft: Draft) | Stopped(draft: Draft)

  const NoElem: ObjKey := Bool(false)

  /** Records none of which is a retraction, as entries. */
  function Bare(rs: seq<Record>): (es: seq<Entry>)
    ensures |es| == |rs|
  {
    seq(|rs|, i requires 0 <= i < |rs| => Entry(rs[i], NoElem))
  }

  // --- the decisions ---------------------------------------------------------------------------

  /** The current head row is the incoming assertion, of the same source and label. */
  predicate RepeatsHead(s: Snapshot, x: Line)
    requires x.Fact?
  {
    var rows := GetOr(s.oneHistory, x.key, []);
    && rows != []
    && Last(rows).v == Version(Some(x.obj), x.validFrom, x.validTo)
    && Last(rows).ok.source == x.source
    && RowLabel(s, x.key, Last(rows).ok) == x.access
  }

  /** The element is present and some live add row has the incoming source, interval and label. */
  predicate Asserted(f: State, x: Line)
    requires x.Fact?
  {
    var rows := Interpreter.ElemRows(f, x.key, x.obj);
    && rows != []
    && Last(rows).v.obj.Some?
    && exists i :: 0 <= i < |rows| && AssertedBy(f, x, rows[i])
  }

  predicate AssertedBy(f: State, x: Line, r: Row)
    requires x.Fact?
  {
    && r.v.obj.Some? && r.ok.source == x.source
    && r.v.validFrom == x.validFrom && r.v.validTo == x.validTo
    && Get(StoredLabels(f, x.key), r.ok) == x.access
  }

  /** The rows that end with the head a close is compared with. */
  function ClosableRows(s: Snapshot, x: Line): seq<Row>
    requires x.Close?
  {
    if x.elem.None? then GetOr(s.oneHistory, x.key, []) else GetOr(GetOr(s.manyHistory, x.key, map[]), x.elem.value, [])
  }

  /** The head is already a close at the same boundary with the same label; its source does not matter. */
  predicate ClosedAlready(s: Snapshot, x: Line)
    requires x.Close?
  {
    var rows := ClosableRows(s, x);
    && rows != []
    && Last(rows).v.obj.None?
    && Last(rows).v.validFrom == x.validFrom
    && RowLabel(s, x.key, Last(rows).ok) == x.access
  }

  predicate PropHeld(s: Snapshot, k: Key, o: ObjKey, p: (Text, ObjKey)) {
    Get(GetOr(GetOr(s.edgeProps, k, map[]), o, map[]), p.0) == Some(p.1)
  }

  // --- one line --------------------------------------------------------------------------------

  function FactRecord(x: Line, card: Key -> Cardinality): Record
    requires x.Fact?
  {
    Record(x.source,
           if card(x.key).One? then WriteKind.SetOne(x.key, x.obj, x.validFrom, x.validTo)
           else WriteKind.AddMany(x.key, x.obj, x.validFrom, x.validTo),
           x.access)
  }

  function CloseRecord(x: Line): Record
    requires x.Close?
  {
    Record(x.source,
           if x.elem.None? then WriteKind.CloseOne(x.key, x.validFrom)
             else WriteKind.CloseMany(x.key, x.elem.value, x.validFrom),
           x.access)
  }

  function PropRecord(x: Line, p: (Text, ObjKey)): Record
    requires x.Fact?
  {
    Record(x.source, WriteKind.SetEdgeProp(x.key, x.obj, p.0, p.1), None)
  }

  function AllProps(x: Line, ps: seq<(Text, ObjKey)>): seq<Record>
    requires x.Fact?
  {
    if ps == [] then [] else AllProps(x, ps[..|ps| - 1]) + [PropRecord(x, ps[|ps| - 1])]
  }

  /** The property writes that are not no-ops. */
  function KeptProps(s: Snapshot, x: Line, clean: bool, ps: seq<(Text, ObjKey)>): seq<Record>
    requires x.Fact?
  {
    if ps == [] then []
    else
      var p := ps[|ps| - 1];
      KeptProps(s, x, clean, ps[..|ps| - 1]) + if clean && PropHeld(s, x.key, x.obj, p) then [] else [PropRecord(x, p)]
  }

  ghost predicate Room(d: Draft, more: nat) {
    d.drained <= |d.history| && |d.history| + |d.batch| + more <= U64_LIMIT
  }

  function Most(x: Line): nat {
    match x
    case Fact(_, _, _, _, _, _, props) => 1 + |props|
    case Close(_, _, _, _, _) => 1
    case Retract(_, _, _) => 1
    case NodeLine(_, _, _) => 2
  }

  function MostOf(xs: seq<Line>): nat { if xs == [] then 0 else Most(xs[0]) + MostOf(xs[1..]) }

  /** The materialized fold that decisions are made against. */
  function Drained(d: Draft): State
    requires d.drained <= |d.history| && |d.history| <= U64_LIMIT
  {
    FoldOf(Records(d.history[..d.drained]))
  }

  predicate FactSkipped(d: Draft, x: Line, card: Key -> Cardinality, h: Hash)
    requires x.Fact? && d.drained <= |d.history| && |d.history| <= U64_LIMIT
  {
    x.key !in d.dirty && if card(x.key).One? then RepeatsHead(Observe(Drained(d), h), x) else Asserted(Drained(d), x)
  }

  /** What of a fact line is appended. */
  function KeptOf(d: Draft, x: Line, card: Key -> Cardinality, h: Hash): seq<Record>
    requires x.Fact? && d.drained <= |d.history| && |d.history| <= U64_LIMIT
  {
    (if FactSkipped(d, x, card, h) then [] else [FactRecord(x, card)])
    + KeptProps(Observe(Drained(d), h), x, x.key !in d.dirty, x.props)
  }

  function Queue(d: Draft, rs: seq<Record>, k: Key): Draft {
    if rs == [] then d else d.(batch := d.batch + rs, dirty := d.dirty + {k})
  }

  /** Append the batch, sync and drain; an empty batch leaves even an undrained tail as it is. */
  function Flush(d: Draft, limit: nat): Progress
    requires d.drained <= |d.history|
  {
    if d.batch == [] then Going(d)
    else if |d.history| - d.drained + |d.batch| > limit then Stopped(d.(batch := []))
    else Going(d.(history := d.history + Bare(d.batch), drained := |d.history| + |d.batch|, batch := []))
  }

  function Clear(p: Progress): Progress {
    if p.Going? then Going(p.draft.(dirty := {})) else p
  }

  function FlushFull(d: Draft, limit: nat): Progress
    requires d.drained <= |d.history|
  {
    if |d.batch| >= FLUSH_AT then Clear(Flush(d, limit)) else Going(d)
  }

  function TakeClose(d: Draft, x: Line, limit: nat, card: Key -> Cardinality, h: Hash): Progress
    requires x.Close? && d.drained <= |d.history| && |d.history| <= U64_LIMIT
  {
    if card(x.key).One? != x.elem.None? then Stopped(d.(batch := []))
    else if x.key !in d.dirty && ClosedAlready(Observe(Drained(d), h), x) then FlushFull(d, limit)
    else FlushFull(Queue(d, [CloseRecord(x)], x.key), limit)
  }

  /** Append the observed-remove of an element, unless it has no live tag. */
  function Retracted(d: Draft, x: Line, limit: nat): Progress
    requires x.Retract? && d.drained <= |d.history| && |d.history| <= U64_LIMIT
  {
    var tags := LiveTags(FoldOf(Records(d.history)), x.key, x.obj);
    if tags == [] then Going(d)
    else if |d.history| - d.drained >= limit then Stopped(d)
    else Going(d.(history := d.history + [Entry(Retraction(x.source, x.key, tags), x.obj)], dirty := d.dirty + {x.key}))
  }

  function TakeRetract(d: Draft, x: Line, limit: nat, card: Key -> Cardinality): Progress
    requires x.Retract? && d.drained <= |d.history| && |d.history| + |d.batch| <= U64_LIMIT
  {
    var p := Clear(Flush(d, limit));
    if p.Stopped? || card(x.key).One? then Stopped(p.draft) else Retracted(p.draft, x, limit)
  }

  function TypeEntry(x: Line): Entry
    requires x.NodeLine? && x.ty.Some?
  {
    Entry(Record(0, WriteKind.SetNodeType(x.node, x.ty.value), None), NoElem)
  }

  function LabelEntry(x: Line): Entry
    requires x.NodeLine? && x.access.Some?
  {
    Entry(Record(0, WriteKind.SetNodeLabel(x.node, x.access.value), None), NoElem)
  }

  function TakeType(d: Draft, x: Line, limit: nat): Progress
    requires x.NodeLine? && d.drained <= |d.history|
  {
    if x.ty.None? || Get(d.types, x.node) == x.ty then Going(d)
    else if |d.history| - d.drained >= limit then Stopped(d.(batch := []))
    else Going(d.(history := d.history + [TypeEntry(x)], types := d.types[x.node := x.ty.value]))
  }

  function TakeLabel(d: Draft, x: Line, limit: nat): Progress
    requires x.NodeLine? && d.drained <= |d.history|
  {
    if x.access.None? || Get(d.labels, x.node) == x.access then Going(d)
    else if |d.history| - d.drained >= limit then Stopped(d.(batch := []))
    else Going(d.(history := d.history + [LabelEntry(x)], labels := d.labels[x.node := x.access.value]))
  }

  function TakeNode(d: Draft, x: Line, limit: nat): Progress
    requires x.NodeLine? && d.drained <= |d.history|
  {
    var p := TakeType(d, x, limit);
    if p.Stopped? then p else TakeLabel(p.draft, x, limit)
  }

  /** One line of an ingest call. */
  function Take(d: Draft, x: Line, limit: nat, card: Key -> Cardinality, h: Hash): Progress
    requires Room(d, Most(x))
  {
    match x
    case Fact(_, _, _, _, _, _, _) => FlushFull(Queue(d, KeptOf(d, x, card, h), x.key), limit)
    case Close(_, _, _, _, _) => TakeClose(d, x, limit, card, h)
    case Retract(_, _, _) => TakeRetract(d, x, limit, card)
    case NodeLine(_, _, _) => TakeNode(d, x, limit)
  }

  lemma TakeByKind(d: Draft, x: Line, limit: nat, card: Key -> Cardinality, h: Hash)
    requires Room(d, Most(x))
    ensures x.Close? ==> Take(d, x, limit, card, h) == TakeClose(d, x, limit, card, h)
    ensures x.Retract? ==> Take(d, x, limit, card, h) == TakeRetract(d, x, limit, card)
    ensures x.NodeLine? ==> Take(d, x, limit, card, h) == TakeNode(d, x, limit)
  {
  }

  lemma {:induction false} KeptPropsFewer(s: Snapshot, x: Line, clean: bool, ps: seq<(Text, ObjKey)>)
    requires x.Fact?
    ensures |KeptProps(s, x, clean, ps)| <= |ps| == |AllProps(x, ps)|
  {
    if ps != [] {
      KeptPropsFewer(s, x, clean, ps[..|ps| - 1]);
    }
  }

  lemma TakeRoom(d: Draft, x: Line, limit: nat, card: Key -> Cardinality, h: Hash, more: nat)
    requires Room(d, Most(x) + more)
    ensures Room(Take(d, x, limit, card, h).draft, more)
  {
    hide RepeatsHead, Asserted, ClosedAlready, Observe, FoldOf, FlushFull, Flush, LiveTags, KeptProps;
    match x
    case Fact(_, _, _, _, _, _, _) =>
      KeptPropsFewer(Observe(Drained(d), h), x, x.key !in d.dirty, x.props);
      FlushRoom(Queue(d, KeptOf(d, x, card, h), x.key), limit, more);
    case Close(_, _, _, _, _) =>
      FlushRoom(d, limit, more);
      FlushRoom(Queue(d, [CloseRecord(x)], x.key), limit, more);
    case Retract(_, _, _) =>
      FlushRoom(d, limit, more + 1);
    case NodeLine(_, _, _) =>
  }

  lemma FlushRoom(d: Draft, limit: nat, more: nat)
    requires Room(d, more)
    ensures Room(Flush(d, limit).draft, more) && Room(FlushFull(d, limit).draft, more)
  {
  }

  /** The lines of a call in order, until one stops it. */
  function TakeAll(d: Draft, xs: seq<Line>, limit: nat, card: Key -> Cardinality, h: Hash): Progress
    requires Room(d, MostOf(xs))
    decreases |xs|
  {
    if xs == [] then Going(d)
    else
      TakeRoom(d, xs[0], limit, card, h, MostOf(xs[1..]));
      var p := Take(d, xs[0], limit, card, h);
      if p.Stopped? then p else TakeAll(p.draft, xs[1..], limit, card, h)
  }

  /** A call never holds more than its lines add up to. */
  lemma {:induction false} TakeAllRoom(d: Draft, xs: seq<Line>, limit: nat, card: Key -> Cardinality, h: Hash, more: nat)
    requires Room(d, MostOf(xs) + more)
    ensures Room(TakeAll(d, xs, limit, card, h).draft, more)
    decreases |xs|
  {
    hide Take;
    if xs != [] {
      TakeRoom(d, xs[0], limit, card, h, MostOf(xs[1..]) + more);
      var p := Take(d, xs[0], limit, card, h);
      if p.Going? {
        TakeAllRoom(p.draft, xs[1..], limit, card, h, more);
      }
    }
  }
}
