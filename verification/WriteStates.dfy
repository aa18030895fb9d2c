/** The write side of the database: the ingest call as it updates the engine, the batch and the mirrors. */
module WriteStates {
  import opened Types
  import opened Rows
  import opened Folds
  import opened Snapshots
  import opened Collection
  import opened Refresh
  import opened Changelogs
  import opened Engines
  import opened Interpreter
  import opened Mask
  import opened Ledger
  import opened Ingest
  import Suppression
  import opened Losses
  import opened Answers
  import opened StoppedCalls
  import opened Resending

  /** Whether some live add row of a present element matches the incoming assertion. */
  method ManyLiveAsserted(f: Fold, x: Line) returns (found: bool)
    requires x.Fact?
    ensures found == Asserted(f.Value(), x)
  {
    if x.key !in f.keys || !f.keys[x.key].ManyState? || x.obj !in f.keys[x.key].elems {
      assert LiveElem(f.Value(), x.key, x.obj) == map[];
      return false;
    }
    var st := f.keys[x.key];
    var live := SortRows(Live(st.elems[x.obj], st.removes, st.hd));
    assert live == Interpreter.ElemRows(f.Value(), x.key, x.obj);
    if live == [] || live[|live| - 1].v.obj.None? {
      return false;
    }
    var labels := GetOr(f.factLabels, x.key, map[]);
    for i := 0 to |live|
      invariant forall j :: 0 <= j < i ==> !AssertedBy(f.Value(), x, live[j])
    {
      var r := live[i];
      if r.v.obj.Some? && r.ok.source == x.source && r.v.validFrom == x.validFrom && r.v.validTo == x.validTo
         && Get(labels, r.ok) == x.access {
        assert AssertedBy(f.Value(), x, live[i]);
        return true;
      }
    }
    return false;
  }

  /** Collecting a fold does not change what the probe finds. */
  lemma AssertedSame(f: State, g: State, x: Line)
    requires x.Fact? && GcSame(f, g)
    ensures Asserted(f, x) == Asserted(g, x)
  {
    GcLive(f, x.key);
    GcLive(g, x.key);
    GcLiveLabels(f, x.key);
    GcLiveLabels(g, x.key);
    var rows := Interpreter.ElemRows(f, x.key, x.obj);
    assert rows == Interpreter.ElemRows(g, x.key, x.obj);
    SortRowsCorrect(LiveElem(f, x.key, x.obj));
    forall i | 0 <= i < |rows|
      ensures AssertedBy(f, x, rows[i]) == AssertedBy(g, x, rows[i])
    {
      assert rows[i] in rows;
      LiveKeysFrom(f, x.key, rows[i].ok);
      LiveKeysFrom(g, x.key, rows[i].ok);
      assert Get(StoredLabels(f, x.key), rows[i].ok) == Get(LiveLabels(f, x.key), rows[i].ok);
      assert Get(StoredLabels(g, x.key), rows[i].ok) == Get(LiveLabels(g, x.key), rows[i].ok);
    }
  }

  lemma TakeFactIs(d: Draft, x: Line, limit: nat, card: Key -> Cardinality, h: Hash)
    requires Room(d, Most(x)) && x.Fact?
    ensures Take(d, x, limit, card, h) == Ingest.FlushFull(Queue(d, KeptOf(d, x, card, h), x.key), limit)
  {
  }

  /** What is kept of a fact line: no more than the line holds, and of the right cardinality. */
  lemma KeptFacts(d: Draft, x: Line, card: Key -> Cardinality, h: Hash, kept: seq<Record>)
    requires Room(d, Most(x)) && x.Fact?
    requires kept == (if FactSkipped(d, x, card, h) then [] else [FactRecord(x, card)])
                     + KeptProps(Observe(Drained(d), h), x, x.key !in d.dirty, x.props)
    ensures kept == KeptOf(d, x, card, h) && |kept| <= Most(x) && forall r :: r in kept ==> TypedRecord(r, card)
  {
    Suppression.FactQueued(d, x, card, h);
    hide FactSkipped, PropHeld, FoldOf, Observe;
    KeptPropsFewer(Observe(Drained(d), h), x, x.key !in d.dirty, x.props);
  }

  ghost predicate TypedBatch(rs: seq<Record>, card: Key -> Cardinality) { forall r :: r in rs ==> TypedRecord(r, card) }

  /** A drained store whose mirrors are its snapshot's attributes is rested, and follows its own history. */
  lemma StartsRested(d: Draft, card: Key -> Cardinality, h: Hash)
    requires Sound(d.history, card) && d.batch == [] && d.dirty == {} && d.drained == |d.history|
    requires d.types == Observe(FoldOf(Records(d.history)), h).nodeTypes
    requires d.labels == Observe(FoldOf(Records(d.history)), h).nodeLabels
    ensures Rested(d, card) && Suppression.Follows(d, d.history, {}, card)
  {
    hide FoldOf, Observe, InterpretAll, Facts, FactsFrom;
    SnapshotIsInterpretation(Records(d.history), Elements(d.history), card, h);
    forall k
      ensures Suppression.Agrees(Suppression.Pending(d, k), Facts(d.history, k), k, card(k), {})
    {
      Suppression.PendingNothing(d, k);
    }
  }

  function Outcome(ok: bool, d: Draft): Progress { if ok then Going(d) else Stopped(d) }

  class WriteState {
    const eng: Engine
    const cardinality: Key -> Cardinality
    var nodeTypes: map<NodeId, FieldId>
    var nodeLabels: map<NodeId, Label>
    /** The engine's writes, each with the element a retraction was asked to remove. */
    ghost var entries: seq<Entry>

    ghost predicate Valid()
      reads this, eng, eng.changelog, eng.base, eng.cache
    {
      eng.Valid() && eng.card == cardinality && eng.history == Records(entries)
    }

    /** The call in progress with this batch and dirty set. */
    ghost function Now(batch: seq<Record>, dirty: set<Key>): Draft
      reads `entries, `nodeTypes, `nodeLabels, eng`watermark
    {
      Draft(entries, eng.watermark, batch, dirty, nodeTypes, nodeLabels)
    }

    ghost predicate Fits(batch: seq<Record>, more: nat)
      reads eng`history, eng`watermark
    {
      && eng.watermark <= |eng.history| && |eng.history| + |batch| + more <= U64_LIMIT
      && TypedBatch(batch, cardinality)
    }

    /** On a drained engine: the mirrors are the snapshot's attributes, and nothing has been skipped yet. */
    constructor (e: Engine, card: Key -> Cardinality, ghost es: seq<Entry>)
      requires e.Valid() && e.card == card && e.history == Records(es) && e.watermark == |e.history| && Sound(es, card)
      ensures Valid() && eng == e && cardinality == card && entries == es
      ensures Rested(Now([], {}), card) && Suppression.Follows(Now([], {}), es, {}, card)
    {
      hide FoldOf, GcSame, OpsFrom, DiskHolds, Observe, InterpretAll, Sound, Suppression.Agrees;
      eng, cardinality, entries := e, card, es;
      var s := e.SnapshotArc();
      nodeTypes, nodeLabels := s.nodeTypes, s.nodeLabels;
      new;
      assert e.history[..e.watermark] == e.history;
      StartsRested(Now([], {}), card, e.cache.hash);
    }

    /** Append the batch, sync it and drain it; an empty batch does nothing at all. */
    method Flush(batch: seq<Record>, ghost dirty: set<Key>) returns (ok: bool)
      requires Valid() && Fits(batch, 0)
      modifies `entries, eng`history, eng`watermark, eng.changelog, eng.base, eng.cache
      ensures Valid() && Outcome(ok, Now([], dirty)) ==
        Ingest.Flush(old(Now(batch, dirty)), eng.changelog.maxUnmaterialized)
    {
      hide FoldOf, GcSame, OpsFrom, DiskHolds, TouchedKeys, TouchedNodes, SameAt, TypedOp, SnapshotCache.Shows;
      if batch == [] {
        return true;
      }
      var r := eng.WriteBatch(batch);
      if r.Backpressure? {
        return false;
      }
      entries := entries + Bare(batch);
      eng.Sync();
      var _, _ := eng.Materialize();
      return true;
    }

    /** Flush once the batch is long, and forget which keys were written. */
    method FlushFull(batch: seq<Record>, dirty: set<Key>) returns (ok: bool, rest: seq<Record>, marks: set<Key>)
      requires Valid() && Fits(batch, 0)
      modifies `entries, eng`history, eng`watermark, eng.changelog, eng.base, eng.cache
      ensures Valid() && Outcome(ok, Now(rest, marks)) ==
        Ingest.FlushFull(old(Now(batch, dirty)), eng.changelog.maxUnmaterialized)
      ensures TypedBatch(rest, cardinality)
    {
      hide Ingest.Flush;
      if |batch| >= FLUSH_AT {
        ok := Flush(batch, dirty);
        return ok, [], if ok then {} else dirty;
      }
      return true, batch, dirty;
    }

    /** The drained state that an ingest call compares incoming writes with. */
    lemma DrainedState(batch: seq<Record>, dirty: set<Key>)
      requires Valid()
      ensures Now(batch, dirty).drained <= |Now(batch, dirty).history| <= U64_LIMIT
      ensures Drained(Now(batch, dirty)) == FoldOf(eng.history[..eng.watermark])
      ensures GcSame(eng.base.Value(), Drained(Now(batch, dirty)))
    {
      assert Records(entries[..eng.watermark]) == eng.history[..eng.watermark];
    }

    /** Whether a fact line repeats the head of its One key. */
    method HeadRepeated(snap: Snapshot, x: Line) returns (dup: bool)
      requires x.Fact?
      ensures dup == RepeatsHead(snap, x)
    {
      var rows := GetOr(snap.oneHistory, x.key, []);
      if rows == [] {
        return false;
      }
      var head := rows[|rows| - 1];
      return head.v == Version(Some(x.obj), x.validFrom, x.validTo) && head.ok.source == x.source
        && RowLabel(snap, x.key, head.ok) == x.access;
    }

    /** Whether a fact line is a no-op against the drained state. */
    method Repeats(snap: Snapshot, x: Line, ghost batch: seq<Record>, dirty: set<Key>) returns (dup: bool)
      requires Valid() && x.Fact? && snap == Observe(FoldOf(eng.history[..eng.watermark]), eng.cache.hash)
      ensures Now(batch, dirty).drained <= |Now(batch, dirty).history| <= U64_LIMIT
      ensures dup == FactSkipped(Now(batch, dirty), x, cardinality, eng.cache.hash)
    {
      DrainedState(batch, dirty);
      hide Asserted, FoldOf, Observe, RepeatsHead;
      if x.key in dirty {
        return false;
      }
      if cardinality(x.key).One? {
        dup := HeadRepeated(snap, x);
      } else {
        dup := ManyLiveAsserted(eng.base, x);
        AssertedSame(eng.base.Value(), Drained(Now(batch, dirty)), x);
      }
    }

    /** The property writes of a fact line that are not no-ops, queued after `batch`. */
    method QueueProps(snap: Snapshot, x: Line, clean: bool, batch: seq<Record>) returns (out: seq<Record>)
      requires x.Fact?
      ensures out == batch + KeptProps(snap, x, clean, x.props)
    {
      out := batch;
      for i := 0 to |x.props|
        invariant out == batch + KeptProps(snap, x, clean, x.props[..i])
      {
        var p := x.props[i];
        assert x.props[..i + 1][..i] == x.props[..i];
        if !clean || !PropHeld(snap, x.key, x.obj, p) {
          out := out + [PropRecord(x, p)];
        }
      }
      assert x.props[..|x.props|] == x.props;
    }

    /** What of a fact line must be appended: the assertion, then its edge properties. */
    method KeepFact(x: Line, batch: seq<Record>, dirty: set<Key>) returns (queued: seq<Record>, marks: set<Key>)
      requires Valid() && Fits(batch, Most(x)) && x.Fact?
      ensures Room(Now(batch, dirty), Most(x)) && Fits(queued, 0)
      ensures Now(queued, marks) ==
        Queue(Now(batch, dirty), KeptOf(Now(batch, dirty), x, cardinality, eng.cache.hash), x.key)
    {
      hide FactSkipped, KeptProps, FoldOf, Observe, GcSame, OpsFrom, DiskHolds, KeptOf, Drained, Engine.Valid,
           TypedRecord;
      ghost var d := Now(batch, dirty);
      var snap := eng.SnapshotArc();
      var dup := Repeats(snap, x, batch, dirty);
      var body := if dup then [] else [FactRecord(x, cardinality)];
      var kept := QueueProps(snap, x, x.key !in dirty, body);
      DrainedState(batch, dirty);
      KeptFacts(d, x, cardinality, eng.cache.hash, kept);
      queued := batch + kept;
      marks := if kept == [] then dirty else dirty + {x.key};
    }

    /** A fact line, each part of which is skipped when it changes nothing. */
    method TakeFact(x: Line, batch: seq<Record>, dirty: set<Key>) returns (ok: bool, rest: seq<Record>, marks: set<Key>)
      requires Valid() && Fits(batch, Most(x)) && x.Fact?
      modifies `entries, eng`history, eng`watermark, eng.changelog, eng.base, eng.cache
      ensures Valid() && Room(old(Now(batch, dirty)), Most(x))
      ensures TypedBatch(rest, cardinality)
      ensures Outcome(ok, Now(rest, marks)) ==
              Take(old(Now(batch, dirty)), x, eng.changelog.maxUnmaterialized, cardinality, eng.cache.hash)
    {
      TakeFactIs(Now(batch, dirty), x, eng.changelog.maxUnmaterialized, cardinality, eng.cache.hash);
      hide FoldOf, Take, KeptOf, Engine.Valid, Ingest.FlushFull, Queue;
      var queued, written := KeepFact(x, batch, dirty);
      ok, rest, marks := FlushFull(queued, written);
    }

    /** Whether a close is a no-op against the drained state. */
    method ClosedBefore(snap: Snapshot, x: Line, dirty: set<Key>) returns (dup: bool)
      requires x.Close?
      ensures dup == (x.key !in dirty && ClosedAlready(snap, x))
    {
      var rows := if x.elem.None? then GetOr(snap.oneHistory, x.key, [])
                  else GetOr(GetOr(snap.manyHistory, x.key, map[]), x.elem.value, []);
      if x.key in dirty || rows == [] {
        return false;
      }
      var head := rows[|rows| - 1];
      return head.v.obj.None? && head.v.validFrom == x.validFrom && RowLabel(snap, x.key, head.ok) == x.access;
    }

    /** A close line: an error when it names an element of a One key or none of a Many key. */
    method TakeClose(x: Line, batch: seq<Record>, dirty: set<Key>) returns (ok: bool, rest: seq<Record>, marks: set<Key>)
      requires Valid() && Fits(batch, 1) && x.Close?
      modifies `entries, eng`history, eng`watermark, eng.changelog, eng.base, eng.cache
      ensures Valid() && Room(old(Now(batch, dirty)), 1)
      ensures TypedBatch(rest, cardinality)
      ensures Outcome(ok, Now(rest, marks)) ==
              Ingest.TakeClose(old(Now(batch, dirty)), x, eng.changelog.maxUnmaterialized, cardinality, eng.cache.hash)
    {
      hide FoldOf, Observe, GcSame, OpsFrom, DiskHolds, Ingest.FlushFull, Engine.Valid, ClosedAlready;
      DrainedState(batch, dirty);
      if cardinality(x.key).One? != x.elem.None? {
        return false, [], dirty;
      }
      var snap := eng.SnapshotArc();
      var dup := ClosedBefore(snap, x, dirty);
      if dup {
        ok, rest, marks := FlushFull(batch, dirty);
      } else {
        CloseTyped(x, cardinality);
        ok, rest, marks := FlushFull(batch + [CloseRecord(x)], dirty + {x.key});
      }
    }

    /** Append the observed-remove of an element to the engine. */
    method RetractNow(x: Line, dirty: set<Key>) returns (ok: bool, marks: set<Key>)
      requires Valid() && Fits([], 1) && x.Retract? && cardinality(x.key) == Many
      modifies `entries, eng`history, eng.changelog`records
      ensures Valid() && Room(old(Now([], dirty)), 1)
      ensures Outcome(ok, Now([], marks)) == Retracted(old(Now([], dirty)), x, eng.changelog.maxUnmaterialized)
    {
      hide FoldOf, Observe, GcSame, OpsFrom, DiskHolds, Engine.Valid, LiveTags;
      var r := eng.RetractEdge(x.source, x.key, x.obj);
      if r.Backpressure? {
        return false, dirty;
      }
      if r.value.None? {
        return true, dirty;
      }
      ghost var tags := LiveTags(FoldOf(eng.history[..|eng.history| - 1]), x.key, x.obj);
      entries := entries + [Entry(Retraction(x.source, x.key, tags), x.obj)];
      assert eng.history[..|eng.history| - 1] == old(eng.history);
      assert Records(entries) == eng.history;
      return true, dirty + {x.key};
    }

    /** A retract line: flush first, so that it observes the writes before it. */
    method TakeRetract(x: Line, batch: seq<Record>, dirty: set<Key>)
        returns (ok: bool, rest: seq<Record>, marks: set<Key>)
      requires Valid() && Fits(batch, 1) && x.Retract?
      modifies `entries, eng`history, eng`watermark, eng.changelog, eng.base, eng.cache
      ensures Valid() && Room(old(Now(batch, dirty)), 1)
      ensures TypedBatch(rest, cardinality)
      ensures Outcome(ok, Now(rest, marks)) ==
              Ingest.TakeRetract(old(Now(batch, dirty)), x, eng.changelog.maxUnmaterialized, cardinality)
    {
      hide Engine.Valid, Ingest.Flush, Retracted;
      FlushRoom(Now(batch, dirty), eng.changelog.maxUnmaterialized, 1);
      rest := [];
      ok := Flush(batch, dirty);
      if !ok {
        return false, rest, dirty;
      }
      if cardinality(x.key).One? {
        return false, rest, {};
      }
      ok, marks := RetractNow(x, {});
    }

    /** Write one node attribute, unless the mirror shows it already. */
    method WriteAttr(kind: WriteKind, held: bool) returns (ok: bool)
      requires Valid() && Fits([], 1) && (kind.SetNodeType? || kind.SetNodeLabel?)
      modifies `entries, eng`history, eng.changelog`records
      ensures Valid()
      ensures ok <==> held || |old(eng.history)| - eng.watermark < eng.changelog.maxUnmaterialized
      ensures entries == if ok && !held then old(entries) + [Entry(Record(0, kind, None), NoElem)] else old(entries)
    {
      hide FoldOf, Observe, GcSame, OpsFrom, DiskHolds, Engine.Valid;
      if held {
        return true;
      }
      assert TypedRecord(Record(0, kind, None), cardinality);
      var r := eng.Write(0, kind, None);
      if r.Backpressure? {
        return false;
      }
      entries := entries + [Entry(Record(0, kind, None), NoElem)];
      return true;
    }

    method TakeType(x: Line, batch: seq<Record>, dirty: set<Key>) returns (ok: bool, rest: seq<Record>)
      requires Valid() && Fits(batch, 2) && x.NodeLine?
      modifies `entries, `nodeTypes, eng`history, eng.changelog`records
      ensures Valid() && Room(old(Now(batch, dirty)), 2) && (ok ==> Fits(rest, 1)) && TypedBatch(rest, cardinality)
      ensures Outcome(ok, Now(rest, dirty)) == Ingest.TakeType(old(Now(batch, dirty)), x, eng.changelog.maxUnmaterialized)
    {
      hide Engine.Valid;
      if x.ty.None? {
        return true, batch;
      }
      var held := Get(nodeTypes, x.node) == x.ty;
      ok := WriteAttr(WriteKind.SetNodeType(x.node, x.ty.value), held);
      if ok && !held {
        nodeTypes := nodeTypes[x.node := x.ty.value];
      }
      rest := if ok then batch else [];
    }

    method TakeLabel(x: Line, batch: seq<Record>, dirty: set<Key>) returns (ok: bool, rest: seq<Record>)
      requires Valid() && Fits(batch, 1) && x.NodeLine?
      modifies `entries, `nodeLabels, eng`history, eng.changelog`records
      ensures Valid() && Room(old(Now(batch, dirty)), 1) && TypedBatch(rest, cardinality)
      ensures Outcome(ok, Now(rest, dirty)) ==
        Ingest.TakeLabel(old(Now(batch, dirty)), x, eng.changelog.maxUnmaterialized)
    {
      hide Engine.Valid;
      if x.access.None? {
        return true, batch;
      }
      var held := Get(nodeLabels, x.node) == x.access;
      ok := WriteAttr(WriteKind.SetNodeLabel(x.node, x.access.value), held);
      if ok && !held {
        nodeLabels := nodeLabels[x.node := x.access.value];
      }
      rest := if ok then batch else [];
    }

    /** A node line: its type, then its label; the mirrors move only after the engine took the write. */
    method TakeNode(x: Line, batch: seq<Record>, dirty: set<Key>) returns (ok: bool, rest: seq<Record>)
      requires Valid() && Fits(batch, 2) && x.NodeLine?
      modifies `entries, `nodeTypes, `nodeLabels, eng`history, eng.changelog`records
      ensures Valid() && Room(old(Now(batch, dirty)), 2)
      ensures TypedBatch(rest, cardinality)
      ensures Outcome(ok, Now(rest, dirty)) == Ingest.TakeNode(old(Now(batch, dirty)), x, eng.changelog.maxUnmaterialized)
    {
      hide Engine.Valid, Ingest.TakeType, Ingest.TakeLabel;
      ok, rest := TakeType(x, batch, dirty);
      if ok {
        ok, rest := TakeLabel(x, rest, dirty);
      }
    }

    /** One line of an ingest call. */
    method TakeLine(x: Line, batch: seq<Record>, dirty: set<Key>) returns (ok: bool, rest: seq<Record>, marks: set<Key>)
      requires Valid() && Fits(batch, Most(x))
      modifies `entries, `nodeTypes, `nodeLabels, eng`history, eng`watermark, eng.changelog, eng.base, eng.cache
      ensures Valid() && Room(old(Now(batch, dirty)), Most(x))
      ensures TypedBatch(rest, cardinality)
      ensures Outcome(ok, Now(rest, marks)) ==
              Take(old(Now(batch, dirty)), x, eng.changelog.maxUnmaterialized, cardinality, eng.cache.hash)
    {
      ghost var d, limit := Now(batch, dirty), eng.changelog.maxUnmaterialized;
      TakeByKind(d, x, limit, cardinality, eng.cache.hash);
      hide Engine.Valid, Take, Ingest.TakeClose, Ingest.TakeRetract, Ingest.TakeNode, Ingest.FlushFull, KeptOf;
      if x.Fact? {
        ok, rest, marks := TakeFact(x, batch, dirty);
      } else if x.Close? {
        ok, rest, marks := TakeClose(x, batch, dirty);
      } else if x.Retract? {
        ok, rest, marks := TakeRetract(x, batch, dirty);
      } else {
        marks := dirty;
        ok, rest := TakeNode(x, batch, dirty);
      }
      assert d == old(Now(batch, dirty));
    }

    /** Flush what is left, make it durable and drain the engine's tail. */
    method Finish(batch: seq<Record>, ghost dirty: set<Key>) returns (ok: bool)
      requires Valid() && Fits(batch, 0)
      modifies `entries, eng`history, eng`watermark, eng.changelog, eng.base, eng.cache
      ensures Valid()
      ensures ok == Ingest.Flush(old(Now(batch, dirty)), eng.changelog.maxUnmaterialized).Going?
      ensures var n := Ingest.Flush(old(Now(batch, dirty)), eng.changelog.maxUnmaterialized).draft;
        Now([], dirty) == if ok then n.(drained := |n.history|) else n
    {
      hide Ingest.Flush, FoldOf, GcSame, OpsFrom, DiskHolds, TouchedKeys, TouchedNodes, SameAt, SnapshotCache.Shows;
      ok := Flush(batch, dirty);
      if ok {
        eng.Sync();
        var _, _ := eng.Materialize();
      }
    }

    /** Drain the engine's tail, as every read of a rule's changes does first. */
    method DrainTail()
      requires Valid()
      modifies eng`watermark, eng.changelog`materialized, eng.base, eng.cache
      ensures Valid() && Now([], {}) == old(Now([], {})).(drained := |entries|)
    {
      hide FoldOf, GcSame, OpsFrom, DiskHolds, TouchedKeys, TouchedNodes, SameAt, SnapshotCache.Shows;
      var _, _ := eng.Materialize();
    }

    /** An ingest call: its lines in order, then the last flush; an error loses what the batch held. */
    method IngestLines(lines: seq<Line>) returns (ok: bool)
      requires Valid() && |eng.history| + MostOf(lines) <= U64_LIMIT
      modifies `entries, `nodeTypes, `nodeLabels, eng`history, eng`watermark, eng.changelog, eng.base, eng.cache
      ensures Valid() && Room(old(Now([], {})), MostOf(lines))
      ensures var p := Call(old(Now([], {})), lines, eng.changelog.maxUnmaterialized, cardinality, eng.cache.hash);
        && ok == p.Going?
        && Now([], p.draft.dirty) == p.draft.(batch := [])
    {
      hide Engine.Valid, Take, Ingest.Flush;
      DrainedState([], {});
      var batch: seq<Record>, dirty: set<Key> := [], {};
      ghost var limit, d := eng.changelog.maxUnmaterialized, Now([], {});
      TakeAllRoom(d, lines, limit, cardinality, eng.cache.hash, 0);
      var i := 0;
      while i < |lines|
        invariant i <= |lines| && Valid() && TypedBatch(batch, cardinality)
        invariant Room(Now(batch, dirty), MostOf(lines[i..]))
        invariant TakeAll(Now(batch, dirty), lines[i..], limit, cardinality, eng.cache.hash)
               == TakeAll(d, lines, limit, cardinality, eng.cache.hash)
      {
        assert lines[i..][0] == lines[i] && lines[i..][1..] == lines[i + 1..];
        TakeRoom(Now(batch, dirty), lines[i], limit, cardinality, eng.cache.hash, MostOf(lines[i + 1..]));
        ok, batch, dirty := TakeLine(lines[i], batch, dirty);
        if !ok {
          StoppedEmpty(d, lines, limit, cardinality, eng.cache.hash);
          return false;
        }
        i := i + 1;
      }
      assert lines[i..] == [];
      ok := Finish(batch, dirty);
    }
  }

  /** An ingest call, or a drain of what the engine has not folded in yet. */
  method TakeTurn(w: WriteState, t: Turn, ghost es: seq<Entry>, ghost lost: ElemSet) returns (ok: bool)
    requires w.Valid() && |w.eng.history| + MostTurn(t) <= U64_LIMIT && |es| + MostTurn(t) <= U64_LIMIT
    modifies w, w.eng`history, w.eng`watermark, w.eng.changelog, w.eng.base, w.eng.cache
    ensures w.Valid() && Room(old(w.Now([], {})), MostTurn(t))
    ensures var e := AfterTurn(old(w.Now([], {})), es, lost, t, w.eng.changelog.maxUnmaterialized, w.cardinality,
                               w.eng.cache.hash);
      w.Now([], {}) == e.draft && e.oks == [ok]
  {
    hide Engine.Valid, Call, CallReaches;
    w.DrainedState([], {});
    if t.IngestCall? {
      ok := w.IngestLines(t.lines);
    } else {
      w.DrainTail();
      ok := true;
    }
  }

  /** Any number of calls, some of them perhaps stopped, with drains between them: the store ends where the specified
      turns end, and answers as the history of everything that reached it, but for what was lost. */
  method TakeTurns(w: WriteState, turns: seq<Turn>, ghost all: seq<Entry>) returns (oks: seq<bool>)
    requires w.Valid() && Settled(w.Now([], {}), w.cardinality)
    requires Suppression.Follows(w.Now([], {}), all, {}, w.cardinality)
    requires |w.eng.history| + MostTurns(turns) <= U64_LIMIT && |all| + MostTurns(turns) <= U64_LIMIT
    modifies w, w.eng`history, w.eng`watermark, w.eng.changelog, w.eng.base, w.eng.cache
    ensures w.Valid() && Room(old(w.Now([], {})), MostTurns(turns)) && |oks| == |turns|
    ensures var e := AfterTurns(old(w.Now([], {})), all, {}, turns, w.eng.changelog.maxUnmaterialized, w.cardinality,
                                w.eng.cache.hash);
      && oks == e.oks && w.Now([], {}) == e.draft
      && Suppression.Follows(w.Now([], {}), e.reached, e.lost, w.cardinality)
      && (false !in oks ==> e.reached == AppendTurns(all, turns, w.cardinality))
      && (old(Rested(w.Now([], {}), w.cardinality)) && NoneRegrants(turns) && DrainedAfterStops(turns, oks) ==>
           e.lost == {})
  {
    hide Engine.Valid, AfterTurn, Suppression.Follows, Settled, AfterTurns, NoneRegrants, AppendTurns, DrainedAfterStops,
         Rested;
    w.DrainedState([], {});
    ghost var limit, card, h, start := w.eng.changelog.maxUnmaterialized, w.cardinality, w.eng.cache.hash, w.Now([], {});
    ghost var end, es, lost: ElemSet := AfterTurns(start, all, {}, turns, limit, card, h), all, {};
    oks := [];
    var i := 0;
    while i < |turns|
      invariant i <= |turns| && w.Valid() && |oks| == i
      invariant Room(w.Now([], {}), MostTurns(turns[i..])) && |es| + MostTurns(turns[i..]) <= U64_LIMIT
      invariant i <= |end.oks| && oks == end.oks[..i]
      invariant AfterTurns(w.Now([], {}), es, lost, turns[i..], limit, card, h) == end.(oks := end.oks[i..])
    {
      assert turns[i..][0] == turns[i] && turns[i..][1..] == turns[i + 1..];
      ghost var d := w.Now([], {});
      AfterFirst(d, es, lost, turns[i..], limit, card, h);
      ghost var e := AfterTurn(d, es, lost, turns[i], limit, card, h);
      var ok := TakeTurn(w, turns[i], es, lost);
      es, lost := e.reached, e.lost;
      oks := oks + [ok];
      i := i + 1;
    }
    assert turns[i..] == [];
    AfterNone(w.Now([], {}), es, lost, limit, card, h);
    TurnsKeep(start, all, {}, turns, limit, card, h);
    assert oks == end.oks;
    if Rested(start, card) && NoneRegrants(turns) && DrainedAfterStops(turns, oks) {
      TurnsLossless(start, all, turns, limit, card, h);
    }
  }

  lemma AfterNone(d: Draft, es: seq<Entry>, lost: ElemSet, limit: nat, card: Key -> Cardinality, h: Hash)
    requires Room(d, 0) && |es| <= U64_LIMIT
    ensures AfterTurns(d, es, lost, [], limit, card, h) == Ending(d, es, lost, [])
  {
  }

  /** The first of several turns. */
  lemma AfterFirst(d: Draft, es: seq<Entry>, lost: ElemSet, turns: seq<Turn>, limit: nat, card: Key -> Cardinality,
                   h: Hash)
    requires turns != [] && Room(d, MostTurns(turns)) && |es| + MostTurns(turns) <= U64_LIMIT
    ensures var e := AfterTurn(d, es, lost, turns[0], limit, card, h);
      && Room(e.draft, MostTurns(turns[1..])) && |e.reached| + MostTurns(turns[1..]) <= U64_LIMIT
      && var rest := AfterTurns(e.draft, e.reached, e.lost, turns[1..], limit, card, h);
         && AfterTurns(d, es, lost, turns, limit, card, h) == rest.(oks := e.oks + rest.oks)
         && |e.oks| == 1 && (e.oks + rest.oks)[1..] == rest.oks
  {
    hide AfterTurn;
    TurnRoom(d, es, lost, turns[0], limit, card, h, MostTurns(turns[1..]));
  }

  /** The same facts and closes sent in two calls: when the first goes through so does the second, and leaves the store as
      the first left it. */
  method SendTwice(w: WriteState, lines: seq<Line>) returns (first: bool, second: bool)
    requires w.Valid() && Rested(w.Now([], {}), w.cardinality) && Independent(lines, w.cardinality)
    requires |w.eng.history| + 2 * MostOf(lines) <= U64_LIMIT
    modifies w, w.eng`history, w.eng`watermark, w.eng.changelog, w.eng.base, w.eng.cache
    ensures w.Valid() && Room(old(w.Now([], {})), MostOf(lines))
    ensures var p := Call(old(w.Now([], {})), lines, w.eng.changelog.maxUnmaterialized, w.cardinality, w.eng.cache.hash);
      && (first <==> p.Going?)
      && (first ==> second && w.Now([], {}) == p.draft)
  {
    hide Engine.Valid, Call, Independent, Rested, WriteState.Valid;
    ghost var d, limit := w.Now([], {}), w.eng.changelog.maxUnmaterialized;
    NowRoom(w, lines);
    CallRoom(d, lines, limit, w.cardinality, w.eng.cache.hash, MostOf(lines));
    first := w.IngestLines(lines);
    second := false;
    if first {
      AfterGoing(d, lines, limit, w.cardinality, w.eng.cache.hash);
      assert w.Now([], {}) == Call(d, lines, limit, w.cardinality, w.eng.cache.hash).draft;
      ResendAppendsNothing(d, lines, limit, w.cardinality, w.eng.cache.hash);
      NowFits(w, lines);
      second := w.IngestLines(lines);
    }
  }

  lemma NowRoom(w: WriteState, lines: seq<Line>)
    requires w.Valid() && |w.eng.history| + 2 * MostOf(lines) <= U64_LIMIT
    ensures Room(w.Now([], {}), MostOf(lines) + MostOf(lines))
  {
    w.DrainedState([], {});
  }

  lemma NowFits(w: WriteState, lines: seq<Line>)
    requires w.Valid() && Room(w.Now([], {}), MostOf(lines))
    ensures |w.eng.history| + MostOf(lines) <= U64_LIMIT
  {
  }

  lemma AfterGoing(d: Draft, xs: seq<Line>, limit: nat, card: Key -> Cardinality, h: Hash)
    requires Rested(d, card) && Room(d, MostOf(xs)) && Call(d, xs, limit, card, h).Going?
    ensures var n := Call(d, xs, limit, card, h).draft; n.batch == [] && n.dirty == {}
  {
    RestedStart(d, card);
    CallFollows(d, d.history, {}, xs, limit, card, h);
    hide Call;
    RestedBatch(Call(d, xs, limit, card, h).draft, card);
  }

  /** A stopped call has nothing waiting. */
  lemma {:induction false} StoppedEmpty(d: Draft, xs: seq<Line>, limit: nat, card: Key -> Cardinality, h: Hash)
    requires Room(d, MostOf(xs)) && TakeAll(d, xs, limit, card, h).Stopped?
    ensures TakeAll(d, xs, limit, card, h).draft.batch == []
    decreases |xs|
  {
    hide FoldOf, Observe, LiveTags, KeptOf;
    if xs != [] {
      TakeRoom(d, xs[0], limit, card, h, MostOf(xs[1..]));
      var p := Take(d, xs[0], limit, card, h);
      if p.Going? {
        StoppedEmpty(p.draft, xs[1..], limit, card, h);
      }
    }
  }

  lemma CloseTyped(x: Line, card: Key -> Cardinality)
    requires x.Close? && (card(x.key).One? <==> x.elem.None?)
    ensures TypedRecord(CloseRecord(x), card)
  {
  }
}
