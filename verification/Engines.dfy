/** The engine: appends to the changelog, materializes into a fold, compacts, and survives crashes. */
module Engines {
  import opened Types
  import opened Rows
  import opened Folds
  import opened FoldLaws
  import opened Snapshots
  import opened Collection
  import opened Refresh
  import opened Changelogs

  // --- histories -------------------------------------------------------------------------------

  lemma TypedAppend(history: seq<Record>, r: Record, card: Key -> Cardinality)
    requires TypedHistory(history, card) && TypedRecord(r, card) && |history| < U64_LIMIT
    ensures TypedHistory(history + [r], card)
  {
  }

  /** The ops of a whole history: record `i` has seqno `i`. */
  function Ops(history: seq<Record>): seq<LabeledOp>
    requires |history| <= U64_LIMIT
  {
    OpsFrom(0, history)
  }

  /** Each record writes to a key of the cardinality the catalog declares for it. */
  ghost predicate TypedRecord(r: Record, card: Key -> Cardinality) {
    TypedOp(RecordToOp(0, r).op, card)
  }

  ghost predicate TypedHistory(history: seq<Record>, card: Key -> Cardinality) {
    |history| <= U64_LIMIT && forall i :: 0 <= i < |history| ==> TypedRecord(history[i], card)
  }

  lemma OpsTyped(history: seq<Record>, card: Key -> Cardinality)
    requires TypedHistory(history, card)
    ensures Typed(Ops(history), card)
  {
    forall i | 0 <= i < |history|
      ensures TypedOp(Ops(history)[i].op, card)
    {
      assert TypedRecord(history[i], card);
    }
  }

  lemma OpsTail(history: seq<Record>, from: nat)
    requires from <= |history| <= U64_LIMIT
    ensures OpsFrom(from, history[from..]) == Ops(history)[from..]
    ensures Ops(history[..from]) == Ops(history)[..from]
  {
  }

  /** The fold of every write of a history, in seqno order. */
  function FoldOf(history: seq<Record>): State
    requires |history| <= U64_LIMIT
  {
    FoldLog(Ops(history))
  }

  lemma FoldOfTyped(history: seq<Record>, card: Key -> Cardinality)
    requires TypedHistory(history, card)
    ensures TypedState(FoldOf(history), card)
  {
    OpsTyped(history, card);
    FoldTyped(Empty, Ops(history), card);
  }

  // --- catching a collected fold up ------------------------------------------------------------

  function Writes(ops: seq<LabeledOp>): seq<Step> {
    seq(|ops|, i requires 0 <= i < |ops| => Write(ops[i]))
  }

  lemma {:induction false} RunWrites(f: State, ops: seq<LabeledOp>)
    ensures Run(f, Writes(ops)) == FoldInto(f, ops)
    decreases |ops|
  {
    if ops != [] {
      var n := |ops| - 1;
      assert Writes(ops)[..n] == Writes(ops[..n]);
      RunWrites(f, ops[..n]);
    }
  }

  /** A fold that collects like the fold of a prefix collects, after the rest, like the fold of the whole. */
  lemma CatchUp(f: State, history: seq<Record>, from: nat, card: Key -> Cardinality)
    requires from <= |history| && TypedHistory(history, card) && TypedState(f, card)
    requires GcSame(f, FoldOf(history[..from]))
    ensures GcSame(FoldInto(f, Ops(history)[from..]), FoldOf(history))
    ensures TypedState(FoldInto(f, Ops(history)[from..]), card)
  {
    var ops := Ops(history);
    OpsTyped(history, card);
    OpsTail(history, from);
    FoldOfTyped(history[..from], card);
    GcSameRun(f, FoldLog(ops[..from]), Writes(ops[from..]), card);
    RunWrites(f, ops[from..]);
    RunWrites(FoldLog(ops[..from]), ops[from..]);
    FoldConcat(Empty, ops[..from], ops[from..]);
    assert ops[..from] + ops[from..] == ops;
  }

  lemma GcSameObserve(f: State, g: State, h: Hash)
    requires GcSame(f, g)
    ensures Observe(f, h) == Observe(g, h)
  {
    GcObserve(f, h);
    GcObserve(g, h);
  }

  lemma GcSameTags(f: State, g: State, k: Key, o: ObjKey)
    requires GcSame(f, g)
    ensures LiveTags(f, k, o) == LiveTags(g, k, o)
  {
    GcLive(f, k);
    GcLive(g, k);
  }

  // --- what a run of ops leaves alone ----------------------------------------------------------

  lemma {:induction false} FoldUntouched(f: State, ops: seq<LabeledOp>)
    ensures forall k :: k !in TouchedKeys(ops) ==> SameEntries(f, FoldInto(f, ops), k)
    ensures forall n :: n !in TouchedNodes(ops) ==> Get(f.nodeAttrs, n) == Get(FoldInto(f, ops).nodeAttrs, n)
    decreases |ops|
  {
    if ops != [] {
      var last := |ops| - 1;
      FoldUntouched(f, ops[..last]);
      TouchedSnoc(ops[..last], ops[last]);
      assert ops == ops[..last] + [ops[last]];
    }
  }

  predicate SameEntries(f: State, g: State, k: Key) {
    && Get(f.keys, k) == Get(g.keys, k)
    && Get(f.edgeProps, k) == Get(g.edgeProps, k)
    && Get(f.factLabels, k) == Get(g.factLabels, k)
  }

  lemma SameKeyRows(f: State, g: State, k: Key)
    requires Get(f.keys, k) == Get(g.keys, k)
    ensures OneRows(f, k) == OneRows(g, k) && ManyRows(f, k) == ManyRows(g, k) && LiveKeys(f, k) == LiveKeys(g, k)
  {
    assert k in f.keys <==> k in g.keys;
    assert forall o :: LiveElem(f, k, o) == LiveElem(g, k, o);
    forall o
      ensures Get(ManyRows(f, k), o) == Get(ManyRows(g, k), o)
    {
      assert LiveElem(f, k, o) == LiveElem(g, k, o);
    }
    SameMaps(ManyRows(f, k), ManyRows(g, k));
    assert LiveKeys(f, k) == LiveKeys(g, k);
  }

  lemma SameEntriesShowSame(f: State, g: State, k: Key)
    requires SameEntries(f, g, k)
    ensures SameAt(f, g, k)
  {
    SameKeyRows(f, g, k);
    assert GetOr(f.edgeProps, k, map[]) == GetOr(g.edgeProps, k, map[]);
    assert GetOr(f.factLabels, k, map[]) == GetOr(g.factLabels, k, map[]);
  }

  /** Everything a replay of the history from seqno `from` into a caught-up fold establishes. */
  lemma ReplayFacts(was: State, history: seq<Record>, start: nat, from: nat, card: Key -> Cardinality)
    requires start <= from <= |history| && TypedHistory(history, card) && TypedState(was, card)
    requires GcSame(was, FoldOf(history[..from]))
    ensures Typed(OpsFrom(start, history[start..]), card)
    ensures var tail := Ops(history)[from..];
      && OpsFrom(start, history[start..])[from - start..] == tail
      && GcSame(FoldInto(was, tail), FoldOf(history))
      && TypedState(FoldInto(was, tail), card)
      && (forall k :: k !in TouchedKeys(tail) ==> SameAt(was, FoldInto(was, tail), k))
      && (forall n :: n !in TouchedNodes(tail) ==> Get(was.nodeAttrs, n) == Get(FoldInto(was, tail).nodeAttrs, n))
  {
    var tail := Ops(history)[from..];
    OpsTyped(history, card);
    OpsTail(history, start);
    CatchUp(was, history, from, card);
    FoldUntouched(was, tail);
    forall k | k !in TouchedKeys(tail)
      ensures SameAt(was, FoldInto(was, tail), k)
    {
      SameEntriesShowSame(was, FoldInto(was, tail), k);
    }
  }

  // --- what is on disk -------------------------------------------------------------------------

  /** The files hold exactly `history`: the snapshot a prefix of it, the log the rest and maybe more. */
  ghost predicate DiskHolds(d: Disk, history: seq<Record>, card: Key -> Cardinality) {
    && TypedHistory(history, card)
    && d.wal.start <= |history|
    && d.wal.frames == history[d.wal.start..]
    && (d.snap.None? ==> d.wal.start == 0)
    && (d.snap.Some? ==>
         && d.wal.start <= d.snap.value.covered <= |history|
         && TypedState(d.snap.value.fold, card)
         && GcSame(d.snap.value.fold, FoldOf(history[..d.snap.value.covered])))
  }

  /** Whole frames appended to the log file extend the history it holds. */
  lemma DiskExtend(d: Disk, history: seq<Record>, more: seq<Record>, card: Key -> Cardinality)
    requires DiskHolds(d, history, card) && TypedHistory(history + more, card)
    ensures DiskHolds(d.(wal := Wal(d.wal.start, d.wal.frames + more)), history + more, card)
  {
    assert (history + more)[d.wal.start..] == history[d.wal.start..] + more;
    if d.snap.Some? {
      assert (history + more)[..d.snap.value.covered] == history[..d.snap.value.covered];
    }
  }

  /** The seqno up to which the snapshot file makes replaying the log unnecessary. */
  function Covered(d: Disk): nat { if d.snap.Some? then d.snap.value.covered else d.wal.start }

  /** The files start with a fold of the writes that the snapshot covers. */
  lemma OnDisk(d: Disk, history: seq<Record>, card: Key -> Cardinality)
    requires DiskHolds(d, history, card)
    ensures var f := if d.snap.Some? then d.snap.value.fold else Empty;
      var covered := Covered(d);
      && TypedHistory(history, card) && history[..|history|] == history
      && d.wal.start <= covered <= |history| == d.wal.start + |d.wal.frames|
      && d.wal.frames == history[d.wal.start..]
      && TypedState(f, card) && GcSame(f, FoldOf(history[..covered]))
  {
    assert d.snap.None? ==> Ops(history[..0]) == [];
  }

  class Engine {
    const changelog: Changelog
    const base: Fold
    const cache: SnapshotCache
    var watermark: nat
    /** Every write since the beginning, of which the files or the changelog still hold the rest. */
    ghost var history: seq<Record>
    ghost const card: Key -> Cardinality

    /** The changelog holds the end of the history. */
    ghost predicate LogValid()
      reads `history, changelog
    {
      && changelog.Valid()
      && TypedHistory(history, card)
      && changelog.Head() == |history|
      && changelog.records == history[changelog.base..]
    }

    /** The base is a fold of the first `upTo` writes. */
    ghost predicate BaseAt(upTo: nat)
      reads `history, base
    {
      && upTo <= |history| <= U64_LIMIT
      && TypedState(base.Value(), card)
      && GcSame(base.Value(), FoldOf(history[..upTo]))
    }

    /** In durable mode the files hold every synced write. */
    ghost predicate FilesHold()
      reads `history, changelog`base, changelog`durableUpto, changelog`durable, changelog`disk
    {
      changelog.durable ==>
        changelog.base + changelog.durableUpto <= |history| && DiskHolds(changelog.disk, Durable(), card)
    }

    ghost predicate Valid()
      reads this, changelog, base, cache
    {
      && LogValid()
      && changelog.base <= watermark
      && changelog.materialized == watermark - changelog.base
      && BaseAt(watermark)
      && cache.Shows(base.Value())
      && FilesHold()
    }

    /** The writes that have been synced. */
    ghost function Durable(): seq<Record>
      reads `history, changelog`base, changelog`durableUpto
      requires changelog.base + changelog.durableUpto <= |history|
    {
      history[..changelog.base + changelog.durableUpto]
    }

    constructor InMemory(limit: nat, h: Hash, ghost card: Key -> Cardinality)
      ensures Valid() && fresh(this) && fresh(changelog) && fresh(base) && fresh(cache)
      ensures history == [] && cache.hash == h && this.card == card && !changelog.durable
    {
      changelog := new Changelog.InMemory(limit);
      base := new Fold(Empty);
      cache := new SnapshotCache(NoFacts, h);
      watermark := 0;
      history := [];
      this.card := card;
      new;
      EmptyShows(cache);
    }

    /** Load the snapshot file when there is one; the rest of the log is still to be replayed. */
    constructor Load(d: Disk, limit: nat, h: Hash, ghost synced: seq<Record>, ghost card: Key -> Cardinality)
      requires DiskHolds(d, synced, card)
      ensures fresh(this) && fresh(changelog) && fresh(base) && fresh(cache)
      ensures LogValid() && FilesHold() && BaseAt(Covered(d)) && cache.Value() == NoFacts
      ensures history == synced && cache.hash == h && this.card == card && watermark == |history|
      ensures changelog.durable && changelog.disk == d && changelog.maxUnmaterialized == limit
      ensures changelog.base == d.wal.start && changelog.materialized == changelog.durableUpto == |changelog.records|
    {
      hide FoldOf, GcSame, TypedState, TypedHistory, DiskHolds, OpsFrom;
      OnDisk(d, synced, card);
      changelog := new Changelog.Open(d, limit);
      base := new Fold(if d.snap.Some? then d.snap.value.fold else Empty);
      cache := new SnapshotCache(NoFacts, h);
      history := synced;
      this.card := card;
      watermark := d.wal.start + |d.wal.frames|;
      new;
      assert synced[..d.wal.start + |d.wal.frames|] == synced;
    }

    /** Replay the log past what the base covers, then observe the whole base. */
    method Recover(covered: nat)
      requires LogValid() && FilesHold() && changelog.base <= covered && BaseAt(covered)
      requires watermark == |history| && changelog.materialized == |changelog.records| && cache.Value() == NoFacts
      modifies base, cache
      ensures Valid()
    {
      hide FoldOf, GcSame, FoldInto, TouchedKeys, TouchedNodes, SameAt;
      ReplayFacts(base.Value(), history, changelog.base, covered, card);
      var _, _ := changelog.ReplayRangeInto(covered, base, card);
      assert history[..|history|] == history;
      EmptyShows(cache);
      ObserveAll(cache, base);
    }

    /** Append a write whose row may carry an access label. */
    method Write(source: FieldId, kind: WriteKind, access: Option<Label>) returns (r: Appended<u64>)
      requires Valid() && |history| < U64_LIMIT && TypedRecord(Record(source, kind, access), card)
      modifies this`history, changelog`records
      ensures Valid() && Durable() == old(Durable())
      ensures r.Ok? ==> r.value as int == |old(history)| && history == old(history) + [Record(source, kind, access)]
      ensures r.Backpressure? ==>
        && history == old(history)
        && r.unmaterialized == |history| - watermark && r.limit == changelog.maxUnmaterialized
      ensures r.Backpressure? <==> |old(history)| - watermark >= changelog.maxUnmaterialized
    {
      r := changelog.Append(source, kind, access);
      if r.Ok? {
        TypedAppend(history, Record(source, kind, access), card);
        history := history + [Record(source, kind, access)];
        Appended(old(history), [Record(source, kind, access)]);
      }
    }

    /** Append a chunk of writes atomically. */
    method WriteBatch(writes: seq<Record>) returns (r: Appended<seq<u64>>)
      requires Valid() && TypedHistory(history + writes, card)
      modifies this`history, changelog`records
      ensures Valid() && Durable() == old(Durable())
      ensures r.Ok? ==> history == old(history) + writes && |r.value| == |writes|
      ensures r.Ok? ==> forall i :: 0 <= i < |writes| ==> r.value[i] as int == |old(history)| + i
      ensures r.Backpressure? ==>
        && history == old(history)
        && r.unmaterialized == |history| - watermark + |writes| && r.limit == changelog.maxUnmaterialized
      ensures r.Backpressure? <==> |old(history)| - watermark + |writes| > changelog.maxUnmaterialized
    {
      r := changelog.AppendBatch(writes);
      if r.Ok? {
        history := history + writes;
        Appended(old(history), writes);
      }
    }

    /** What appending leaves in place. */
    lemma Appended(was: seq<Record>, more: seq<Record>)
      requires history == was + more && changelog.base <= watermark <= |was|
      requires changelog.base + changelog.durableUpto <= |was|
      ensures history[changelog.base..] == was[changelog.base..] + more
      ensures history[..watermark] == was[..watermark]
      ensures history[..changelog.base + changelog.durableUpto] == was[..changelog.base + changelog.durableUpto]
    {
    }

    /** Writing the frames past the durable mark makes the files hold the whole history. */
    lemma SyncFacts()
      requires Valid()
      ensures changelog.durable ==>
        DiskHolds(changelog.disk.(wal := Wal(changelog.base, changelog.records)), history, card)
      ensures history[..|history|] == history
    {
      if changelog.durable {
        var rest := changelog.records[changelog.durableUpto..];
        assert Durable() + rest == history;
        DiskExtend(changelog.disk, Durable(), rest, card);
        assert changelog.disk.wal.frames + rest == changelog.records;
      }
    }

    /** Durability commit point. */
    method Sync()
      requires Valid()
      modifies changelog`durableUpto, changelog`disk
      ensures Valid()
      ensures changelog.durable ==> Durable() == history && changelog.durableUpto == |changelog.records|
      ensures changelog.disk.snap == old(changelog.disk.snap)
      ensures !changelog.durable ==> changelog.disk == old(changelog.disk)
    {
      hide FoldOf, GcSame, TypedRecord;
      SyncFacts();
      changelog.Sync();
    }

    /** Fold the tail into the base. */
    method Drain() returns (keys: set<Key>, nodes: set<NodeId>)
      requires LogValid() && changelog.base <= watermark && BaseAt(watermark)
      modifies base
      ensures BaseAt(|history|)
      ensures keys == TouchedKeys(Ops(history)[watermark..]) && nodes == TouchedNodes(Ops(history)[watermark..])
      ensures forall k :: k !in keys ==> SameAt(old(base.Value()), base.Value(), k)
      ensures forall n :: n !in nodes ==> Get(old(base.Value()).nodeAttrs, n) == Get(base.nodeAttrs, n)
      ensures keys != {} || nodes != {} ==> watermark < |history|
    {
      hide FoldOf, GcSame, SameAt;
      ReplayFacts(base.Value(), history, changelog.base, watermark, card);
      keys, nodes := changelog.ReplayRangeInto(watermark, base, card);
      assert history[..|history|] == history;
      assert watermark == |history| ==> Ops(history)[watermark..] == [];
    }

    /** Refresh the cached snapshot where the drained tail touched it. */
    method RefreshCache(ghost was: State, keys: set<Key>, nodes: set<NodeId>)
      requires cache.Shows(was)
      requires forall k :: k !in keys ==> SameAt(was, base.Value(), k)
      requires forall n :: n !in nodes ==> Get(was.nodeAttrs, n) == Get(base.nodeAttrs, n)
      modifies cache
      ensures cache.Shows(base.Value())
    {
      if keys != {} || nodes != {} {
        cache.Refresh(base, was, keys, nodes);
      } else {
        SameMaps(was.nodeAttrs, base.nodeAttrs);
        SameShows(cache, was, base.Value());
      }
    }

    /** Fold the tail into the base and refresh the cached snapshot only where the tail touched it. */
    method Materialize() returns (keys: set<Key>, nodes: set<NodeId>)
      requires Valid()
      modifies `watermark, changelog`materialized, base, cache
      ensures Valid() && watermark == |history|
      ensures keys == TouchedKeys(Ops(history)[old(watermark)..]) && nodes == TouchedNodes(Ops(history)[old(watermark)..])
      ensures forall k :: k !in keys ==> SameAt(old(base.Value()), base.Value(), k)
      ensures forall n :: n !in nodes ==> Get(old(base.Value()).nodeAttrs, n) == Get(base.nodeAttrs, n)
      ensures keys != {} || nodes != {} ==> old(watermark) < |history|
    {
      hide FoldOf, GcSame, TouchedKeys, TouchedNodes, OpsFrom, SameAt, TypedRecord;
      ghost var was := base.Value();
      keys, nodes := Drain();
      RefreshCache(was, keys, nodes);
      watermark := changelog.Head();
      changelog.MarkMaterialized(watermark);
    }

    /** Drop what the hard-delete floors dominate; the cached snapshot stays as it is. */
    method CollectBase()
      requires BaseAt(watermark) && cache.Shows(base.Value())
      modifies base
      ensures BaseAt(watermark) && cache.Shows(base.Value())
    {
      ghost var was := base.Value();
      base.Collect();
      CollectFacts(was, FoldOf(history[..watermark]), card);
      SameShows(cache, was, base.Value());
    }

    /** Drain, sync and collect, so that the log prefix can be dropped. */
    method PrepareCompaction()
      requires Valid()
      modifies `watermark, changelog`materialized, changelog`durableUpto, changelog`disk, base, cache
      ensures Valid() && watermark == |history| && changelog.materialized == |changelog.records|
      ensures changelog.durable ==> Durable() == history && changelog.durableUpto == |changelog.records|
      ensures !changelog.durable ==> changelog.disk == old(changelog.disk)
    {
      var _, _ := Materialize();
      Sync();
      CollectBase();
    }

    /** Snapshot and truncate; the seqno the snapshot covers, or nothing in in-memory mode. */
    method Compact() returns (covered: Option<nat>)
      requires Valid()
      modifies `watermark, changelog, base, cache
      ensures Valid() && changelog.durable == old(changelog.durable) && watermark == |history|
      ensures changelog.durable ==> covered == Some(|history|) && Durable() == history && changelog.records == []
      ensures !changelog.durable ==> covered == None && changelog.disk == old(changelog.disk)
    {
      PrepareCompaction();
      if !changelog.durable {
        return None;
      }
      CommitSnapshot();
      Truncate();
      return Some(changelog.base);
    }

    /** The first half of a compaction: the snapshot file is in place, the log not yet truncated. */
    method CommitSnapshot()
      requires Valid() && changelog.durable && watermark == |history|
      requires changelog.durableUpto == |changelog.records| == changelog.materialized
      modifies changelog`disk
      ensures Valid() && Durable() == old(Durable())
      ensures changelog.disk.snap.Some? && changelog.disk.snap.value.covered == |history|
    {
      assert history[..|history|] == history;
      changelog.CommitSnapshot(base.Value());
    }

    /** The second half: the log restarts, empty, at the seqno the snapshot covers. */
    method Truncate()
      requires Valid() && changelog.durable && watermark == |history| && changelog.disk.snap.Some?
      requires changelog.disk.snap.value.covered == |history|
      requires changelog.durableUpto == |changelog.records| == changelog.materialized
      modifies changelog
      ensures Valid() && changelog.durable && Durable() == history
      ensures changelog.records == [] && changelog.base == |history|
    {
      hide FoldOf, GcSame, TypedState, TypedRecord;
      assert history[..|history|] == history;
      changelog.Truncate();
    }

    /** The materialized base merged with the tail that is not materialized yet. */
    method EffectiveFold() returns (eff: Fold)
      requires LogValid() && changelog.base <= watermark && BaseAt(watermark)
      ensures fresh(eff) && GcSame(eff.Value(), FoldOf(history))
    {
      hide FoldOf, TouchedKeys, TouchedNodes, OpsFrom, FoldInto, SameAt, Gc;
      ghost var was := base.Value();
      ReplayFacts(was, history, changelog.base, watermark, card);
      eff := new Fold(base.Value());
      assert eff.Value() == was;
      var _, _ := changelog.ReplayRangeInto(watermark, eff, card);
    }

    /** Read-merge: the base and the tail, observed. */
    method Snapshot() returns (s: Snapshot)
      requires Valid()
      ensures s == Observe(FoldOf(history), cache.hash)
    {
      var eff := EffectiveFold();
      var view := new SnapshotCache(NoFacts, cache.hash);
      EmptyShows(view);
      ObserveAll(view, eff);
      view.ShowsIsObserve(eff.Value());
      GcSameObserve(eff.Value(), FoldOf(history), cache.hash);
      s := view.Value();
    }

    /** The cached snapshot; after a materialize it equals the read-merge. */
    method SnapshotArc() returns (s: Snapshot)
      requires Valid()
      ensures s == Observe(FoldOf(history[..watermark]), cache.hash)
    {
      cache.ShowsIsObserve(base.Value());
      GcSameObserve(base.Value(), FoldOf(history[..watermark]), cache.hash);
      s := cache.Value();
    }

    /** A crash in the middle of a sync: only the first `frames` frames of the tail reach the log file. */
    method TornSync(frames: nat) returns (ghost synced: seq<Record>)
      requires Valid() && changelog.durable && changelog.durableUpto + frames <= |changelog.records|
      modifies changelog`disk
      ensures synced == history[..changelog.base + changelog.durableUpto + frames]
      ensures DiskHolds(changelog.disk, synced, card)
    {
      ghost var d := changelog.disk;
      var written := changelog.records[changelog.durableUpto..changelog.durableUpto + frames];
      changelog.disk := changelog.disk.(wal := Wal(changelog.disk.wal.start, changelog.disk.wal.frames + written));
      synced := history[..changelog.base + changelog.durableUpto + frames];
      assert Durable() + written == synced;
      DiskExtend(d, Durable(), written, card);
    }

    /** Retract an element: resolve its live add tags and append their observed-remove. */
    method RetractEdge(source: FieldId, key: Key, obj: ObjKey) returns (r: Appended<Option<u64>>)
      requires Valid() && |history| < U64_LIMIT && card(key) == Many
      modifies `history, changelog`records
      ensures Valid() && Durable() == old(Durable())
      ensures r == Ok(None) <==> LiveTags(FoldOf(old(history)), key, obj) == []
      ensures r.Ok? && r.value.Some? ==>
        && r.value.value as int == |old(history)|
        && history == old(history) + [Retraction(source, key, LiveTags(FoldOf(old(history)), key, obj))]
      ensures r == Ok(None) || r.Backpressure? ==> history == old(history)
      ensures r.Backpressure? <==>
        LiveTags(FoldOf(old(history)), key, obj) != [] && |old(history)| - watermark >= changelog.maxUnmaterialized
    {
      hide FoldOf, GcSame, LiveTags, OpsFrom;
      var eff := EffectiveFold();
      GcSameTags(eff.Value(), FoldOf(history), key, obj);
      var observed := LiveTags(eff.Value(), key, obj);
      if observed == [] {
        return Ok(None);
      }
      var w := Write(source, WriteKind.RemoveMany(key, observed), None);
      return if w.Ok? then Ok(Some(w.value)) else Backpressure(w.unmaterialized, w.limit);
    }
  }

  /** Load the files, then replay only the log past the seqno that the snapshot covers. */
  method Open(d: Disk, limit: nat, h: Hash, ghost synced: seq<Record>, ghost card: Key -> Cardinality) returns (e: Engine)
    requires DiskHolds(d, synced, card)
    ensures e.Valid() && fresh(e) && fresh(e.changelog) && fresh(e.base) && fresh(e.cache)
    ensures e.history == synced == e.Durable() && e.cache.hash == h && e.card == card
    ensures e.changelog.durable && e.changelog.disk == d && e.watermark == |e.history|
    ensures e.changelog.maxUnmaterialized == limit
  {
    hide FoldOf, GcSame, TypedState, TypedHistory, OpsFrom;
    e := new Engine.Load(d, limit, h, synced, card);
    OnDisk(d, synced, card);
    e.Recover(Covered(d));
  }

  /** A compaction of a drained engine changes nothing that a reader sees. */
  method CompactQuietly(e: Engine)
    requires e.Valid() && e.changelog.durable && e.watermark == |e.history|
    modifies e`watermark, e.changelog, e.base, e.cache
    ensures e.Valid() && e.changelog.durable && e.watermark == old(e.watermark) && e.Durable() == e.history
    ensures Observe(e.base.Value(), e.cache.hash) == old(Observe(e.base.Value(), e.cache.hash))
  {
    ghost var was, all, h := e.base.Value(), e.history, e.cache.hash;
    assert all[..e.watermark] == all;
    GcSameObserve(was, FoldOf(all), h);
    var _ := e.Compact();
    ghost var now := e.base.Value();
    assert GcSame(now, FoldOf(all));
    GcSameObserve(now, FoldOf(all), h);
  }

  function Retraction(source: FieldId, key: Key, observed: seq<OrderKey>): Record {
    Record(source, WriteKind.RemoveMany(key, observed), None)
  }

  lemma CollectFacts(was: State, all: State, card: Key -> Cardinality)
    requires GcSame(was, all) && TypedState(was, card)
    ensures GcSame(Gc(was), all) && TypedState(Gc(was), card)
    ensures forall k :: SameAt(was, Gc(was), k)
  {
    GcIdempotent(was);
    GcCards(was);
    forall k
      ensures SameAt(was, Gc(was), k)
    {
      GcLive(was, k);
      GcManyRows(was, k);
      GcLiveLabels(was, k);
    }
  }

  lemma SameShows(cache: SnapshotCache, was: State, now: State)
    requires cache.Shows(was) && was.nodeAttrs == now.nodeAttrs && forall k :: SameAt(was, now, k)
    ensures cache.Shows(now)
  {
    forall k
      ensures cache.ShownAt(now, k)
    {
      assert cache.ShownAt(was, k) && SameAt(was, now, k);
    }
    forall n
      ensures cache.NodeShownAt(now, n)
    {
      assert cache.NodeShownAt(was, n);
    }
  }

  /** Observe every key and node of a fold into an empty cache. */
  method ObserveAll(cache: SnapshotCache, f: Fold)
    requires cache.Shows(Empty)
    modifies cache
    ensures cache.Shows(f.Value())
  {
    forall k | k !in f.keys.Keys + f.edgeProps.Keys
      ensures SameAt(Empty, f.Value(), k)
    {
      assert ManyRows(f.Value(), k) == map[] && PropsOf(f.Value(), k) == map[] && LiveLabels(f.Value(), k) == map[];
    }
    cache.Refresh(f, Empty, f.keys.Keys + f.edgeProps.Keys, f.nodeAttrs.Keys);
  }

  lemma EmptyShows(cache: SnapshotCache)
    requires cache.Value() == NoFacts
    ensures cache.Shows(Empty)
  {
    assert Counts(map[]) == map[];
    assert Index(map[], cache.hash) == {};
    forall k
      ensures cache.ShownAt(Empty, k)
    {
      assert ManyRows(Empty, k) == map[] && PropsOf(Empty, k) == map[] && LiveLabels(Empty, k) == map[];
    }
  }
}
