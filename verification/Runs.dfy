/** Whole runs of the durable engine, crashes included, refine a plain list of writes. */
module Runs {
  import opened Types
  import opened Folds
  import opened Snapshots
  import opened Changelogs
  import opened Collection
  import opened Engines

  datatype Event =
    | Write(record: Record)
    | WriteBatch(records: seq<Record>)
    | Retract(source: FieldId, key: Key, obj: ObjKey)
    | Materialize
    | Sync
    | Compact
    /** Power loss: only what the files hold survives. */
    | Crash
    /** Power loss during a sync, after some whole frames of the tail reached the log file. */
    | CrashInSync(frames: nat)
    /** Power loss in a compaction, after the snapshot is renamed and before the log is archived. */
    | CrashInCompaction

  /** The engine as its callers see it: the writes so far, how many are synced, how many materialized. */
  datatype Log = Log(history: seq<Record>, durable: nat, materialized: nat)

  /** The writes an event may append. */
  function Most(e: Event): nat {
    match e
    case Write(_) => 1
    case WriteBatch(rs) => |rs|
    case Retract(_, _, _) => 1
    case _ => 0
  }

  function MostAll(events: seq<Event>): nat {
    if events == [] then 0 else Most(events[0]) + MostAll(events[1..])
  }

  function Truncated(l: Log, upTo: nat): Log
    requires upTo <= |l.history|
  {
    Log(l.history[..upTo], upTo, upTo)
  }

  ghost predicate WellFormed(l: Log) {
    l.durable <= |l.history| && l.materialized <= |l.history| <= U64_LIMIT
  }

  /** Append unless the backlog would pass the limit. */
  function Append(l: Log, records: seq<Record>, limit: nat): Log {
    if |l.history| - l.materialized + |records| > limit then l else l.(history := l.history + records)
  }

  /** What an event does to the list of writes. */
  function StepLog(l: Log, e: Event, limit: nat): Log
    requires WellFormed(l)
  {
    match e
    case Write(r) => Append(l, [r], limit)
    case WriteBatch(rs) => Append(l, rs, limit)
    case Retract(source, key, obj) =>
      var tags := LiveTags(FoldOf(l.history), key, obj);
      if tags == [] then l else Append(l, [Retraction(source, key, tags)], limit)
    case Materialize => l.(materialized := |l.history|)
    case Sync => l.(durable := |l.history|)
    case Compact => l.(durable := |l.history|, materialized := |l.history|)
    case Crash => Truncated(l, l.durable)
    case CrashInSync(n) => Truncated(l, if l.durable + n <= |l.history| then l.durable + n else |l.history|)
    case CrashInCompaction => Truncated(l, |l.history|)
  }

  /** Each event of a run writes to keys of the declared cardinality. */
  ghost predicate TypedEvent(e: Event, card: Key -> Cardinality) {
    match e
    case Write(r) => TypedRecord(r, card)
    case WriteBatch(rs) => forall i :: 0 <= i < |rs| ==> TypedRecord(rs[i], card)
    case Retract(_, key, _) => card(key) == Many
    case _ => true
  }

  /** The list of writes that an engine stands for. */
  ghost function Abs(e: Engine): Log
    reads e, e.changelog
  {
    Log(e.history, e.changelog.base + e.changelog.durableUpto, e.watermark)
  }

  ghost predicate Ready(e: Engine, limit: nat, card: Key -> Cardinality)
    reads e, e.changelog, e.base, e.cache
  {
    e.Valid() && e.changelog.durable && e.card == card && e.changelog.maxUnmaterialized == limit
  }

  lemma ReadyLog(e: Engine, limit: nat, card: Key -> Cardinality)
    requires Ready(e, limit, card)
    ensures WellFormed(Abs(e))
  {
  }

  /** Start the engine again on the files that a crash left. */
  method Reopen(e: Engine, limit: nat, ghost synced: seq<Record>, ghost card: Key -> Cardinality) returns (r: Engine)
    requires DiskHolds(e.changelog.disk, synced, card)
    ensures Ready(r, limit, card) && fresh(r) && fresh(r.changelog) && fresh(r.base) && fresh(r.cache)
    ensures r.cache.hash == e.cache.hash && Abs(r) == Log(synced, |synced|, |synced|)
  {
    r := Engines.Open(e.changelog.disk, limit, e.cache.hash, synced, card);
  }

  /** An event that appends. */
  method StepAppend(e: Engine, ev: Event, limit: nat, ghost card: Key -> Cardinality)
    requires Ready(e, limit, card) && TypedEvent(ev, card) && |e.history| + Most(ev) <= U64_LIMIT
    requires ev.Write? || ev.WriteBatch? || ev.Retract?
    modifies e`history, e.changelog`records
    ensures Ready(e, limit, card)
    ensures WellFormed(old(Abs(e))) && Abs(e) == StepLog(old(Abs(e)), ev, limit)
  {
    hide FoldOf, GcSame, LiveTags, OpsFrom, TypedRecord;
    ReadyLog(e, limit, card);
    if ev.Write? {
      var _ := e.Write(ev.record.source, ev.record.kind, ev.record.access);
    } else if ev.WriteBatch? {
      TypedBatch(e.history, ev.records, card);
      var _ := e.WriteBatch(ev.records);
    } else {
      var _ := e.RetractEdge(ev.source, ev.key, ev.obj);
    }
  }

  lemma TypedBatch(history: seq<Record>, rs: seq<Record>, card: Key -> Cardinality)
    requires TypedHistory(history, card) && |history| + |rs| <= U64_LIMIT
    requires forall i :: 0 <= i < |rs| ==> TypedRecord(rs[i], card)
    ensures TypedHistory(history + rs, card)
  {
  }

  /** An event that moves the durable or the materialized mark. */
  method StepMark(e: Engine, ev: Event, limit: nat, ghost card: Key -> Cardinality)
    requires Ready(e, limit, card) && (ev.Materialize? || ev.Sync? || ev.Compact?)
    modifies e`watermark, e.changelog, e.base, e.cache
    ensures Ready(e, limit, card)
    ensures WellFormed(old(Abs(e))) && Abs(e) == StepLog(old(Abs(e)), ev, limit)
  {
    ReadyLog(e, limit, card);
    if ev.Materialize? {
      var _, _ := e.Materialize();
    } else if ev.Sync? {
      e.Sync();
    } else {
      var _ := e.Compact();
    }
  }

  /** What a crash leaves on disk. */
  method LoseMemory(e: Engine, ev: Event, limit: nat, ghost card: Key -> Cardinality) returns (ghost synced: seq<Record>)
    requires Ready(e, limit, card) && (ev.Crash? || ev.CrashInSync? || ev.CrashInCompaction?)
    modifies e`watermark, e.changelog, e.base, e.cache
    ensures DiskHolds(e.changelog.disk, synced, card)
    ensures WellFormed(old(Abs(e))) && Log(synced, |synced|, |synced|) == StepLog(old(Abs(e)), ev, limit)
  {
    hide FoldOf, GcSame, OpsFrom, TypedHistory, TypedRecord;
    ReadyLog(e, limit, card);
    if ev.Crash? {
      synced := e.Durable();
    } else if ev.CrashInSync? {
      var rest := |e.changelog.records| - e.changelog.durableUpto;
      synced := e.TornSync(if ev.frames <= rest then ev.frames else rest);
    } else {
      e.PrepareCompaction();
      e.CommitSnapshot();
      synced := e.history;
      assert e.history[..|e.history|] == e.history;
    }
  }

  /** A crash, and the engine that opens on what it left. */
  method StepCrash(e: Engine, ev: Event, limit: nat, ghost card: Key -> Cardinality) returns (r: Engine)
    requires Ready(e, limit, card) && (ev.Crash? || ev.CrashInSync? || ev.CrashInCompaction?)
    modifies e`watermark, e.changelog, e.base, e.cache
    ensures Ready(r, limit, card) && fresh(r) && fresh(r.changelog) && fresh(r.base) && fresh(r.cache)
    ensures r.cache.hash == e.cache.hash
    ensures WellFormed(old(Abs(e))) && Abs(r) == StepLog(old(Abs(e)), ev, limit)
  {
    ghost var synced := LoseMemory(e, ev, limit, card);
    r := Reopen(e, limit, synced, card);
  }

  /** One event on the engine does what it does to the list of writes. */
  method Step(e: Engine, ev: Event, limit: nat, ghost card: Key -> Cardinality) returns (r: Engine)
    requires Ready(e, limit, card) && TypedEvent(ev, card) && |e.history| + Most(ev) <= U64_LIMIT
    modifies e, e.changelog, e.base, e.cache
    ensures Ready(r, limit, card) && r.cache.hash == e.cache.hash
    ensures r == e || (fresh(r) && fresh(r.changelog) && fresh(r.base) && fresh(r.cache))
    ensures WellFormed(old(Abs(e))) && Abs(r) == StepLog(old(Abs(e)), ev, limit)
  {
    r := e;
    if ev.Write? || ev.WriteBatch? || ev.Retract? {
      StepAppend(e, ev, limit, card);
    } else if ev.Materialize? || ev.Sync? || ev.Compact? {
      StepMark(e, ev, limit, card);
    } else {
      r := StepCrash(e, ev, limit, card);
    }
  }

  lemma {:induction false} StepWellFormed(l: Log, e: Event, limit: nat)
    requires WellFormed(l) && |l.history| + Most(e) <= U64_LIMIT
    ensures WellFormed(StepLog(l, e, limit)) && |StepLog(l, e, limit).history| <= |l.history| + Most(e)
  {
  }

  ghost function RunLog(l: Log, events: seq<Event>, limit: nat): Log
    requires WellFormed(l) && |l.history| + MostAll(events) <= U64_LIMIT
    decreases |events|
  {
    if events == [] then l
    else
      StepWellFormed(l, events[0], limit);
      RunLog(StepLog(l, events[0], limit), events[1..], limit)
  }

  /** A whole run of the engine, from empty files: it stands for the run of the list of writes. */
  method RunEngine(events: seq<Event>, limit: nat, h: Hash, ghost card: Key -> Cardinality)
      returns (e: Engine, s: Snapshot)
    requires MostAll(events) <= U64_LIMIT && forall i :: 0 <= i < |events| ==> TypedEvent(events[i], card)
    ensures Ready(e, limit, card) && Abs(e) == RunLog(Log([], 0, 0), events, limit)
    ensures s == Observe(FoldOf(RunLog(Log([], 0, 0), events, limit).history), h)
  {
    hide FoldOf, GcSame, OpsFrom, StepLog, TypedHistory, DiskHolds, TypedEvent;
    EmptyDiskHolds(card);
    e := Engines.Open(EmptyDisk, limit, h, [], card);
    var i := 0;
    while i < |events|
      invariant i <= |events| && Ready(e, limit, card) && e.cache.hash == h
      invariant fresh(e) && fresh(e.changelog) && fresh(e.base) && fresh(e.cache)
      invariant WellFormed(Abs(e)) && |Abs(e).history| + MostAll(events[i..]) <= U64_LIMIT
      invariant RunLog(Abs(e), events[i..], limit) == RunLog(Log([], 0, 0), events, limit)
    {
      assert events[i..][0] == events[i] && events[i..][1..] == events[i + 1..];
      ghost var l := Abs(e);
      StepWellFormed(l, events[i], limit);
      e := Step(e, events[i], limit, card);
      i := i + 1;
    }
    s := e.Snapshot();
  }

  lemma EmptyDiskHolds(card: Key -> Cardinality)
    ensures DiskHolds(EmptyDisk, [], card)
  {
  }

  /** No event, and so no run, loses or changes a synced write; and seqnos never skip. */
  lemma {:induction false} SyncedSurvives(l: Log, events: seq<Event>, limit: nat)
    requires WellFormed(l) && |l.history| + MostAll(events) <= U64_LIMIT
    ensures l.history[..l.durable] <= RunLog(l, events, limit).history
    ensures l.durable <= RunLog(l, events, limit).durable
    decreases |events|
  {
    if events != [] {
      var m := StepLog(l, events[0], limit);
      StepWellFormed(l, events[0], limit);
      SyncedSurvives(m, events[1..], limit);
      assert l.history[..l.durable] <= m.history[..m.durable];
    }
  }
}
