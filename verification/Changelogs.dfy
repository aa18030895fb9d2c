/** The append-only, version-authoritative write log and its files. */
module Changelogs {
  import opened Types
  import opened Folds
  import opened FoldLaws

  /** A write before the changelog assigns its order key. */
  datatype WriteKind =
    | SetOne(key: Key, obj: ObjKey, validFrom: i64, validTo: Option<i64>)
    | CloseOne(key: Key, validFrom: i64)
    | AddMany(key: Key, obj: ObjKey, validFrom: i64, validTo: Option<i64>)
    | CloseMany(key: Key, obj: ObjKey, validFrom: i64)
    | RemoveMany(key: Key, observed: seq<OrderKey>)
    | HardDelete(key: Key, cardinality: Cardinality)
    | SetEdgeProp(key: Key, obj: ObjKey, prop: Text, value: ObjKey)
    | SetNodeType(node: NodeId, typeId: FieldId)
    | SetNodeLabel(node: NodeId, access: Label)

  datatype Record = Record(source: FieldId, kind: WriteKind, access: Option<Label>)

  /** The op of a record: its seqno is both the transaction time and the write sequence. */
  function RecordToOp(seqno: u64, r: Record): LabeledOp {
    var ok := OrderKey(seqno, r.source, seqno);
    var op := match r.kind
      case SetOne(k, o, vf, vt) => Op.SetOne(k, o, vf, vt, ok)
      case CloseOne(k, vf) => Op.CloseOne(k, vf, ok)
      case AddMany(k, o, vf, vt) => Op.AddMany(k, o, vf, vt, ok)
      case CloseMany(k, o, vf) => Op.CloseMany(k, o, vf, ok)
      case RemoveMany(k, observed) => Op.RemoveMany(k, observed)
      case HardDelete(k, c) => Op.HardDelete(k, ok, c)
      case SetEdgeProp(k, o, p, v) => Op.SetEdgeProp(k, o, p, v, ok)
      case SetNodeType(n, t) => Op.SetNodeType(n, t, ok)
      case SetNodeLabel(n, l) => Op.SetNodeLabel(n, l, ok);
    LabeledOp(op, r.access)
  }

  /** The ops of records whose first seqno is `from`. */
  function OpsFrom(from: nat, records: seq<Record>): (ops: seq<LabeledOp>)
    requires from + |records| <= U64_LIMIT
    ensures |ops| == |records|
    ensures forall i :: 0 <= i < |records| ==> ops[i] == RecordToOp((from + i) as u64, records[i])
  {
    seq(|records|, i requires 0 <= i < |records| => RecordToOp((from + i) as u64, records[i]))
  }

  /** The `(subject, predicate)` keys a log of ops touches. */
  function TouchedKeys(ops: seq<LabeledOp>): set<Key> {
    set i: nat | i < |ops| && !ops[i].op.NodeAttr() :: ops[i].op.key
  }

  /** The nodes whose attributes a log of ops touches. */
  function TouchedNodes(ops: seq<LabeledOp>): set<NodeId> {
    set i: nat | i < |ops| && ops[i].op.NodeAttr() :: ops[i].op.node
  }

  lemma TouchedSnoc(ops: seq<LabeledOp>, lop: LabeledOp)
    ensures TouchedKeys(ops + [lop]) == TouchedKeys(ops) + if lop.op.NodeAttr() then {} else {lop.op.key}
    ensures TouchedNodes(ops + [lop]) == TouchedNodes(ops) + if lop.op.NodeAttr() then {lop.op.node} else {}
  {
    var more := ops + [lop];
    assert more[|ops|] == lop;
    assert forall i: nat :: i < |ops| ==> more[i] == ops[i];
  }

  lemma FoldSnoc(f: State, ops: seq<LabeledOp>, lop: LabeledOp)
    ensures FoldInto(f, ops + [lop]) == ApplyLabeled(FoldInto(f, ops), lop)
  {
    assert (ops + [lop])[..|ops|] == ops;
  }

  /** The log file: the seqno of its first record (0 without a start frame) and its whole frames. */
  datatype Wal = Wal(start: nat, frames: seq<Record>)

  /** A compaction snapshot file: a fold state and the seqno it covers. */
  datatype SnapFile = SnapFile(covered: nat, fold: State)

  /** What survives a crash. */
  datatype Disk = Disk(snap: Option<SnapFile>, wal: Wal)

  const EmptyDisk: Disk := Disk(None, Wal(0, []))

  datatype Appended<T> = Ok(value: T) | Backpressure(unmaterialized: nat, limit: nat)

  class Changelog {
    var records: seq<Record>
    var base: nat
    var materialized: nat
    const maxUnmaterialized: nat
    var durableUpto: nat
    var durable: bool
    var disk: Disk

    ghost predicate Valid()
      reads this
    {
      && materialized <= |records|
      && base + |records| <= U64_LIMIT
      && durableUpto <= |records|
      && (durable ==> disk.wal.start == base && disk.wal.frames == records[..durableUpto])
    }

    /** Next seqno that will be assigned. */
    function Head(): nat
      reads this
    {
      base + |records|
    }

    function Unmaterialized(): int
      reads this
    {
      |records| - materialized
    }

    constructor InMemory(limit: nat)
      ensures Valid() && !durable && records == [] && base == 0 && materialized == 0 && maxUnmaterialized == limit
    {
      records, base, materialized, maxUnmaterialized := [], 0, 0, limit;
      durableUpto, durable, disk := 0, false, EmptyDisk;
    }

    /** Recover the whole frames on disk; they count as materialized and durable. */
    constructor Open(d: Disk, limit: nat)
      requires d.wal.start + |d.wal.frames| <= U64_LIMIT
      ensures Valid() && durable && disk == d && maxUnmaterialized == limit
      ensures records == d.wal.frames && base == d.wal.start && materialized == durableUpto == |records|
    {
      records, base, materialized, maxUnmaterialized := d.wal.frames, d.wal.start, |d.wal.frames|, limit;
      durableUpto, durable, disk := |d.wal.frames|, true, d;
    }

    /** Append a write; its seqno, or backpressure when the backlog is full. */
    method Append(source: FieldId, kind: WriteKind, access: Option<Label>) returns (r: Appended<u64>)
      requires Valid() && Head() < U64_LIMIT
      modifies `records
      ensures Valid()
      ensures r.Backpressure? <==> old(Unmaterialized()) >= maxUnmaterialized
      ensures r.Backpressure? ==>
        records == old(records) && r.unmaterialized == old(Unmaterialized()) && r.limit == maxUnmaterialized
      ensures r.Ok? ==> r.value as int == old(Head()) && records == old(records) + [Record(source, kind, access)]
    {
      var unmaterialized := |records| - materialized;
      if unmaterialized >= maxUnmaterialized {
        return Backpressure(unmaterialized, maxUnmaterialized);
      }
      var seqno := (base + |records|) as u64;
      records := records + [Record(source, kind, access)];
      return Ok(seqno);
    }

    /** Append a chunk of writes, all or nothing. */
    method AppendBatch(writes: seq<Record>) returns (r: Appended<seq<u64>>)
      requires Valid() && Head() + |writes| <= U64_LIMIT
      modifies `records
      ensures Valid()
      ensures r.Backpressure? <==> old(Unmaterialized()) + |writes| > maxUnmaterialized
      ensures r.Backpressure? ==>
        && records == old(records)
        && r.unmaterialized == old(Unmaterialized()) + |writes| && r.limit == maxUnmaterialized
      ensures r.Ok? ==> records == old(records) + writes && |r.value| == |writes|
      ensures r.Ok? ==> forall i :: 0 <= i < |writes| ==> r.value[i] as int == old(Head()) + i
    {
      var unmaterialized := |records| - materialized;
      if unmaterialized + |writes| > maxUnmaterialized {
        return Backpressure(unmaterialized + |writes|, maxUnmaterialized);
      }
      var seqnos: seq<u64> := [];
      for i := 0 to |writes|
        invariant records == old(records) + writes[..i] && |seqnos| == i
        invariant forall j :: 0 <= j < i ==> seqnos[j] as int == old(Head()) + j
      {
        seqnos := seqnos + [(base + |records|) as u64];
        records := records + [writes[i]];
      }
      return Ok(seqnos);
    }

    /** Make every appended record durable: frame the tail past the durable mark, then write it. */
    method Sync()
      requires Valid()
      modifies `durableUpto, `disk
      ensures Valid()
      ensures durable ==> durableUpto == |records| && disk == old(disk).(wal := Wal(base, records))
      ensures !durable ==> durableUpto == old(durableUpto) && disk == old(disk)
    {
      if !durable || durableUpto >= |records| {
        assert durable ==> records[..durableUpto] == records;
        return;
      }
      var buf: seq<Record> := [];
      for i := durableUpto to |records|
        invariant buf == records[durableUpto..i]
      {
        buf := buf + [records[i]];
      }
      assert records[..durableUpto] + buf == records;
      disk := disk.(wal := Wal(disk.wal.start, disk.wal.frames + buf));
      durableUpto := |records|;
    }

    /** Seqno up to which records are durable. */
    function DurableHead(): nat
      reads this
    {
      if durable then base + durableUpto else 0
    }

    /** Advance the materialized mark, never past the log and never back. */
    method MarkMaterialized(upTo: nat)
      requires Valid()
      modifies `materialized
      ensures Valid() && old(materialized) <= materialized
      ensures materialized == old(materialized) || base + materialized <= upTo
      ensures (if upTo < Head() then upTo else Head()) <= base + materialized
    {
      var rel := if upTo < base then 0 else upTo - base;
      var capped := if rel < |records| then rel else |records|;
      materialized := if capped < materialized then materialized else capped;
    }

    /** Fold the records from seqno `from` on into `fold`; return the keys and nodes they touch. */
    method ReplayRangeInto(from: nat, fold: Fold, ghost card: Key -> Cardinality)
        returns (keys: set<Key>, nodes: set<NodeId>)
      requires Valid() && base <= from <= Head()
      requires TypedState(fold.Value(), card) && Typed(OpsFrom(base, records), card)
      modifies fold
      ensures var tail := OpsFrom(base, records)[from - base..];
        fold.Value() == FoldInto(old(fold.Value()), tail) && keys == TouchedKeys(tail) && nodes == TouchedNodes(tail)
    {
      hide ApplyLabeled, RecordToOp;
      keys, nodes := {}, {};
      ghost var ops := OpsFrom(base, records);
      var start := from - base;
      for i := start to |records|
        invariant fold.Value() == FoldInto(old(fold.Value()), ops[start..i])
        invariant TypedState(fold.Value(), card)
        invariant keys == TouchedKeys(ops[start..i]) && nodes == TouchedNodes(ops[start..i])
      {
        var lop := RecordToOp((base + i) as u64, records[i]);
        assert lop == ops[i];
        assert ops[start..i + 1] == ops[start..i] + [lop];
        if lop.op.NodeAttr() {
          nodes := nodes + {lop.op.node};
        } else {
          keys := keys + {lop.op.key};
        }
        TouchedSnoc(ops[start..i], lop);
        FoldSnoc(old(fold.Value()), ops[start..i], lop);
        assert TypedOp(lop.op, card);
        ApplyTyped(fold.Value(), lop, card);
        fold.ApplyLabeledOp(lop);
      }
      assert ops[start..|records|] == ops[start..];
    }

    /** Commit the snapshot file: from here on the log prefix below its seqno is redundant. */
    method CommitSnapshot(fold: State)
      requires Valid() && durable && durableUpto == |records| && materialized == |records|
      modifies `disk
      ensures Valid() && disk == old(disk).(snap := Some(SnapFile(Head(), fold)))
    {
      disk := disk.(snap := Some(SnapFile(base + |records|, fold)));
    }

    /** Archive the covered log and start a fresh one at the snapshot's seqno. */
    method Truncate()
      requires Valid() && durable && durableUpto == |records| && materialized == |records|
      modifies this
      ensures Valid() && durable && records == [] && base == old(Head()) && materialized == durableUpto == 0
      ensures disk == old(disk).(wal := Wal(base, []))
    {
      base := base + |records|;
      disk := disk.(wal := Wal(base, []));
      records, materialized, durableUpto := [], 0, 0;
    }
  }
}
