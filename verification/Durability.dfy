/** From files of bytes to an engine: what is read back from the files holds the synced history. */
module Durability {
  import opened Types
  import opened Folds
  import opened FoldLaws
  import opened Snapshots
  import opened Collection
  import opened Changelogs
  import opened Engines
  import opened Encoding
  import opened Wal
  import opened Recovery
  import opened FoldCodec
  import opened SnapshotFiles

  /** The bytes of the log and, once there has been a compaction, of the snapshot beside it. */
  datatype Files = Files(wal: Bytes, snap: Option<Bytes>)

  /** A file names its first seqno unless that is zero and it was never compacted. */
  predicate Names(first: Option<u64>, start: nat) {
    if first.Some? then first.value as int == start else start == 0
  }

  function SnapBytesOf(s: Option<SnapFile>, ord: Order, sum: Sum): Option<Bytes>
    requires s.Some? ==> s.value.covered < U64_LIMIT
  {
    if s.None? then None else Some(SnapBytes(s.value.fold, s.value.covered as u64, ord, sum))
  }

  /** Read both files; a snapshot that is present but malformed is an error. */
  function ReadFiles(f: Files, sum: Sum, utf8: Utf8): Option<Disk> {
    var (first, rs) := Recovered(f.wal, sum, utf8);
    if f.snap.None? then Some(Disk(None, Changelogs.Wal(first as nat, rs)))
    else
      var s :- GetSnap(f.snap.value, sum, utf8);
      Some(Disk(Some(SnapFile(s.0 as nat, s.1)), Changelogs.Wal(first as nat, rs)))
  }

  /** The snapshot fold can be written: it has a reachable fold's shape and fits the format. */
  ghost predicate Writeable(s: Option<SnapFile>, ord: Order, utf8: Utf8) {
    s.Some? ==>
      && s.value.covered < U64_LIMIT && Shapely(s.value.fold) && Fits(s.value.fold, utf8)
      && |FoldBytes(s.value.fold, ord)| < U64_LIMIT
  }

  // --- a record as the log keeps it ------------------------------------------------------------

  /** Dropping the label of a record that writes no row changes nothing that the record does. */
  lemma NormalApplies(f: State, n: u64, r: Record)
    ensures ApplyLabeled(f, RecordToOp(n, Normal(r))) == ApplyLabeled(f, RecordToOp(n, r))
    ensures RecordToOp(n, Normal(r)).op == RecordToOp(n, r).op
  {
    hide Apply;
  }

  lemma {:induction false} NormalFold(rs: seq<Record>)
    requires |rs| <= U64_LIMIT
    ensures FoldOf(Normals(rs)) == FoldOf(rs)
    decreases |rs|
  {
    hide ApplyLabeled, Normal, RecordToOp;
    if rs != [] {
      var n := |rs| - 1;
      NormalFold(rs[..n]);
      OpsTail(rs, n);
      OpsTail(Normals(rs), n);
      assert Normals(rs)[..n] == Normals(rs[..n]);
      NormalApplies(FoldOf(rs[..n]), n as u64, rs[n]);
    } else {
      assert Ops(Normals(rs)) == Ops(rs);
    }
  }

  lemma NormalTyped(rs: seq<Record>, card: Key -> Cardinality)
    requires TypedHistory(rs, card)
    ensures TypedHistory(Normals(rs), card)
  {
    forall i | 0 <= i < |rs|
      ensures TypedRecord(Normals(rs)[i], card)
    {
      assert TypedRecord(rs[i], card);
      NormalApplies(Empty, 0, rs[i]);
    }
  }

  /** Files that hold a history hold it in its normal form too. */
  lemma NormalHolds(d: Disk, history: seq<Record>, card: Key -> Cardinality)
    requires DiskHolds(d, history, card)
    ensures DiskHolds(Disk(d.snap, Changelogs.Wal(d.wal.start, Normals(d.wal.frames))), Normals(history), card)
  {
    hide FoldOf, GcSame, TypedRecord, TypedState;
    NormalTyped(history, card);
    assert Normals(history)[d.wal.start..] == Normals(history[d.wal.start..]);
    if d.snap.Some? {
      var c := d.snap.value.covered;
      assert Normals(history)[..c] == Normals(history[..c]);
      NormalFold(history[..c]);
    }
  }

  // --- whole and torn files --------------------------------------------------------------------

  lemma SnapReadsBack(s: Option<SnapFile>, ord: Order, sum: Sum, utf8: Utf8)
    requires IsOrder(ord) && Writeable(s, ord, utf8)
    ensures s.Some? ==>
      GetSnap(SnapBytesOf(s, ord, sum).value, sum, utf8) == Some((s.value.covered as u64, s.value.fold))
  {
    hide IsOrder, Shapely, Fits, FoldBytes, GetSnap, SnapBytes;
    if s.Some? {
      SnapshotRoundTrip(s.value.fold, s.value.covered as u64, ord, sum, utf8);
    }
  }

  /** Cutting the log file anywhere at or past what the snapshot covers leaves files that hold exactly the
      history up to the last whole frame. */
  lemma TornFilesHold(d: Disk, history: seq<Record>, card: Key -> Cardinality, first: Option<u64>,
                      ord: Order, sum: Sum, utf8: Utf8, k: nat, n: nat)
    requires DiskHolds(d, history, card) && Names(first, d.wal.start) && IsOrder(ord) && Writeable(d.snap, ord, utf8)
    requires forall r :: r in d.wal.frames ==> Loggable(r, utf8)
    requires |StartBytes(first, sum)| <= n <= |File(first, d.wal.frames, sum)|
    requires WholeFrames(d.wal.frames, sum, k, n - |StartBytes(first, sum)|)
    requires d.snap.Some? ==> d.snap.value.covered <= d.wal.start + k
    ensures var f := Files(File(first, d.wal.frames, sum)[..n], SnapBytesOf(d.snap, ord, sum));
      var kept := history[..d.wal.start + k];
      && ReadFiles(f, sum, utf8).Some?
      && DiskHolds(ReadFiles(f, sum, utf8).value, Normals(kept), card)
      && FoldOf(Normals(kept)) == FoldOf(kept)
  {
    hide IsOrder, GetSnap, SnapBytes, Recovered, Loggable, FoldOf, GcSame, TypedState, TypedRecord;
    RecoverPrefix(first, d.wal.frames, sum, utf8, k, n);
    SnapReadsBack(d.snap, ord, sum, utf8);
    var kept := history[..d.wal.start + k];
    var cut := Disk(d.snap, Changelogs.Wal(d.wal.start, d.wal.frames[..k]));
    CutHolds(d, history, card, k);
    NormalHolds(cut, kept, card);
    NormalFold(kept);
  }

  lemma CutHolds(d: Disk, history: seq<Record>, card: Key -> Cardinality, k: nat)
    requires DiskHolds(d, history, card) && k <= |d.wal.frames|
    requires d.snap.Some? ==> d.snap.value.covered <= d.wal.start + k
    ensures DiskHolds(Disk(d.snap, Changelogs.Wal(d.wal.start, d.wal.frames[..k])), history[..d.wal.start + k], card)
  {
    hide FoldOf, GcSame, TypedState, TypedRecord;
    var kept := history[..d.wal.start + k];
    assert kept[d.wal.start..] == history[d.wal.start..][..k];
    if d.snap.Some? {
      assert kept[..d.snap.value.covered] == history[..d.snap.value.covered];
    }
  }

  /** An engine opened on the bytes that a crash left shows the fold of every write whose frame is whole. */
  method OpenFiles(d: Disk, ghost history: seq<Record>, ghost card: Key -> Cardinality, first: Option<u64>,
                   ord: Order, sum: Sum, utf8: Utf8, ghost k: nat, n: nat, limit: nat, h: Hash)
      returns (e: Engine, s: Snapshot)
    requires DiskHolds(d, history, card) && Names(first, d.wal.start) && IsOrder(ord) && Writeable(d.snap, ord, utf8)
    requires forall r :: r in d.wal.frames ==> Loggable(r, utf8)
    requires |StartBytes(first, sum)| <= n <= |File(first, d.wal.frames, sum)|
    requires WholeFrames(d.wal.frames, sum, k, n - |StartBytes(first, sum)|)
    requires d.snap.Some? ==> d.snap.value.covered <= d.wal.start + k
    ensures e.Valid() && e.history == Normals(history[..d.wal.start + k])
    ensures s == Observe(FoldOf(history[..d.wal.start + k]), h)
  {
    hide IsOrder, GetSnap, SnapBytes, Recovered, Loggable, FoldOf, GcSame, TypedState, TypedRecord, Engine.Valid, Observe;
    TornFilesHold(d, history, card, first, ord, sum, utf8, k, n);
    var files := Files(File(first, d.wal.frames, sum)[..n], SnapBytesOf(d.snap, ord, sum));
    var disk := ReadFiles(files, sum, utf8);
    e := Engines.Open(disk.value, limit, h, Normals(history[..d.wal.start + k]), card);
    s := e.Snapshot();
  }
}
