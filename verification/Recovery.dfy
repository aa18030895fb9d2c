/** Frames, and the recovery of a log file that a crash may have cut anywhere. */
module Recovery {
  import opened Types
  import opened Encoding
  import opened Changelogs
  import opened Wal

  // --- frames ----------------------------------------------------------------------------------

  function Frame(p: Bytes, sum: Sum): Bytes { BytesU32((|p| % U32_LIMIT) as u32) + (BytesU32(sum(p)) + p) }

  /** Read one frame; a short, oversized or corrupt one reads as nothing. */
  function GetFrame(b: Bytes, sum: Sum): Option<(Bytes, Bytes)> {
    var (len, b1) :- GetU32(b);
    var (crc, b2) :- GetU32(b1);
    if len == 0 || len as nat > MAX_RECORD_LEN then None
    else
      var (p, b3) :- Take(b2, len as nat);
      if sum(p) == crc then Some((p, b3)) else None
  }

  lemma FrameLength(p: Bytes, sum: Sum)
    ensures |Frame(p, sum)| == 8 + |p|
  {
  }

  lemma FrameBack(p: Bytes, rest: Bytes, sum: Sum)
    requires 0 < |p| <= MAX_RECORD_LEN
    ensures GetFrame(Frame(p, sum) + rest, sum) == Some((p, rest))
  {
    hide BytesU32, GetU32;
    var b2 := p + rest;
    var b1 := BytesU32(sum(p)) + b2;
    assert Frame(p, sum) + rest == BytesU32(|p| as u32) + b1;
    U32Back(|p| as u32, b1);
    U32Back(sum(p), b2);
    TakeBack(p, rest);
  }

  lemma {:induction false} LEOfUnLE(b: Bytes)
    ensures LE(UnLE(b), |b|) == b
    decreases |b|
  {
    if b != [] {
      LEOfUnLE(b[1..]);
      var n := UnLE(b[1..]);
      assert (b[0] as nat + 256 * n) % 256 == b[0] as nat && (b[0] as nat + 256 * n) / 256 == n;
    }
  }

  /** What reads as a number is its bytes. */
  lemma U32Only(b: Bytes)
    ensures GetU32(b).Some? ==> b == BytesU32(GetU32(b).value.0) + GetU32(b).value.1
  {
    if |b| >= 4 {
      LEOfUnLE(b[..4]);
      assert b == b[..4] + b[4..];
    }
  }

  /** A frame reads only from the bytes of that frame: its length, the checksum of its payload, the payload. In particular
      a frame whose stored sum is not that of its payload reads as nothing. */
  lemma FrameOnly(b: Bytes, p: Bytes, rest: Bytes, sum: Sum)
    ensures GetFrame(b, sum) == Some((p, rest)) <==> 0 < |p| <= MAX_RECORD_LEN && b == Frame(p, sum) + rest
  {
    if 0 < |p| <= MAX_RECORD_LEN && b == Frame(p, sum) + rest {
      FrameBack(p, rest, sum);
    }
    if GetFrame(b, sum) == Some((p, rest)) {
      U32Only(b);
      U32Only(GetU32(b).value.1);
      hide BytesU32, GetU32;
      var (len, b1) := GetU32(b).value;
      var (crc, b2) := GetU32(b1).value;
      assert b2 == p + rest && |p| == len as nat && crc == sum(p);
      assert b == Frame(p, sum) + rest;
    }
  }

  lemma CorruptFrame(p: Bytes, rest: Bytes, stored: u32, sum: Sum)
    requires 0 < |p| <= MAX_RECORD_LEN && stored != sum(p)
    ensures GetFrame(BytesU32(|p| as u32) + (BytesU32(stored) + (p + rest)), sum) == None
  {
    hide BytesU32, GetU32;
    var b2 := p + rest;
    U32Back(|p| as u32, BytesU32(stored) + b2);
    U32Back(stored, b2);
    TakeBack(p, rest);
  }

  /** A frame cut short reads as nothing. */
  lemma TornFrame(p: Bytes, sum: Sum, n: nat)
    requires 0 < |p| <= MAX_RECORD_LEN && n < 8 + |p|
    ensures GetFrame(Frame(p, sum)[..n], sum) == None
  {
    FrameLength(p, sum);
    var b := Frame(p, sum)[..n];
    if n >= 8 {
      U32Back(|p| as u32, b[4..]);
      assert b == BytesU32(|p| as u32) + b[4..];
      hide BytesU32, GetU32;
      assert GetU32(b[4..]).Some? ==> |GetU32(b[4..]).value.1| == n - 8 by {
        U32Short(b[4..]);
      }
    } else {
      U32Short(b);
      if n >= 4 {
        U32Short(b[4..]);
      }
    }
  }

  lemma U32Short(b: Bytes)
    ensures |b| < 4 ==> GetU32(b) == None
    ensures |b| >= 4 ==> GetU32(b).Some? && GetU32(b).value.1 == b[4..]
  {
  }

  // --- the start frame -------------------------------------------------------------------------

  function StartPayload(first: u64): Bytes { BytesU32(0) + ([START_TAG] + BytesU64(first)) }

  function ParseStart(p: Bytes): Option<u64> {
    var (zero, b1) :- GetU32(p);
    var (tag, b2) :- GetU8(b1);
    if zero != 0 || tag != START_TAG then None
    else
      var (first, b3) :- GetU64(b2);
      if b3 == [] then Some(first) else None
  }

  /** A start frame reads back, and is never taken for a record. */
  lemma StartRoundTrip(first: u64, utf8: Utf8)
    ensures ParseStart(StartPayload(first)) == Some(first)
    ensures ParseRecord(StartPayload(first), utf8) == None
  {
    hide BytesU32, GetU32, BytesU64, GetU64;
    U32Back(0, [START_TAG] + BytesU64(first));
    U8Back(START_TAG, BytesU64(first));
    U64Back(first, []);
    assert BytesU64(first) + [] == BytesU64(first);
  }

  /** A record is never taken for a start frame. */
  lemma RecordIsNoStart(r: Record)
    ensures ParseStart(Payload(r)) == None
  {
    var body := BodyBytes(r.kind, r.access);
    assert Tag(r.kind) <= 8;
    hide BytesU32, GetU32, BodyBytes;
    U32Back(r.source, [Tag(r.kind)] + body);
    U8Back(Tag(r.kind), body);
  }

  // --- files -----------------------------------------------------------------------------------

  /** The file's seqno frame, when a compaction wrote one. */
  function StartBytes(first: Option<u64>, sum: Sum): Bytes {
    if first.None? then [] else Frame(StartPayload(first.value), sum)
  }

  function FramesOf(rs: seq<Record>, sum: Sum): Bytes {
    if rs == [] then [] else Frame(Payload(rs[0]), sum) + FramesOf(rs[1..], sum)
  }

  function File(first: Option<u64>, rs: seq<Record>, sum: Sum): Bytes { StartBytes(first, sum) + FramesOf(rs, sum) }

  /** The records of a run of frames, up to the first that is torn, corrupt or undecodable. */
  function RecordsIn(b: Bytes, sum: Sum, utf8: Utf8): seq<Record>
    decreases |b|
  {
    var f := GetFrame(b, sum);
    if f.None? then []
    else
      FrameConsumes(b, sum);
      var r := ParseRecord(f.value.0, utf8);
      if r.None? then [] else [r.value] + RecordsIn(f.value.1, sum, utf8)
  }

  lemma FrameConsumes(b: Bytes, sum: Sum)
    ensures GetFrame(b, sum).Some? ==> |GetFrame(b, sum).value.1| < |b|
  {
    U32Short(b);
    if |b| >= 4 {
      U32Short(b[4..]);
    }
  }

  /** The seqno of a file's first record and its records: only the first frame may name the seqno. */
  function Recovered(b: Bytes, sum: Sum, utf8: Utf8): (u64, seq<Record>) {
    var f := GetFrame(b, sum);
    if f.None? then (0, [])
    else
      var first := ParseStart(f.value.0);
      if first.Some? then (first.value, RecordsIn(f.value.1, sum, utf8)) else (0, RecordsIn(b, sum, utf8))
  }

  // --- any prefix of a file --------------------------------------------------------------------

  /** A record the log can hold. */
  predicate Loggable(r: Record, utf8: Utf8) { |Payload(r)| <= MAX_RECORD_LEN && Utf8Record(r, utf8) }

  function Normals(rs: seq<Record>): (out: seq<Record>)
    ensures |out| == |rs|
  {
    seq(|rs|, i requires 0 <= i < |rs| => Normal(rs[i]))
  }

  /** `n` bytes of the frames hold the first `k` of them whole, and not the next. */
  ghost predicate WholeFrames(rs: seq<Record>, sum: Sum, k: nat, n: nat) {
    && k <= |rs|
    && |FramesOf(rs[..k], sum)| <= n <= |FramesOf(rs, sum)|
    && (k < |rs| ==> n < |FramesOf(rs[..k + 1], sum)|)
  }

  lemma FramesFirst(rs: seq<Record>, sum: Sum, k: nat)
    requires 0 < k <= |rs|
    ensures FramesOf(rs[..k], sum) == Frame(Payload(rs[0]), sum) + FramesOf(rs[1..][..k - 1], sum)
  {
    assert rs[..k][1..] == rs[1..][..k - 1];
  }

  lemma PayloadNotEmpty(r: Record)
    ensures |Payload(r)| >= 5
  {
  }

  /** Cutting a run of frames anywhere leaves exactly its whole frames. */
  lemma {:induction false} PrefixRecords(rs: seq<Record>, sum: Sum, utf8: Utf8, k: nat, n: nat)
    requires forall r :: r in rs ==> Loggable(r, utf8)
    requires WholeFrames(rs, sum, k, n)
    ensures RecordsIn(FramesOf(rs, sum)[..n], sum, utf8) == Normals(rs[..k])
    decreases |rs|
  {
    hide Frame, GetFrame, Payload, ParseRecord;
    if rs == [] {
      EmptyFrames(sum, utf8);
    } else {
      var r, p, rest := rs[0], Payload(rs[0]), FramesOf(rs[1..], sum);
      assert r in rs;
      FrameLength(p, sum);
      PayloadNotEmpty(r);
      if k == 0 {
        FramesFirst(rs, sum, 1);
        TornFrame(p, sum, n);
        assert FramesOf(rs, sum)[..n] == Frame(p, sum)[..n];
      } else {
        FramesFirst(rs, sum, k);
        if k < |rs| {
          FramesFirst(rs, sum, k + 1);
        }
        var m := n - |Frame(p, sum)|;
        FrameBack(p, rest[..m], sum);
        assert FramesOf(rs, sum)[..n] == Frame(p, sum) + rest[..m];
        RecordRoundTrip(r, utf8);
        PrefixRecords(rs[1..], sum, utf8, k - 1, m);
        assert Normals(rs[..k]) == [Normal(r)] + Normals(rs[1..][..k - 1]);
      }
    }
  }

  lemma EmptyFrames(sum: Sum, utf8: Utf8)
    ensures RecordsIn([], sum, utf8) == [] && Recovered([], sum, utf8) == (0, [])
  {
    U32Short([]);
  }

  /** Wherever the frames are cut, some number of them is whole. */
  lemma {:induction false} CountExists(rs: seq<Record>, sum: Sum, n: nat) returns (k: nat)
    requires n <= |FramesOf(rs, sum)|
    ensures WholeFrames(rs, sum, k, n)
    decreases |rs|
  {
    if rs == [] {
      return 0;
    }
    FramesFirst(rs, sum, 1);
    if n < |FramesOf(rs[..1], sum)| {
      return 0;
    }
    var j := CountExists(rs[1..], sum, n - |Frame(Payload(rs[0]), sum)|);
    FramesFirst(rs, sum, j + 1);
    if j + 1 < |rs| {
      FramesFirst(rs, sum, j + 2);
    }
    return j + 1;
  }

  /** Recovering any prefix of a file: nothing when even the start frame is torn, else the right first
      seqno and exactly the records whose frames lie wholly inside the prefix. */
  lemma RecoverPrefix(first: Option<u64>, rs: seq<Record>, sum: Sum, utf8: Utf8, k: nat, n: nat)
    requires forall r :: r in rs ==> Loggable(r, utf8)
    requires n <= |File(first, rs, sum)|
    requires |StartBytes(first, sum)| <= n ==> WholeFrames(rs, sum, k, n - |StartBytes(first, sum)|)
    ensures Recovered(File(first, rs, sum)[..n], sum, utf8) ==
      if n < |StartBytes(first, sum)| then (0, [])
      else (if first.Some? then first.value else 0, Normals(rs[..k]))
  {
    hide Frame, GetFrame, Payload, ParseStart, ParseRecord, RecordsIn;
    var start, frames := StartBytes(first, sum), FramesOf(rs, sum);
    if first.Some? {
      FrameLength(StartPayload(first.value), sum);
      if n < |start| {
        assert File(first, rs, sum)[..n] == start[..n];
        TornFrame(StartPayload(first.value), sum, n);
      } else {
        var m := n - |start|;
        assert File(first, rs, sum)[..n] == start + frames[..m];
        FrameBack(StartPayload(first.value), frames[..m], sum);
        StartRoundTrip(first.value, utf8);
        PrefixRecords(rs, sum, utf8, k, m);
      }
    } else {
      assert File(first, rs, sum)[..n] == frames[..n];
      PrefixRecords(rs, sum, utf8, k, n);
      NoStartFrame(rs, sum, utf8, k, n);
    }
  }

  /** A file without a start frame is not taken for one with. */
  lemma NoStartFrame(rs: seq<Record>, sum: Sum, utf8: Utf8, k: nat, n: nat)
    requires forall r :: r in rs ==> Loggable(r, utf8)
    requires WholeFrames(rs, sum, k, n)
    ensures Recovered(FramesOf(rs, sum)[..n], sum, utf8) == (0, RecordsIn(FramesOf(rs, sum)[..n], sum, utf8))
  {
    hide Frame, GetFrame, Payload, ParseStart, ParseRecord;
    if rs == [] {
      EmptyFrames(sum, utf8);
    } else {
      var p, rest := Payload(rs[0]), FramesOf(rs[1..], sum);
      assert rs[0] in rs;
      FrameLength(p, sum);
      PayloadNotEmpty(rs[0]);
      FramesFirst(rs, sum, 1);
      if k == 0 {
        TornFrame(p, sum, n);
        assert FramesOf(rs, sum)[..n] == Frame(p, sum)[..n];
      } else {
        FramesFirst(rs, sum, k);
        var m := n - |Frame(p, sum)|;
        FrameBack(p, rest[..m], sum);
        assert FramesOf(rs, sum)[..n] == Frame(p, sum) + rest[..m];
        RecordIsNoStart(rs[0]);
      }
    }
  }

  /** A whole file recovers whole. */
  lemma RecoverAll(first: Option<u64>, rs: seq<Record>, sum: Sum, utf8: Utf8)
    requires forall r :: r in rs ==> Loggable(r, utf8)
    ensures Recovered(File(first, rs, sum), sum, utf8) == (if first.Some? then first.value else 0, Normals(rs))
  {
    hide FramesOf, Recovered, StartBytes;
    assert rs[..|rs|] == rs;
    RecoverPrefix(first, rs, sum, utf8, |rs|, |File(first, rs, sum)|);
    assert File(first, rs, sum)[..|File(first, rs, sum)|] == File(first, rs, sum);
  }
}
