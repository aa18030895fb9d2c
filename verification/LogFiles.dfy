/** Writing frames into a buffer and reading a log file back, byte by byte. */
module LogFiles {
  import opened Types
  import opened Encoding
  import opened Changelogs
  import opened Wal
  import opened Recovery

  // --- encoding --------------------------------------------------------------------------------

  method PutLabelTail(buf: Buffer, access: Option<Label>)
    modifies buf
    ensures buf.bytes == old(buf.bytes) + LabelTail(access)
  {
    if access.Some? {
      buf.Push(1);
      buf.Push(access.value);
    }
  }

  method PutEndTail(buf: Buffer, validTo: Option<i64>)
    modifies buf
    ensures buf.bytes == old(buf.bytes) + EndTail(validTo)
  {
    if validTo.Some? {
      buf.Push(1);
      buf.PutI64(validTo.value);
    } else {
      buf.Push(0);
    }
  }

  method PutRow(buf: Buffer, k: Key, o: ObjKey, validFrom: i64, validTo: Option<i64>, access: Option<Label>)
    modifies buf
    ensures buf.bytes == old(buf.bytes) + RowBytes(k, o, validFrom, validTo, access)
  {
    hide BytesKey, BytesObj, BytesI64, EndTail, LabelTail;
    buf.PutKey(k);
    buf.PutObj(o);
    buf.PutI64(validFrom);
    PutEndTail(buf, validTo);
    PutLabelTail(buf, access);
    Regroup4(old(buf.bytes), BytesKey(k), BytesObj(o), BytesI64(validFrom), EndTail(validTo) + LabelTail(access));
  }

  lemma Regroup4(a: Bytes, b: Bytes, c: Bytes, d: Bytes, e: Bytes)
    ensures (((a + b) + c) + d) + e == a + (b + (c + (d + e)))
  {
  }

  method PutOrderKeys(buf: Buffer, oks: seq<OrderKey>)
    modifies buf
    ensures buf.bytes == old(buf.bytes) + BytesOrderKeys(oks)
  {
    hide BytesOrderKey;
    for i := 0 to |oks|
      invariant buf.bytes + BytesOrderKeys(oks[i..]) == old(buf.bytes) + BytesOrderKeys(oks)
    {
      assert oks[i..][0] == oks[i] && oks[i..][1..] == oks[i + 1..];
      ghost var was := buf.bytes;
      buf.PutOrderKey(oks[i]);
      assert buf.bytes + BytesOrderKeys(oks[i + 1..]) == was + (BytesOrderKey(oks[i]) + BytesOrderKeys(oks[i + 1..]));
    }
    assert oks[|oks|..] == [];
  }

  method PutRemoved(buf: Buffer, k: Key, observed: seq<OrderKey>)
    modifies buf
    ensures buf.bytes == old(buf.bytes) + BodyBytes(WriteKind.RemoveMany(k, observed), None)
  {
    hide BytesKey, BytesU32, BytesOrderKeys;
    buf.PutKey(k);
    buf.PutU32((|observed| % U32_LIMIT) as u32);
    PutOrderKeys(buf, observed);
  }

  method PutProp(buf: Buffer, k: Key, o: ObjKey, p: Text, v: ObjKey)
    modifies buf
    ensures buf.bytes == old(buf.bytes) + BodyBytes(WriteKind.SetEdgeProp(k, o, p, v), None)
  {
    hide BytesKey, BytesObj, BytesText;
    buf.PutKey(k);
    buf.PutObj(o);
    buf.PutText(p);
    buf.PutObj(v);
  }

  method PutClose(buf: Buffer, w: WriteKind, access: Option<Label>)
    requires w.CloseOne? || w.CloseMany?
    modifies buf
    ensures buf.bytes == old(buf.bytes) + BodyBytes(w, access)
  {
    hide BytesKey, BytesObj, BytesI64, LabelTail;
    buf.PutKey(w.key);
    if w.CloseMany? {
      buf.PutObj(w.obj);
    }
    buf.PutI64(w.validFrom);
    PutLabelTail(buf, access);
  }

  method PutSmall(buf: Buffer, w: WriteKind)
    requires w.HardDelete? || w.SetNodeType? || w.SetNodeLabel?
    modifies buf
    ensures buf.bytes == old(buf.bytes) + BodyBytes(w, None)
  {
    hide BytesKey, BytesU64, BytesU32;
    if w.HardDelete? {
      buf.PutKey(w.key);
      buf.Push(if w.cardinality.One? then 0 else 1);
    } else if w.SetNodeType? {
      buf.PutU64(w.node);
      buf.PutU32(w.typeId);
    } else {
      buf.PutU64(w.node);
      buf.Push(w.access);
    }
  }

  /** The payload of a record: its source, its tag and its fields. */
  method EncodePayload(buf: Buffer, r: Record)
    modifies buf
    ensures buf.bytes == old(buf.bytes) + Payload(r)
  {
    hide BytesU32, RowBytes;
    var w := r.kind;
    buf.PutU32(r.source);
    buf.Push(Tag(w));
    ghost var was := buf.bytes;
    if w.SetOne? || w.AddMany? {
      PutRow(buf, w.key, w.obj, w.validFrom, w.validTo, r.access);
    } else if w.CloseOne? || w.CloseMany? {
      PutClose(buf, w, r.access);
    } else if w.RemoveMany? {
      PutRemoved(buf, w.key, w.observed);
    } else if w.SetEdgeProp? {
      PutProp(buf, w.key, w.obj, w.prop, w.value);
    } else {
      PutSmall(buf, w);
    }
    assert buf.bytes == was + BodyBytes(w, r.access);
    hide BodyBytes, Tag;
  }

  /** Fill in a frame's header once its payload is in place. */
  method FinishFrame(buf: Buffer, header: nat, sum: Sum)
    requires header + 8 <= |buf.bytes|
    modifies buf
    ensures buf.bytes == old(buf.bytes)[..header] + Frame(old(buf.bytes)[header + 8..], sum)
  {
    hide BytesU32;
    var payload := buf.bytes[header + 8..];
    var before := buf.bytes[..header];
    buf.bytes := before;
    buf.PutU32((|payload| % U32_LIMIT) as u32);
    buf.PutU32(sum(payload));
    buf.bytes := buf.bytes + payload;
  }

  /** Append one framed record. */
  method FrameRecord(buf: Buffer, r: Record, sum: Sum)
    modifies buf
    ensures buf.bytes == old(buf.bytes) + Frame(Payload(r), sum)
  {
    hide Payload, Frame;
    var header := |buf.bytes|;
    buf.bytes := buf.bytes + [0, 0, 0, 0, 0, 0, 0, 0];
    EncodePayload(buf, r);
    FinishFrame(buf, header, sum);
  }

  /** Append the frame that names the seqno of the file's first record. */
  method FrameWalStart(buf: Buffer, first: u64, sum: Sum)
    modifies buf
    ensures buf.bytes == old(buf.bytes) + Frame(StartPayload(first), sum)
  {
    hide Frame, BytesU32, BytesU64;
    var header := |buf.bytes|;
    buf.bytes := buf.bytes + [0, 0, 0, 0, 0, 0, 0, 0];
    buf.PutU32(0);
    buf.Push(START_TAG);
    buf.PutU64(first);
    assert buf.bytes[header + 8..] == StartPayload(first);
    FinishFrame(buf, header, sum);
  }

  /** Write a whole file: the start frame when there is one, then a frame for each record. */
  method WriteFile(buf: Buffer, first: Option<u64>, rs: seq<Record>, sum: Sum)
    requires buf.bytes == []
    modifies buf
    ensures buf.bytes == File(first, rs, sum)
  {
    hide Frame, Payload, StartPayload;
    if first.Some? {
      FrameWalStart(buf, first.value, sum);
    }
    for i := 0 to |rs|
      invariant buf.bytes + FramesOf(rs[i..], sum) == File(first, rs, sum)
    {
      assert rs[i..][0] == rs[i] && rs[i..][1..] == rs[i + 1..];
      ghost var was := buf.bytes;
      FrameRecord(buf, rs[i], sum);
      assert buf.bytes + FramesOf(rs[i + 1..], sum) == was + (Frame(Payload(rs[i]), sum) + FramesOf(rs[i + 1..], sum));
    }
    assert rs[|rs|..] == [];
  }

  // --- decoding --------------------------------------------------------------------------------

  method ReadEndTail(r: Reader) returns (out: Option<Option<i64>>)
    requires r.Valid()
    modifies r`pos
    ensures r.Did(out, GetEndTail(old(r.Rest())))
  {
    if r.Done() {
      return Some(None);
    }
    var t := r.U8();
    if t == Some(0) {
      return Some(None);
    } else if t == Some(1) {
      var v :- r.I64();
      return Some(Some(v));
    }
    return None;
  }

  method ReadLabelTail(r: Reader) returns (out: Option<Option<Label>>)
    requires r.Valid()
    modifies r`pos
    ensures r.Did(out, GetLabelTail(old(r.Rest())))
  {
    if r.Done() {
      return Some(None);
    }
    var t := r.U8();
    if t == Some(1) {
      var l :- r.U8();
      return Some(Some(l));
    }
    return None;
  }

  method ReadTimeTail(r: Reader) returns (out: Option<(i64, Option<i64>)>)
    requires r.Valid()
    modifies r`pos
    ensures r.Did(out, GetTimeTail(old(r.Rest())))
  {
    if r.Done() {
      return Some((0, None));
    }
    var vf :- r.I64();
    var vt :- ReadEndTail(r);
    return Some((vf, vt));
  }

  lemma {:induction false} OrderKeysSnoc(b: Bytes, i: nat)
    requires GetOrderKeys(b, i).Some? && GetOrderKey(GetOrderKeys(b, i).value.1).Some?
    ensures GetOrderKeys(b, i + 1) ==
      (var got, next := GetOrderKeys(b, i).value, GetOrderKey(GetOrderKeys(b, i).value.1).value;
       Some((got.0 + [next.0], next.1)))
    decreases i
  {
    hide GetOrderKey;
    var got := GetOrderKeys(b, i).value;
    var next := GetOrderKey(got.1).value.0;
    if i == 0 {
      assert [next] + [] == [] + [next];
    } else {
      var (first, b1) := GetOrderKey(b).value;
      OrderKeysSnoc(b1, i - 1);
      var rest := GetOrderKeys(b1, i - 1).value.0;
      assert [first] + (rest + [next]) == ([first] + rest) + [next];
    }
  }

  lemma {:induction false} OrderKeysFail(b: Bytes, i: nat, n: nat)
    requires i < n && GetOrderKeys(b, i).Some? && GetOrderKey(GetOrderKeys(b, i).value.1).None?
    ensures GetOrderKeys(b, n) == None
    decreases i
  {
    hide GetOrderKey;
    if i > 0 {
      OrderKeysFail(GetOrderKey(b).value.1, i - 1, n - 1);
    }
  }

  method ReadOrderKeys(r: Reader, n: nat) returns (out: Option<seq<OrderKey>>)
    requires r.Valid()
    modifies r`pos
    ensures r.Did(out, GetOrderKeys(old(r.Rest()), n))
  {
    hide GetOrderKey;
    var oks: seq<OrderKey> := [];
    for i := 0 to n
      invariant r.Valid() && GetOrderKeys(old(r.Rest()), i) == Some((oks, r.Rest()))
    {
      ghost var here := r.Rest();
      var ok := r.Order();
      if ok.None? {
        OrderKeysFail(old(r.Rest()), i, n);
        return None;
      }
      OrderKeysSnoc(old(r.Rest()), i);
      oks := oks + [ok.value];
    }
    return Some(oks);
  }

  type Decoded = Option<(WriteKind, Option<Label>)>

  method ReadSetOne(r: Reader, utf8: Utf8) returns (out: Decoded)
    requires r.Valid()
    modifies r`pos
    ensures r.Did(out, GetSetOne(old(r.Rest()), utf8))
  {
    hide GetKey, GetObj, GetI64, GetEndTail, GetLabelTail;
    var k :- r.SubjectPredicate();
    var o :- r.Object(utf8);
    var vf :- r.I64();
    var vt :- ReadEndTail(r);
    var l :- ReadLabelTail(r);
    return Some((WriteKind.SetOne(k, o, vf, vt), l));
  }

  method ReadCloseOne(r: Reader) returns (out: Decoded)
    requires r.Valid()
    modifies r`pos
    ensures r.Did(out, GetCloseOne(old(r.Rest())))
  {
    hide GetKey, GetI64, GetLabelTail;
    var k :- r.SubjectPredicate();
    var vf :- r.I64();
    var l :- ReadLabelTail(r);
    return Some((WriteKind.CloseOne(k, vf), l));
  }

  method ReadAddMany(r: Reader, utf8: Utf8) returns (out: Decoded)
    requires r.Valid()
    modifies r`pos
    ensures r.Did(out, GetAddMany(old(r.Rest()), utf8))
  {
    hide GetKey, GetObj, GetTimeTail, GetLabelTail;
    var k :- r.SubjectPredicate();
    var o :- r.Object(utf8);
    var t :- ReadTimeTail(r);
    var l :- ReadLabelTail(r);
    return Some((WriteKind.AddMany(k, o, t.0, t.1), l));
  }

  method ReadRemoveMany(r: Reader) returns (out: Decoded)
    requires r.Valid()
    modifies r`pos
    ensures r.Did(out, GetRemoveMany(old(r.Rest())))
  {
    hide GetKey, GetU32, GetOrderKeys;
    var k :- r.SubjectPredicate();
    var n :- r.U32();
    var oks :- ReadOrderKeys(r, n as nat);
    return Some((WriteKind.RemoveMany(k, oks), None));
  }

  method ReadHardDelete(r: Reader) returns (out: Decoded)
    requires r.Valid()
    modifies r`pos
    ensures r.Did(out, GetHardDelete(old(r.Rest())))
  {
    hide GetKey, GetU8;
    var k :- r.SubjectPredicate();
    var c :- r.U8();
    return if c == 0 then Some((WriteKind.HardDelete(k, One), None))
      else if c == 1 then Some((WriteKind.HardDelete(k, Many), None)) else None;
  }

  method ReadEdgeProp(r: Reader, utf8: Utf8) returns (out: Decoded)
    requires r.Valid()
    modifies r`pos
    ensures r.Did(out, GetEdgeProp(old(r.Rest()), utf8))
  {
    hide GetKey, GetObj, GetText;
    var k :- r.SubjectPredicate();
    var o :- r.Object(utf8);
    var p :- r.String(utf8);
    var v :- r.Object(utf8);
    return Some((WriteKind.SetEdgeProp(k, o, p, v), None));
  }

  method ReadNodeType(r: Reader) returns (out: Decoded)
    requires r.Valid()
    modifies r`pos
    ensures r.Did(out, GetNodeType(old(r.Rest())))
  {
    hide GetU64, GetU32;
    var n :- r.U64();
    var t :- r.U32();
    return Some((WriteKind.SetNodeType(n, t), None));
  }

  method ReadNodeLabel(r: Reader) returns (out: Decoded)
    requires r.Valid()
    modifies r`pos
    ensures r.Did(out, GetNodeLabel(old(r.Rest())))
  {
    hide GetU64, GetU8;
    var n :- r.U64();
    var l :- r.U8();
    return Some((WriteKind.SetNodeLabel(n, l), None));
  }

  method ReadCloseMany(r: Reader, utf8: Utf8) returns (out: Decoded)
    requires r.Valid()
    modifies r`pos
    ensures r.Did(out, GetCloseMany(old(r.Rest()), utf8))
  {
    hide GetKey, GetObj, GetI64, GetLabelTail;
    var k :- r.SubjectPredicate();
    var o :- r.Object(utf8);
    var vf :- r.I64();
    var l :- ReadLabelTail(r);
    return Some((WriteKind.CloseMany(k, o, vf), l));
  }

  method ReadBody(r: Reader, tag: u8, utf8: Utf8) returns (out: Decoded)
    requires r.Valid()
    modifies r`pos
    ensures r.Did(out, GetBody(tag, old(r.Rest()), utf8))
  {
    hide GetSetOne, GetCloseOne, GetAddMany, GetRemoveMany, GetHardDelete, GetEdgeProp, GetNodeType, GetNodeLabel,
         GetCloseMany;
    if tag == 0 {
      out := ReadSetOne(r, utf8);
    } else if tag == 1 {
      out := ReadCloseOne(r);
    } else if tag == 2 {
      out := ReadAddMany(r, utf8);
    } else if tag == 3 {
      out := ReadRemoveMany(r);
    } else if tag == 4 {
      out := ReadHardDelete(r);
    } else if tag == 5 {
      out := ReadEdgeProp(r, utf8);
    } else if tag == 6 {
      out := ReadNodeType(r);
    } else if tag == 7 {
      out := ReadNodeLabel(r);
    } else if tag == 8 {
      out := ReadCloseMany(r, utf8);
    } else {
      out := None;
    }
  }

  /** Decode one payload; bytes left over reject it. */
  method DecodeRecord(payload: Bytes, utf8: Utf8) returns (out: Option<Record>)
    ensures out == ParseRecord(payload, utf8)
  {
    hide GetU32, GetU8, GetBody;
    var r := new Reader(payload);
    var source :- r.U32();
    var tag :- r.U8();
    var body :- ReadBody(r, tag, utf8);
    if !r.Done() {
      return None;
    }
    return Some(Record(source, body.0, body.1));
  }

  method DecodeWalStart(payload: Bytes) returns (out: Option<u64>)
    ensures out == ParseStart(payload)
  {
    hide GetU32, GetU8, GetU64, Reader.Rest, Reader.Done;
    var r := new Reader(payload);
    var zero := r.U32();
    if zero.None? {
      return None;
    }
    var tag := r.U8();
    if tag.None? || zero.value != 0 || tag.value != START_TAG {
      return None;
    }
    var first := r.U64();
    return if first.Some? && r.Done() then first else None;
  }

  /** Read one frame: header, length check, payload, checksum. */
  method ReadFrame(r: Reader, sum: Sum) returns (out: Option<Bytes>)
    requires r.Valid()
    modifies r`pos
    ensures r.Did(out, GetFrame(old(r.Rest()), sum))
  {
    hide GetU32;
    var len :- r.U32();
    var crc :- r.U32();
    if len == 0 || len as nat > MAX_RECORD_LEN {
      return None;
    }
    var p :- r.TakeN(len as nat);
    return if sum(p) == crc then Some(p) else None;
  }

  /** What recovery will have answered when it has also read `rest`. */
  function Ahead(firstFrame: bool, first: u64, out: seq<Record>, rest: Bytes, sum: Sum, utf8: Utf8): (u64, seq<Record>) {
    if firstFrame then Recovered(rest, sum, utf8) else (first, out + RecordsIn(rest, sum, utf8))
  }

  /** One frame further: the loop ends, learns the first seqno, or has one more record. */
  lemma AheadStep(firstFrame: bool, first: u64, out: seq<Record>, rest: Bytes, sum: Sum, utf8: Utf8)
    requires firstFrame ==> first == 0 && out == []
    ensures var f, all := GetFrame(rest, sum), Ahead(firstFrame, first, out, rest, sum, utf8);
      if f.None? then all == (first, out)
      else if firstFrame && ParseStart(f.value.0).Some? then
        all == Ahead(false, ParseStart(f.value.0).value, out, f.value.1, sum, utf8)
      else if ParseRecord(f.value.0, utf8).None? then all == (first, out)
      else all == Ahead(false, first, out + [ParseRecord(f.value.0, utf8).value], f.value.1, sum, utf8)
  {
    hide GetFrame, ParseRecord, ParseStart;
    assert out + [] == out && [] + RecordsIn(rest, sum, utf8) == RecordsIn(rest, sum, utf8);
    var f := GetFrame(rest, sum);
    if f.Some? {
      var more := RecordsIn(f.value.1, sum, utf8);
      assert out == [] ==> out + more == more;
      var rec := ParseRecord(f.value.0, utf8);
      assert rec.Some? ==> (out + [rec.value]) + more == out + ([rec.value] + more);
    }
  }

  /** Replay a log file up to its first torn, corrupt or undecodable frame. */
  method Recover(file: Bytes, sum: Sum, utf8: Utf8) returns (firstSeqno: u64, out: seq<Record>)
    ensures (firstSeqno, out) == Recovered(file, sum, utf8)
  {
    hide GetFrame, ParseRecord, ParseStart, RecordsIn, Recovered, Reader.Rest;
    var r := new Reader(file);
    firstSeqno, out := 0, [];
    var firstFrame := true;
    while true
      invariant r.Valid() && (firstFrame ==> firstSeqno == 0 && out == [])
      invariant Ahead(firstFrame, firstSeqno, out, r.Rest(), sum, utf8) == Recovered(file, sum, utf8)
      decreases |r.Rest()|
    {
      FrameConsumes(r.Rest(), sum);
      AheadStep(firstFrame, firstSeqno, out, r.Rest(), sum, utf8);
      hide Ahead;
      var p := ReadFrame(r, sum);
      if p.None? {
        break;
      }
      if firstFrame {
        firstFrame := false;
        var start := DecodeWalStart(p.value);
        if start.Some? {
          firstSeqno := start.value;
          continue;
        }
      }
      var rec := DecodeRecord(p.value, utf8);
      if rec.None? {
        break;
      }
      out := out + [rec.value];
    }
  }
}
