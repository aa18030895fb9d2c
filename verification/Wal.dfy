/** The framed write-ahead log: the record codec, the framing, and recovery of a torn file. */
module Wal {
  import opened Types
  import opened Encoding
  import opened Changelogs

  /** Records larger than this are taken for a torn or garbage frame. */
  const MAX_RECORD_LEN: nat := 16 * 1024 * 1024

  const START_TAG: u8 := 255

  /** The checksum of a payload; which one it is does not matter. */
  type Sum = Bytes -> u32

  // --- the record codec ------------------------------------------------------------------------

  /** A row's access label, written only when there is one. */
  function LabelTail(access: Option<Label>): Bytes { if access.Some? then [1, access.value] else [] }

  function EndTail(validTo: Option<i64>): Bytes { if validTo.Some? then [1] + BytesI64(validTo.value) else [0] }

  function BytesOrderKeys(oks: seq<OrderKey>): Bytes {
    if oks == [] then [] else BytesOrderKey(oks[0]) + BytesOrderKeys(oks[1..])
  }

  function RowBytes(k: Key, o: ObjKey, validFrom: i64, validTo: Option<i64>, access: Option<Label>): Bytes {
    BytesKey(k) + (BytesObj(o) + (BytesI64(validFrom) + (EndTail(validTo) + LabelTail(access))))
  }

  /** The bytes of a write after its tag. */
  function BodyBytes(w: WriteKind, access: Option<Label>): Bytes {
    match w
    case SetOne(k, o, vf, vt) => RowBytes(k, o, vf, vt, access)
    case CloseOne(k, vf) => BytesKey(k) + (BytesI64(vf) + LabelTail(access))
    case AddMany(k, o, vf, vt) => RowBytes(k, o, vf, vt, access)
    case RemoveMany(k, observed) => BytesKey(k) + (BytesU32((|observed| % U32_LIMIT) as u32) + BytesOrderKeys(observed))
    case HardDelete(k, c) => BytesKey(k) + [if c.One? then 0 else 1]
    case SetEdgeProp(k, o, p, v) => BytesKey(k) + (BytesObj(o) + (BytesText(p) + BytesObj(v)))
    case SetNodeType(n, t) => BytesU64(n) + BytesU32(t)
    case SetNodeLabel(n, l) => BytesU64(n) + [l]
    case CloseMany(k, o, vf) => BytesKey(k) + (BytesObj(o) + (BytesI64(vf) + LabelTail(access)))
  }

  function Tag(w: WriteKind): u8 {
    match w
    case SetOne(_, _, _, _) => 0
    case CloseOne(_, _) => 1
    case AddMany(_, _, _, _) => 2
    case RemoveMany(_, _) => 3
    case HardDelete(_, _) => 4
    case SetEdgeProp(_, _, _, _) => 5
    case SetNodeType(_, _) => 6
    case SetNodeLabel(_, _) => 7
    case CloseMany(_, _, _) => 8
  }

  function Payload(r: Record): Bytes { BytesU32(r.source) + ([Tag(r.kind)] + BodyBytes(r.kind, r.access)) }

  /** A record as the log keeps it: only a row-writing record has an access label. */
  function Normal(r: Record): Record {
    if r.kind.SetOne? || r.kind.CloseOne? || r.kind.AddMany? || r.kind.CloseMany? then r else r.(access := None)
  }

  function GetEndTail(b: Bytes): Option<(Option<i64>, Bytes)> {
    if b == [] then Some((None, b))
    else
      var (t, b1) :- GetU8(b);
      if t == 0 then Some((None, b1))
      else if t == 1 then (var (v, b2) :- GetI64(b1); Some((Some(v), b2)))
      else None
  }

  function GetLabelTail(b: Bytes): Option<(Option<Label>, Bytes)> {
    if b == [] then Some((None, b))
    else
      var (t, b1) :- GetU8(b);
      if t == 1 then (var (l, b2) :- GetU8(b1); Some((Some(l), b2))) else None
  }

  /** The interval of an add; a record from before intervals were kept simply ends here. */
  function GetTimeTail(b: Bytes): Option<((i64, Option<i64>), Bytes)> {
    if b == [] then Some(((0, None), b))
    else
      var (vf, b1) :- GetI64(b);
      var (vt, b2) :- GetEndTail(b1);
      Some(((vf, vt), b2))
  }

  function GetOrderKeys(b: Bytes, n: nat): Option<(seq<OrderKey>, Bytes)> {
    if n == 0 then Some(([], b))
    else
      var (ok, b1) :- GetOrderKey(b);
      var (oks, b2) :- GetOrderKeys(b1, n - 1);
      Some(([ok] + oks, b2))
  }

  type Body = Option<((WriteKind, Option<Label>), Bytes)>

  function GetSetOne(b: Bytes, utf8: Utf8): Body {
    var (k, b1) :- GetKey(b);
    var (o, b2) :- GetObj(b1, utf8);
    var (vf, b3) :- GetI64(b2);
    var (vt, b4) :- GetEndTail(b3);
    var (l, b5) :- GetLabelTail(b4);
    Some(((WriteKind.SetOne(k, o, vf, vt), l), b5))
  }

  function GetCloseOne(b: Bytes): Body {
    var (k, b1) :- GetKey(b);
    var (vf, b2) :- GetI64(b1);
    var (l, b3) :- GetLabelTail(b2);
    Some(((WriteKind.CloseOne(k, vf), l), b3))
  }

  function GetAddMany(b: Bytes, utf8: Utf8): Body {
    var (k, b1) :- GetKey(b);
    var (o, b2) :- GetObj(b1, utf8);
    var (t, b3) :- GetTimeTail(b2);
    var (l, b4) :- GetLabelTail(b3);
    Some(((WriteKind.AddMany(k, o, t.0, t.1), l), b4))
  }

  function GetRemoveMany(b: Bytes): Body {
    var (k, b1) :- GetKey(b);
    var (n, b2) :- GetU32(b1);
    var (oks, b3) :- GetOrderKeys(b2, n as nat);
    Some(((WriteKind.RemoveMany(k, oks), None), b3))
  }

  function GetHardDelete(b: Bytes): Body {
    var (k, b1) :- GetKey(b);
    var (c, b2) :- GetU8(b1);
    if c == 0 then Some(((WriteKind.HardDelete(k, One), None), b2))
    else if c == 1 then Some(((WriteKind.HardDelete(k, Many), None), b2))
    else None
  }

  function GetEdgeProp(b: Bytes, utf8: Utf8): Body {
    var (k, b1) :- GetKey(b);
    var (o, b2) :- GetObj(b1, utf8);
    var (p, b3) :- GetText(b2, utf8);
    var (v, b4) :- GetObj(b3, utf8);
    Some(((WriteKind.SetEdgeProp(k, o, p, v), None), b4))
  }

  function GetNodeType(b: Bytes): Body {
    var (n, b1) :- GetU64(b);
    var (t, b2) :- GetU32(b1);
    Some(((WriteKind.SetNodeType(n, t), None), b2))
  }

  function GetNodeLabel(b: Bytes): Body {
    var (n, b1) :- GetU64(b);
    var (l, b2) :- GetU8(b1);
    Some(((WriteKind.SetNodeLabel(n, l), None), b2))
  }

  function GetCloseMany(b: Bytes, utf8: Utf8): Body {
    var (k, b1) :- GetKey(b);
    var (o, b2) :- GetObj(b1, utf8);
    var (vf, b3) :- GetI64(b2);
    var (l, b4) :- GetLabelTail(b3);
    Some(((WriteKind.CloseMany(k, o, vf), l), b4))
  }

  function GetBody(tag: u8, b: Bytes, utf8: Utf8): Body {
    match tag
    case 0 => GetSetOne(b, utf8)
    case 1 => GetCloseOne(b)
    case 2 => GetAddMany(b, utf8)
    case 3 => GetRemoveMany(b)
    case 4 => GetHardDelete(b)
    case 5 => GetEdgeProp(b, utf8)
    case 6 => GetNodeType(b)
    case 7 => GetNodeLabel(b)
    case 8 => GetCloseMany(b, utf8)
    case _ => None
  }

  /** Decode a payload; one with bytes left over is rejected. */
  function ParseRecord(p: Bytes, utf8: Utf8): Option<Record> {
    var (source, b1) :- GetU32(p);
    var (tag, b2) :- GetU8(b1);
    var (body, b3) :- GetBody(tag, b2, utf8);
    if b3 == [] then Some(Record(source, body.0, body.1)) else None
  }

  // --- every record reads back -----------------------------------------------------------------

  /** The texts of a record are UTF-8, as every text of the source program is. */
  predicate Utf8Record(r: Record, utf8: Utf8) {
    && (r.kind.SetOne? || r.kind.AddMany? || r.kind.CloseMany? || r.kind.SetEdgeProp? ==> Utf8Obj(r.kind.obj, utf8))
    && (r.kind.SetEdgeProp? ==> utf8(r.kind.prop) && Utf8Obj(r.kind.value, utf8))
  }

  predicate Utf8Obj(o: ObjKey, utf8: Utf8) { o.Text? ==> utf8(o.text) }

  lemma EndTailBack(vt: Option<i64>, rest: Bytes)
    ensures GetEndTail(EndTail(vt) + rest) == Some((vt, rest))
  {
    if vt.Some? {
      assert EndTail(vt) + rest == [1] + (BytesI64(vt.value) + rest);
      I64Back(vt.value, rest);
    }
  }

  lemma LabelTailBack(access: Option<Label>)
    ensures GetLabelTail(LabelTail(access)) == Some((access, []))
  {
  }

  lemma {:induction false} OrderKeysBack(oks: seq<OrderKey>)
    ensures GetOrderKeys(BytesOrderKeys(oks), |oks|) == Some((oks, [])) && |BytesOrderKeys(oks)| == 20 * |oks|
  {
    if oks != [] {
      OrderKeyBack(oks[0], BytesOrderKeys(oks[1..]));
      OrderKeysBack(oks[1..]);
      assert [oks[0]] + oks[1..] == oks;
    }
  }

  lemma RowBack(k: Key, o: ObjKey, vf: i64, vt: Option<i64>, access: Option<Label>, utf8: Utf8)
    requires Writable(o, utf8)
    ensures var b := RowBytes(k, o, vf, vt, access);
      && GetSetOne(b, utf8) == Some(((WriteKind.SetOne(k, o, vf, vt), access), []))
      && GetAddMany(b, utf8) == Some(((WriteKind.AddMany(k, o, vf, vt), access), []))
  {
    hide BytesKey, BytesObj, BytesI64, GetKey, GetObj, GetI64, EndTail, LabelTail, GetEndTail, GetLabelTail;
    var b4 := LabelTail(access);
    var b3 := EndTail(vt) + b4;
    var b2 := BytesI64(vf) + b3;
    KeyBack(k, BytesObj(o) + b2);
    ObjBack(o, b2, utf8);
    I64Back(vf, b3);
    EndTailBack(vt, b4);
    LabelTailBack(access);
    assert b2 != [] by {
      I64Length(vf);
    }
  }

  lemma I64Length(v: i64)
    ensures |BytesI64(v)| == 8
  {
  }

  lemma CloseBack(k: Key, o: ObjKey, vf: i64, access: Option<Label>, utf8: Utf8)
    requires Writable(o, utf8)
    ensures GetCloseOne(BytesKey(k) + (BytesI64(vf) + LabelTail(access)))
      == Some(((WriteKind.CloseOne(k, vf), access), []))
    ensures GetCloseMany(BytesKey(k) + (BytesObj(o) + (BytesI64(vf) + LabelTail(access))), utf8)
         == Some(((WriteKind.CloseMany(k, o, vf), access), []))
  {
    hide BytesKey, BytesObj, BytesI64, GetKey, GetObj, GetI64, LabelTail, GetLabelTail;
    var b1 := BytesI64(vf) + LabelTail(access);
    KeyBack(k, b1);
    KeyBack(k, BytesObj(o) + b1);
    ObjBack(o, b1, utf8);
    I64Back(vf, LabelTail(access));
    LabelTailBack(access);
  }

  lemma RemoveBack(k: Key, observed: seq<OrderKey>)
    requires |observed| < U32_LIMIT
    ensures GetRemoveMany(BytesKey(k) + (BytesU32(|observed| as u32) + BytesOrderKeys(observed)))
         == Some(((WriteKind.RemoveMany(k, observed), None), []))
  {
    hide BytesKey, BytesU32, GetKey, GetU32;
    KeyBack(k, BytesU32(|observed| as u32) + BytesOrderKeys(observed));
    U32Back(|observed| as u32, BytesOrderKeys(observed));
    OrderKeysBack(observed);
  }

  lemma EdgePropBack(k: Key, o: ObjKey, p: Text, v: ObjKey, utf8: Utf8)
    requires Writable(o, utf8) && Writable(v, utf8) && utf8(p) && |p| < U32_LIMIT
    ensures GetEdgeProp(BytesKey(k) + (BytesObj(o) + (BytesText(p) + BytesObj(v))), utf8)
         == Some(((WriteKind.SetEdgeProp(k, o, p, v), None), []))
  {
    hide BytesKey, BytesObj, BytesText, GetKey, GetObj, GetText;
    var b2 := BytesText(p) + BytesObj(v);
    KeyBack(k, BytesObj(o) + b2);
    ObjBack(o, b2, utf8);
    TextBack(p, BytesObj(v), utf8);
    ObjBack(v, [], utf8);
    assert BytesObj(v) + [] == BytesObj(v);
  }

  lemma SmallBack(w: WriteKind, access: Option<Label>, utf8: Utf8)
    requires w.HardDelete? || w.SetNodeType? || w.SetNodeLabel?
    ensures GetBody(Tag(w), BodyBytes(w, access), utf8) == Some(((w, None), []))
  {
    hide BytesKey, GetKey, BytesU64, GetU64, BytesU32, GetU32;
    match w
    case HardDelete(k, c) => KeyBack(k, [if c.One? then 0 else 1]);
    case SetNodeType(n, t) =>
      U64Back(n, BytesU32(t));
      U32Back(t, []);
      assert BytesU32(t) + [] == BytesU32(t);
    case SetNodeLabel(n, l) => U64Back(n, [l]);
  }

  /** A payload that fits in a frame has no text or list too long for a 32-bit length. */
  lemma LengthsFit(r: Record, utf8: Utf8)
    requires |Payload(r)| <= MAX_RECORD_LEN && Utf8Record(r, utf8)
    ensures r.kind.SetOne? || r.kind.AddMany? || r.kind.CloseMany? || r.kind.SetEdgeProp? ==> Writable(r.kind.obj, utf8)
    ensures r.kind.SetEdgeProp? ==> Writable(r.kind.value, utf8) && |r.kind.prop| < U32_LIMIT
    ensures r.kind.RemoveMany? ==> |r.kind.observed| < U32_LIMIT
  {
    assert |Payload(r)| == 5 + |BodyBytes(r.kind, r.access)|;
    if r.kind.RemoveMany? {
      OrderKeysBack(r.kind.observed);
    }
  }

  /** Every record reads back as it was written, its label included where the record writes a row. */
  lemma RecordRoundTrip(r: Record, utf8: Utf8)
    requires |Payload(r)| <= MAX_RECORD_LEN && Utf8Record(r, utf8)
    ensures ParseRecord(Payload(r), utf8) == Some(Normal(r))
  {
    var w, body := r.kind, BodyBytes(r.kind, r.access);
    LengthsFit(r, utf8);
    BodyBack(w, r.access, utf8);
    hide BodyBytes, GetBody, BytesU32, GetU32, Tag;
    U32Back(r.source, [Tag(w)] + body);
    U8Back(Tag(w), body);
  }

  lemma BodyBack(w: WriteKind, access: Option<Label>, utf8: Utf8)
    requires w.SetOne? || w.AddMany? || w.CloseMany? || w.SetEdgeProp? ==> Writable(w.obj, utf8)
    requires w.SetEdgeProp? ==> Writable(w.value, utf8) && utf8(w.prop) && |w.prop| < U32_LIMIT
    requires w.RemoveMany? ==> |w.observed| < U32_LIMIT
    ensures GetBody(Tag(w), BodyBytes(w, access), utf8) == Some(((w, Normal(Record(0, w, access)).access), []))
  {
    hide GetSetOne, GetCloseOne, GetAddMany, GetRemoveMany, GetEdgeProp, GetCloseMany, RowBytes,
         BytesKey, BytesObj, BytesText, BytesU32, BytesU64, BytesI64, LabelTail, BytesOrderKeys;
    match w
    case SetOne(k, o, vf, vt) => RowBack(k, o, vf, vt, access, utf8);
    case AddMany(k, o, vf, vt) => RowBack(k, o, vf, vt, access, utf8);
    case CloseOne(k, vf) => CloseBack(k, Bool(false), vf, access, utf8);
    case CloseMany(k, o, vf) => CloseBack(k, o, vf, access, utf8);
    case RemoveMany(k, observed) => RemoveBack(k, observed);
    case SetEdgeProp(k, o, p, v) => EdgePropBack(k, o, p, v, utf8);
    case _ => SmallBack(w, access, utf8);
  }

  /** Records written before intervals and labels were kept still decode: an add without an interval holds
      from zero on, a value without an end has none, and neither has a label. */
  lemma OldRecordsDecode(source: FieldId, k: Key, o: ObjKey, vf: i64, utf8: Utf8)
    requires Writable(o, utf8)
    ensures ParseRecord(BytesU32(source) + ([2] + (BytesKey(k) + BytesObj(o))), utf8)
         == Some(Record(source, WriteKind.AddMany(k, o, 0, None), None))
    ensures ParseRecord(BytesU32(source) + ([0] + (BytesKey(k) + (BytesObj(o) + BytesI64(vf)))), utf8)
         == Some(Record(source, WriteKind.SetOne(k, o, vf, None), None))
  {
    hide BytesKey, BytesObj, BytesI64, BytesU32, GetKey, GetObj, GetI64, GetU32;
    U32Back(source, [2] + (BytesKey(k) + BytesObj(o)));
    KeyBack(k, BytesObj(o));
    ObjBack(o, [], utf8);
    assert BytesObj(o) + [] == BytesObj(o);
    U32Back(source, [0] + (BytesKey(k) + (BytesObj(o) + BytesI64(vf))));
    KeyBack(k, BytesObj(o) + BytesI64(vf));
    ObjBack(o, BytesI64(vf), utf8);
    I64Back(vf, []);
    assert BytesI64(vf) + [] == BytesI64(vf);
  }
}
