/** Little-endian byte encodings of the primitive values, and the buffer and reader that move over them. */
module Encoding {
  import opened Types

  type Bytes = seq<u8>

  /** Whether some bytes are valid UTF-8; which ones are is left open. */
  type Utf8 = Bytes -> bool

  const U32_LIMIT: nat := 0x1_0000_0000

  function Pow256(k: nat): nat { if k == 0 then 1 else 256 * Pow256(k - 1) }

  lemma Pow256Values()
    ensures Pow256(4) == U32_LIMIT && Pow256(8) == U64_LIMIT
  {
    assert Pow256(2) == 0x1_0000;
    assert Pow256(3) == 0x100_0000;
    assert Pow256(5) == 0x100_0000_0000;
    assert Pow256(6) == 0x1_0000_0000_0000;
    assert Pow256(7) == 0x100_0000_0000_0000;
  }

  /** The low `k` bytes of `n`, least significant first. */
  function LE(n: nat, k: nat): (b: Bytes)
    ensures |b| == k
  {
    if k == 0 then [] else [(n % 256) as u8] + LE(n / 256, k - 1)
  }

  function UnLE(b: Bytes): (n: nat)
    ensures n < Pow256(|b|)
  {
    if b == [] then 0 else b[0] as nat + 256 * UnLE(b[1..])
  }

  lemma {:induction false} UnLEOfLE(n: nat, k: nat)
    requires n < Pow256(k)
    ensures UnLE(LE(n, k)) == n
  {
    if k > 0 {
      UnLEOfLE(n / 256, k - 1);
      assert LE(n, k)[1..] == LE(n / 256, k - 1);
    }
  }

  // --- encodings -------------------------------------------------------------------------------

  function BytesU32(v: u32): Bytes { LE(v as nat, 4) }

  function BytesU64(v: u64): Bytes { LE(v as nat, 8) }

  /** Two's complement. */
  function BytesI64(v: i64): Bytes { LE(if v < 0 then v as int + U64_LIMIT else v as int, 8) }

  /** The length, cast to 32 bits, and the bytes. */
  function BytesText(t: Text): Bytes { BytesU32((|t| % U32_LIMIT) as u32) + t }

  function BytesObj(o: ObjKey): Bytes {
    match o
    case Node(n) => [0] + BytesU64(n)
    case Int(i) => [1] + BytesI64(i)
    case Float(x) => [2] + BytesU64(x)
    case Text(t) => [3] + BytesText(t)
    case Bool(x) => [4, if x then 1 else 0]
  }

  function BytesKey(k: Key): Bytes { BytesU64(k.0) + BytesU32(k.1) }

  function BytesOrderKey(ok: OrderKey): Bytes { BytesU64(ok.tx) + (BytesU32(ok.source) + BytesU64(ok.nonce)) }

  // --- decodings -------------------------------------------------------------------------------

  function Take(b: Bytes, n: nat): Option<(Bytes, Bytes)> {
    if n <= |b| then Some((b[..n], b[n..])) else None
  }

  function GetU8(b: Bytes): Option<(u8, Bytes)> {
    if b == [] then None else Some((b[0], b[1..]))
  }

  function ToU32(s: Bytes): u32
    requires |s| == 4
  {
    Pow256Values();
    UnLE(s) as u32
  }

  function ToU64(s: Bytes): u64
    requires |s| == 8
  {
    Pow256Values();
    UnLE(s) as u64
  }

  function ToI64(s: Bytes): i64
    requires |s| == 8
  {
    var raw := ToU64(s) as int;
    (if raw >= 0x8000_0000_0000_0000 then raw - U64_LIMIT else raw) as i64
  }

  function GetU32(b: Bytes): Option<(u32, Bytes)> {
    var (s, rest) :- Take(b, 4);
    Some((ToU32(s), rest))
  }

  function GetU64(b: Bytes): Option<(u64, Bytes)> {
    var (s, rest) :- Take(b, 8);
    Some((ToU64(s), rest))
  }

  function GetI64(b: Bytes): Option<(i64, Bytes)> {
    var (s, rest) :- Take(b, 8);
    Some((ToI64(s), rest))
  }

  function GetText(b: Bytes, utf8: Utf8): Option<(Text, Bytes)> {
    var (n, b1) :- GetU32(b);
    var (t, b2) :- Take(b1, n as nat);
    if utf8(t) then Some((t, b2)) else None
  }

  function GetObj(b: Bytes, utf8: Utf8): Option<(ObjKey, Bytes)> {
    var (tag, b1) :- GetU8(b);
    match tag
    case 0 => (var (v, b2) :- GetU64(b1); Some((Node(v), b2)))
    case 1 => (var (v, b2) :- GetI64(b1); Some((Int(v), b2)))
    case 2 => (var (v, b2) :- GetU64(b1); Some((Float(v), b2)))
    case 3 => (var (v, b2) :- GetText(b1, utf8); Some((ObjKey.Text(v), b2)))
    case 4 => (var (v, b2) :- GetU8(b1); Some((Bool(v != 0), b2)))
    case _ => None
  }

  function GetKey(b: Bytes): Option<(Key, Bytes)> {
    var (n, b1) :- GetU64(b);
    var (p, b2) :- GetU32(b1);
    Some(((n, p), b2))
  }

  function GetOrderKey(b: Bytes): Option<(OrderKey, Bytes)> {
    var (tx, b1) :- GetU64(b);
    var (source, b2) :- GetU32(b1);
    var (nonce, b3) :- GetU64(b2);
    Some((OrderKey(tx, source, nonce), b3))
  }

  // --- reading back what was written -----------------------------------------------------------

  lemma TakeBack(a: Bytes, rest: Bytes)
    ensures Take(a + rest, |a|) == Some((a, rest))
  {
  }

  lemma U8Back(v: u8, rest: Bytes)
    ensures GetU8([v] + rest) == Some((v, rest))
  {
  }

  lemma U32Back(v: u32, rest: Bytes)
    ensures GetU32(BytesU32(v) + rest) == Some((v, rest))
  {
    Pow256Values();
    UnLEOfLE(v as nat, 4);
    TakeBack(BytesU32(v), rest);
  }

  lemma U64Back(v: u64, rest: Bytes)
    ensures GetU64(BytesU64(v) + rest) == Some((v, rest))
  {
    Pow256Values();
    UnLEOfLE(v as nat, 8);
    TakeBack(BytesU64(v), rest);
  }

  lemma I64Back(v: i64, rest: Bytes)
    ensures GetI64(BytesI64(v) + rest) == Some((v, rest))
  {
    Pow256Values();
    UnLEOfLE(if v < 0 then v as int + U64_LIMIT else v as int, 8);
    TakeBack(BytesI64(v), rest);
  }

  lemma TextBack(t: Text, rest: Bytes, utf8: Utf8)
    requires utf8(t) && |t| < U32_LIMIT
    ensures GetText(BytesText(t) + rest, utf8) == Some((t, rest))
  {
    U32Back(|t| as u32, t + rest);
    TakeBack(t, rest);
    assert BytesText(t) + rest == BytesU32(|t| as u32) + (t + rest);
  }

  /** The text of a value, if it has one, is UTF-8 and its length fits in 32 bits. */
  predicate Writable(o: ObjKey, utf8: Utf8) { o.Text? ==> utf8(o.text) && |o.text| < U32_LIMIT }

  lemma ObjBack(o: ObjKey, rest: Bytes, utf8: Utf8)
    requires Writable(o, utf8)
    ensures GetObj(BytesObj(o) + rest, utf8) == Some((o, rest))
  {
    hide BytesU64, BytesI64, BytesText, GetU64, GetI64, GetText;
    match o
    case Node(n) =>
      assert BytesObj(o) + rest == [0] + (BytesU64(n) + rest);
      U64Back(n, rest);
    case Int(i) =>
      assert BytesObj(o) + rest == [1] + (BytesI64(i) + rest);
      I64Back(i, rest);
    case Float(x) =>
      assert BytesObj(o) + rest == [2] + (BytesU64(x) + rest);
      U64Back(x, rest);
    case Text(t) =>
      assert BytesObj(o) + rest == [3] + (BytesText(t) + rest);
      TextBack(t, rest, utf8);
    case Bool(x) =>
      var v: u8 := if x then 1 else 0;
      assert BytesObj(o) + rest == [4] + ([v] + rest);
  }

  lemma KeyBack(k: Key, rest: Bytes)
    ensures GetKey(BytesKey(k) + rest) == Some((k, rest))
  {
    assert BytesKey(k) + rest == BytesU64(k.0) + (BytesU32(k.1) + rest);
    U64Back(k.0, BytesU32(k.1) + rest);
    U32Back(k.1, rest);
  }

  lemma OrderKeyBack(ok: OrderKey, rest: Bytes)
    ensures GetOrderKey(BytesOrderKey(ok) + rest) == Some((ok, rest))
  {
    var b2 := BytesU64(ok.nonce) + rest;
    var b1 := BytesU32(ok.source) + b2;
    assert BytesOrderKey(ok) + rest == BytesU64(ok.tx) + b1;
    U64Back(ok.tx, b1);
    U32Back(ok.source, b2);
    U64Back(ok.nonce, rest);
  }

  // --- the growing buffer ----------------------------------------------------------------------

  class Buffer {
    var bytes: Bytes

    constructor ()
      ensures bytes == []
    {
      bytes := [];
    }

    method Push(v: u8)
      modifies this
      ensures bytes == old(bytes) + [v]
    {
      bytes := bytes + [v];
    }

    method PutU32(v: u32)
      modifies this
      ensures bytes == old(bytes) + BytesU32(v)
    {
      PutLE(v as nat, 4);
    }

    method PutU64(v: u64)
      modifies this
      ensures bytes == old(bytes) + BytesU64(v)
    {
      PutLE(v as nat, 8);
    }

    method PutI64(v: i64)
      modifies this
      ensures bytes == old(bytes) + BytesI64(v)
    {
      PutLE(if v < 0 then v as int + U64_LIMIT else v as int, 8);
    }

    /** One byte at a time, least significant first. */
    method PutLE(n: nat, k: nat)
      modifies this
      ensures bytes == old(bytes) + LE(n, k)
    {
      var left := n;
      for i := 0 to k
        invariant bytes + LE(left, k - i) == old(bytes) + LE(n, k)
      {
        assert LE(left, k - i) == [(left % 256) as u8] + LE(left / 256, k - i - 1);
        bytes := bytes + [(left % 256) as u8];
        left := left / 256;
      }
    }

    method PutText(t: Text)
      modifies this
      ensures bytes == old(bytes) + BytesText(t)
    {
      PutU32((|t| % U32_LIMIT) as u32);
      bytes := bytes + t;
    }

    method PutObj(o: ObjKey)
      modifies this
      ensures bytes == old(bytes) + BytesObj(o)
    {
      hide BytesU64, BytesI64, BytesText;
      match o
      case Node(n) =>
        Push(0);
        PutU64(n);
      case Int(i) =>
        Push(1);
        PutI64(i);
      case Float(x) =>
        Push(2);
        PutU64(x);
      case Text(t) =>
        Push(3);
        PutText(t);
      case Bool(x) =>
        Push(4);
        Push(if x then 1 else 0);
    }

    method PutKey(k: Key)
      modifies this
      ensures bytes == old(bytes) + BytesKey(k)
    {
      PutU64(k.0);
      PutU32(k.1);
    }

    method PutOrderKey(ok: OrderKey)
      modifies this
      ensures bytes == old(bytes) + BytesOrderKey(ok)
    {
      PutU64(ok.tx);
      PutU32(ok.source);
      PutU64(ok.nonce);
    }
  }

  // --- the reader ------------------------------------------------------------------------------

  class Reader {
    const b: Bytes
    var pos: nat

    ghost predicate Valid()
      reads this
    {
      pos <= |b|
    }

    /** What is left to read. */
    function Rest(): Bytes
      reads this
      requires Valid()
    {
      b[pos..]
    }

    /** Whether everything has been read. */
    function Done(): (d: bool)
      reads this
      requires Valid()
      ensures d <==> Rest() == []
    {
      pos == |b|
    }

    constructor (b: Bytes)
      ensures Valid() && this.b == b && Rest() == b
    {
      this.b, pos := b, 0;
    }

    /** The outcome of a read: nothing is left undone, or the read failed as the decoding does. */
    ghost predicate Did<T(!new)>(r: Option<T>, spec: Option<(T, Bytes)>)
      reads this
    {
      Valid() && if r.None? then spec.None? else spec == Some((r.value, Rest()))
    }

    method TakeN(n: nat) returns (r: Option<Bytes>)
      requires Valid()
      modifies `pos
      ensures Did(r, Take(old(Rest()), n))
    {
      if pos + n > |b| {
        return None;
      }
      assert b[pos..][..n] == b[pos..pos + n] && b[pos..][n..] == b[pos + n..];
      r := Some(b[pos..pos + n]);
      pos := pos + n;
    }

    method U8() returns (r: Option<u8>)
      requires Valid()
      modifies `pos
      ensures Did(r, GetU8(old(Rest())))
    {
      var s :- TakeN(1);
      return Some(s[0]);
    }

    method U32() returns (r: Option<u32>)
      requires Valid()
      modifies `pos
      ensures Did(r, GetU32(old(Rest())))
    {
      var s :- TakeN(4);
      return Some(ToU32(s));
    }

    method U64() returns (r: Option<u64>)
      requires Valid()
      modifies `pos
      ensures Did(r, GetU64(old(Rest())))
    {
      var s :- TakeN(8);
      return Some(ToU64(s));
    }

    method I64() returns (r: Option<i64>)
      requires Valid()
      modifies `pos
      ensures Did(r, GetI64(old(Rest())))
    {
      var s :- TakeN(8);
      return Some(ToI64(s));
    }

    method String(utf8: Utf8) returns (r: Option<Text>)
      requires Valid()
      modifies `pos
      ensures Did(r, GetText(old(Rest()), utf8))
    {
      var n :- U32();
      var t :- TakeN(n as nat);
      return if utf8(t) then Some(t) else None;
    }

    method Object(utf8: Utf8) returns (r: Option<ObjKey>)
      requires Valid()
      modifies `pos
      ensures Did(r, GetObj(old(Rest()), utf8))
    {
      var tag :- U8();
      if tag == 0 {
        var v :- U64();
        return Some(Node(v));
      } else if tag == 1 {
        var v :- I64();
        return Some(Int(v));
      } else if tag == 2 {
        var v :- U64();
        return Some(Float(v));
      } else if tag == 3 {
        var v :- String(utf8);
        return Some(ObjKey.Text(v));
      } else if tag == 4 {
        var v :- U8();
        return Some(Bool(v != 0));
      }
      return None;
    }

    method SubjectPredicate() returns (r: Option<Key>)
      requires Valid()
      modifies `pos
      ensures Did(r, GetKey(old(Rest())))
    {
      var n :- U64();
      var p :- U32();
      return Some((n, p));
    }

    method Order() returns (r: Option<OrderKey>)
      requires Valid()
      modifies `pos
      ensures Did(r, GetOrderKey(old(Rest())))
    {
      var tx :- U64();
      var source :- U32();
      var nonce :- U64();
      return Some(OrderKey(tx, source, nonce));
    }
  }
}
