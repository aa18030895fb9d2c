/** Identifiers, literal values, order keys and version rows shared by every component.

    Machine integers are newtypes of the source's widths. Text is its UTF-8 bytes. */
module Types {
  newtype u8 = x: int | 0 <= x < 0x100
  newtype u32 = x: int | 0 <= x < 0x1_0000_0000
  newtype u64 = x: int | 0 <= x < 0x1_0000_0000_0000_0000
  newtype i64 = x: int | -0x8000_0000_0000_0000 <= x < 0x8000_0000_0000_0000

  type NodeId = u64
  type FieldId = u32
  type Label = u8
  type Text = seq<u8>
  type Key = (NodeId, FieldId)

  const U64_LIMIT: int := 0x1_0000_0000_0000_0000

  datatype Option<+T> = None | Some(value: T) {
    predicate IsFailure() { None? }

    function PropagateFailure<U>(): Option<U>
      requires None?
    {
      None
    }

    function Extract(): T
      requires Some?
    {
      value
    }
  }

  datatype Cardinality = One | Many

  /** The identity of the value or edge target an op refers to; a float is its raw bits. */
  datatype ObjKey =
    | Node(node: NodeId)
    | Int(num: i64)
    | Float(bits: u64)
    | Text(text: Text)
    | Bool(flag: bool)

  /** Total order over competing writes: transaction time, then source, then write sequence. */
  datatype OrderKey = OrderKey(tx: u64, source: FieldId, nonce: u64) {
    predicate Less(that: OrderKey) {
      || tx < that.tx
      || (tx == that.tx && source < that.source)
      || (tx == that.tx && source == that.source && nonce < that.nonce)
    }
  }

  /** One version of a key or element: no object means the row closes the interval. */
  datatype Version = Version(obj: Option<ObjKey>, validFrom: i64, validTo: Option<i64>)

  /** A version together with the order key that wrote it, as a snapshot lists it. */
  datatype Row = Row(ok: OrderKey, v: Version)

  /** The greater of two optional order keys, absent being least. */
  function MaxKey(a: Option<OrderKey>, b: Option<OrderKey>): Option<OrderKey> {
    if a.None? then b
    else if b.None? then a
    else if a.value.Less(b.value) then b else a
  }

  /** Whether `ok` lies above an optional floor. */
  predicate Above(ok: OrderKey, floor: Option<OrderKey>) {
    floor.Some? ==> floor.value.Less(ok)
  }

  function Get<K, V>(m: map<K, V>, k: K): Option<V> {
    if k in m then Some(m[k]) else None
  }

  function GetOr<K, V>(m: map<K, V>, k: K, default: V): V {
    if k in m then m[k] else default
  }
}
