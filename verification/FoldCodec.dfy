/** The byte form of a fold, and of the compaction snapshot that carries one. */
module FoldCodec {
  import opened Types
  import opened Folds
  import opened Encoding
  import opened Wal

  // --- lists, sets and maps of entries ---------------------------------------------------------

  /** `xs` lists the elements of `s`, each once. */
  ghost predicate Lists<T(!new)>(xs: seq<T>, s: set<T>) {
    && (forall x :: x in xs <==> x in s)
    && (forall i, j :: 0 <= i < j < |xs| ==> xs[i] != xs[j])
  }

  lemma {:induction false} ListsLength<T(!new)>(xs: seq<T>, s: set<T>)
    requires Lists(xs, s)
    ensures |xs| == |s|
    decreases |xs|
  {
    if xs != [] {
      var n := |xs| - 1;
      var x := xs[n];
      assert forall y :: y in xs[..n] <==> y in s - {x};
      ListsLength(xs[..n], s - {x});
      assert s == s - {x} + {x};
    } else {
      assert s == {};
    }
  }

  /** The order in which the sorted maps are walked; which order it is does not matter to the codec. */
  datatype Order = Order(
    keys: set<Key> -> seq<Key>,
    nodes: set<NodeId> -> seq<NodeId>,
    objs: set<ObjKey> -> seq<ObjKey>,
    rows: set<OrderKey> -> seq<OrderKey>,
    names: set<Text> -> seq<Text>)

  ghost predicate IsOrder(ord: Order) {
    && (forall s :: Lists(ord.keys(s), s))
    && (forall s :: Lists(ord.nodes(s), s))
    && (forall s :: Lists(ord.objs(s), s))
    && (forall s :: Lists(ord.rows(s), s))
    && (forall s :: Lists(ord.names(s), s))
  }

  ghost function ListOf<T(!new)>(s: set<T>): (xs: seq<T>)
    ensures Lists(xs, s)
    decreases |s|
  {
    if s == {} then []
    else
      var x :| x in s;
      var rest := ListOf(s - {x});
      assert forall y :: y in s <==> y in s - {x} || y == x;
      rest + [x]
  }

  /** There is such an order. */
  lemma OrderExists() returns (ord: Order)
    ensures IsOrder(ord)
  {
    ord := Order(s => ListOf(s), s => ListOf(s), s => ListOf(s), s => ListOf(s), s => ListOf(s));
  }

  function EachBytes<T>(xs: seq<T>, put: T -> Bytes): Bytes {
    if xs == [] then [] else put(xs[0]) + EachBytes(xs[1..], put)
  }

  function GetEach<T>(b: Bytes, n: nat, get: Bytes -> Option<(T, Bytes)>): Option<(seq<T>, Bytes)>
    decreases n
  {
    if n == 0 then Some(([], b))
    else
      var (x, b1) :- get(b);
      var (xs, b2) :- GetEach(b1, n - 1, get);
      Some(([x] + xs, b2))
  }

  function Entries<K, V>(m: map<K, V>, ks: seq<K>): (es: seq<(K, V)>)
    ensures (forall k :: k in ks ==> k in m) ==> |es| == |ks| && forall i :: 0 <= i < |ks| ==> es[i] == (ks[i], m[ks[i]])
  {
    if exists k :: k in ks && k !in m then [] else seq(|ks|, i requires 0 <= i < |ks| => (ks[i], m[ks[i]]))
  }

  /** A later entry of the same key replaces an earlier one. */
  function ToMap<K, V>(es: seq<(K, V)>): map<K, V> {
    if es == [] then map[] else ToMap(es[..|es| - 1])[es[|es| - 1].0 := es[|es| - 1].1]
  }

  function MapBytes<K, V>(m: map<K, V>, ks: seq<K>, put: ((K, V)) -> Bytes): Bytes {
    BytesU32((|m| % U32_LIMIT) as u32) + EachBytes(Entries(m, ks), put)
  }

  function GetMap<K, V>(b: Bytes, get: Bytes -> Option<((K, V), Bytes)>): Option<(map<K, V>, Bytes)> {
    var (n, b1) :- GetU32(b);
    var (es, b2) :- GetEach(b1, n as nat, get);
    Some((ToMap(es), b2))
  }

  function SetBytes(s: set<OrderKey>, xs: seq<OrderKey>): Bytes {
    BytesU32((|s| % U32_LIMIT) as u32) + EachBytes(xs, BytesOrderKey)
  }

  function GetSet(b: Bytes): Option<(set<OrderKey>, Bytes)> {
    var (n, b1) :- GetU32(b);
    var (xs, b2) :- GetEach(b1, n as nat, GetOrderKey);
    Some(((set x | x in xs), b2))
  }

  /** What `put` writes for `x`, `get` reads back, whatever follows. */
  ghost predicate Inverts<T(!new)>(put: T -> Bytes, get: Bytes -> Option<(T, Bytes)>, x: T) {
    forall rest :: get(put(x) + rest) == Some((x, rest))
  }

  lemma {:induction false} EachBack<T(!new)>(xs: seq<T>, put: T -> Bytes, get: Bytes -> Option<(T, Bytes)>, rest: Bytes)
    requires forall x :: x in xs ==> Inverts(put, get, x)
    ensures GetEach(EachBytes(xs, put) + rest, |xs|, get) == Some((xs, rest))
    decreases |xs|
  {
    if xs == [] {
      assert EachBytes(xs, put) + rest == rest;
    } else {
      var more := EachBytes(xs[1..], put) + rest;
      assert EachBytes(xs, put) + rest == put(xs[0]) + more;
      assert Inverts(put, get, xs[0]);
      EachBack(xs[1..], put, get, rest);
      assert [xs[0]] + xs[1..] == xs;
    }
  }

  lemma {:induction false} ToMapEntries<K, V>(es: seq<(K, V)>)
    requires forall i, j :: 0 <= i < j < |es| ==> es[i].0 != es[j].0
    ensures forall k :: k in ToMap(es) <==> exists i :: 0 <= i < |es| && es[i].0 == k
    ensures forall i :: 0 <= i < |es| ==> es[i].0 in ToMap(es) && ToMap(es)[es[i].0] == es[i].1
    decreases |es|
  {
    if es != [] {
      var n := |es| - 1;
      ToMapEntries(es[..n]);
      assert forall i :: 0 <= i < n ==> es[..n][i] == es[i];
    }
  }

  lemma EntriesMap<K(!new), V>(m: map<K, V>, ks: seq<K>)
    requires Lists(ks, m.Keys)
    ensures ToMap(Entries(m, ks)) == m && |Entries(m, ks)| == |m|
    ensures forall e :: e in Entries(m, ks) ==> e.0 in m && e == (e.0, m[e.0])
  {
    ListsLength(ks, m.Keys);
    var es := Entries(m, ks);
    ToMapEntries(es);
    forall k
      ensures k in ToMap(es) <==> k in m
      ensures k in m ==> ToMap(es)[k] == m[k]
    {
      if k in m {
        var i :| 0 <= i < |ks| && ks[i] == k;
        assert es[i].0 == k;
      }
    }
  }

  /** A map reads back whole, in whatever order its entries were written. */
  lemma MapBack<K(!new), V(!new)>(m: map<K, V>, ks: seq<K>, put: ((K, V)) -> Bytes,
                                  get: Bytes -> Option<((K, V), Bytes)>, rest: Bytes)
    requires Lists(ks, m.Keys) && |m| < U32_LIMIT
    requires forall k :: k in m ==> Inverts(put, get, (k, m[k]))
    ensures GetMap(MapBytes(m, ks, put) + rest, get) == Some((m, rest))
  {
    hide BytesU32, GetU32, Inverts;
    EntriesMap(m, ks);
    var body := EachBytes(Entries(m, ks), put);
    assert MapBytes(m, ks, put) + rest == BytesU32(|m| as u32) + (body + rest);
    U32Back(|m| as u32, body + rest);
    EachBack(Entries(m, ks), put, get, rest);
  }

  lemma OrderKeyInverts(ok: OrderKey)
    ensures Inverts(BytesOrderKey, GetOrderKey, ok)
  {
    forall rest
      ensures GetOrderKey(BytesOrderKey(ok) + rest) == Some((ok, rest))
    {
      OrderKeyBack(ok, rest);
    }
  }

  lemma SetBack(s: set<OrderKey>, xs: seq<OrderKey>, rest: Bytes)
    requires Lists(xs, s) && |s| < U32_LIMIT
    ensures GetSet(SetBytes(s, xs) + rest) == Some((s, rest))
  {
    hide BytesU32, GetU32, BytesOrderKey, GetOrderKey, Inverts;
    ListsLength(xs, s);
    forall x | x in xs
      ensures Inverts(BytesOrderKey, GetOrderKey, x)
    {
      OrderKeyInverts(x);
    }
    var body := EachBytes(xs, BytesOrderKey);
    assert SetBytes(s, xs) + rest == BytesU32(|s| as u32) + (body + rest);
    U32Back(|s| as u32, body + rest);
    EachBack(xs, BytesOrderKey, GetOrderKey, rest);
    assert (set x | x in xs) == s;
  }

  // --- rows ------------------------------------------------------------------------------------

  function OptKeyBytes(ok: Option<OrderKey>): Bytes { if ok.Some? then [1] + BytesOrderKey(ok.value) else [0] }

  function GetOptKey(b: Bytes): Option<(Option<OrderKey>, Bytes)> {
    var (t, b1) :- GetU8(b);
    if t == 0 then Some((None, b1))
    else if t == 1 then (var (ok, b2) :- GetOrderKey(b1); Some((Some(ok), b2)))
    else None
  }

  function GetOptI64(b: Bytes): Option<(Option<i64>, Bytes)> {
    var (t, b1) :- GetU8(b);
    if t == 0 then Some((None, b1))
    else if t == 1 then (var (v, b2) :- GetI64(b1); Some((Some(v), b2)))
    else None
  }

  function IntervalBytes(v: Version): Bytes { BytesI64(v.validFrom) + EndTail(v.validTo) }

  function GetInterval(b: Bytes): Option<((i64, Option<i64>), Bytes)> {
    var (vf, b1) :- GetI64(b);
    var (vt, b2) :- GetOptI64(b1);
    Some(((vf, vt), b2))
  }

  function OptObjBytes(o: Option<ObjKey>): Bytes { if o.Some? then [1] + BytesObj(o.value) else [0] }

  function GetOptObj(b: Bytes, utf8: Utf8): Option<(Option<ObjKey>, Bytes)> {
    var (t, b1) :- GetU8(b);
    if t == 0 then Some((None, b1))
    else if t == 1 then (var (o, b2) :- GetObj(b1, utf8); Some((Some(o), b2)))
    else None
  }

  /** A row of a One key. */
  function PutVersion(e: (OrderKey, Version)): Bytes {
    BytesOrderKey(e.0) + (OptObjBytes(e.1.obj) + IntervalBytes(e.1))
  }

  function GetVersion(utf8: Utf8): Bytes -> Option<((OrderKey, Version), Bytes)> {
    b =>
      var (ok, b1) :- GetOrderKey(b);
      var (o, b2) :- GetOptObj(b1, utf8);
      var (t, b3) :- GetInterval(b2);
      Some(((ok, Version(o, t.0, t.1)), b3))
  }

  /** A row of an element: an add row's object is the element, so one flag stands for it. */
  function PutElemRow(e: (OrderKey, Version)): Bytes {
    BytesOrderKey(e.0) + ([if e.1.obj.Some? then 1 else 0] + IntervalBytes(e.1))
  }

  function GetElemRow(o: ObjKey): Bytes -> Option<((OrderKey, Version), Bytes)> {
    b =>
      var (ok, b1) :- GetOrderKey(b);
      var (add, b2) :- GetU8(b1);
      if add > 1 then None
      else
        var (t, b3) :- GetInterval(b2);
        Some(((ok, Version(if add == 1 then Some(o) else None, t.0, t.1)), b3))
  }

  predicate SavableVersion(v: Version, utf8: Utf8) { v.obj.Some? ==> Writable(v.obj.value, utf8) }

  lemma OptKeyBack(ok: Option<OrderKey>, rest: Bytes)
    ensures GetOptKey(OptKeyBytes(ok) + rest) == Some((ok, rest))
  {
    if ok.Some? {
      assert OptKeyBytes(ok) + rest == [1] + (BytesOrderKey(ok.value) + rest);
      OrderKeyBack(ok.value, rest);
    }
  }

  lemma IntervalBack(v: Version, rest: Bytes)
    ensures GetInterval(IntervalBytes(v) + rest) == Some(((v.validFrom, v.validTo), rest))
  {
    assert IntervalBytes(v) + rest == BytesI64(v.validFrom) + (EndTail(v.validTo) + rest);
    I64Back(v.validFrom, EndTail(v.validTo) + rest);
    if v.validTo.Some? {
      assert EndTail(v.validTo) + rest == [1] + (BytesI64(v.validTo.value) + rest);
      I64Back(v.validTo.value, rest);
    }
  }

  lemma OptObjBack(o: Option<ObjKey>, rest: Bytes, utf8: Utf8)
    requires o.Some? ==> Writable(o.value, utf8)
    ensures GetOptObj(OptObjBytes(o) + rest, utf8) == Some((o, rest))
  {
    hide BytesObj, GetObj;
    if o.Some? {
      assert OptObjBytes(o) + rest == [1] + (BytesObj(o.value) + rest);
      ObjBack(o.value, rest, utf8);
    }
  }

  lemma VersionInverts(e: (OrderKey, Version), utf8: Utf8)
    requires SavableVersion(e.1, utf8)
    ensures Inverts(PutVersion, GetVersion(utf8), e)
  {
    hide BytesOrderKey, GetOrderKey, OptObjBytes, GetOptObj, IntervalBytes, GetInterval;
    forall rest
      ensures GetVersion(utf8)(PutVersion(e) + rest) == Some((e, rest))
    {
      var b2 := IntervalBytes(e.1) + rest;
      var b1 := OptObjBytes(e.1.obj) + b2;
      assert PutVersion(e) + rest == BytesOrderKey(e.0) + b1;
      OrderKeyBack(e.0, b1);
      OptObjBack(e.1.obj, b2, utf8);
      IntervalBack(e.1, rest);
    }
  }

  lemma ElemRowInverts(o: ObjKey, e: (OrderKey, Version))
    requires e.1.obj.Some? ==> e.1.obj.value == o
    ensures Inverts(PutElemRow, GetElemRow(o), e)
  {
    hide BytesOrderKey, GetOrderKey, IntervalBytes, GetInterval;
    forall rest
      ensures GetElemRow(o)(PutElemRow(e) + rest) == Some((e, rest))
    {
      var b2 := IntervalBytes(e.1) + rest;
      var b1 := [if e.1.obj.Some? then 1 else 0] + b2;
      assert PutElemRow(e) + rest == BytesOrderKey(e.0) + b1;
      OrderKeyBack(e.0, b1);
      IntervalBack(e.1, rest);
    }
  }

  // --- key states ------------------------------------------------------------------------------

  function PutElem(ord: Order): ((ObjKey, map<OrderKey, Version>)) -> Bytes {
    (e: (ObjKey, map<OrderKey, Version>)) => BytesObj(e.0) + MapBytes(e.1, ord.rows(e.1.Keys), PutElemRow)
  }

  function GetElem(utf8: Utf8): Bytes -> Option<((ObjKey, map<OrderKey, Version>), Bytes)> {
    b =>
      var (o, b1) :- GetObj(b, utf8);
      var (rows, b2) :- GetMap(b1, GetElemRow(o));
      Some(((o, rows), b2))
  }

  function StateBytes(st: KeyState, ord: Order): Bytes {
    match st
    case OneState(vs, hd) => [0] + (OptKeyBytes(hd) + MapBytes(vs, ord.rows(vs.Keys), PutVersion))
    case ManyState(es, rs, hd) =>
      [1] + (OptKeyBytes(hd) + (MapBytes(es, ord.objs(es.Keys), PutElem(ord)) + SetBytes(rs, ord.rows(rs))))
  }

  function GetState(b: Bytes, utf8: Utf8): Option<(KeyState, Bytes)> {
    var (tag, b1) :- GetU8(b);
    if tag > 1 then None
    else
      var (hd, b2) :- GetOptKey(b1);
      if tag == 0 then
        var (vs, b3) :- GetMap(b2, GetVersion(utf8));
        Some((OneState(vs, hd), b3))
      else
        var (es, b3) :- GetMap(b2, GetElem(utf8));
        var (rs, b4) :- GetSet(b3);
        Some((ManyState(es, rs, hd), b4))
  }

  function PutKeyState(ord: Order): ((Key, KeyState)) -> Bytes {
    (e: (Key, KeyState)) => BytesKey(e.0) + StateBytes(e.1, ord)
  }

  function GetKeyState(utf8: Utf8): Bytes -> Option<((Key, KeyState), Bytes)> {
    b =>
      var (k, b1) :- GetKey(b);
      var (st, b2) :- GetState(b1, utf8);
      Some(((k, st), b2))
  }

  ghost predicate SavableElem(o: ObjKey, rows: map<OrderKey, Version>, utf8: Utf8) {
    && Writable(o, utf8) && |rows| < U32_LIMIT
    && forall ok :: ok in rows && rows[ok].obj.Some? ==> rows[ok].obj.value == o
  }

  /** The state's sizes and texts fit, and every add row of an element names the element. */
  ghost predicate SavableState(st: KeyState, utf8: Utf8) {
    match st
    case OneState(vs, _) => |vs| < U32_LIMIT && forall ok :: ok in vs ==> SavableVersion(vs[ok], utf8)
    case ManyState(es, rs, _) =>
      |es| < U32_LIMIT && |rs| < U32_LIMIT && forall o :: o in es ==> SavableElem(o, es[o], utf8)
  }

  lemma ElemInverts(o: ObjKey, rows: map<OrderKey, Version>, ord: Order, utf8: Utf8)
    requires IsOrder(ord) && SavableElem(o, rows, utf8)
    ensures Inverts(PutElem(ord), GetElem(utf8), (o, rows))
  {
    hide BytesObj, GetObj, MapBytes, GetMap, IsOrder;
    ListsRows(ord, rows.Keys);
    forall ok | ok in rows
      ensures Inverts(PutElemRow, GetElemRow(o), (ok, rows[ok]))
    {
      ElemRowInverts(o, (ok, rows[ok]));
    }
    forall rest
      ensures GetElem(utf8)(PutElem(ord)((o, rows)) + rest) == Some(((o, rows), rest))
    {
      var body := MapBytes(rows, ord.rows(rows.Keys), PutElemRow);
      assert PutElem(ord)((o, rows)) + rest == BytesObj(o) + (body + rest);
      ObjBack(o, body + rest, utf8);
      MapBack(rows, ord.rows(rows.Keys), PutElemRow, GetElemRow(o), rest);
    }
  }

  lemma ListsRows(ord: Order, s: set<OrderKey>)
    requires IsOrder(ord)
    ensures Lists(ord.rows(s), s)
  {
  }

  lemma OneStateBack(vs: map<OrderKey, Version>, hd: Option<OrderKey>, ord: Order, utf8: Utf8, rest: Bytes)
    requires IsOrder(ord) && SavableState(OneState(vs, hd), utf8)
    ensures GetState(StateBytes(OneState(vs, hd), ord) + rest, utf8) == Some((OneState(vs, hd), rest))
  {
    hide MapBytes, GetMap, OptKeyBytes, GetOptKey, Inverts, IsOrder;
    ListsRows(ord, vs.Keys);
    forall ok | ok in vs
      ensures Inverts(PutVersion, GetVersion(utf8), (ok, vs[ok]))
    {
      VersionInverts((ok, vs[ok]), utf8);
    }
    var body := MapBytes(vs, ord.rows(vs.Keys), PutVersion);
    assert StateBytes(OneState(vs, hd), ord) + rest == [0] + (OptKeyBytes(hd) + (body + rest));
    OptKeyBack(hd, body + rest);
    MapBack(vs, ord.rows(vs.Keys), PutVersion, GetVersion(utf8), rest);
  }

  lemma ManyStateBack(es: map<ObjKey, map<OrderKey, Version>>, rs: set<OrderKey>, hd: Option<OrderKey>,
                      ord: Order, utf8: Utf8, rest: Bytes)
    requires IsOrder(ord) && SavableState(ManyState(es, rs, hd), utf8)
    ensures GetState(StateBytes(ManyState(es, rs, hd), ord) + rest, utf8) == Some((ManyState(es, rs, hd), rest))
  {
    forall o | o in es
      ensures Inverts(PutElem(ord), GetElem(utf8), (o, es[o]))
    {
      ElemInverts(o, es[o], ord, utf8);
    }
    assert Lists(ord.objs(es.Keys), es.Keys) && Lists(ord.rows(rs), rs);
    hide MapBytes, GetMap, OptKeyBytes, GetOptKey, SetBytes, GetSet, Inverts, IsOrder;
    var b3 := SetBytes(rs, ord.rows(rs)) + rest;
    var body := MapBytes(es, ord.objs(es.Keys), PutElem(ord));
    var b2 := body + b3;
    assert StateBytes(ManyState(es, rs, hd), ord) + rest == [1] + (OptKeyBytes(hd) + b2);
    OptKeyBack(hd, b2);
    MapBack(es, ord.objs(es.Keys), PutElem(ord), GetElem(utf8), b3);
    SetBack(rs, ord.rows(rs), rest);
  }

  lemma KeyStateInverts(k: Key, st: KeyState, ord: Order, utf8: Utf8)
    requires IsOrder(ord) && SavableState(st, utf8)
    ensures Inverts(PutKeyState(ord), GetKeyState(utf8), (k, st))
  {
    hide BytesKey, GetKey, StateBytes, GetState, IsOrder;
    forall rest
      ensures GetKeyState(utf8)(PutKeyState(ord)((k, st)) + rest) == Some(((k, st), rest))
    {
      assert PutKeyState(ord)((k, st)) + rest == BytesKey(k) + (StateBytes(st, ord) + rest);
      KeyBack(k, StateBytes(st, ord) + rest);
      if st.OneState? {
        OneStateBack(st.versions, st.hd, ord, utf8, rest);
      } else {
        ManyStateBack(st.elems, st.removes, st.hd, ord, utf8, rest);
      }
    }
  }

  // --- the other stores ------------------------------------------------------------------------

  function PutProp(e: (Text, Reg<ObjKey>)): Bytes {
    BytesText(e.0) + (BytesObj(e.1.value) + BytesOrderKey(e.1.ok))
  }

  function GetProp(utf8: Utf8): Bytes -> Option<((Text, Reg<ObjKey>), Bytes)> {
    b =>
      var (name, b1) :- GetText(b, utf8);
      var (v, b2) :- GetObj(b1, utf8);
      var (ok, b3) :- GetOrderKey(b2);
      Some(((name, Reg(ok, v)), b3))
  }

  function PutEdge(ord: Order): ((ObjKey, Props)) -> Bytes {
    (e: (ObjKey, Props)) => BytesObj(e.0) + MapBytes(e.1, ord.names(e.1.Keys), PutProp)
  }

  function GetEdge(utf8: Utf8): Bytes -> Option<((ObjKey, Props), Bytes)> {
    b =>
      var (o, b1) :- GetObj(b, utf8);
      var (props, b2) :- GetMap(b1, GetProp(utf8));
      Some(((o, props), b2))
  }

  function PutEdges(ord: Order): ((Key, EdgeProps)) -> Bytes {
    (e: (Key, EdgeProps)) => BytesKey(e.0) + MapBytes(e.1, ord.objs(e.1.Keys), PutEdge(ord))
  }

  function GetEdges(utf8: Utf8): Bytes -> Option<((Key, EdgeProps), Bytes)> {
    b =>
      var (k, b1) :- GetKey(b);
      var (objs, b2) :- GetMap(b1, GetEdge(utf8));
      Some(((k, objs), b2))
  }

  function TypeBytes(r: Option<Reg<FieldId>>): Bytes {
    if r.Some? then [1] + (BytesOrderKey(r.value.ok) + BytesU32(r.value.value)) else [0]
  }

  function GetType(b: Bytes): Option<(Option<Reg<FieldId>>, Bytes)> {
    var (t, b1) :- GetU8(b);
    if t == 0 then Some((None, b1))
    else if t == 1 then
      var (ok, b2) :- GetOrderKey(b1);
      var (v, b3) :- GetU32(b2);
      Some((Some(Reg(ok, v)), b3))
    else None
  }

  function AccessBytes(r: Option<Reg<Label>>): Bytes {
    if r.Some? then [1] + (BytesOrderKey(r.value.ok) + [r.value.value]) else [0]
  }

  function GetAccess(b: Bytes): Option<(Option<Reg<Label>>, Bytes)> {
    var (t, b1) :- GetU8(b);
    if t == 0 then Some((None, b1))
    else if t == 1 then
      var (ok, b2) :- GetOrderKey(b1);
      var (v, b3) :- GetU8(b2);
      Some((Some(Reg(ok, v)), b3))
    else None
  }

  function PutAttrs(e: (NodeId, NodeAttrs)): Bytes { BytesU64(e.0) + (TypeBytes(e.1.ty) + AccessBytes(e.1.access)) }

  function GetAttrs(b: Bytes): Option<((NodeId, NodeAttrs), Bytes)> {
    var (n, b1) :- GetU64(b);
    var (ty, b2) :- GetType(b1);
    var (l, b3) :- GetAccess(b2);
    Some(((n, NodeAttrs(ty, l)), b3))
  }

  function PutRowLabel(e: (OrderKey, Label)): Bytes { BytesOrderKey(e.0) + [e.1] }

  function GetRowLabel(b: Bytes): Option<((OrderKey, Label), Bytes)> {
    var (ok, b1) :- GetOrderKey(b);
    var (l, b2) :- GetU8(b1);
    Some(((ok, l), b2))
  }

  function PutLabels(ord: Order): ((Key, map<OrderKey, Label>)) -> Bytes {
    (e: (Key, map<OrderKey, Label>)) => BytesKey(e.0) + MapBytes(e.1, ord.rows(e.1.Keys), PutRowLabel)
  }

  /** The labels of one key; an empty list is rejected. */
  function GetLabels(): Bytes -> Option<((Key, map<OrderKey, Label>), Bytes)> {
    b =>
      var (k, b1) :- GetKey(b);
      var (m, _) :- GetU32(b1);
      if m == 0 then None
      else
        var (rows, b2) :- GetMap(b1, GetRowLabel);
        Some(((k, rows), b2))
  }

  ghost predicate SavableProps(props: Props, utf8: Utf8) {
    && |props| < U32_LIMIT
    && forall p :: p in props ==> utf8(p) && |p| < U32_LIMIT && Writable(props[p].value, utf8)
  }

  ghost predicate SavableEdges(objs: EdgeProps, utf8: Utf8) {
    |objs| < U32_LIMIT && forall o :: o in objs ==> Writable(o, utf8) && SavableProps(objs[o], utf8)
  }

  lemma PropInverts(p: Text, r: Reg<ObjKey>, utf8: Utf8)
    requires utf8(p) && |p| < U32_LIMIT && Writable(r.value, utf8)
    ensures Inverts(PutProp, GetProp(utf8), (p, r))
  {
    hide BytesText, GetText, BytesObj, GetObj, BytesOrderKey, GetOrderKey;
    forall rest
      ensures GetProp(utf8)(PutProp((p, r)) + rest) == Some(((p, r), rest))
    {
      var b2 := BytesOrderKey(r.ok) + rest;
      var b1 := BytesObj(r.value) + b2;
      assert PutProp((p, r)) + rest == BytesText(p) + b1;
      TextBack(p, b1, utf8);
      ObjBack(r.value, b2, utf8);
      OrderKeyBack(r.ok, rest);
    }
  }

  lemma ListsNames(ord: Order, s: set<Text>)
    requires IsOrder(ord)
    ensures Lists(ord.names(s), s)
  {
  }

  lemma ListsObjs(ord: Order, s: set<ObjKey>)
    requires IsOrder(ord)
    ensures Lists(ord.objs(s), s)
  {
  }

  lemma EdgeBack(o: ObjKey, props: Props, ord: Order, utf8: Utf8, rest: Bytes)
    requires Lists(ord.names(props.Keys), props.Keys) && Writable(o, utf8) && |props| < U32_LIMIT
    requires forall p :: p in props ==> Inverts(PutProp, GetProp(utf8), (p, props[p]))
    ensures GetEdge(utf8)(PutEdge(ord)((o, props)) + rest) == Some(((o, props), rest))
  {
    hide BytesObj, GetObj, MapBytes, GetMap, Lists, Inverts;
    var body := MapBytes(props, ord.names(props.Keys), PutProp);
    assert PutEdge(ord)((o, props)) + rest == BytesObj(o) + (body + rest);
    ObjBack(o, body + rest, utf8);
    MapBack(props, ord.names(props.Keys), PutProp, GetProp(utf8), rest);
  }

  lemma EdgeInverts(o: ObjKey, props: Props, ord: Order, utf8: Utf8)
    requires IsOrder(ord) && Writable(o, utf8) && SavableProps(props, utf8)
    ensures Inverts(PutEdge(ord), GetEdge(utf8), (o, props))
  {
    hide IsOrder, Lists, PutProp, GetProp;
    ListsNames(ord, props.Keys);
    forall p | p in props
      ensures Inverts(PutProp, GetProp(utf8), (p, props[p]))
    {
      PropInverts(p, props[p], utf8);
    }
    forall rest
      ensures GetEdge(utf8)(PutEdge(ord)((o, props)) + rest) == Some(((o, props), rest))
    {
      EdgeBack(o, props, ord, utf8, rest);
    }
  }

  lemma EdgesBack(k: Key, objs: EdgeProps, ord: Order, utf8: Utf8, rest: Bytes)
    requires Lists(ord.objs(objs.Keys), objs.Keys) && |objs| < U32_LIMIT
    requires forall o :: o in objs ==> Inverts(PutEdge(ord), GetEdge(utf8), (o, objs[o]))
    ensures GetEdges(utf8)(PutEdges(ord)((k, objs)) + rest) == Some(((k, objs), rest))
  {
    hide BytesKey, GetKey, MapBytes, GetMap, Lists, Inverts;
    var body := MapBytes(objs, ord.objs(objs.Keys), PutEdge(ord));
    assert PutEdges(ord)((k, objs)) + rest == BytesKey(k) + (body + rest);
    KeyBack(k, body + rest);
    MapBack(objs, ord.objs(objs.Keys), PutEdge(ord), GetEdge(utf8), rest);
  }

  lemma EdgesInvert(k: Key, objs: EdgeProps, ord: Order, utf8: Utf8)
    requires IsOrder(ord) && SavableEdges(objs, utf8)
    ensures Inverts(PutEdges(ord), GetEdges(utf8), (k, objs))
  {
    hide IsOrder, Lists, PutEdge, GetEdge, SavableProps;
    ListsObjs(ord, objs.Keys);
    forall o | o in objs
      ensures Inverts(PutEdge(ord), GetEdge(utf8), (o, objs[o]))
    {
      EdgeInverts(o, objs[o], ord, utf8);
    }
    forall rest
      ensures GetEdges(utf8)(PutEdges(ord)((k, objs)) + rest) == Some(((k, objs), rest))
    {
      EdgesBack(k, objs, ord, utf8, rest);
    }
  }

  lemma TypeBack(r: Option<Reg<FieldId>>, rest: Bytes)
    ensures GetType(TypeBytes(r) + rest) == Some((r, rest))
  {
    hide BytesOrderKey, GetOrderKey, BytesU32, GetU32;
    if r.Some? {
      var b2 := BytesU32(r.value.value) + rest;
      assert TypeBytes(r) + rest == [1] + (BytesOrderKey(r.value.ok) + b2);
      OrderKeyBack(r.value.ok, b2);
      U32Back(r.value.value, rest);
    }
  }

  lemma AccessBack(r: Option<Reg<Label>>, rest: Bytes)
    ensures GetAccess(AccessBytes(r) + rest) == Some((r, rest))
  {
    hide BytesOrderKey, GetOrderKey;
    if r.Some? {
      var b2 := [r.value.value] + rest;
      assert AccessBytes(r) + rest == [1] + (BytesOrderKey(r.value.ok) + b2);
      OrderKeyBack(r.value.ok, b2);
    }
  }

  lemma AttrsInvert(n: NodeId, at: NodeAttrs)
    ensures Inverts(PutAttrs, GetAttrs, (n, at))
  {
    hide BytesU64, GetU64, TypeBytes, GetType, AccessBytes, GetAccess;
    forall rest
      ensures GetAttrs(PutAttrs((n, at)) + rest) == Some(((n, at), rest))
    {
      var b2 := AccessBytes(at.access) + rest;
      var b1 := TypeBytes(at.ty) + b2;
      assert PutAttrs((n, at)) + rest == BytesU64(n) + b1;
      U64Back(n, b1);
      TypeBack(at.ty, b2);
      AccessBack(at.access, rest);
    }
  }

  lemma RowLabelInverts(ok: OrderKey, l: Label)
    ensures Inverts(PutRowLabel, GetRowLabel, (ok, l))
  {
    hide BytesOrderKey, GetOrderKey;
    forall rest
      ensures GetRowLabel(PutRowLabel((ok, l)) + rest) == Some(((ok, l), rest))
    {
      assert PutRowLabel((ok, l)) + rest == BytesOrderKey(ok) + ([l] + rest);
      OrderKeyBack(ok, [l] + rest);
    }
  }

  lemma LabelsBack(k: Key, rows: map<OrderKey, Label>, ord: Order, rest: Bytes)
    requires Lists(ord.rows(rows.Keys), rows.Keys) && rows != map[] && |rows| < U32_LIMIT
    requires forall ok :: ok in rows ==> Inverts(PutRowLabel, GetRowLabel, (ok, rows[ok]))
    ensures GetLabels()(PutLabels(ord)((k, rows)) + rest) == Some(((k, rows), rest))
  {
    hide BytesKey, GetKey, GetMap, Lists, Inverts, BytesU32, GetU32, EachBytes, Entries;
    var each := EachBytes(Entries(rows, ord.rows(rows.Keys)), PutRowLabel);
    var body := MapBytes(rows, ord.rows(rows.Keys), PutRowLabel);
    assert PutLabels(ord)((k, rows)) + rest == BytesKey(k) + (body + rest);
    assert body + rest == BytesU32(|rows| as u32) + (each + rest);
    KeyBack(k, body + rest);
    U32Back(|rows| as u32, each + rest);
    MapBack(rows, ord.rows(rows.Keys), PutRowLabel, GetRowLabel, rest);
  }

  lemma LabelsInvert(k: Key, rows: map<OrderKey, Label>, ord: Order)
    requires IsOrder(ord) && rows != map[] && |rows| < U32_LIMIT
    ensures Inverts(PutLabels(ord), GetLabels(), (k, rows))
  {
    hide IsOrder, Lists, PutRowLabel, GetRowLabel;
    ListsRows(ord, rows.Keys);
    forall ok | ok in rows
      ensures Inverts(PutRowLabel, GetRowLabel, (ok, rows[ok]))
    {
      RowLabelInverts(ok, rows[ok]);
    }
    forall rest
      ensures GetLabels()(PutLabels(ord)((k, rows)) + rest) == Some(((k, rows), rest))
    {
      LabelsBack(k, rows, ord, rest);
    }
  }
}
