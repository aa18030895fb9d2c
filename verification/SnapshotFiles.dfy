/** Whole folds in bytes, and the compaction snapshot file around them. */
module SnapshotFiles {
  import opened Types
  import opened Folds
  import opened FoldLaws
  import opened Collection
  import opened Encoding
  import opened Wal
  import opened FoldCodec

  // --- the fold --------------------------------------------------------------------------------

  /** Row labels: written only when there are any. */
  function LabelSection(m: map<Key, map<OrderKey, Label>>, ord: Order): Bytes {
    if m == map[] then [] else MapBytes(m, ord.keys(m.Keys), PutLabels(ord))
  }

  function FoldBytes(f: State, ord: Order): Bytes {
    MapBytes(f.keys, ord.keys(f.keys.Keys), PutKeyState(ord))
    + (MapBytes(f.edgeProps, ord.keys(f.edgeProps.Keys), PutEdges(ord))
       + (MapBytes(f.nodeAttrs, ord.nodes(f.nodeAttrs.Keys), PutAttrs)
          + LabelSection(f.factLabels, ord)))
  }

  /** The optional label section ends the buffer; an empty one is rejected. */
  function GetLabelSection(b: Bytes): Option<map<Key, map<OrderKey, Label>>> {
    if b == [] then Some(map[])
    else
      var (n, _) :- GetU32(b);
      if n == 0 then None
      else
        var (m, rest) :- GetMap(b, GetLabels());
        if rest == [] then Some(m) else None
  }

  function GetFold(b: Bytes, utf8: Utf8): Option<State> {
    var (keys, b1) :- GetMap(b, GetKeyState(utf8));
    var (props, b2) :- GetMap(b1, GetEdges(utf8));
    var (attrs, b3) :- GetMap(b2, GetAttrs);
    var labels :- GetLabelSection(b3);
    Some(State(keys, props, attrs, labels))
  }

  // --- the shape of a reachable fold -----------------------------------------------------------

  /** An add row of an element names that element. */
  predicate OwnRows(o: ObjKey, rows: map<OrderKey, Version>) {
    forall ok :: ok in rows && rows[ok].obj.Some? ==> rows[ok].obj.value == o
  }

  predicate OwnState(st: KeyState) {
    st.ManyState? ==> forall o :: o in st.elems ==> OwnRows(o, st.elems[o])
  }

  /** What every op, merge and collection keeps: rows under their own element, no empty label list. */
  ghost predicate Shapely(f: State) {
    && (forall k :: k in f.keys ==> OwnState(f.keys[k]))
    && (forall k :: k in f.factLabels ==> f.factLabels[k] != map[])
  }

  lemma ShapelyApply(f: State, lop: LabeledOp)
    requires Shapely(f) && Accepts(f, lop.op)
    ensures Shapely(ApplyLabeled(f, lop))
  {
    var op, g := lop.op, ApplyLabeled(f, lop);
    LabelsKept(f, lop);
    if op.KeyCard().Some? {
      var st := GetOr(f.keys, op.key, NewKeyState(op.KeyCard().value));
      OwnApply(st, op);
      StoresAfter(f, lop);
      hide ApplyKey, ApplyLabeled, OwnState;
      assert forall k :: k in g.keys ==> k in f.keys || k == op.key;
    } else {
      StoresAfter(f, lop);
    }
  }

  lemma LabelsKept(f: State, lop: LabeledOp)
    requires forall k :: k in f.factLabels ==> f.factLabels[k] != map[]
    ensures var g := ApplyLabeled(f, lop); forall k :: k in g.factLabels ==> g.factLabels[k] != map[]
  {
    ApplyKeepsLabels(f, lop.op);
    hide Apply;
    if lop.access.Some? && lop.op.WritesRow() {
      assert lop.op.ok in GetOr(f.factLabels, lop.op.key, map[])[lop.op.ok := lop.access.value];
    }
  }

  lemma OwnApply(st: KeyState, op: Op)
    requires OwnState(st) && op.KeyCard() == Some(st.Card())
    ensures OwnState(ApplyKey(st, op))
  {
    if op.AddMany? || op.CloseMany? {
      assert OwnRows(op.obj, GetOr(st.elems, op.obj, map[])[op.ok := op.RowVersion()]);
    }
  }

  lemma OwnJoin(a: KeyState, b: KeyState)
    requires OwnState(a) && OwnState(b)
    ensures OwnState(JoinKey(a, b))
  {
    if a.ManyState? && b.ManyState? {
      forall o | o in JoinKey(a, b).elems
        ensures OwnRows(o, JoinKey(a, b).elems[o])
      {
        assert o in a.elems ==> OwnRows(o, a.elems[o]);
        assert o in b.elems ==> OwnRows(o, b.elems[o]);
      }
    }
  }

  lemma ShapelyJoin(f: State, g: State)
    requires Shapely(f) && Shapely(g)
    ensures Shapely(Join(f, g))
  {
    hide JoinKey, OwnState, JoinEdgeProps, JoinAttrs;
    forall k | k in f.keys && k in g.keys
      ensures OwnState(JoinKey(f.keys[k], g.keys[k]))
    {
      OwnJoin(f.keys[k], g.keys[k]);
    }
    forall k | k in f.factLabels && k in g.factLabels
      ensures JoinLabels(f.factLabels[k], g.factLabels[k]) != map[]
    {
      var ok :| ok in f.factLabels[k];
      assert ok in JoinLabels(f.factLabels[k], g.factLabels[k]);
    }
  }

  lemma OwnGc(st: KeyState)
    requires OwnState(st)
    ensures OwnState(GcKey(st))
  {
    if st.ManyState? && st.hd.Some? {
      forall o | o in GcKey(st).elems
        ensures OwnRows(o, GcKey(st).elems[o])
      {
        assert OwnRows(o, st.elems[o]);
      }
    }
  }

  lemma ShapelyGc(f: State)
    requires Shapely(f)
    ensures Shapely(Gc(f))
  {
    hide OwnState, GcKey;
    forall k | k in f.keys
      ensures OwnState(GcKey(f.keys[k]))
    {
      OwnGc(f.keys[k]);
    }
  }

  // --- reading a fold back ---------------------------------------------------------------------

  predicate FitsRows(rows: map<OrderKey, Version>, utf8: Utf8) {
    |rows| < U32_LIMIT && forall ok :: ok in rows ==> SavableVersion(rows[ok], utf8)
  }

  predicate FitsState(st: KeyState, utf8: Utf8) {
    match st
    case OneState(vs, _) => FitsRows(vs, utf8)
    case ManyState(es, rs, _) =>
      |es| < U32_LIMIT && |rs| < U32_LIMIT && forall o :: o in es ==> Writable(o, utf8) && FitsRows(es[o], utf8)
  }

  /** Every count and text length fits in 32 bits, and the texts are UTF-8. */
  ghost predicate Fits(f: State, utf8: Utf8) {
    && |f.keys| < U32_LIMIT && |f.edgeProps| < U32_LIMIT && |f.nodeAttrs| < U32_LIMIT && |f.factLabels| < U32_LIMIT
    && (forall k :: k in f.keys ==> FitsState(f.keys[k], utf8))
    && (forall k :: k in f.edgeProps ==> SavableEdges(f.edgeProps[k], utf8))
    && (forall k :: k in f.factLabels ==> |f.factLabels[k]| < U32_LIMIT)
  }

  lemma SavableStates(st: KeyState, utf8: Utf8)
    requires OwnState(st) && FitsState(st, utf8)
    ensures SavableState(st, utf8)
  {
    if st.ManyState? {
      forall o | o in st.elems
        ensures SavableElem(o, st.elems[o], utf8)
      {
        assert OwnRows(o, st.elems[o]) && FitsRows(st.elems[o], utf8);
      }
    }
  }

  lemma KeysBack(f: State, ord: Order, utf8: Utf8, rest: Bytes)
    requires IsOrder(ord) && Shapely(f) && Fits(f, utf8)
    ensures GetMap(MapBytes(f.keys, ord.keys(f.keys.Keys), PutKeyState(ord)) + rest, GetKeyState(utf8))
      == Some((f.keys, rest))
  {
    hide MapBytes, GetMap, Inverts, PutKeyState, GetKeyState, OwnState, FitsState, SavableState;
    forall k | k in f.keys
      ensures Inverts(PutKeyState(ord), GetKeyState(utf8), (k, f.keys[k]))
    {
      SavableStates(f.keys[k], utf8);
      KeyStateInverts(k, f.keys[k], ord, utf8);
    }
    MapBack(f.keys, ord.keys(f.keys.Keys), PutKeyState(ord), GetKeyState(utf8), rest);
  }

  lemma PropsBack(f: State, ord: Order, utf8: Utf8, rest: Bytes)
    requires IsOrder(ord) && Fits(f, utf8)
    ensures GetMap(MapBytes(f.edgeProps, ord.keys(f.edgeProps.Keys), PutEdges(ord)) + rest, GetEdges(utf8))
      == Some((f.edgeProps, rest))
  {
    hide MapBytes, GetMap, Inverts, PutEdges, GetEdges, SavableEdges;
    forall k | k in f.edgeProps
      ensures Inverts(PutEdges(ord), GetEdges(utf8), (k, f.edgeProps[k]))
    {
      EdgesInvert(k, f.edgeProps[k], ord, utf8);
    }
    MapBack(f.edgeProps, ord.keys(f.edgeProps.Keys), PutEdges(ord), GetEdges(utf8), rest);
  }

  lemma AttrsBack(f: State, ord: Order, utf8: Utf8, rest: Bytes)
    requires IsOrder(ord) && Fits(f, utf8)
    ensures GetMap(MapBytes(f.nodeAttrs, ord.nodes(f.nodeAttrs.Keys), PutAttrs) + rest, GetAttrs)
      == Some((f.nodeAttrs, rest))
  {
    hide MapBytes, GetMap, Inverts, PutAttrs, GetAttrs;
    forall n | n in f.nodeAttrs
      ensures Inverts(PutAttrs, GetAttrs, (n, f.nodeAttrs[n]))
    {
      AttrsInvert(n, f.nodeAttrs[n]);
    }
    MapBack(f.nodeAttrs, ord.nodes(f.nodeAttrs.Keys), PutAttrs, GetAttrs, rest);
  }

  lemma SectionBack(f: State, ord: Order, utf8: Utf8)
    requires IsOrder(ord) && Shapely(f) && Fits(f, utf8)
    ensures GetLabelSection(LabelSection(f.factLabels, ord)) == Some(f.factLabels)
  {
    var m := f.factLabels;
    if m != map[] {
      SectionCount(m, ord);
      hide MapBytes, GetMap, Inverts, PutLabels, GetLabels;
      forall k | k in m
        ensures Inverts(PutLabels(ord), GetLabels(), (k, m[k]))
      {
        LabelsInvert(k, m[k], ord);
      }
      MapBack(m, ord.keys(m.Keys), PutLabels(ord), GetLabels(), []);
      assert LabelSection(m, ord) + [] == LabelSection(m, ord);
    }
  }

  lemma SectionCount(m: map<Key, map<OrderKey, Label>>, ord: Order)
    requires m != map[] && |m| < U32_LIMIT
    ensures var b := LabelSection(m, ord); b != [] && GetU32(b).Some? && GetU32(b).value.0 as int == |m|
  {
    hide EachBytes, Entries;
    U32Back(|m| as u32, EachBytes(Entries(m, ord.keys(m.Keys)), PutLabels(ord)));
  }

  /** A reachable fold reads back whole: rows, tombstones, floors, registers and labels. */
  lemma DecodeUndoesEncode(f: State, ord: Order, utf8: Utf8)
    requires IsOrder(ord) && Shapely(f) && Fits(f, utf8)
    ensures GetFold(FoldBytes(f, ord), utf8) == Some(f)
  {
    hide MapBytes, GetMap, Shapely, Fits, IsOrder, LabelSection, GetLabelSection;
    var b3 := LabelSection(f.factLabels, ord);
    var b2 := MapBytes(f.nodeAttrs, ord.nodes(f.nodeAttrs.Keys), PutAttrs) + b3;
    var b1 := MapBytes(f.edgeProps, ord.keys(f.edgeProps.Keys), PutEdges(ord)) + b2;
    KeysBack(f, ord, utf8, b1);
    PropsBack(f, ord, utf8, b2);
    AttrsBack(f, ord, utf8, b3);
    SectionBack(f, ord, utf8);
  }

  /** Every merged-in fold of a run is itself shapely. */
  ghost predicate ShapelySteps(steps: seq<Step>) {
    forall i :: 0 <= i < |steps| && steps[i].MergeIn? ==> Shapely(steps[i].other)
  }

  lemma {:induction false} ReachableShapely(steps: seq<Step>, card: Key -> Cardinality)
    requires TypedSteps(steps, card) && ShapelySteps(steps)
    ensures Shapely(Run(Empty, steps)) && TypedState(Run(Empty, steps), card)
    decreases |steps|
  {
    hide Shapely, ApplyLabeled, Join, Gc, TypedState;
    if steps == [] {
      EmptyShapely(card);
    } else {
      var n := |steps| - 1;
      ReachableShapely(steps[..n], card);
      var f := Run(Empty, steps[..n]);
      match steps[n]
      case Write(lop) =>
        ApplyTyped(f, lop, card);
        ShapelyApply(f, lop);
      case MergeIn(other) =>
        JoinTyped(f, other, card);
        ShapelyJoin(f, other);
      case CollectNow =>
        ShapelyGc(f);
        CollectTyped(f, card);
    }
  }

  lemma EmptyShapely(card: Key -> Cardinality)
    ensures Shapely(Empty) && TypedState(Empty, card)
  {
  }

  lemma CollectTyped(f: State, card: Key -> Cardinality)
    requires TypedState(f, card)
    ensures TypedState(Gc(f), card)
  {
    GcCards(f);
  }

  /** Whatever ops, merges and collections built a fold, its bytes decode to it. */
  lemma ReachableRoundTrip(steps: seq<Step>, card: Key -> Cardinality, ord: Order, utf8: Utf8)
    requires TypedSteps(steps, card) && ShapelySteps(steps) && IsOrder(ord) && Fits(Run(Empty, steps), utf8)
    ensures GetFold(FoldBytes(Run(Empty, steps), ord), utf8) == Some(Run(Empty, steps))
  {
    hide Shapely, Fits, IsOrder, GetFold, FoldBytes, Run;
    ReachableShapely(steps, card);
    DecodeUndoesEncode(Run(Empty, steps), ord, utf8);
  }

  /** The layout from before labels existed: the three other stores. */
  function OldBytes(f: State, ord: Order): Bytes {
    MapBytes(f.keys, ord.keys(f.keys.Keys), PutKeyState(ord))
    + (MapBytes(f.edgeProps, ord.keys(f.edgeProps.Keys), PutEdges(ord))
       + MapBytes(f.nodeAttrs, ord.nodes(f.nodeAttrs.Keys), PutAttrs))
  }

  lemma OldThenLabels(f: State, ord: Order)
    ensures FoldBytes(f, ord) == OldBytes(f, ord) + LabelSection(f.factLabels, ord)
  {
    hide MapBytes, LabelSection;
    var a, b := MapBytes(f.keys, ord.keys(f.keys.Keys), PutKeyState(ord)),
                MapBytes(f.edgeProps, ord.keys(f.edgeProps.Keys), PutEdges(ord));
    var c, d := MapBytes(f.nodeAttrs, ord.nodes(f.nodeAttrs.Keys), PutAttrs), LabelSection(f.factLabels, ord);
    assert a + (b + (c + d)) == (a + (b + c)) + d;
  }

  /** A fold is written in the old layout exactly when it has no labels, and bytes in the old layout, of any fold,
      still decode: to the fold without its labels. */
  lemma UnlabeledFormat(f: State, ord: Order, utf8: Utf8)
    requires IsOrder(ord) && Shapely(f) && Fits(f, utf8)
    ensures FoldBytes(f, ord) == OldBytes(f, ord) <==> f.factLabels == map[]
    ensures GetFold(OldBytes(f, ord), utf8) == Some(f.(factLabels := map[]))
  {
    var g := f.(factLabels := map[]);
    assert Shapely(g) && Fits(g, utf8);
    if f.factLabels != map[] {
      SectionCount(f.factLabels, ord);
    }
    hide MapBytes, LabelSection, FoldBytes, Shapely, Fits, IsOrder, GetFold;
    OldThenLabels(f, ord);
    OldThenLabels(g, ord);
    OldSame(f, g, ord);
    DecodeUndoesEncode(g, ord, utf8);
    NoSection(ord);
    assert OldBytes(g, ord) + [] == OldBytes(g, ord);
    assert |FoldBytes(f, ord)| == |OldBytes(f, ord)| + |LabelSection(f.factLabels, ord)|;
  }

  lemma OldSame(f: State, g: State, ord: Order)
    requires g == f.(factLabels := map[])
    ensures OldBytes(g, ord) == OldBytes(f, ord)
  {
    hide MapBytes;
  }

  lemma NoSection(ord: Order)
    ensures LabelSection(map[], ord) == []
  {
  }

  // --- the snapshot file -----------------------------------------------------------------------

  const MAGIC: Bytes := [0x53, 0x53, 0x4E, 0x50]

  const HEADER: nat := 25

  function SnapBytes(f: State, upto: u64, ord: Order, sum: Sum): Bytes {
    var body := FoldBytes(f, ord);
    MAGIC + ([1] + (BytesU64(upto) + (BytesU64((|body| % U64_LIMIT) as u64) + (BytesU32(sum(body)) + body))))
  }

  /** Magic, version, length and checksum must all be right, and the fold must decode. */
  function GetSnap(b: Bytes, sum: Sum, utf8: Utf8): Option<(u64, State)> {
    if |b| < HEADER || b[..4] != MAGIC || b[4] != 1 then None
    else
      var upto, len, crc, body := ToU64(b[5..13]), ToU64(b[13..21]), ToU32(b[21..25]), b[25..];
      if |body| != len as int || sum(body) != crc then None
      else
        var f :- GetFold(body, utf8);
        Some((upto, f))
  }

  lemma U64Value(v: u64)
    ensures ToU64(BytesU64(v)) == v
  {
    Pow256Values();
    UnLEOfLE(v as nat, 8);
  }

  lemma U32Value(v: u32)
    ensures ToU32(BytesU32(v)) == v
  {
    Pow256Values();
    UnLEOfLE(v as nat, 4);
  }

  lemma HeaderFields(upto: u64, len: u64, crc: u32, body: Bytes)
    ensures var b := MAGIC + ([1] + (BytesU64(upto) + (BytesU64(len) + (BytesU32(crc) + body))));
      && |b| == HEADER + |body| && b[..4] == MAGIC && b[4] == 1
      && b[5..13] == BytesU64(upto) && b[13..21] == BytesU64(len) && b[21..25] == BytesU32(crc) && b[25..] == body
  {
    hide LE;
  }

  /** Through the header, the fold and the seqno it covers both come back. */
  lemma SnapshotRoundTrip(f: State, upto: u64, ord: Order, sum: Sum, utf8: Utf8)
    requires IsOrder(ord) && Shapely(f) && Fits(f, utf8) && |FoldBytes(f, ord)| < U64_LIMIT
    ensures GetSnap(SnapBytes(f, upto, ord, sum), sum, utf8) == Some((upto, f))
  {
    hide FoldBytes, GetFold, Fits, Shapely, IsOrder, BytesU64, BytesU32, GetSnap;
    DecodeUndoesEncode(f, ord, utf8);
    var body := FoldBytes(f, ord);
    SnapBack(upto, |body| as u64, body, sum, utf8);
  }

  lemma SnapBack(upto: u64, len: u64, body: Bytes, sum: Sum, utf8: Utf8)
    requires |body| == len as int && GetFold(body, utf8).Some?
    ensures GetSnap(MAGIC + ([1] + (BytesU64(upto) + (BytesU64(len) + (BytesU32(sum(body)) + body)))), sum, utf8)
         == Some((upto, GetFold(body, utf8).value))
  {
    hide GetFold, BytesU64, BytesU32, ToU64, ToU32;
    HeaderFields(upto, len, sum(body), body);
    U64Value(upto);
    U64Value(len);
    U32Value(sum(body));
  }

  // --- writing and reading, entry by entry -----------------------------------------------------

  /** Push a map's count, then each of its entries. */
  method PutMap<K, V>(buf: Buffer, m: map<K, V>, ks: seq<K>, put: ((K, V)) -> Bytes)
    requires forall k :: k in ks ==> k in m
    modifies buf
    ensures buf.bytes == old(buf.bytes) + MapBytes(m, ks, put)
  {
    hide BytesU32, EachBytes, Entries;
    buf.PutU32((|m| % U32_LIMIT) as u32);
    PutEach(buf, Entries(m, ks), put);
  }

  method PutEach<T>(buf: Buffer, xs: seq<T>, put: T -> Bytes)
    modifies buf
    ensures buf.bytes == old(buf.bytes) + EachBytes(xs, put)
  {
    for i := 0 to |xs|
      invariant buf.bytes + EachBytes(xs[i..], put) == old(buf.bytes) + EachBytes(xs, put)
    {
      ghost var was := buf.bytes;
      assert xs[i..][0] == xs[i] && xs[i..][1..] == xs[i + 1..];
      buf.bytes := buf.bytes + put(xs[i]);
      assert buf.bytes + EachBytes(xs[i + 1..], put) == was + (put(xs[i]) + EachBytes(xs[i + 1..], put));
    }
    assert xs[|xs|..] == [];
  }

  /** Serialize the fold. */
  method EncodeInto(f: Fold, buf: Buffer, ord: Order)
    requires IsOrder(ord)
    modifies buf
    ensures buf.bytes == old(buf.bytes) + FoldBytes(f.Value(), ord)
  {
    hide MapBytes, PutKeyState, PutEdges, PutAttrs, PutLabels;
    PutMap(buf, f.keys, ord.keys(f.keys.Keys), PutKeyState(ord));
    PutMap(buf, f.edgeProps, ord.keys(f.edgeProps.Keys), PutEdges(ord));
    PutMap(buf, f.nodeAttrs, ord.nodes(f.nodeAttrs.Keys), PutAttrs);
    if f.factLabels != map[] {
      PutMap(buf, f.factLabels, ord.keys(f.factLabels.Keys), PutLabels(ord));
    }
    Regroup(old(buf.bytes), MapBytes(f.keys, ord.keys(f.keys.Keys), PutKeyState(ord)),
            MapBytes(f.edgeProps, ord.keys(f.edgeProps.Keys), PutEdges(ord)),
            MapBytes(f.nodeAttrs, ord.nodes(f.nodeAttrs.Keys), PutAttrs), LabelSection(f.factLabels, ord));
  }

  lemma Regroup(a: Bytes, b: Bytes, c: Bytes, d: Bytes, e: Bytes)
    ensures (((a + b) + c) + d) + e == a + (b + (c + (d + e)))
    ensures e == [] ==> ((a + b) + c) + d == a + (b + (c + (d + e)))
  {
  }

  lemma {:induction false} EachSnoc<T>(b: Bytes, i: nat, get: Bytes -> Option<(T, Bytes)>)
    requires GetEach(b, i, get).Some? && get(GetEach(b, i, get).value.1).Some?
    ensures GetEach(b, i + 1, get) ==
      (var got, next := GetEach(b, i, get).value, get(GetEach(b, i, get).value.1).value;
       Some((got.0 + [next.0], next.1)))
    decreases i
  {
    var got := GetEach(b, i, get).value;
    var next := get(got.1).value.0;
    if i == 0 {
      assert [next] + [] == [] + [next];
    } else {
      var (first, b1) := get(b).value;
      EachSnoc(b1, i - 1, get);
      var rest := GetEach(b1, i - 1, get).value.0;
      assert [first] + (rest + [next]) == ([first] + rest) + [next];
    }
  }

  lemma {:induction false} EachFail<T>(b: Bytes, i: nat, n: nat, get: Bytes -> Option<(T, Bytes)>)
    requires i < n && GetEach(b, i, get).Some? && get(GetEach(b, i, get).value.1).None?
    ensures GetEach(b, n, get) == None
    decreases i
  {
    if i > 0 {
      EachFail(get(b).value.1, i - 1, n - 1, get);
    }
  }

  /** Read a count and that many entries into a map. */
  method ReadMap<K, V>(b: Bytes, get: Bytes -> Option<((K, V), Bytes)>) returns (out: Option<(map<K, V>, Bytes)>)
    ensures out == GetMap(b, get)
  {
    hide GetU32;
    var n := GetU32(b);
    if n.None? {
      return None;
    }
    var m: map<K, V> := map[];
    var rest := n.value.1;
    ghost var es: seq<(K, V)> := [];
    for i := 0 to n.value.0 as int
      invariant GetEach(n.value.1, i, get) == Some((es, rest)) && m == ToMap(es)
    {
      var e := get(rest);
      if e.None? {
        EachFail(n.value.1, i, n.value.0 as nat, get);
        return None;
      }
      EachSnoc(n.value.1, i, get);
      m := m[e.value.0.0 := e.value.0.1];
      assert (es + [e.value.0])[..|es|] == es;
      es := es + [e.value.0];
      rest := e.value.1;
    }
    return Some((m, rest));
  }

  /** Deserialize a fold; any malformation refuses it. */
  method Decode(b: Bytes, utf8: Utf8) returns (out: Option<State>)
    ensures out == GetFold(b, utf8)
  {
    hide GetMap, GetKeyState, GetEdges, GetAttrs, GetLabels, GetU32;
    var keys := ReadMap(b, GetKeyState(utf8));
    if keys.None? {
      return None;
    }
    var props := ReadMap(keys.value.1, GetEdges(utf8));
    if props.None? {
      return None;
    }
    var attrs := ReadMap(props.value.1, GetAttrs);
    if attrs.None? {
      return None;
    }
    var labels := DecodeLabels(attrs.value.1);
    return if labels.None? then None else Some(State(keys.value.0, props.value.0, attrs.value.0, labels.value));
  }

  method DecodeLabels(b: Bytes) returns (out: Option<map<Key, map<OrderKey, Label>>>)
    ensures out == GetLabelSection(b)
  {
    hide GetMap, GetLabels, GetU32;
    if b == [] {
      return Some(map[]);
    }
    var n := GetU32(b);
    if n.None? || n.value.0 == 0 {
      return None;
    }
    var m := ReadMap(b, GetLabels());
    return if m.Some? && m.value.1 == [] then Some(m.value.0) else None;
  }
}
