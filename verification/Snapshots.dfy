/** The canonical observation of a fold, and its key-by-key refresh. */
module Snapshots {
  import opened Types
  import opened Rows
  import opened Folds

  type History = map<ObjKey, seq<Row>>
  type PropValues = map<ObjKey, map<Text, ObjKey>>
  type Hash = ObjKey -> u64

  datatype Snapshot = Snapshot(
    one: map<Key, Option<ObjKey>>,
    oneHistory: map<Key, seq<Row>>,
    many: map<Key, set<ObjKey>>,
    manyHistory: map<Key, History>,
    edgeProps: map<Key, PropValues>,
    nodeTypes: map<NodeId, FieldId>,
    nodeLabels: map<NodeId, Label>,
    factLabels: map<Key, map<OrderKey, Label>>,
    labelCounts: map<Label, nat>,
    oneValues: set<(FieldId, u64, NodeId)>)

  const NoFacts: Snapshot := Snapshot(map[], map[], map[], map[], map[], map[], map[], map[], map[], {})

  // --- what a fold shows for one key -----------------------------------------------------------

  /** The rows that neither a tombstone nor the hard-delete floor hides. */
  function Live(rows: map<OrderKey, Version>, removes: set<OrderKey>, hd: Option<OrderKey>): map<OrderKey, Version> {
    map ok | ok in rows && ok !in removes && Above(ok, hd) :: rows[ok]
  }

  function LiveOne(f: State, k: Key): map<OrderKey, Version> {
    if k in f.keys && f.keys[k].OneState? then Live(f.keys[k].versions, {}, f.keys[k].hd) else map[]
  }

  function LiveElem(f: State, k: Key, o: ObjKey): map<OrderKey, Version> {
    if k in f.keys && f.keys[k].ManyState? && o in f.keys[k].elems
    then Live(f.keys[k].elems[o], f.keys[k].removes, f.keys[k].hd) else map[]
  }

  function Elems(f: State, k: Key): set<ObjKey> {
    if k in f.keys && f.keys[k].ManyState? then f.keys[k].elems.Keys else {}
  }

  function Last(rows: seq<Row>): Row
    requires rows != []
  {
    rows[|rows| - 1]
  }

  function OneRows(f: State, k: Key): seq<Row> { SortRows(LiveOne(f, k)) }

  /** The history of each element that has a live row. */
  function ManyRows(f: State, k: Key): History {
    map o | o in Elems(f, k) && SortRows(LiveElem(f, k, o)) != [] :: SortRows(LiveElem(f, k, o))
  }

  /** The elements whose greatest live row is an add. */
  function PresentIn(h: History): set<ObjKey> {
    set o | o in h.Keys && h[o] != [] && Last(h[o]).v.obj.Some?
  }

  function PropsOf(f: State, k: Key): PropValues {
    var objs := GetOr(f.edgeProps, k, map[]);
    map o | o in objs.Keys :: map p | p in objs[o].Keys :: objs[o][p].value
  }

  /** The order keys of the live rows of a key. */
  function LiveKeys(f: State, k: Key): set<OrderKey> {
    LiveOne(f, k).Keys + set o: ObjKey, ok: OrderKey | o in Elems(f, k) && ok in LiveElem(f, k, o) :: ok
  }

  function LiveLabels(f: State, k: Key): map<OrderKey, Label> {
    var stored := GetOr(f.factLabels, k, map[]);
    map ok | ok in stored && ok in LiveKeys(f, k) :: stored[ok]
  }

  /** The live add rows of an element, ascending: the tags a retraction observes. */
  function LiveTags(f: State, k: Key, o: ObjKey): seq<OrderKey> {
    TagsOf(FilterRows(SortRows(LiveElem(f, k, o)), (r: Row) => r.v.obj.Some?))
  }

  function TagsOf(rows: seq<Row>): seq<OrderKey> { seq(|rows|, i requires 0 <= i < |rows| => rows[i].ok) }

  // --- derived indexes -------------------------------------------------------------------------

  function Cells(fl: map<Key, map<OrderKey, Label>>, l: Label): set<(Key, OrderKey)> {
    set k: Key, ok: OrderKey | k in fl && ok in fl[k] && fl[k][ok] == l :: (k, ok)
  }

  function LabelsIn(fl: map<Key, map<OrderKey, Label>>): set<Label> {
    set k: Key, ok: OrderKey | k in fl && ok in fl[k] :: fl[k][ok]
  }

  /** How many live rows carry each stored label. */
  function Counts(fl: map<Key, map<OrderKey, Label>>): map<Label, nat> {
    map l | l in LabelsIn(fl) :: |Cells(fl, l)|
  }

  function Hashes(rows: seq<Row>, h: Hash): set<u64> {
    set i: nat | i < |rows| && rows[i].v.obj.Some? :: h(rows[i].v.obj.value)
  }

  /** The reverse value index: an entry for every value a live row of a One key carries. */
  function Index(oneHistory: map<Key, seq<Row>>, h: Hash): set<(FieldId, u64, NodeId)> {
    set k, x | k in oneHistory && x in Hashes(oneHistory[k], h) :: (k.1, x, k.0)
  }

  // --- the observation -------------------------------------------------------------------------

  function OneHistoryOf(f: State): map<Key, seq<Row>> { map k | k in f.keys && OneRows(f, k) != [] :: OneRows(f, k) }

  function ManyHistoryOf(f: State): map<Key, History> { map k | k in f.keys && ManyRows(f, k) != map[] :: ManyRows(f, k) }

  function EdgePropsOf(f: State): map<Key, PropValues> {
    map k | k in f.edgeProps && PropsOf(f, k) != map[] :: PropsOf(f, k)
  }

  function LabelsOf(f: State): map<Key, map<OrderKey, Label>> {
    map k | k in f.keys && LiveLabels(f, k) != map[] :: LiveLabels(f, k)
  }

  /** The current value of each One key: the object of its last row. */
  function Heads(oneHistory: map<Key, seq<Row>>): map<Key, Option<ObjKey>> {
    map k | k in oneHistory && oneHistory[k] != [] :: Last(oneHistory[k]).v.obj
  }

  /** The present set of each Many key that has one. */
  function PresentSets(manyHistory: map<Key, History>): map<Key, set<ObjKey>> {
    map k | k in manyHistory && PresentIn(manyHistory[k]) != {} :: PresentIn(manyHistory[k])
  }

  /** The snapshot of a fold; a key with no live state is omitted. */
  function Observe(f: State, h: Hash): Snapshot {
    Snapshot(
      Heads(OneHistoryOf(f)),
      OneHistoryOf(f),
      PresentSets(ManyHistoryOf(f)),
      ManyHistoryOf(f),
      EdgePropsOf(f),
      map n | n in f.nodeAttrs && f.nodeAttrs[n].ty.Some? :: f.nodeAttrs[n].ty.value.value,
      map n | n in f.nodeAttrs && f.nodeAttrs[n].access.Some? :: f.nodeAttrs[n].access.value.value,
      LabelsOf(f),
      Counts(LabelsOf(f)),
      Index(OneHistoryOf(f), h))
  }

  lemma ManyHistoryAt(f: State, k: Key)
    ensures k in ManyHistoryOf(f) <==> ManyRows(f, k) != map[]
    ensures k in ManyHistoryOf(f) ==> ManyHistoryOf(f)[k] == ManyRows(f, k)
  {
    if k !in f.keys {
      assert ManyRows(f, k) == map[];
    }
  }

  lemma EdgePropsAt(f: State, k: Key)
    ensures k in EdgePropsOf(f) <==> PropsOf(f, k) != map[]
    ensures k in EdgePropsOf(f) ==> EdgePropsOf(f)[k] == PropsOf(f, k)
  {
    if k !in f.edgeProps {
      assert PropsOf(f, k) == map[];
    }
  }

  lemma LabelsAt(f: State, k: Key)
    ensures k in LabelsOf(f) <==> LiveLabels(f, k) != map[]
    ensures k in LabelsOf(f) ==> LabelsOf(f)[k] == LiveLabels(f, k)
  {
    if k !in f.keys {
      assert LiveKeys(f, k) == {};
      assert LiveLabels(f, k) == map[];
    }
  }

  lemma SameMaps<K, V>(a: map<K, V>, b: map<K, V>)
    requires forall k :: Get(a, k) == Get(b, k)
    ensures a == b
  {
    assert forall k :: k in a <==> Get(a, k).Some?;
    assert forall k :: k in b <==> Get(b, k).Some?;
  }

  /** What a fold shows for one key. */
  predicate SameAt(f: State, g: State, k: Key) {
    && OneRows(f, k) == OneRows(g, k)
    && ManyRows(f, k) == ManyRows(g, k)
    && PropsOf(f, k) == PropsOf(g, k)
    && LiveLabels(f, k) == LiveLabels(g, k)
  }

  /** Folds that show the same for every key and node have the same snapshot. */
  lemma ObserveEqual(f: State, g: State, h: Hash)
    requires forall k :: SameAt(f, g, k)
    requires f.nodeAttrs == g.nodeAttrs
    ensures Observe(f, h) == Observe(g, h)
  {
    forall k: Key
      ensures Get(LabelsOf(f), k) == Get(LabelsOf(g), k)
      ensures Get(ManyHistoryOf(f), k) == Get(ManyHistoryOf(g), k)
      ensures Get(EdgePropsOf(f), k) == Get(EdgePropsOf(g), k)
      ensures Get(OneHistoryOf(f), k) == Get(OneHistoryOf(g), k)
    {
      assert SameAt(f, g, k);
      LabelsAt(f, k);
      LabelsAt(g, k);
      ManyHistoryAt(f, k);
      ManyHistoryAt(g, k);
      EdgePropsAt(f, k);
      EdgePropsAt(g, k);
    }
    SameMaps(OneHistoryOf(f), OneHistoryOf(g));
    SameMaps(ManyHistoryOf(f), ManyHistoryOf(g));
    SameMaps(EdgePropsOf(f), EdgePropsOf(g));
    SameMaps(LabelsOf(f), LabelsOf(g));
  }
}
