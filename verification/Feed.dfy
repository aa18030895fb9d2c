/** The change feed: a bounded journal of what each durable batch touched, read exactly or not at all. */
module Feed {
  import opened Types
  import opened Snapshots
  import opened Mask
  import opened Verdicts

  type Noted = set<Option<Label>>

  /** One node's share of a batch: whether its attributes were written, whether it is new, and the touched
      predicates with the labels of the rows written on them (none when the write path noted none). */
  datatype NodeChange = NodeChange(isNew: bool, attrs: bool, preds: map<FieldId, Noted>)

  /** The changes of a batch, or a marker that there were too many to journal. */
  datatype Batch = Changes(changes: map<NodeId, NodeChange>) | Overflow {
    function Weight(): nat { if Overflow? then 1 else |changes| }
  }

  datatype Entry = Entry(head: nat, batch: Batch)

  /** One node's visible change: its type and the touched predicates, by name. */
  datatype Shown = Shown(ty: Option<Text>, preds: set<Text>, isNew: bool)

  datatype Answer = Answer(head: nat, batches: seq<(nat, map<NodeId, Shown>)>, resync: bool)

  type Names = map<FieldId, Text>

  // --- what a batch records --------------------------------------------------------------------

  function PredsOf(n: NodeId, keys: set<Key>): set<FieldId> { set k | k in keys && k.0 == n :: k.1 }

  function ChangeOf(n: NodeId, keys: set<Key>, nodes: set<NodeId>, noted: map<Key, Noted>,
                    newNodes: set<NodeId>): NodeChange {
    NodeChange(n in nodes && n in newNodes, n in nodes, map p | p in PredsOf(n, keys) :: GetOr(noted, (n, p), {}))
  }

  function TouchedBy(keys: set<Key>, nodes: set<NodeId>): set<NodeId> { (set k | k in keys :: k.0) + nodes }

  function ChangesOf(keys: set<Key>, nodes: set<NodeId>, noted: map<Key, Noted>,
                     newNodes: set<NodeId>): map<NodeId, NodeChange> {
    map n | n in TouchedBy(keys, nodes) :: ChangeOf(n, keys, nodes, noted, newNodes)
  }

  function BatchOf(changes: map<NodeId, NodeChange>, batchMax: nat): Batch {
    if |changes| > batchMax then Overflow else Changes(changes)
  }

  /** What the write path noted since the last drain. */
  class Pending {
    var keys: map<Key, Noted>
    var newNodes: set<NodeId>

    constructor ()
      ensures keys == map[] && newNodes == {}
    {
      keys, newNodes := map[], {};
    }

    /** A row with label `access` was written on `key`. */
    method Note(key: Key, access: Option<Label>)
      modifies `keys
      ensures keys == old(keys)[key := GetOr(old(keys), key, {}) + {access}]
    {
      keys := keys[key := GetOr(keys, key, {}) + {access}];
    }

    /** `node` got its first type or label. */
    method NoteNew(node: NodeId)
      modifies `newNodes
      ensures newNodes == old(newNodes) + {node}
    {
      newNodes := newNodes + {node};
    }

    method Clear()
      modifies this
      ensures keys == map[] && newNodes == {}
    {
      keys, newNodes := map[], {};
    }
  }

  // --- what a principal sees of a batch --------------------------------------------------------

  /** Whether a touched predicate shows: some row the batch wrote on it is visible; without noted labels,
      the key as it stands decides. */
  predicate PredShown(s: Snapshot, m: FactMask, n: NodeId, p: FieldId, noted: Noted) {
    || !m.HidesAny(s)
    || if noted == {} then !m.KeyAffected(s, (n, p)) else exists l :: l in noted && m.RowVisible(p, l)
  }

  function ShownPreds(s: Snapshot, m: FactMask, names: Names, n: NodeId, c: NodeChange): set<Text> {
    set p | p in c.preds && p in names && PredShown(s, m, n, p, c.preds[p]) :: names[p]
  }

  predicate NodeShown(s: Snapshot, m: FactMask, names: Names, n: NodeId, c: NodeChange) {
    NodeVisible(s, n, m.allowed) && (c.attrs || ShownPreds(s, m, names, n, c) != {})
  }

  function ShownOf(s: Snapshot, m: FactMask, names: Names, n: NodeId, c: NodeChange): Shown {
    Shown(if n in s.nodeTypes then Get(names, s.nodeTypes[n]) else None, ShownPreds(s, m, names, n, c), c.isNew)
  }

  function VisibleChanges(s: Snapshot, m: FactMask, names: Names, changes: map<NodeId, NodeChange>): map<NodeId, Shown> {
    map n | n in changes && NodeShown(s, m, names, n, changes[n]) :: ShownOf(s, m, names, n, changes[n])
  }

  /** Hidden rows on a predicate that also has a visible one, or on one the batch shows nothing of, are
      invisible: a reader gets the same change with and without them. */
  lemma HiddenRowsUnseen(s: Snapshot, m: FactMask, names: Names, n: NodeId, c: NodeChange, p: FieldId, l: Option<Label>)
    requires p in c.preds && c.preds[p] != {} && m.HidesAny(s) && !m.RowVisible(p, l)
    ensures var d := c.(preds := c.preds[p := c.preds[p] + {l}]);
      ShownOf(s, m, names, n, d) == ShownOf(s, m, names, n, c)
        && (NodeShown(s, m, names, n, d) <==> NodeShown(s, m, names, n, c))
  {
    var d := c.(preds := c.preds[p := c.preds[p] + {l}]);
    assert PredShown(s, m, n, p, d.preds[p]) == PredShown(s, m, n, p, c.preds[p]);
    assert forall q :: q in c.preds ==> PredShown(s, m, n, q, d.preds[q]) == PredShown(s, m, n, q, c.preds[q]);
    assert ShownPreds(s, m, names, n, d) == ShownPreds(s, m, names, n, c);
  }

  /** A node the principal may not see never appears, whatever the batch did to it. */
  lemma HiddenNodeUnseen(s: Snapshot, m: FactMask, names: Names, n: NodeId, changes: map<NodeId, NodeChange>)
    requires !NodeVisible(s, n, m.allowed)
    ensures VisibleChanges(s, m, names, changes) == VisibleChanges(s, m, names, changes - {n})
    ensures n !in VisibleChanges(s, m, names, changes)
  {
    assert forall x :: x in changes && x != n ==> x in changes - {n} && (changes - {n})[x] == changes[x];
  }

  /** Under a mask that hides nothing of the snapshot a principal that sees every node is told of every touched node
      whose attributes were written or some of whose touched predicates have a name: its type, all those names, and
      whether it is new. */
  lemma OpenReaderSees(s: Snapshot, m: FactMask, names: Names, changes: map<NodeId, NodeChange>)
    requires !m.HidesAny(s) && forall n :: NodeVisible(s, n, m.allowed)
    ensures var seen := VisibleChanges(s, m, names, changes);
      && (forall n :: n in seen <==>
           n in changes && (changes[n].attrs || exists p :: p in changes[n].preds && p in names))
      && forall n :: n in seen ==>
           && (seen[n].isNew <==> changes[n].isNew)
           && (forall t :: t in seen[n].preds <==> exists p :: p in changes[n].preds && p in names && names[p] == t)
           && (forall t :: seen[n].ty == Some(t) <==> n in s.nodeTypes && Get(names, s.nodeTypes[n]) == Some(t))
  {
    hide FactMask.HidesAny, NodeVisible;
    forall n | n in changes && exists p :: p in changes[n].preds && p in names
      ensures ShownPreds(s, m, names, n, changes[n]) != {}
    {
      var p :| p in changes[n].preds && p in names;
      assert names[p] in ShownPreds(s, m, names, n, changes[n]);
    }
  }

  /** A predicate whose floor the principal is not allowed never shows: whatever rows the batch wrote or removed on it,
      the principal is told what it would be told if the batch had not touched it. */
  lemma FloorUnseen(s: Snapshot, m: FactMask, names: Names, changes: map<NodeId, NodeChange>, n: NodeId, p: FieldId)
    requires m.PredicateHidden(p) && n in changes
    ensures VisibleChanges(s, m, names, changes) ==
      VisibleChanges(s, m, names, changes[n := changes[n].(preds := changes[n].preds - {p})])
  {
    var c, d := changes[n], changes[n].(preds := changes[n].preds - {p});
    FloorHides(s, m, n, p);
    assert forall q :: q in d.preds <==> q in c.preds && q != p;
    hide PredShown;
    assert ShownPreds(s, m, names, n, c) == ShownPreds(s, m, names, n, d);
    var more := changes[n := d];
    assert ShownOf(s, m, names, n, c) == ShownOf(s, m, names, n, d);
    assert VisibleChanges(s, m, names, changes) == VisibleChanges(s, m, names, more);
  }

  lemma FloorHides(s: Snapshot, m: FactMask, n: NodeId, p: FieldId)
    requires m.PredicateHidden(p)
    ensures m.HidesAny(s) && forall noted :: !PredShown(s, m, n, p, noted)
  {
    assert p in m.floors && !LabelAllowed(m.allowed, m.floors[p]);
  }

  /** A retraction notes no label: the predicate it touched shows exactly when every labeled row still live there is
      visible, so what hides a row hides that one was removed beside it. */
  lemma UnnotedShown(s: Snapshot, m: FactMask, n: NodeId, p: FieldId)
    requires s.labelCounts == Counts(s.factLabels)
    ensures PredShown(s, m, n, p, {}) <==>
      && !m.PredicateHidden(p)
      && forall ok :: ok in GetOr(s.factLabels, (n, p), map[]) ==> m.RowVisible(p, Some(s.factLabels[(n, p)][ok]))
  {
    if m.PredicateHidden(p) {
      FloorHides(s, m, n, p);
    } else if !m.HidesAny(s) {
      forall ok | ok in GetOr(s.factLabels, (n, p), map[])
        ensures m.RowVisible(p, Some(s.factLabels[(n, p)][ok]))
      {
        assert s.factLabels[(n, p)][ok] in LabelsIn(s.factLabels);
        assert s.factLabels[(n, p)][ok] in s.labelCounts;
      }
    }
  }

  // --- the reference: every batch ever recorded ------------------------------------------------

  predicate InWindow(e: Entry, since: nat, head: nat) { since < e.head <= head }

  /** The visible part of every batch after `since` up to `head`, oldest first, those that show anything. */
  function VisibleAfter(all: seq<Entry>, since: nat, head: nat, s: Snapshot, m: FactMask,
                        names: Names): seq<(nat, map<NodeId, Shown>)> {
    if all == [] then []
    else
      var e, rest := all[|all| - 1], VisibleAfter(all[..|all| - 1], since, head, s, m, names);
      if InWindow(e, since, head) && e.batch.Changes? && VisibleChanges(s, m, names, e.batch.changes) != map[]
      then rest + [(e.head, VisibleChanges(s, m, names, e.batch.changes))] else rest
  }

  lemma {:induction false} VisibleConcat(a: seq<Entry>, b: seq<Entry>, since: nat, head: nat, s: Snapshot,
                                         m: FactMask, names: Names)
    ensures VisibleAfter(a + b, since, head, s, m, names)
         == VisibleAfter(a, since, head, s, m, names) + VisibleAfter(b, since, head, s, m, names)
    decreases |b|
  {
    hide VisibleChanges;
    if b == [] {
      assert a + b == a;
    } else {
      assert (a + b)[..|a + b| - 1] == a + b[..|b| - 1];
      VisibleConcat(a, b[..|b| - 1], since, head, s, m, names);
    }
  }

  lemma {:induction false} VisibleNone(a: seq<Entry>, since: nat, head: nat, s: Snapshot, m: FactMask, names: Names)
    requires forall i :: 0 <= i < |a| ==> !InWindow(a[i], since, head)
    ensures VisibleAfter(a, since, head, s, m, names) == []
    decreases |a|
  {
    if a != [] {
      VisibleNone(a[..|a| - 1], since, head, s, m, names);
    }
  }

  /** Heads never fall; a batch drained before its sync shares the head of the batch before. */
  ghost predicate OrderedHeads(all: seq<Entry>) {
    forall i, j :: 0 <= i < j < |all| ==> all[i].head <= all[j].head
  }

  /** Reading up to `mid` and then on from there is reading it all at once. */
  lemma {:induction false} ReadsCompose(all: seq<Entry>, since: nat, mid: nat, head: nat, s: Snapshot, m: FactMask,
                                        names: Names)
    requires OrderedHeads(all) && since <= mid <= head
    ensures VisibleAfter(all, since, head, s, m, names)
         == VisibleAfter(all, since, mid, s, m, names) + VisibleAfter(all, mid, head, s, m, names)
    decreases |all|
  {
    hide VisibleChanges;
    if all != [] {
      var n := |all| - 1;
      LastHighest(all);
      hide OrderedHeads;
      ReadsCompose(all[..n], since, mid, head, s, m, names);
      if all[n].head <= mid {
        VisibleNone(all[..n], mid, head, s, m, names);
      }
    }
  }

  lemma LastHighest(all: seq<Entry>)
    requires OrderedHeads(all) && all != []
    ensures var n := |all| - 1;
      OrderedHeads(all[..n]) && forall i :: 0 <= i < n ==> all[..n][i].head <= all[n].head
  {
  }

  // --- the bounded journal ---------------------------------------------------------------------

  function WeightOf(entries: seq<Entry>): nat {
    if entries == [] then 0 else WeightOf(entries[..|entries| - 1]) + entries[|entries| - 1].batch.Weight()
  }

  lemma {:induction false} WeightDropFirst(entries: seq<Entry>)
    requires entries != []
    ensures WeightOf(entries) == entries[0].batch.Weight() + WeightOf(entries[1..])
    decreases |entries|
  {
    var n := |entries| - 1;
    if n > 0 {
      WeightDropFirst(entries[..n]);
      assert entries[..n][1..] == entries[1..][..n - 1];
    }
  }

  lemma VisibleSnoc(all: seq<Entry>, e: Entry, since: nat, head: nat, s: Snapshot, m: FactMask, names: Names)
    ensures VisibleAfter(all + [e], since, head, s, m, names) ==
      var rest := VisibleAfter(all, since, head, s, m, names);
      if InWindow(e, since, head) && e.batch.Changes? && VisibleChanges(s, m, names, e.batch.changes) != map[]
      then rest + [(e.head, VisibleChanges(s, m, names, e.batch.changes))] else rest
  {
    hide VisibleChanges;
    assert (all + [e])[..|all|] == all;
  }

  /** Walk the retained batches; one too large to have been journaled ends the walk. */
  method ReadEntries(entries: seq<Entry>, since: nat, head: nat, s: Snapshot, m: FactMask, names: Names)
    returns (r: Option<seq<(nat, map<NodeId, Shown>)>>)
    ensures r.None? <==> exists e :: e in entries && InWindow(e, since, head) && e.batch.Overflow?
    ensures r.Some? ==> r.value == VisibleAfter(entries, since, head, s, m, names)
  {
    var batches: seq<(nat, map<NodeId, Shown>)> := [];
    assert VisibleAfter(entries[..0], since, head, s, m, names) == [];
    hide VisibleChanges, VisibleAfter;
    for i := 0 to |entries|
      invariant batches == VisibleAfter(entries[..i], since, head, s, m, names)
      invariant forall e :: e in entries[..i] ==> !(InWindow(e, since, head) && e.batch.Overflow?)
    {
      var e := entries[i];
      assert entries[..i + 1] == entries[..i] + [e];
      VisibleSnoc(entries[..i], e, since, head, s, m, names);
      if since < e.head <= head {
        if e.batch.Overflow? {
          return None;
        }
        var visible := VisibleChanges(s, m, names, e.batch.changes);
        if visible != map[] {
          batches := batches + [(e.head, visible)];
        }
      }
    }
    assert entries[..|entries|] == entries;
    return Some(batches);
  }

  lemma SomethingHeld(entries: seq<Entry>)
    requires WeightOf(entries) > 0
    ensures entries != []
  {
  }

  /** What the batches recorded after a cursor weigh together. */
  function WeightAfter(all: seq<Entry>, since: nat): nat {
    if all == [] then 0
    else
      var e := all[|all| - 1];
      WeightAfter(all[..|all| - 1], since) + if since < e.head then e.batch.Weight() else 0
  }

  /** With the batches up to the cursor in front, those after it are the rest. */
  lemma {:induction false} WeightAfterSuffix(all: seq<Entry>, since: nat, k: nat)
    requires k <= |all| && forall i :: 0 <= i < k ==> all[i].head <= since
    ensures WeightAfter(all, since) <= WeightOf(all[k..])
    ensures (forall i :: k <= i < |all| ==> since < all[i].head) ==> WeightAfter(all, since) == WeightOf(all[k..])
    decreases |all|
  {
    if all != [] {
      var n := |all| - 1;
      if k <= n {
        WeightAfterSuffix(all[..n], since, k);
        assert all[k..][..n - k] == all[..n][k..];
      } else {
        WeightAfterSuffix(all[..n], since, n);
      }
    }
  }

  /** Batches that all lie after the cursor weigh no more than all that do. */
  lemma {:induction false} WeightAfterMore(all: seq<Entry>, since: nat, k: nat)
    requires k <= |all| && forall i :: k <= i < |all| ==> since < all[i].head
    ensures WeightOf(all[k..]) <= WeightAfter(all, since)
    decreases |all|
  {
    if k < |all| {
      var n := |all| - 1;
      WeightAfterMore(all[..n], since, k);
      assert all[k..][..n - k] == all[..n][k..];
    }
  }

  lemma WeightSnoc(entries: seq<Entry>, e: Entry)
    ensures WeightOf(entries + [e]) == WeightOf(entries) + e.batch.Weight()
  {
    assert (entries + [e])[..|entries|] == entries;
  }

  class Journal {
    var entries: seq<Entry>
    var held: nat
    var truncatedTo: nat
    const cap: nat
    const batchMax: nat
    /** Every batch since the journal began, of which `entries` keeps the last. */
    ghost var all: seq<Entry>
    ghost var began: nat

    ghost predicate Suffix()
      reads `entries, `truncatedTo, `all, `began
    {
      && |entries| <= |all|
      && entries == all[|all| - |entries|..]
      && OrderedHeads(all)
      && (forall i :: 0 <= i < |all| ==> began <= all[i].head)
      && truncatedTo == if |entries| == |all| then began else all[|all| - |entries| - 1].head
    }

    /** Nothing was dropped that would have fitted. */
    ghost predicate Full()
      reads `entries, `all
    {
      |entries| <= |all| && (|entries| < |all| ==> WeightOf(all[|all| - |entries| - 1..]) > cap)
    }

    ghost predicate Valid()
      reads this
    {
      Suffix() && Full() && held == WeightOf(entries) <= cap
    }

    /** Nothing before the current head is known. */
    constructor (head: nat, cap: nat, batchMax: nat)
      ensures Valid() && all == [] && began == head && this.cap == cap && this.batchMax == batchMax
    {
      entries, held, truncatedTo, this.cap, this.batchMax, all, began := [], 0, head, cap, batchMax, [], head;
    }

    /** The database was cleared and its head restarts from zero. */
    method Reset()
      modifies this
      ensures Valid() && all == entries == [] && began == truncatedTo == 0
    {
      entries, held, truncatedTo, all, began := [], 0, 0, [], 0;
    }

    /** The changes of a batch, per node. */
    method Gather(keys: set<Key>, nodes: set<NodeId>, pending: Pending) returns (byNode: map<NodeId, NodeChange>)
      ensures byNode == ChangesOf(keys, nodes, pending.keys, pending.newNodes)
    {
      byNode := GatherKeys(keys, pending.keys);
      ghost var touched := byNode;
      var left := nodes;
      while left != {}
        invariant left <= nodes
        invariant forall n :: n in byNode <==> n in touched || (n in nodes && n !in left)
        invariant forall n :: n in byNode ==>
          byNode[n] == ChangeOf(n, keys, if n in left then {} else nodes, pending.keys, pending.newNodes)
      {
        var n :| n in left;
        var c := GetOr(byNode, n, NodeChange(false, false, map[]));
        assert n !in byNode ==> PredsOf(n, keys) == {};
        byNode := byNode[n := c.(attrs := true, isNew := n in pending.newNodes)];
        left := left - {n};
      }
    }

    method GatherKeys(keys: set<Key>, noted: map<Key, Noted>) returns (byNode: map<NodeId, NodeChange>)
      ensures forall n :: n in byNode <==> exists k :: k in keys && k.0 == n
      ensures forall n :: n in byNode ==> byNode[n] == ChangeOf(n, keys, {}, noted, {})
    {
      byNode := map[];
      var left := keys;
      while left != {}
        invariant left <= keys
        invariant forall n :: n in byNode <==> exists k :: k in keys - left && k.0 == n
        invariant forall n :: n in byNode ==> byNode[n] == ChangeOf(n, keys - left, {}, noted, {})
      {
        var k :| k in left;
        var c := GetOr(byNode, k.0, NodeChange(false, false, map[]));
        GatherOne(keys - left, k, noted, byNode, c);
        assert keys - (left - {k}) == keys - left + {k};
        byNode := byNode[k.0 := c.(preds := c.preds[k.1 := GetOr(noted, k, {})])];
        left := left - {k};
      }
      assert keys - left == keys;
    }

    /** One more touched key joins its node's change and leaves the others alone. */
    lemma GatherOne(done: set<Key>, k: Key, noted: map<Key, Noted>, byNode: map<NodeId, NodeChange>, c: NodeChange)
      requires forall n :: n in byNode <==> exists x :: x in done && x.0 == n
      requires c == if k.0 in byNode then byNode[k.0] else NodeChange(false, false, map[])
      requires k.0 in byNode ==> c == ChangeOf(k.0, done, {}, noted, {})
      ensures c.(preds := c.preds[k.1 := GetOr(noted, k, {})]) == ChangeOf(k.0, done + {k}, {}, noted, {})
      ensures forall n :: n != k.0 ==> ChangeOf(n, done + {k}, {}, noted, {}) == ChangeOf(n, done, {}, noted, {})
      ensures forall n :: (exists x :: x in done + {k} && x.0 == n) <==> n in byNode || n == k.0
    {
      assert PredsOf(k.0, done + {k}) == PredsOf(k.0, done) + {k.1};
      if k.0 !in byNode {
        assert PredsOf(k.0, done) == {};
      }
      forall n | n != k.0
        ensures ChangeOf(n, done + {k}, {}, noted, {}) == ChangeOf(n, done, {}, noted, {})
      {
        assert PredsOf(n, done + {k}) == PredsOf(n, done);
      }
      assert k in done + {k};
    }

    /** Journal one drained batch; what the write path noted is consumed. */
    method Record(head: nat, keys: set<Key>, nodes: set<NodeId>, pending: Pending)
      requires Valid() && began <= head && forall i :: 0 <= i < |all| ==> all[i].head <= head
      modifies this, pending
      ensures Valid() && began == old(began) && pending.keys == map[] && pending.newNodes == {}
      ensures var changes := ChangesOf(keys, nodes, old(pending.keys), old(pending.newNodes));
        all == if changes == map[] then old(all) else old(all) + [Entry(head, BatchOf(changes, batchMax))]
    {
      hide ChangesOf, WeightOf, Suffix, Full;
      var byNode := Gather(keys, nodes, pending);
      pending.Clear();
      if byNode == map[] {
        return;
      }
      Push(Entry(head, if |byNode| > batchMax then Overflow else Changes(byNode)));
      Trim();
    }

    /** Append a batch at the newest end. */
    method Push(e: Entry)
      requires Suffix() && Full() && held == WeightOf(entries)
      requires began <= e.head && forall i :: 0 <= i < |all| ==> all[i].head <= e.head
      modifies `entries, `held, `all
      ensures Suffix() && Full() && held == WeightOf(entries) && all == old(all) + [e]
    {
      hide WeightOf;
      var k := |all| - |entries| - 1;
      if 0 <= k {
        WeightSnoc(all[k..], e);
        assert (all + [e])[k..] == all[k..] + [e];
      }
      held := held + e.batch.Weight();
      WeightSnoc(entries, e);
      all := all + [e];
      entries := entries + [e];
      assert all[|all| - |entries|..] == entries;
    }

    /** Drop the oldest batch and remember how far the journal has forgotten. */
    method DropOldest()
      requires Suffix() && entries != [] && WeightOf(entries) > cap
      modifies `entries, `truncatedTo
      ensures Suffix() && Full() && entries == old(entries)[1..]
    {
      hide WeightOf;
      truncatedTo := entries[0].head;
      entries := entries[1..];
      assert all[|all| - |entries|..] == entries;
      assert old(entries)[0] == all[|all| - |entries| - 1];
    }

    /** Drop the oldest batches while the journal holds more than its cap. */
    method Trim()
      requires Suffix() && Full() && held == WeightOf(entries)
      modifies `entries, `held, `truncatedTo
      ensures Valid()
    {
      hide Suffix, Full;
      while held > cap
        invariant Suffix() && Full() && held == WeightOf(entries)
        decreases |entries|
      {
        SomethingHeld(entries);
        WeightDropFirst(entries);
        held := held - entries[0].batch.Weight();
        DropOldest();
      }
    }

    /** The changes after `since` up to `head`, as a principal sees them: exact over every batch ever
        recorded, or a resync. */
    method Read(since: nat, head: nat, s: Snapshot, m: FactMask, names: Names) returns (r: Answer)
      requires Valid()
      ensures r.head == head
      ensures r.resync <==>
        || since > head || since < began || WeightAfter(all, since) > cap
        || exists e :: e in all && InWindow(e, since, head) && e.batch.Overflow?
      ensures r.batches == if r.resync then [] else VisibleAfter(all, since, head, s, m, names)
    {
      BeganFirst();
      if began <= since {
        TruncationIsTight(since);
      }
      if since > head || since < truncatedTo {
        return Answer(head, [], true);
      }
      RetainedIsEnough(since, head, s, m, names);
      hide VisibleAfter, Suffix, WeightOf;
      var batches := ReadEntries(entries, since, head, s, m, names);
      return if batches.None? then Answer(head, [], true) else Answer(head, batches.value, false);
    }

    lemma BeganFirst()
      requires Valid()
      ensures began <= truncatedTo
    {
    }

    /** Past the truncation mark, the retained batches are all there is. */
    lemma RetainedIsEnough(since: nat, head: nat, s: Snapshot, m: FactMask, names: Names)
      requires Valid() && truncatedTo <= since
      ensures VisibleAfter(all, since, head, s, m, names) == VisibleAfter(entries, since, head, s, m, names)
      ensures forall e :: e in all && InWindow(e, since, head) <==> e in entries && InWindow(e, since, head)
    {
      hide VisibleAfter;
      var dropped := all[..|all| - |entries|];
      assert all == dropped + entries;
      assert forall i :: 0 <= i < |dropped| ==> dropped[i] == all[i] && !InWindow(dropped[i], since, head);
      VisibleConcat(dropped, entries, since, head, s, m, names);
      VisibleNone(dropped, since, head, s, m, names);
    }

    /** A cursor from within the journal's time resyncs for truncation only when a batch after it was dropped, and that is
        when the batches recorded after it weigh more than the cap. */
    lemma TruncationIsTight(since: nat)
      requires Valid() && began <= since
      ensures since < truncatedTo <==> exists i :: 0 <= i < |all| - |entries| && since < all[i].head
      ensures since < truncatedTo <==> WeightAfter(all, since) > cap
    {
      hide WeightOf, WeightAfter;
      var n := |all| - |entries|;
      if i :| 0 <= i < n && since < all[i].head {
        assert i < n - 1 ==> all[i].head <= all[n - 1].head;
      }
      if since < truncatedTo {
        assert forall i :: n - 1 <= i < |all| ==> all[n - 1].head <= all[i].head;
        WeightAfterMore(all, since, n - 1);
      } else {
        assert forall i :: 0 <= i < n ==> all[i].head <= since;
        WeightAfterSuffix(all, since, n);
      }
    }
  }

  lemma SomethingTouched(keys: set<Key>, nodes: set<NodeId>, noted: map<Key, Noted>, newNodes: set<NodeId>)
    requires keys != {} || nodes != {}
    ensures ChangesOf(keys, nodes, noted, newNodes) != map[]
  {
    if k :| k in keys {
      assert k.0 in ChangesOf(keys, nodes, noted, newNodes);
    } else {
      var n :| n in nodes;
      assert n in ChangesOf(keys, nodes, noted, newNodes);
    }
  }

  /** A drain that touched something always journals a batch. */
  method RecordSome(j: Journal, keys: set<Key>, nodes: set<NodeId>, pending: Pending, head: nat)
    requires j.Valid() && j.began <= head && forall i :: 0 <= i < |j.all| ==> j.all[i].head <= head
    requires keys != {} || nodes != {}
    modifies j, pending
    ensures j.Valid() && j.began == old(j.began) && pending.keys == map[] && pending.newNodes == {}
    ensures var changes := ChangesOf(keys, nodes, old(pending.keys), old(pending.newNodes));
      j.all == old(j.all) + [Entry(head, BatchOf(changes, j.batchMax))]
    ensures forall i :: 0 <= i < |j.all| ==> j.all[i].head <= head
  {
    hide ChangesOf, BatchOf, Journal.Valid;
    SomethingTouched(keys, nodes, pending.keys, pending.newNodes);
    j.Record(head, keys, nodes, pending);
  }

  /** After a cursor that no batch lies above there is nothing to read. */
  lemma NothingAfter(all: seq<Entry>, since: nat, head: nat, s: Snapshot, m: FactMask, names: Names)
    requires forall i :: 0 <= i < |all| ==> all[i].head <= since
    ensures WeightAfter(all, since) == 0 && VisibleAfter(all, since, head, s, m, names) == []
    ensures forall e :: e in all ==> !InWindow(e, since, head)
  {
    WeightAfterSuffix(all, since, |all|);
    VisibleNone(all, since, head, s, m, names);
  }

  /** A batch recorded at the reader's own head is never read: up to any later head the journal tells that reader
      nothing of it, and asks for no resync either. */
  method OwnHeadUnread(j: Journal, since: nat, keys: set<Key>, nodes: set<NodeId>, pending: Pending, head: nat,
                       s: Snapshot, m: FactMask, names: Names) returns (r: Answer)
    requires j.Valid() && j.began <= since <= head && forall i :: 0 <= i < |j.all| ==> j.all[i].head <= since
    requires keys != {} || nodes != {}
    modifies j, pending
    ensures |j.all| == |old(j.all)| + 1 && j.all[..|old(j.all)|] == old(j.all) && j.all[|old(j.all)|].head == since
    ensures !r.resync && r.batches == []
  {
    hide ChangesOf, BatchOf, VisibleAfter, WeightAfter, InWindow, Journal.Valid;
    RecordSome(j, keys, nodes, pending, since);
    NothingAfter(j.all, since, head, s, m, names);
    r := j.Read(since, head, s, m, names);
  }

  // --- from the writes to the journal ----------------------------------------------------------

  /** What the write path notes: a row written on a key, with its label; a node that gets its first attribute. */
  datatype Noting = RowNoted(key: Key, access: Option<Label>) | NodeNoted(node: NodeId)

  method NoteAll(pending: Pending, writes: seq<Noting>)
    requires pending.keys == map[] && pending.newNodes == {}
    modifies pending
    ensures forall k, l :: l in GetOr(pending.keys, k, {}) <==> RowNoted(k, l) in writes
    ensures forall n :: n in pending.newNodes <==> NodeNoted(n) in writes
  {
    for i := 0 to |writes|
      invariant forall k, l :: l in GetOr(pending.keys, k, {}) <==> RowNoted(k, l) in writes[..i]
      invariant forall n :: n in pending.newNodes <==> NodeNoted(n) in writes[..i]
    {
      assert writes[..i + 1] == writes[..i] + [writes[i]];
      match writes[i]
      case RowNoted(k, l) => pending.Note(k, l);
      case NodeNoted(n) => pending.NoteNew(n);
    }
    assert writes[..|writes|] == writes;
  }

  /** Told from the writes noted: an overflow marker exactly when more nodes were touched than a batch may hold; else one
      change for every node touched, with exactly the predicates touched, under each exactly the labels of the rows
      noted on it, and new exactly when its attributes were touched and it was noted as new. */
  ghost predicate Tells(b: Batch, writes: seq<Noting>, keys: set<Key>, nodes: set<NodeId>, batchMax: nat) {
    && (b.Overflow? <==> |TouchedBy(keys, nodes)| > batchMax)
    && (b.Changes? ==>
         && b.changes.Keys == TouchedBy(keys, nodes)
         && forall n :: n in b.changes ==> TellsNode(b.changes[n], writes, keys, nodes, n))
  }

  ghost predicate TellsNode(c: NodeChange, writes: seq<Noting>, keys: set<Key>, nodes: set<NodeId>, n: NodeId) {
    && (c.attrs <==> n in nodes)
    && (c.isNew <==> n in nodes && NodeNoted(n) in writes)
    && (forall p :: p in c.preds <==> (n, p) in keys)
    && (forall p, l :: p in c.preds ==> (l in c.preds[p] <==> RowNoted((n, p), l) in writes))
  }

  lemma NotedTells(writes: seq<Noting>, keys: set<Key>, nodes: set<NodeId>, noted: map<Key, Noted>,
                   newNodes: set<NodeId>, batchMax: nat)
    requires forall k, l :: l in GetOr(noted, k, {}) <==> RowNoted(k, l) in writes
    requires forall n :: n in newNodes <==> NodeNoted(n) in writes
    ensures Tells(BatchOf(ChangesOf(keys, nodes, noted, newNodes), batchMax), writes, keys, nodes, batchMax)
  {
    var changes := ChangesOf(keys, nodes, noted, newNodes);
    assert changes.Keys == TouchedBy(keys, nodes);
    assert |changes| == |changes.Keys|;
    hide TouchedBy;
    forall n | n in changes
      ensures TellsNode(changes[n], writes, keys, nodes, n)
    {
      TouchedPreds(n, keys);
      hide PredsOf;
    }
  }

  lemma TouchedPreds(n: NodeId, keys: set<Key>)
    ensures forall p :: p in PredsOf(n, keys) <==> (n, p) in keys
  {
    assert forall p :: (n, p) in keys ==> (n, p).1 in PredsOf(n, keys);
  }

  /** The batch that a drain records tells what was written since the last one, and consumes what was noted of it. */
  method RecordWrites(j: Journal, pending: Pending, writes: seq<Noting>, head: nat, keys: set<Key>, nodes: set<NodeId>)
    requires j.Valid() && j.began <= head && forall i :: 0 <= i < |j.all| ==> j.all[i].head <= head
    requires pending.keys == map[] && pending.newNodes == {} && (keys != {} || nodes != {})
    modifies j, pending
    ensures j.Valid() && |j.all| == |old(j.all)| + 1 && j.all[..|old(j.all)|] == old(j.all)
    ensures pending.keys == map[] && pending.newNodes == {}
    ensures var e := j.all[|old(j.all)|]; e.head == head && Tells(e.batch, writes, keys, nodes, j.batchMax)
  {
    hide Tells, BatchOf, ChangesOf, Journal.Valid;
    NoteAll(pending, writes);
    NotedTells(writes, keys, nodes, pending.keys, pending.newNodes, j.batchMax);
    RecordSome(j, keys, nodes, pending, head);
  }
}
