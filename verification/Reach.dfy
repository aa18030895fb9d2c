/** Property-aware expansion: symmetric, inverse and bounded transitive reads of a predicate. */
module Reach {
  import opened Types
  import opened Rows
  import opened Snapshots
  import opened Queries

  /** How a predicate is expanded at query time. */
  datatype RelProps = RelProps(symmetric: bool, transitive: bool, inverse: Option<FieldId>)

  /** The elements of a Many key in effect at `at`: per element, the rule of the One as-of read. */
  function PointManyAsOf(v: View, k: Key, at: i64): set<ObjKey> {
    var rows: History := GetOr(v.manyRows, k, map[]);
    set o | o in rows.Keys && AsOf(rows[o], at).Some?
  }

  function NodesIn(os: set<ObjKey>): set<NodeId> { set o | o in os && o.Node? :: o.node }

  /** The node-valued neighbours of `n` by `p`, now or at an instant: the edges stored at `n`. */
  function Neighbours(v: View, n: NodeId, p: FieldId, at: Option<i64>): set<NodeId> {
    var one := if at.None? then PointOne(v, (n, p)) else PointOneAsOf(v, (n, p), at.value);
    var many := if at.None? then GetOr(v.many, (n, p), {}) else PointManyAsOf(v, (n, p), at.value);
    (if one.Some? && one.value.Node? then {one.value.node} else {}) + NodesIn(many)
  }

  type Adjacency = map<NodeId, set<NodeId>>

  function AddAll(rev: Adjacency, to: set<NodeId>, s: NodeId): (r: Adjacency)
    ensures forall o :: GetOr(r, o, {}) == GetOr(rev, o, {}) + if o in to then {s} else {}
  {
    map o | o in rev.Keys + to :: GetOr(rev, o, {}) + if o in to then {s} else {}
  }

  /** What the One key, and what the Many key, of a subject contributes. */
  function OnePart(v: View, s: NodeId, p: FieldId, at: Option<i64>): set<NodeId> {
    var one := if at.None? then PointOne(v, (s, p)) else PointOneAsOf(v, (s, p), at.value);
    if one.Some? && one.value.Node? then {one.value.node} else {}
  }

  function ManyPart(v: View, s: NodeId, p: FieldId, at: Option<i64>): set<NodeId> {
    NodesIn(if at.None? then GetOr(v.many, (s, p), {}) else PointManyAsOf(v, (s, p), at.value))
  }

  /** One pass of the scan: every key of `keys` with predicate `p` adds its subject under what it points at. */
  method AddEdges(init: Adjacency, keys: set<Key>, p: FieldId, part: NodeId -> set<NodeId>) returns (rev: Adjacency)
    ensures forall s, o :: s in GetOr(rev, o, {}) <==> s in GetOr(init, o, {}) || ((s, p) in keys && o in part(s))
  {
    rev := init;
    var todo := keys;
    while todo != {}
      invariant todo <= keys
      invariant forall s, o :: s in GetOr(rev, o, {}) <==>
        s in GetOr(init, o, {}) || ((s, p) in keys && (s, p) !in todo && o in part(s))
    {
      var k :| k in todo;
      if k.1 == p {
        assert k == (k.0, p);
        rev := AddAll(rev, part(k.0), k.0);
      }
      todo := todo - {k};
    }
  }

  lemma NoKeyNoPart(v: View, p: FieldId, at: Option<i64>, s: NodeId)
    ensures (s, p) !in (if at.None? then v.one.Keys else v.oneRows.Keys) ==> OnePart(v, s, p, at) == {}
    ensures (s, p) !in (if at.None? then v.many.Keys else v.manyRows.Keys) ==> ManyPart(v, s, p, at) == {}
  {
  }

  /** Reverse adjacency of one predicate, by one scan of the One keys and one of the Many keys: exactly the
      converse of the forward expansion. */
  method ReverseAdjacency(v: View, p: FieldId, at: Option<i64>) returns (rev: Adjacency)
    ensures forall s, o :: s in GetOr(rev, o, {}) <==> o in Neighbours(v, s, p, at)
  {
    rev := AddEdges(map[], if at.None? then v.one.Keys else v.oneRows.Keys, p, s => OnePart(v, s, p, at));
    rev := AddEdges(rev, if at.None? then v.many.Keys else v.manyRows.Keys, p, s => ManyPart(v, s, p, at));
    forall s
      ensures OnePart(v, s, p, at) + ManyPart(v, s, p, at) == Neighbours(v, s, p, at)
    {
      NoKeyNoPart(v, p, at, s);
    }
    forall s, o
      ensures s in GetOr(rev, o, {}) <==> o in Neighbours(v, s, p, at)
    {
      NoKeyNoPart(v, p, at, s);
    }
  }

  // --- one hop ---------------------------------------------------------------------------------

  type Relation = (NodeId, NodeId) -> bool

  /** One property-aware hop. */
  function StepRelation(v: View, p: FieldId, props: RelProps, at: Option<i64>): Relation {
    (a, b) =>
      || b in Neighbours(v, a, p, at)
      || (props.symmetric && a in Neighbours(v, b, p, at))
      || (props.inverse.Some? && a in Neighbours(v, b, props.inverse.value, at))
  }

  ghost predicate Symmetric(r: Relation) { forall a, b :: r(a, b) <==> r(b, a) }

  /** Every edge of `q` has an edge of `p` beside it, in either direction, or its own reverse. */
  ghost predicate Mirrored(v: View, p: FieldId, q: FieldId, at: Option<i64>) {
    forall a, b :: a in Neighbours(v, b, q, at) ==>
      b in Neighbours(v, a, p, at) || a in Neighbours(v, b, p, at) || b in Neighbours(v, a, q, at)
  }

  /** The one-hop relation of a symmetric predicate is itself symmetric exactly when the predicate declares no
      inverse, or every stored edge of that inverse is mirrored. */
  lemma StepSymmetric(v: View, p: FieldId, props: RelProps, at: Option<i64>)
    requires props.symmetric
    ensures Symmetric(StepRelation(v, p, props, at)) <==>
      (props.inverse.Some? ==> Mirrored(v, p, props.inverse.value, at))
  {
    hide Neighbours;
    var r := StepRelation(v, p, props, at);
    if props.inverse.Some? {
      var q := props.inverse.value;
      if Symmetric(r) {
        forall a, b | a in Neighbours(v, b, q, at)
          ensures b in Neighbours(v, a, p, at) || a in Neighbours(v, b, p, at) || b in Neighbours(v, a, q, at)
        {
          assert r(a, b) && r(b, a);
        }
      }
      if Mirrored(v, p, q, at) {
        forall a, b | r(a, b)
          ensures r(b, a)
        {
        }
      }
    }
  }

  /** An edge of the inverse alone: the expansion goes back over it and never along it. */
  lemma InverseBreaksSymmetry()
    ensures var v := View(map[(1, 2) := Some(ObjKey.Node(3))], map[], map[], map[]);
      var r := StepRelation(v, 1, RelProps(true, false, Some(2)), None);
      r(3, 1) && !r(1, 3) && !Symmetric(r)
  {
    var v := View(map[(1, 2) := Some(ObjKey.Node(3))], map[], map[], map[]);
    var r := StepRelation(v, 1, RelProps(true, false, Some(2)), None);
    assert 3 in Neighbours(v, 1, 2, None);
    assert r(3, 1) && !r(1, 3);
  }

  /** Every stored edge of a declared inverse is walked backwards, whether or not the predicate is also symmetric. */
  lemma InverseWalked(v: View, p: FieldId, props: RelProps, at: Option<i64>, a: NodeId, b: NodeId)
    requires props.inverse.Some? && a in Neighbours(v, b, props.inverse.value, at)
    ensures StepRelation(v, p, props, at)(a, b)
  {
  }

  /** Of two predicates declared as each other's inverse, neither symmetric, one steps from `a` to `b` exactly where the
      other steps from `b` to `a`, whichever of the two the edge is stored under, now or at an instant. */
  lemma InversesConverse(v: View, p: FieldId, q: FieldId, s: bool, t: bool, at: Option<i64>)
    ensures var there, back := StepRelation(v, p, RelProps(false, s, Some(q)), at),
        StepRelation(v, q, RelProps(false, t, Some(p)), at);
      && Converse(there, back)
      && forall a, b :: there(a, b) <==> b in Neighbours(v, a, p, at) || a in Neighbours(v, b, q, at)
  {
    hide Neighbours;
  }

  ghost predicate Converse(r: Relation, q: Relation) { forall a, b :: r(a, b) <==> q(b, a) }

  // --- reading of the stored edges -------------------------------------------------------------

  /** Of the rows that cover the instant, one that no other beats says `o`. */
  ghost predicate InEffect(rows: seq<Row>, at: i64, o: Option<ObjKey>) {
    exists r :: r in rows && Covers(r, at) && r.v.obj == o && Unbeaten(rows, at, r)
  }

  ghost predicate Unbeaten(rows: seq<Row>, at: i64, r: Row) {
    forall x :: x in rows && Covers(x, at) ==> x == r || Beats(r, x)
  }

  lemma AsOfInEffect(rows: seq<Row>, at: i64, o: ObjKey)
    requires Ascending(rows)
    ensures AsOf(rows, at) == Some(o) <==> InEffect(rows, at, Some(o))
  {
    WinnerCorrect(rows, at);
    if r :| r in rows && Covers(r, at) && r.v.obj == Some(o) && Unbeaten(rows, at, r) {
      var w := Winner(rows, at).value;
      assert w in rows && Covers(w, at);
      if w != r {
        SameKeySameRow(rows, w, r);
      }
    }
  }

  lemma SameKeySameRow(rows: seq<Row>, a: Row, b: Row)
    requires Ascending(rows) && a in rows && b in rows && a.ok == b.ok
    ensures a == b
  {
    var i, j :| 0 <= i < |rows| && 0 <= j < |rows| && rows[i] == a && rows[j] == b;
  }

  /** The rows a view lists for the keys of `n` and `p` are sorted. */
  ghost predicate ListsSorted(v: View, n: NodeId, p: FieldId) {
    && Ascending(OneRowsOf(v, (n, p)))
    && forall o :: Ascending(GetOr(GetOr(v.manyRows, (n, p), map[]), o, []))
  }

  /** As of an instant a node is a neighbour exactly when the row in effect of the One key names it, or some row in
      effect of its own element of the Many key is no close. */
  lemma NeighbourAsOf(v: View, n: NodeId, p: FieldId, at: i64, b: NodeId)
    requires ListsSorted(v, n, p)
    ensures b in Neighbours(v, n, p, Some(at)) <==>
      || InEffect(OneRowsOf(v, (n, p)), at, Some(ObjKey.Node(b)))
      || exists o :: InEffect(GetOr(GetOr(v.manyRows, (n, p), map[]), ObjKey.Node(b), []), at, Some(o))
  {
    hide InEffect, Ascending;
    var rows := GetOr(GetOr(v.manyRows, (n, p), map[]), ObjKey.Node(b), []);
    AsOfInEffect(OneRowsOf(v, (n, p)), at, ObjKey.Node(b));
    forall o
      ensures AsOf(rows, at) == Some(o) <==> InEffect(rows, at, Some(o))
    {
      AsOfInEffect(rows, at, o);
    }
    assert AsOf([], at) == None;
    assert b in NodesIn(PointManyAsOf(v, (n, p), at)) <==> ObjKey.Node(b) in PointManyAsOf(v, (n, p), at);
  }

  // --- walks of several hops -------------------------------------------------------------------

  /** `path` is a walk along `r` from `a` to `b`. */
  ghost predicate IsWalk(r: Relation, a: NodeId, b: NodeId, path: seq<NodeId>) {
    && |path| >= 2
    && path[0] == a
    && path[|path| - 1] == b
    && forall i :: 0 <= i < |path| - 1 ==> r(path[i], path[i + 1])
  }

  /** `b` is reachable from `a` by a walk of 1 to `depth` hops. */
  ghost predicate Within(r: Relation, a: NodeId, b: NodeId, depth: nat) {
    exists path :: IsWalk(r, a, b, path) && |path| - 1 <= depth
  }

  /** A walk turned round is a walk along the converse. */
  lemma WithinBack(r: Relation, q: Relation, a: NodeId, b: NodeId, d: nat)
    requires Converse(r, q) && Within(r, a, b, d)
    ensures Within(q, b, a, d)
  {
    var path :| IsWalk(r, a, b, path) && |path| - 1 <= d;
    var n := |path|;
    var back := seq(n, i requires 0 <= i < n => path[n - 1 - i]);
    forall i | 0 <= i < n - 1
      ensures q(back[i], back[i + 1])
    {
      assert r(path[n - 2 - i], path[n - 2 - i + 1]);
    }
    assert IsWalk(q, b, a, back);
  }

  /** So two transitive predicates declared as each other's inverse reach each other's subjects: `b` is within some hops
      of `a` by the one exactly when `a` is within as many hops of `b` by the other. */
  lemma InversesReach(v: View, p: FieldId, q: FieldId, at: Option<i64>, a: NodeId, b: NodeId, d: nat)
    ensures Within(StepRelation(v, p, RelProps(false, true, Some(q)), at), a, b, d)
       <==> Within(StepRelation(v, q, RelProps(false, true, Some(p)), at), b, a, d)
  {
    var there, back := StepRelation(v, p, RelProps(false, true, Some(q)), at),
        StepRelation(v, q, RelProps(false, true, Some(p)), at);
    InversesConverse(v, p, q, true, true, at);
    assert Converse(back, there);
    if Within(there, a, b, d) {
      WithinBack(there, back, a, b, d);
    }
    if Within(back, b, a, d) {
      WithinBack(back, there, b, a, d);
    }
  }

  lemma WithinStart(r: Relation, a: NodeId, b: NodeId)
    ensures Within(r, a, b, 1) <==> r(a, b)
    ensures !Within(r, a, b, 0)
  {
    if r(a, b) {
      assert IsWalk(r, a, b, [a, b]);
    }
  }

  lemma WithinMore(r: Relation, a: NodeId, b: NodeId, d: nat, e: nat)
    requires Within(r, a, b, d) && d <= e
    ensures Within(r, a, b, e)
  {
    var path :| IsWalk(r, a, b, path) && |path| - 1 <= d;
    assert IsWalk(r, a, b, path) && |path| - 1 <= e;
  }

  lemma WithinExtend(r: Relation, a: NodeId, c: NodeId, b: NodeId, d: nat)
    requires Within(r, a, c, d) && r(c, b)
    ensures Within(r, a, b, d + 1)
  {
    var path :| IsWalk(r, a, c, path) && |path| - 1 <= d;
    assert IsWalk(r, a, b, path + [b]);
  }

  /** A walk of at most `d + 1` hops is one of at most `d`, or one such and a hop. */
  lemma WithinLast(r: Relation, a: NodeId, b: NodeId, d: nat) returns (c: NodeId)
    requires d >= 1 && Within(r, a, b, d + 1) && !Within(r, a, b, d)
    ensures Within(r, a, c, d) && r(c, b)
  {
    var path :| IsWalk(r, a, b, path) && |path| - 1 <= d + 1;
    var n := |path| - 1;
    c := path[n - 1];
    assert n == d + 1;
    assert IsWalk(r, a, c, path[..n]) && |path[..n]| - 1 <= d;
  }

  /** When one more hop reaches nothing new, no number of further hops does. */
  lemma {:induction false} Saturated(r: Relation, a: NodeId, d: nat, e: nat)
    requires 1 <= d <= e
    requires forall b :: Within(r, a, b, d + 1) ==> Within(r, a, b, d)
    ensures forall b :: Within(r, a, b, e) <==> Within(r, a, b, d)
    decreases e
  {
    if e > d {
      Saturated(r, a, d, e - 1);
      forall b
        ensures Within(r, a, b, e) <==> Within(r, a, b, d)
      {
        if Within(r, a, b, d) {
          WithinMore(r, a, b, d, e);
        } else if Within(r, a, b, e) && !Within(r, a, b, e - 1) {
          var c := WithinLast(r, a, b, e - 1);
          WithinExtend(r, a, c, b, d);
        }
      }
    }
  }

  // --- the search ------------------------------------------------------------------------------

  function StepSet(v: View, n: NodeId, p: FieldId, at: Option<i64>, revP: Option<Adjacency>,
                   revInv: Option<Adjacency>): set<NodeId> {
    Neighbours(v, n, p, at)
    + (if revP.Some? then GetOr(revP.value, n, {}) else {})
    + (if revInv.Some? then GetOr(revInv.value, n, {}) else {})
  }

  /** The frontier, its unseen part joined to the result, is everything within one more hop. */
  lemma NextFrontier(r: Relation, a: NodeId, hops: nat, result: set<NodeId>, newly: set<NodeId>, next: set<NodeId>)
    requires hops >= 1
    requires forall b :: b in result <==> Within(r, a, b, hops)
    requires forall b :: b in newly <==> b in result && !Within(r, a, b, hops - 1)
    requires forall b :: b in next <==> exists n :: n in newly && r(n, b)
    ensures forall b :: Within(r, a, b, hops + 1) <==> b in result || b in next
  {
    forall b
      ensures Within(r, a, b, hops + 1) <==> b in result || b in next
    {
      if Within(r, a, b, hops + 1) && !Within(r, a, b, hops) {
        var c := WithinLast(r, a, b, hops);
        if Within(r, a, c, hops - 1) {
          WithinExtend(r, a, c, b, hops - 1);
        } else {
          assert c in newly && r(c, b);
        }
      }
      if b in result {
        WithinMore(r, a, b, hops, hops + 1);
      }
      if b in next {
        var n :| n in newly && r(n, b);
        WithinExtend(r, a, n, b, hops);
      }
    }
  }

  /** Bounded breadth-first closure; the result doubles as the visited set. */
  method Closure(v: View, subject: NodeId, p: FieldId, at: Option<i64>, revP: Option<Adjacency>,
                 revInv: Option<Adjacency>,
                 maxDepth: nat, ghost r: Relation) returns (result: set<NodeId>)
    requires forall n, b :: b in StepSet(v, n, p, at, revP, revInv) <==> r(n, b)
    ensures forall b :: b in result <==> Within(r, subject, b, maxDepth)
  {
    result := {};
    forall b
      ensures !Within(r, subject, b, 0) && (Within(r, subject, b, 1) <==> r(subject, b))
    {
      WithinStart(r, subject, b);
    }
    if maxDepth == 0 {
      return;
    }
    var current := StepSet(v, subject, p, at, revP, revInv);
    var hops := 1;
    while true
      invariant 1 <= hops <= maxDepth
      invariant forall b :: b in result <==> Within(r, subject, b, hops - 1)
      invariant forall b :: Within(r, subject, b, hops) <==> b in result || b in current
      decreases maxDepth - hops
    {
      var newly := current - result;
      result := result + newly;
      if hops >= maxDepth || newly == {} {
        if newly == {} && hops < maxDepth {
          assert forall b :: b in current ==> b in result;
          if hops == 1 {
            Fixpoint(r, subject, hops, maxDepth);
          } else {
            Saturated(r, subject, hops - 1, maxDepth);
          }
        }
        break;
      }
      var next := set n, b | n in newly && b in StepSet(v, n, p, at, revP, revInv) :: b;
      NextFrontier(r, subject, hops, result, newly, next);
      current := next - result;
      hops := hops + 1;
    }
  }

  lemma Fixpoint(r: Relation, a: NodeId, d: nat, e: nat)
    requires 1 <= d <= e && forall b :: !Within(r, a, b, d)
    ensures forall b :: !Within(r, a, b, e)
  {
    var more := d + 1;
    forall b
      ensures !Within(r, a, b, more)
    {
      if Within(r, a, b, more) {
        var c := WithinLast(r, a, b, d);
      }
    }
    Saturated(r, a, d, e);
  }

  /** Expand honouring the declared properties: without any, the plain hop; not transitive, one
      property-aware hop; transitive, everything within `maxDepth` of them. */
  method ExpandRel(v: View, subject: NodeId, p: FieldId, props: RelProps, maxDepth: nat, at: Option<i64>)
      returns (result: set<NodeId>)
    ensures !props.transitive ==> forall b :: b in result <==> StepRelation(v, p, props, at)(subject, b)
    ensures props.transitive ==> forall b :: b in result <==> Within(StepRelation(v, p, props, at), subject, b, maxDepth)
  {
    if !props.symmetric && !props.transitive && props.inverse.None? {
      return Neighbours(v, subject, p, at);
    }
    var revP, revInv: Option<Adjacency> := None, None;
    if props.symmetric {
      var rev := ReverseAdjacency(v, p, at);
      revP := Some(rev);
    }
    if props.inverse.Some? {
      var rev := ReverseAdjacency(v, props.inverse.value, at);
      revInv := Some(rev);
    }
    if !props.transitive {
      return StepSet(v, subject, p, at, revP, revInv);
    }
    result := Closure(v, subject, p, at, revP, revInv, maxDepth, StepRelation(v, p, props, at));
  }
}
