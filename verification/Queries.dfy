/** Point reads, valid-time reads and timelines over the facts a reader sees. */
module Queries {
  import opened Types
  import opened Rows
  import opened Folds
  import opened Snapshots

  /** The facts a reader sees: a snapshot's, or a snapshot's through a mask. */
  datatype View = View(
    one: map<Key, Option<ObjKey>>,
    oneRows: map<Key, seq<Row>>,
    many: map<Key, set<ObjKey>>,
    manyRows: map<Key, History>)

  function ViewOf(s: Snapshot): View { View(s.one, s.oneHistory, s.many, s.manyHistory) }

  /** Current value of a One key; nothing when absent or closed. */
  function PointOne(v: View, k: Key): Option<ObjKey> { GetOr(v.one, k, None) }

  /** Whether a row's valid interval covers `at`. */
  predicate Covers(r: Row, at: i64) {
    r.v.validFrom <= at && (r.v.validTo.Some? ==> at < r.v.validTo.value)
  }

  /** Whether `b` wins over `a`: a later start, or the same start and a later write. */
  predicate Beats(b: Row, a: Row) {
    a.v.validFrom < b.v.validFrom || (a.v.validFrom == b.v.validFrom && !b.ok.Less(a.ok))
  }

  /** Among the rows that cover `at`, the one that wins. */
  function Winner(rows: seq<Row>, at: i64): Option<Row> {
    if rows == [] then None
    else
      var r, w := rows[|rows| - 1], Winner(rows[..|rows| - 1], at);
      if Covers(r, at) && (w.None? || Beats(r, w.value)) then Some(r) else w
  }

  /** The value in effect at valid time `at`. */
  function AsOf(rows: seq<Row>, at: i64): Option<ObjKey> {
    if Winner(rows, at).None? then None else Winner(rows, at).value.v.obj
  }

  function OneRowsOf(v: View, k: Key): seq<Row> { GetOr(v.oneRows, k, []) }

  function PointOneAsOf(v: View, k: Key, at: i64): Option<ObjKey> { AsOf(OneRowsOf(v, k), at) }

  /** The winner covers `at`, is listed, and no covering row starts later, or at the same time with a greater key. */
  lemma {:induction false} WinnerCorrect(rows: seq<Row>, at: i64)
    ensures Winner(rows, at).Some? ==> Winner(rows, at).value in rows && Covers(Winner(rows, at).value, at)
    ensures forall r :: r in rows && Covers(r, at) ==>
      && Winner(rows, at).Some?
      && (var w := Winner(rows, at).value; r == w || Beats(w, r))
  {
    if rows != [] {
      var n := |rows| - 1;
      WinnerCorrect(rows[..n], at);
      assert forall r :: r in rows <==> r in rows[..n] || r == rows[n];
    }
  }

  // --- timelines -------------------------------------------------------------------------------

  /** `value` holds over `[from, to)`; no end means it still holds. */
  datatype Segment = Segment(value: ObjKey, from: i64, to: Option<i64>) {
    predicate Holds(t: i64) { from <= t && (to.Some? ==> t < to.value) }

    predicate EndsBy(t: i64) { to.Some? && to.value <= t }
  }

  /** What a list of segments says about instant `t`. */
  function At(segs: seq<Segment>, t: i64): Option<ObjKey> {
    if segs == [] then None
    else if segs[|segs| - 1].Holds(t) then Some(segs[|segs| - 1].value)
    else At(segs[..|segs| - 1], t)
  }

  lemma AtNil()
    ensures forall t :: At([], t) == None
  {
  }

  lemma AtSnoc(segs: seq<Segment>, s: Segment)
    ensures forall t :: At(segs + [s], t) == if s.Holds(t) then Some(s.value) else At(segs, t)
  {
    assert (segs + [s])[..|segs|] == segs;
  }

  /** Nonempty segments in ascending order that do not overlap. */
  ghost predicate Disjoint(segs: seq<Segment>) {
    && (forall i :: 0 <= i < |segs| ==> segs[i].Holds(segs[i].from))
    && (forall i, j :: 0 <= i < j < |segs| ==> segs[i].EndsBy(segs[j].from))
  }

  /** No two adjoining segments carry the same value. */
  ghost predicate Coalesced(segs: seq<Segment>) {
    forall i :: 0 <= i < |segs| - 1 && segs[i].to == Some(segs[i + 1].from) ==> segs[i].value != segs[i + 1].value
  }

  /** `segs` is the timeline of `value`: sorted, disjoint, coalesced, and right at every instant. */
  ghost predicate IsTimeline(segs: seq<Segment>, value: i64 -> Option<ObjKey>) {
    Disjoint(segs) && Coalesced(segs) && forall t :: At(segs, t) == value(t)
  }

  lemma {:induction false} AtConcat(a: seq<Segment>, b: seq<Segment>, t: i64)
    ensures At(a + b, t) == if At(b, t).Some? then At(b, t) else At(a, t)
    decreases |b|
  {
    if b == [] {
      assert a + b == a;
    } else {
      assert (a + b)[..|a + b| - 1] == a + b[..|b| - 1];
      AtConcat(a, b[..|b| - 1], t);
    }
  }

  lemma {:induction false} AtHolds(segs: seq<Segment>, t: i64)
    ensures At(segs, t).Some? <==> exists i :: 0 <= i < |segs| && segs[i].Holds(t)
    decreases |segs|
  {
    if segs != [] {
      var n := |segs| - 1;
      AtHolds(segs[..n], t);
      if i :| 0 <= i < |segs| && segs[i].Holds(t) {
        assert i < n ==> segs[..n][i].Holds(t);
      }
    }
  }

  /** An instant that a later segment covers is covered by no earlier one. */
  lemma NotBefore(segs: seq<Segment>, n: nat, t: i64)
    requires Disjoint(segs) && n < |segs| && segs[n].from <= t
    ensures At(segs[..n], t) == None
  {
    AtHolds(segs[..n], t);
    forall i | 0 <= i < n
      ensures !segs[..n][i].Holds(t)
    {
      assert segs[i].EndsBy(segs[n].from);
    }
  }

  /** Append a segment, or extend the last one when the same value continues across the boundary. */
  method Push(segs: seq<Segment>, s: Segment) returns (out: seq<Segment>)
    requires Disjoint(segs) && Coalesced(segs) && s.Holds(s.from)
    requires forall i :: 0 <= i < |segs| ==> segs[i].EndsBy(s.from)
    ensures Disjoint(out) && Coalesced(out) && out != [] && out[|out| - 1].to == s.to
    ensures forall i :: 0 <= i < |out| - 1 ==> out[i].EndsBy(s.from)
    ensures forall t :: At(out, t) == if s.Holds(t) then Some(s.value) else At(segs, t)
  {
    var n := |segs| - 1;
    if segs != [] && segs[n].to == Some(s.from) && segs[n].value == s.value {
      out := segs[..n] + [segs[n].(to := s.to)];
      assert out[..n] == segs[..n];
    } else {
      out := segs + [s];
      assert out[..|segs|] == segs;
    }
  }

  // --- the timeline of one key -----------------------------------------------------------------

  predicate Increasing(bounds: seq<i64>) {
    forall i, j :: 0 <= i < j < |bounds| ==> bounds[i] < bounds[j]
  }

  /** Insert into an ascending set of instants. */
  function Insert(bounds: seq<i64>, x: i64): (out: seq<i64>)
    requires Increasing(bounds)
    ensures Increasing(out)
    ensures forall y :: y in out <==> y in bounds || y == x
  {
    if bounds == [] then [x]
    else
      var n := |bounds| - 1;
      if bounds[n] < x then bounds + [x]
      else if bounds[n] == x then bounds
      else
        InsertBelow(bounds, x, Insert(bounds[..n], x));
        Insert(bounds[..n], x) + [bounds[n]]
  }

  /** Inserting before the last instant. */
  lemma InsertBelow(bounds: seq<i64>, x: i64, rest: seq<i64>)
    requires Increasing(bounds) && bounds != [] && x < bounds[|bounds| - 1] && Increasing(rest)
    requires forall y :: y in rest <==> y in bounds[..|bounds| - 1] || y == x
    ensures var out := rest + [bounds[|bounds| - 1]];
      Increasing(out) && forall y :: y in out <==> y in bounds || y == x
  {
    var n := |bounds| - 1;
    assert bounds == bounds[..n] + [bounds[n]];
    forall i | 0 <= i < |rest|
      ensures rest[i] < bounds[n]
    {
      assert rest[i] in rest;
      assert rest[i] in bounds[..n] ==> exists j :: 0 <= j < n && bounds[j] == rest[i];
    }
  }

  /** No row starts or ends in `(from, t]`. */
  ghost predicate Quiet(rows: seq<Row>, from: i64, t: i64) {
    forall r :: r in rows ==>
      && !(from < r.v.validFrom <= t)
      && (r.v.validTo.Some? ==> !(from < r.v.validTo.value <= t))
  }

  /** The value in effect only changes where a row starts or ends. */
  lemma {:induction false} QuietSame(rows: seq<Row>, from: i64, t: i64)
    requires from <= t && Quiet(rows, from, t)
    ensures Winner(rows, t) == Winner(rows, from)
    decreases |rows|
  {
    if rows != [] {
      var n := |rows| - 1;
      assert rows[n] in rows;
      assert forall r :: r in rows[..n] ==> r in rows;
      QuietSame(rows[..n], from, t);
    }
  }

  /** The instants at which a row starts or ends, ascending. */
  method Boundaries(rows: seq<Row>) returns (bounds: seq<i64>)
    ensures Increasing(bounds)
    ensures forall r :: r in rows ==> r.v.validFrom in bounds && (r.v.validTo.Some? ==> r.v.validTo.value in bounds)
  {
    bounds := [];
    for i := 0 to |rows|
      invariant Increasing(bounds)
      invariant forall j :: 0 <= j < i ==>
        rows[j].v.validFrom in bounds && (rows[j].v.validTo.Some? ==> rows[j].v.validTo.value in bounds)
    {
      bounds := Insert(bounds, rows[i].v.validFrom);
      if rows[i].v.validTo.Some? {
        bounds := Insert(bounds, rows[i].v.validTo.value);
      }
    }
  }

  lemma BetweenBounds(rows: seq<Row>, bounds: seq<i64>, i: nat, t: i64)
    requires Increasing(bounds) && i < |bounds| && bounds[i] <= t && (i + 1 < |bounds| ==> t < bounds[i + 1])
    requires forall r :: r in rows ==> r.v.validFrom in bounds && (r.v.validTo.Some? ==> r.v.validTo.value in bounds)
    ensures AsOf(rows, t) == AsOf(rows, bounds[i])
  {
    forall b | b in bounds
      ensures !(bounds[i] < b <= t)
    {
      var j :| 0 <= j < |bounds| && bounds[j] == b;
    }
    QuietSame(rows, bounds[i], t);
  }

  lemma BeforeBounds(rows: seq<Row>, bounds: seq<i64>, t: i64)
    requires Increasing(bounds) && (bounds != [] ==> t < bounds[0])
    requires forall r :: r in rows ==> r.v.validFrom in bounds
    ensures AsOf(rows, t) == None
  {
    forall r | r in rows
      ensures !Covers(r, t)
    {
      var j :| 0 <= j < |bounds| && bounds[j] == r.v.validFrom;
    }
    WinnerCorrect(rows, t);
  }

  /** The timeline of a One key: probe the as-of read once per boundary, and stitch equal neighbours. */
  method PointOneTimeline(v: View, k: Key) returns (out: seq<Segment>)
    ensures IsTimeline(out, t => PointOneAsOf(v, k, t))
  {
    var rows := OneRowsOf(v, k);
    var bounds := Boundaries(rows);
    out := [];
    forall t | bounds == [] || t < bounds[0]
      ensures AsOf(rows, t) == None
    {
      BeforeBounds(rows, bounds, t);
    }
    for i := 0 to |bounds|
      invariant Disjoint(out) && Coalesced(out)
      invariant i < |bounds| ==> forall j :: 0 <= j < |out| ==> out[j].EndsBy(bounds[i])
      invariant forall t :: At(out, t) == if i == |bounds| || t < bounds[i] then AsOf(rows, t) else None
    {
      var from := bounds[i];
      var to := if i + 1 < |bounds| then Some(bounds[i + 1]) else None;
      forall t | from <= t && (i + 1 < |bounds| ==> t < bounds[i + 1])
        ensures AsOf(rows, t) == AsOf(rows, from)
      {
        BetweenBounds(rows, bounds, i, t);
      }
      var value := PointOneAsOf(v, k, from);
      if value.Some? {
        out := Push(out, Segment(value.value, from, to));
      }
    }
  }

  // --- the timeline of a chain of hops ---------------------------------------------------------

  /** One hop at instant `t`: only a node has a next value. */
  function Hop(v: View, from: Option<ObjKey>, p: FieldId, t: i64): Option<ObjKey> {
    if from.Some? && from.value.Node? then PointOneAsOf(v, (from.value.node, p), t) else None
  }

  /** The composed value at instant `t`: each hop read as of `t` on the node the previous one reached. */
  function Compose(v: View, subject: NodeId, hops: seq<FieldId>, t: i64): Option<ObjKey>
    requires hops != []
  {
    var n := |hops| - 1;
    if n == 0 then PointOneAsOf(v, (subject, hops[0]), t)
    else Hop(v, Compose(v, subject, hops[..n], t), hops[n], t)
  }

  /** The parts of `inner` that lie within `seg`. */
  method Intersect(seg: Segment, inner: seq<Segment>) returns (out: seq<Segment>)
    requires Disjoint(inner)
    ensures Disjoint(out)
    ensures forall i :: 0 <= i < |out| ==> seg.from <= out[i].from && (seg.to.Some? ==> out[i].EndsBy(seg.to.value))
    ensures forall t :: At(out, t) == if seg.Holds(t) then At(inner, t) else None
  {
    hide At;
    AtNil();
    out := [];
    for j := 0 to |inner|
      invariant Disjoint(out)
      invariant forall i :: 0 <= i < |out| ==> seg.from <= out[i].from && (seg.to.Some? ==> out[i].EndsBy(seg.to.value))
      invariant forall i, l :: 0 <= i < |out| && j <= l < |inner| ==> out[i].EndsBy(inner[l].from)
      invariant forall t :: At(out, t) == if seg.Holds(t) then At(inner[..j], t) else None
    {
      var s := inner[j];
      var from := if seg.from < s.from then s.from else seg.from;
      var to := if seg.to.None? then s.to else if s.to.None? then seg.to
                else if seg.to.value < s.to.value then seg.to else s.to;
      AtSnoc(inner[..j], s);
      assert inner[..j + 1] == inner[..j] + [s];
      if to.None? || from < to.value {
        var x := Segment(s.value, from, to);
        AtSnoc(out, x);
        out := out + [x];
      }
    }
    assert inner[..|inner|] == inner;
  }

  /** Join adjoining segments of equal value. */
  method Coalesce(segs: seq<Segment>) returns (out: seq<Segment>)
    requires Disjoint(segs)
    ensures Disjoint(out) && Coalesced(out)
    ensures forall t :: At(out, t) == At(segs, t)
  {
    out := [];
    for j := 0 to |segs|
      invariant Disjoint(out) && Coalesced(out)
      invariant forall i, l :: 0 <= i < |out| && j <= l < |segs| ==> out[i].EndsBy(segs[l].from)
      invariant forall t :: At(out, t) == At(segs[..j], t)
    {
      assert segs[..j + 1][..j] == segs[..j];
      out := Push(out, segs[j]);
    }
    assert segs[..|segs|] == segs;
  }

  /** Extend a timeline by one hop, memoizing the timeline of each source node. */
  method HopTimeline(v: View, segs: seq<Segment>, p: FieldId, ghost value: i64 -> Option<ObjKey>)
      returns (out: seq<Segment>)
    requires IsTimeline(segs, value)
    ensures IsTimeline(out, t => Hop(v, value(t), p, t))
  {
    var inner: map<NodeId, seq<Segment>> := map[];
    var next: seq<Segment> := [];
    for j := 0 to |segs|
      invariant forall n :: n in inner ==> IsTimeline(inner[n], t => PointOneAsOf(v, (n, p), t))
      invariant Disjoint(next)
      invariant forall i, l :: 0 <= i < |next| && j <= l < |segs| ==> next[i].EndsBy(segs[l].from)
      invariant forall t :: At(next, t) == Hop(v, At(segs[..j], t), p, t)
    {
      var seg := segs[j];
      assert segs[..j + 1][..j] == segs[..j];
      forall t | seg.Holds(t)
        ensures At(segs[..j], t) == None
      {
        NotBefore(segs, j, t);
      }
      if seg.value.Node? {
        var n := seg.value.node;
        if n !in inner {
          var timeline := PointOneTimeline(v, (n, p));
          inner := inner[n := timeline];
        }
        var part := Intersect(seg, inner[n]);
        forall t
          ensures At(next + part, t) == if At(part, t).Some? then At(part, t) else At(next, t)
        {
          AtConcat(next, part, t);
        }
        next := next + part;
      }
    }
    assert segs[..|segs|] == segs;
    // the segments are already ascending, so the stable sort by start leaves them as they are
    out := Coalesce(next);
  }

  /** The timeline of a derived value: agrees at every instant with composing the as-of reads. */
  method DerivedTimeline(v: View, subject: NodeId, hops: seq<FieldId>) returns (segs: seq<Segment>)
    ensures hops == [] ==> segs == []
    ensures hops != [] ==> IsTimeline(segs, t => Compose(v, subject, hops, t))
  {
    if hops == [] {
      return [];
    }
    segs := PointOneTimeline(v, (subject, hops[0]));
    for i := 1 to |hops|
      invariant IsTimeline(segs, t => Compose(v, subject, hops[..i], t))
    {
      assert hops[..i + 1][..i] == hops[..i];
      segs := HopTimeline(v, segs, hops[i], t => Compose(v, subject, hops[..i], t));
    }
    assert hops[..|hops|] == hops;
  }
}
