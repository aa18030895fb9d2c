/** What a reader can tell about the rows of a One key: their order, versions and labels, but not the
    order keys. Repeating a row changes no answer. */
module Faces {
  import opened Types
  import opened Rows
  import opened Folds
  import opened Snapshots
  import opened Mask
  import opened Queries
  import opened Views

  datatype Face = Face(v: Version, access: Option<Label>)

  function FacesOf(rows: seq<Row>, labelOf: OrderKey -> Option<Label>): seq<Face> {
    seq(|rows|, i requires 0 <= i < |rows| => Face(rows[i].v, labelOf(rows[i].ok)))
  }

  predicate CoversFace(x: Face, at: i64) {
    x.v.validFrom <= at && (x.v.validTo.Some? ==> at < x.v.validTo.value)
  }

  /** Among the visible rows that cover `at`, the latest start wins, and of equal starts the later row. */
  function WinnerIn(xs: seq<Face>, m: FactMask, p: FieldId, at: i64): Option<Version> {
    if xs == [] then None
    else
      var x, w := xs[|xs| - 1], WinnerIn(xs[..|xs| - 1], m, p, at);
      if m.RowVisible(p, x.access) && CoversFace(x, at) && (w.None? || w.value.validFrom <= x.v.validFrom)
      then Some(x.v) else w
  }

  /** The last visible row. */
  function LatestIn(xs: seq<Face>, m: FactMask, p: FieldId): Option<Version> {
    if xs == [] then None
    else if m.RowVisible(p, xs[|xs| - 1].access) then Some(xs[|xs| - 1].v)
    else LatestIn(xs[..|xs| - 1], m, p)
  }

  // --- repeated rows ---------------------------------------------------------------------------

  /** Drop every row that repeats the one before it. */
  function Collapse(xs: seq<Face>): seq<Face> {
    var n := |xs|;
    if n <= 1 then xs
    else if xs[n - 1] == xs[n - 2] then Collapse(xs[..n - 1])
    else Collapse(xs[..n - 1]) + [xs[n - 1]]
  }

  /** A further row shows unless it repeats the last one. */
  lemma {:induction false} CollapseSnoc(xs: seq<Face>, x: Face)
    ensures Collapse(xs + [x]) ==
      if Collapse(xs) != [] && Collapse(xs)[|Collapse(xs)| - 1] == x then Collapse(xs) else Collapse(xs) + [x]
    ensures Collapse(xs) == [] <==> xs == []
    ensures xs != [] ==> Collapse(xs)[|Collapse(xs)| - 1] == xs[|xs| - 1]
    decreases |xs|
  {
    assert (xs + [x])[..|xs|] == xs;
    if xs != [] {
      var n := |xs| - 1;
      CollapseSnoc(xs[..n], xs[n]);
      assert xs == xs[..n] + [xs[n]];
    }
  }

  /** No read of a key can tell repeated rows from a single one. */
  lemma {:induction false} CollapseAnswers(xs: seq<Face>, m: FactMask, p: FieldId, at: i64)
    ensures WinnerIn(Collapse(xs), m, p, at) == WinnerIn(xs, m, p, at)
    ensures LatestIn(Collapse(xs), m, p) == LatestIn(xs, m, p)
    decreases |xs|
  {
    var n := |xs|;
    if n > 1 {
      var rest := xs[..n - 1];
      CollapseAnswers(rest, m, p, at);
      if xs[n - 1] == xs[n - 2] {
        assert rest[..n - 2] == xs[..n - 2];
      } else {
        assert Collapse(xs)[..|Collapse(rest)|] == Collapse(rest);
      }
    }
  }

  // --- reads through a mask are reads of the faces ---------------------------------------------

  /** The faces of a key's rows as a snapshot labels them. */
  function FacesAt(s: Snapshot, k: Key): seq<Face> {
    FacesOf(GetOr(s.oneHistory, k, []), ok => RowLabel(s, k, ok))
  }

  lemma {:induction false} WinnerFaces(s: Snapshot, m: FactMask, k: Key, rows: seq<Row>, at: i64)
    requires Ascending(rows)
    ensures var w, x := Winner(VisibleRows(s, m, k, rows), at),
      WinnerIn(FacesOf(rows, ok => RowLabel(s, k, ok)), m, k.1, at);
      (w.Some? <==> x.Some?) && (w.Some? ==> w.value in rows && w.value.v == x.value)
    decreases |rows|
  {
    if rows != [] {
      var n := |rows| - 1;
      var labelOf := ok => RowLabel(s, k, ok);
      WinnerFaces(s, m, k, rows[..n], at);
      assert FacesOf(rows, labelOf)[..n] == FacesOf(rows[..n], labelOf);
      var seen := VisibleRows(s, m, k, rows);
      if m.RowVisible(k.1, RowLabel(s, k, rows[n].ok)) {
        assert seen == VisibleRows(s, m, k, rows[..n]) + [rows[n]];
        assert seen[..|seen| - 1] == VisibleRows(s, m, k, rows[..n]);
      } else {
        assert seen == VisibleRows(s, m, k, rows[..n]);
      }
    }
  }

  lemma {:induction false} LatestFaces(s: Snapshot, m: FactMask, k: Key, rows: seq<Row>)
    ensures var seen, x := VisibleRows(s, m, k, rows), LatestIn(FacesOf(rows, ok => RowLabel(s, k, ok)), m, k.1);
      (seen != [] <==> x.Some?) && (seen != [] ==> Last(seen).v == x.value)
    decreases |rows|
  {
    if rows != [] {
      var n := |rows| - 1;
      var labelOf := ok => RowLabel(s, k, ok);
      LatestFaces(s, m, k, rows[..n]);
      assert FacesOf(rows, labelOf)[..n] == FacesOf(rows[..n], labelOf);
    }
  }

  lemma {:induction false} KeepAll(rows: seq<Row>, keep: Row -> bool)
    requires forall r :: r in rows ==> keep(r)
    ensures FilterRows(rows, keep) == rows
    decreases |rows|
  {
    if rows != [] {
      KeepAll(rows[..|rows| - 1], keep);
    }
  }

  /** A mask that does not affect a key shows all of its rows. */
  lemma UnaffectedRows(s: Snapshot, m: FactMask, k: Key)
    requires s.labelCounts == Counts(s.factLabels) && !m.Affected(s, k)
    ensures VisibleRows(s, m, k, GetOr(s.oneHistory, k, [])) == GetOr(s.oneHistory, k, [])
  {
    var rows := GetOr(s.oneHistory, k, []);
    forall r | r in rows
      ensures m.RowVisible(k.1, RowLabel(s, k, r.ok))
    {
      var l := RowLabel(s, k, r.ok);
      if l.Some? {
        assert k in s.factLabels && r.ok in s.factLabels[k] && s.factLabels[k][r.ok] == l.value;
        assert l.value in LabelsIn(s.factLabels);
      }
    }
    KeepAll(rows, (r: Row) => m.RowVisible(k.1, RowLabel(s, k, r.ok)));
  }

  lemma MaskedRowsOf(s: Snapshot, m: FactMask, k: Key)
    requires s.labelCounts == Counts(s.factLabels) && s.one == Heads(s.oneHistory)
    requires forall k :: k in s.oneHistory ==> s.oneHistory[k] != []
    ensures var seen := VisibleRows(s, m, k, GetOr(s.oneHistory, k, []));
      && OneRowsOf(MaskedView(s, m), k) == seen
      && PointOne(MaskedView(s, m), k) == if seen == [] then None else Last(seen).v.obj
  {
    var rows := GetOr(s.oneHistory, k, []);
    if !m.Affected(s, k) {
      UnaffectedRows(s, m, k);
    } else if k !in s.oneHistory {
      assert VisibleRows(s, m, k, rows) == [];
    }
  }

  /** Every read of a One key, through any mask, is determined by the key's faces with repeats dropped. */
  lemma SameAnswers(f: State, g: State, h: Hash, m: FactMask, k: Key, at: i64)
    requires Collapse(FacesAt(Observe(f, h), k)) == Collapse(FacesAt(Observe(g, h), k))
    ensures var a, b := MaskedView(Observe(f, h), m), MaskedView(Observe(g, h), m);
      PointOne(a, k) == PointOne(b, k) && PointOneAsOf(a, k, at) == PointOneAsOf(b, k, at)
  {
    AnswersFromFaces(f, h, m, k, at);
    AnswersFromFaces(g, h, m, k, at);
    CollapseAnswers(FacesAt(Observe(f, h), k), m, k.1, at);
    CollapseAnswers(FacesAt(Observe(g, h), k), m, k.1, at);
  }

  function ObjectOf(v: Option<Version>): Option<ObjKey> { if v.None? then None else v.value.obj }

  lemma AnswersFromFaces(f: State, h: Hash, m: FactMask, k: Key, at: i64)
    ensures var s := Observe(f, h);
      var a, xs := MaskedView(s, m), FacesAt(s, k);
      && PointOne(a, k) == ObjectOf(LatestIn(xs, m, k.1))
      && PointOneAsOf(a, k, at) == ObjectOf(WinnerIn(xs, m, k.1, at))
  {
    var s := Observe(f, h);
    var rows := GetOr(s.oneHistory, k, []);
    assert Ascending(rows) by {
      SortRowsCorrect(LiveOne(f, k));
    }
    MaskedRowsOf(s, m, k);
    WinnerFaces(s, m, k, rows, at);
    LatestFaces(s, m, k, rows);
  }

  // --- a value has one timeline ----------------------------------------------------------------

  /** Two timelines of the same value are the same list of segments. */
  lemma {:induction false} TimelineUnique(a: seq<Segment>, b: seq<Segment>, value: i64 -> Option<ObjKey>)
    requires IsTimeline(a, value) && IsTimeline(b, value)
    ensures a == b
  {
    forall i: nat | i <= |a| && i <= |b|
      ensures a[..i] == b[..i]
    {
      SamePrefix(a, b, value, i);
    }
    LongEnough(a, b, value);
    LongEnough(b, a, value);
    assert a[..|a|] == a && b[..|b|] == b;
  }

  lemma {:induction false} SamePrefix(a: seq<Segment>, b: seq<Segment>, value: i64 -> Option<ObjKey>, n: nat)
    requires IsTimeline(a, value) && IsTimeline(b, value) && n <= |a| && n <= |b|
    ensures a[..n] == b[..n]
    decreases n
  {
    if n > 0 {
      SamePrefix(a, b, value, n - 1);
      assert a[..n] == a[..n - 1] + [a[n - 1]] && b[..n] == b[..n - 1] + [b[n - 1]];
      StartsNoLater(a, b, value, n - 1);
      StartsNoLater(b, a, value, n - 1);
      EndsNoLater(a, b, value, n - 1);
      EndsNoLater(b, a, value, n - 1);
      AtOwn(a, n - 1, a[n - 1].from);
      AtOwn(b, n - 1, b[n - 1].from);
    }
  }

  /** A segment decides the value at every instant it holds. */
  lemma AtOwn(a: seq<Segment>, i: nat, t: i64)
    requires Disjoint(a) && i < |a| && a[i].Holds(t)
    ensures At(a, t) == Some(a[i].value)
  {
    AtFirst(a, i, t, |a|);
    assert a[..|a|] == a;
  }

  lemma {:induction false} AtFirst(a: seq<Segment>, i: nat, t: i64, n: nat)
    requires Disjoint(a) && i < n <= |a| && a[i].Holds(t)
    ensures At(a[..n], t) == Some(a[i].value)
    decreases n
  {
    assert a[..n][..n - 1] == a[..n - 1];
    if i < n - 1 {
      assert a[i].EndsBy(a[n - 1].from);
      AtFirst(a, i, t, n - 1);
    }
  }

  /** Of two timelines with the same first `n` segments, the next segment of `a` starts no later than `b`'s. */
  lemma StartsNoLater(a: seq<Segment>, b: seq<Segment>, value: i64 -> Option<ObjKey>, n: nat)
    requires IsTimeline(a, value) && IsTimeline(b, value) && n < |a| && n < |b| && a[..n] == b[..n]
    ensures a[n].from <= b[n].from
  {
    SegmentAt(a, b, value, n, b[n].from);
  }

  /** An instant that segment `n` of `b` holds is held by a segment of `a` at or past `n`. */
  lemma SegmentAt(a: seq<Segment>, b: seq<Segment>, value: i64 -> Option<ObjKey>, n: nat, t: i64)
    requires IsTimeline(a, value) && IsTimeline(b, value) && n < |b| && n <= |a| && a[..n] == b[..n] && b[n].Holds(t)
    ensures n < |a| && a[n].from <= t
    ensures exists i :: n <= i < |a| && a[i].Holds(t) && a[i].value == b[n].value
  {
    AtOwn(b, n, t);
    AtHolds(a, t);
    assert At(a, t) == value(t) == At(b, t);
    var i: nat :| i < |a| && a[i].Holds(t);
    AtOwn(a, i, t);
    assert i < n ==> a[i] == a[..n][i] == b[..n][i] && a[i].EndsBy(b[n].from);
    if n < i {
      assert a[n].EndsBy(a[i].from) && a[n].Holds(a[n].from);
    }
  }

  /** ... and ends no later: were it longer, `b` would go on with the same value. */
  lemma EndsNoLater(a: seq<Segment>, b: seq<Segment>, value: i64 -> Option<ObjKey>, n: nat)
    requires IsTimeline(a, value) && IsTimeline(b, value) && n < |a| && n < |b| && a[..n] == b[..n]
    requires a[n].from == b[n].from
    ensures b[n].to.Some? ==> a[n].to.Some? && a[n].to.value <= b[n].to.value
  {
    if b[n].to.Some? && !(a[n].to.Some? && a[n].to.value <= b[n].to.value) {
      var t := b[n].to.value;
      assert b[n].Holds(b[n].from);
      assert a[n].Holds(t) && a[n].Holds(a[n].from);
      AtOwn(a, n, t);
      AtOwn(a, n, a[n].from);
      AtOwn(b, n, b[n].from);
      assert a[n].value == b[n].value;
      assert At(b, t) == value(t) == At(a, t);
      AtHolds(b, t);
      var i: nat :| i < |b| && b[i].Holds(t);
      AtOwn(b, i, t);
      assert i < n ==> b[i].EndsBy(b[n].from);
      if i > n {
        NextHolds(b, n, i, t);
      }
    }
  }

  /** The instant a segment ends at is held, if at all, by the next segment, which then starts there. */
  lemma NextHolds(b: seq<Segment>, n: nat, i: nat, t: i64)
    requires Disjoint(b) && n < i < |b| && b[n].to == Some(t) && b[i].Holds(t)
    ensures i == n + 1 && b[i].from == t
  {
    assert b[n].EndsBy(b[i].from) && b[n].EndsBy(b[n + 1].from);
    LaterStarts(b, n + 1, i, t);
  }

  lemma LaterStarts(b: seq<Segment>, j: nat, i: nat, t: i64)
    requires Disjoint(b) && j <= i < |b| && t <= b[j].from && b[i].from <= t
    ensures j == i
  {
    var x, y := b[j], b[i];
    assert x.Holds(x.from);
    assert j < i ==> x.EndsBy(y.from);
  }

  lemma LongEnough(a: seq<Segment>, b: seq<Segment>, value: i64 -> Option<ObjKey>)
    requires IsTimeline(a, value) && IsTimeline(b, value)
    requires |a| < |b| ==> a == b[..|a|]
    ensures |b| <= |a|
  {
    if |a| < |b| {
      assert a[..|a|] == b[..|a|];
      SegmentAt(a, b, value, |a|, b[|a|].from);
    }
  }
}
