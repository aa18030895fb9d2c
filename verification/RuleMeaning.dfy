/** What verdicts mean: their outcomes, the paths they walk, and the assumptions they use. */
module RuleMeaning {
  import opened Types
  import opened Snapshots
  import opened Queries
  import opened Conformance

  // --- outcomes --------------------------------------------------------------------------------

  /** The instant that anchor `a` names: the graph's value, else the caller's assumption. */
  function Instant(v: View, cat: Catalog, s: NodeId, a: Name, given: Assumptions): Option<i64> {
    if a !in cat.ids then None
    else if IntOf(PointOne(v, (s, cat.ids[a]))).Some? then IntOf(PointOne(v, (s, cat.ids[a])))
    else Get(given, a)
  }

  /** The condition's value exists, now or as of its anchor, and passes its test. */
  predicate Holds(v: View, cat: Catalog, s: NodeId, c: Cond, given: Assumptions) {
    && c.predicate_ in cat.ids
    && var k := (s, cat.ids[c.predicate_]);
       var at := if c.asOf.Some? then Instant(v, cat, s, c.asOf.value, given) else None;
       var value := if c.asOf.None? then PointOne(v, k) else if at.Some? then PointOneAsOf(v, k, at.value) else None;
       value.Some? && Matches(cat, c.test, value.value)
  }

  predicate HoldsIfAny(v: View, cat: Catalog, s: NodeId, c: Option<Cond>, given: Assumptions) {
    c.Some? ==> Holds(v, cat, s, c.value, given)
  }

  /** Case `i` is the first whose condition, if it has one, holds. */
  predicate FirstCase(v: View, cat: Catalog, s: NodeId, cases: seq<Case>, given: Assumptions, i: nat) {
    && i < |cases|
    && HoldsIfAny(v, cat, s, cases[i].when, given)
    && forall j :: 0 <= j < i ==> !HoldsIfAny(v, cat, s, cases[j].when, given)
  }

  // --- what a path reads, told from its hops ---------------------------------------------------

  /** What hop `hop` gives at node `n`: the value now, or at the instant its anchor names on the subject. */
  function HopValue(v: View, cat: Catalog, s: NodeId, hop: PathHop, n: NodeId, given: Assumptions): Option<ObjKey> {
    if hop.predicate_ !in cat.ids then None
    else if hop.asOf.None? then PointOne(v, (n, cat.ids[hop.predicate_]))
    else
      var at := Instant(v, cat, s, hop.asOf.value, given);
      if at.None? then None else PointOneAsOf(v, (n, cat.ids[hop.predicate_]), at.value)
  }

  /** The node that all the hops lead to, if each of them gives one. */
  function Reached(v: View, cat: Catalog, s: NodeId, hops: seq<PathHop>, given: Assumptions): Option<NodeId> {
    if hops == [] then Some(s)
    else
      var n := Reached(v, cat, s, hops[..|hops| - 1], given);
      if n.None? then None else NodeOf(HopValue(v, cat, s, hops[|hops| - 1], n.value, given))
  }

  /** The node at which the last hop is read. */
  function LastStop(v: View, cat: Catalog, s: NodeId, hops: seq<PathHop>, given: Assumptions): Option<NodeId>
    requires hops != []
  {
    Reached(v, cat, s, hops[..|hops| - 1], given)
  }

  /** The value at the end of a path, timeless hops and anchored ones in any order: what its last hop gives at the
      node the others lead to. */
  function PathEnd(v: View, cat: Catalog, s: NodeId, hops: seq<PathHop>, given: Assumptions): Option<ObjKey> {
    if hops == [] then None
    else
      var n := LastStop(v, cat, s, hops, given);
      if n.None? then None else HopValue(v, cat, s, hops[|hops| - 1], n.value, given)
  }

  /** A hop is read as of an anchor. */
  predicate Anchored(cat: Catalog, hop: PathHop) { hop.asOf.Some? && hop.predicate_ in cat.ids }

  /** The instant at which the last anchored hop that is reached was read. */
  function PathInstant(v: View, cat: Catalog, s: NodeId, hops: seq<PathHop>, given: Assumptions): Option<i64> {
    if hops == [] then None
    else
      var hop := hops[|hops| - 1];
      if LastStop(v, cat, s, hops, given).Some? && Anchored(cat, hop) then Instant(v, cat, s, hop.asOf.value, given)
      else PathInstant(v, cat, s, hops[..|hops| - 1], given)
  }

  /** A path leads to a value other than the actual one. */
  predicate Differs(v: View, cat: Catalog, s: NodeId, hops: seq<PathHop>, given: Assumptions, actual: ObjKey) {
    var end := PathEnd(v, cat, s, hops, given);
    end.Some? && end.value != actual
  }

  /** The last hop of the path is anchored, and where it is read some row, of whatever time, has the value. */
  ghost predicate OnceHeld(v: View, cat: Catalog, s: NodeId, hops: seq<PathHop>, given: Assumptions, value: ObjKey)
    requires hops != []
  {
    var hop, n := hops[|hops| - 1], LastStop(v, cat, s, hops, given);
    && Anchored(cat, hop) && n.Some?
    && exists r :: r in OneRowsOf(v, (n.value, cat.ids[hop.predicate_])) && r.v.obj == Some(value)
  }

  function ValueOf(v: View, cat: Catalog, s: NodeId, name: Name): Option<ObjKey> {
    if name in cat.ids then PointOne(v, (s, cat.ids[name])) else None
  }

  lemma CondMeans(v: View, cat: Catalog, s: NodeId, c: Cond, given: Assumptions, t: Trace)
    ensures CondHolds(v, cat, s, c, given, t).0 <==> Holds(v, cat, s, c, given)
  {
  }

  lemma {:induction false} SelectMeans(v: View, cat: Catalog, s: NodeId, cases: seq<Case>, i: nat, given: Assumptions,
                                       t: Trace)
    requires i <= |cases| && forall j :: 0 <= j < i ==> !HoldsIfAny(v, cat, s, cases[j].when, given)
    ensures var r := SelectCase(v, cat, s, cases, i, given, t).0;
      && (r.Some? ==> FirstCase(v, cat, s, cases, given, r.value))
      && (r.None? ==> forall j :: 0 <= j < |cases| ==> !HoldsIfAny(v, cat, s, cases[j].when, given))
    decreases |cases| - i
  {
    hide Holds, CondHolds;
    if i < |cases| && cases[i].when.Some? {
      CondMeans(v, cat, s, cases[i].when.value, given, t);
      if !CondHolds(v, cat, s, cases[i].when.value, given, t).0 {
        SelectMeans(v, cat, s, cases, i + 1, given, CondHolds(v, cat, s, cases[i].when.value, given, t).1);
      }
    }
  }

  /** What a verdict on a subject says, given the path that applies to it: each outcome holds in exactly one
      situation, and a mismatch is stale exactly when the path's last hop is read as of an anchor and the actual value
      was once held where it is read. */
  ghost predicate Says(r: Verdict, v: View, cat: Catalog, rule: Rule, s: NodeId, given: Assumptions, hops: seq<PathHop>) {
    var actual := ValueOf(v, cat, s, rule.actual);
    var req, dis := PathEnd(v, cat, s, hops, given), PathEnd(v, cat, s, rule.distinctFrom, given);
    var differs := actual.Some? && Differs(v, cat, s, hops, given, actual.value);
    var excused := rule.absentWhen.Some? && Holds(v, cat, s, rule.absentWhen.value, given);
    && (r.verdict == Absent <==> actual.None? && excused)
    && (r.verdict == Mismatch <==> differs || (actual.Some? && dis == actual))
    && (r.verdict == NotApplicable <==> actual.Some? && hops != [] && req.None? && dis != actual)
    && (r.mismatchKind == Some(Stale) <==> differs && OnceHeld(v, cat, s, hops, given, actual.value))
    && (r.mismatchKind.Some? <==> r.verdict == Mismatch)
    && r.reason == (if r.verdict == NotApplicable then Some(RequiredUnresolved) else None)
    && r.actual == actual && r.required == req && r.distinct == dis
    && r.asOf == FirstOf(PathInstant(v, cat, s, hops, given), PathInstant(v, cat, s, rule.distinctFrom, given))
  }

  /** The instant of the required path goes before that of the other. */
  function FirstOf(a: Option<i64>, b: Option<i64>): Option<i64> { if a.Some? then a else b }

  // --- the walk is that reading ----------------------------------------------------------------

  lemma AnchorIsInstant(v: View, cat: Catalog, s: NodeId, a: Name, given: Assumptions, t: Trace)
    ensures AnchorAt(v, cat, s, a, given, t).0 == Instant(v, cat, s, a, given)
  {
  }

  /** The key of the last hop, if the path reaches it and it is anchored. */
  function LastProbe(v: View, cat: Catalog, s: NodeId, hops: seq<PathHop>, given: Assumptions): Option<Key>
    requires hops != []
  {
    var hop, n := hops[|hops| - 1], LastStop(v, cat, s, hops, given);
    if Anchored(cat, hop) && n.Some? then Some((n.value, cat.ids[hop.predicate_])) else None
  }

  /** Where a walk stands before hop `i`, told from the hops before it. */
  ghost predicate Stands(w: Walk, v: View, cat: Catalog, s: NodeId, hops: seq<PathHop>, given: Assumptions) {
    && w.cur == Reached(v, cat, s, hops, given)
    && w.end == None
    && w.asOf == PathInstant(v, cat, s, hops, given)
  }

  lemma HopStands(v: View, cat: Catalog, s: NodeId, hops: seq<PathHop>, i: nat, given: Assumptions, w: Walk, t: Trace)
    requires i < |hops| && Stands(w, v, cat, s, hops[..i], given) && w.cur.Some?
    ensures var w1 := WalkHop(v, cat, s, hops[i], false, given, w, t).0; Stands(w1, v, cat, s, hops[..i + 1], given)
    ensures var w1 := WalkHop(v, cat, s, hops[i], true, given, w, t).0;
      && w1.end == PathEnd(v, cat, s, hops[..i + 1], given)
      && w1.asOf == PathInstant(v, cat, s, hops[..i + 1], given)
      && w1.finalAsOfHop ==
           if Anchored(cat, hops[i]) then Some((w.cur.value, cat.ids[hops[i].predicate_])) else None
  {
    hide PointOne, PointOneAsOf, Instant;
    assert hops[..i + 1][..i] == hops[..i];
    if hops[i].asOf.Some? {
      AnchorIsInstant(v, cat, s, hops[i].asOf.value, given, t);
    }
    hide AnchorAt;
  }

  /** Once the walk has nowhere to go on from, the rest of the path is not read. */
  lemma {:induction false} Stuck(v: View, cat: Catalog, s: NodeId, hops: seq<PathHop>, i: nat, given: Assumptions)
    requires i < |hops| && Reached(v, cat, s, hops[..i], given).None?
    ensures LastStop(v, cat, s, hops, given).None? && PathEnd(v, cat, s, hops, given).None?
    ensures PathInstant(v, cat, s, hops, given) == PathInstant(v, cat, s, hops[..i], given)
    decreases |hops|
  {
    hide HopValue;
    var n := |hops| - 1;
    if i < n {
      assert hops[..n][..i] == hops[..i];
      Stuck(v, cat, s, hops[..n], i, given);
    }
  }

  lemma {:induction false} WalkMeans(v: View, cat: Catalog, s: NodeId, hops: seq<PathHop>, i: nat, given: Assumptions,
                                     w: Walk, t: Trace)
    requires i < |hops| && Stands(w, v, cat, s, hops[..i], given)
    ensures var r := WalkFrom(v, cat, s, hops, i, given, w, t).0;
      && r.end == PathEnd(v, cat, s, hops, given) && r.asOf == PathInstant(v, cat, s, hops, given)
      && (LastStop(v, cat, s, hops, given).Some? ==> r.finalAsOfHop == LastProbe(v, cat, s, hops, given))
    decreases |hops| - i
  {
    if w.cur.None? {
      Stuck(v, cat, s, hops, i, given);
    } else {
      var (w1, t1) := WalkHop(v, cat, s, hops[i], i + 1 == |hops|, given, w, t);
      HopStands(v, cat, s, hops, i, given, w, t);
      hide WalkHop, HopValue, Instant;
      if i + 1 < |hops| {
        WalkMeans(v, cat, s, hops, i + 1, given, w1, t1);
      } else {
        assert hops[..i + 1] == hops;
      }
    }
  }

  /** Every path, with timeless and anchored hops in any order, ends at what its last hop gives where the others lead;
      the instant it reports is that of the last anchored hop it reached; and the row it probes for a stale value is
      that of its last hop, if this one is anchored. */
  lemma PathMeans(v: View, cat: Catalog, s: NodeId, hops: seq<PathHop>, given: Assumptions, t: Trace)
    ensures var r := WalkPath(v, cat, s, hops, given, t).0;
      && r.end == PathEnd(v, cat, s, hops, given) && r.asOf == PathInstant(v, cat, s, hops, given)
      && (hops != [] && LastStop(v, cat, s, hops, given).Some? ==>
            r.finalAsOfHop == LastProbe(v, cat, s, hops, given))
  {
    if hops != [] {
      assert hops[..0] == [];
      WalkMeans(v, cat, s, hops, 0, given, Walk(Some(s), None, None, None), t);
    }
  }

  lemma HeldByRow(v: View, k: Key, value: ObjKey)
    ensures EverHeld(v, k, value) <==> exists r :: r in OneRowsOf(v, k) && r.v.obj == Some(value)
  {
    var rows := OneRowsOf(v, k);
    if r :| r in rows && r.v.obj == Some(value) {
      var i :| 0 <= i < |rows| && rows[i] == r;
    }
  }

  /** The outcome on a present actual. */
  lemma PresentMeans(v: View, a: ObjKey, hops: seq<PathHop>, req: Walk, distinct: Option<ObjKey>)
    requires hops == [] ==> req.end.None?
    ensures var (outcome, kind, reason) := JudgePresent(v, a, hops, req, distinct);
      var differs := req.end.Some? && req.end.value != a;
      && outcome != Absent
      && (outcome == Mismatch <==> differs || distinct == Some(a))
      && (outcome == NotApplicable <==> hops != [] && req.end.None? && distinct != Some(a))
      && (kind == Some(Stale) <==> differs && req.finalAsOfHop.Some? && EverHeld(v, req.finalAsOfHop.value, a))
      && (kind.Some? <==> outcome == Mismatch)
      && reason == (if outcome == NotApplicable then Some(RequiredUnresolved) else None)
  {
    hide EverHeld;
  }

  lemma ConcludeMeans(v: View, cat: Catalog, rule: Rule, s: NodeId, hops: seq<PathHop>, case_: Option<nat>,
                      given: Assumptions, t: Trace)
    ensures var r := JudgeAgainst(v, cat, rule, s, hops, case_, given, t).0;
      Says(r, v, cat, rule, s, given, hops) && r.subject == s && r.case_ == case_
  {
    hide WalkPath, CondHolds, Holds, EverHeld, PathEnd, PathInstant, LastStop, LastProbe, OnceHeld, PointOne, JudgePresent;
    var (req, t1) := WalkPath(v, cat, s, hops, given, t);
    var (dis, t2) := WalkPath(v, cat, s, rule.distinctFrom, given, t1);
    PathMeans(v, cat, s, hops, given, t);
    PathMeans(v, cat, s, rule.distinctFrom, given, t1);
    NoStopNoEnd(v, cat, s, hops, given);
    var (actual, t3) := ActualOf(v, cat, s, rule.actual, t2);
    if actual.Some? {
      PresentMeans(v, actual.value, hops, req, dis.end);
      if hops != [] && LastStop(v, cat, s, hops, given).Some? {
        ProbeMeans(v, cat, s, hops, given, req, actual.value);
      }
    } else if rule.absentWhen.Some? {
      CondMeans(v, cat, s, rule.absentWhen.value, given, t3);
    }
  }

  /** What the walk probes for a stale value is whether the last hop once held it. */
  lemma ProbeMeans(v: View, cat: Catalog, s: NodeId, hops: seq<PathHop>, given: Assumptions, w: Walk, value: ObjKey)
    requires hops != [] && LastStop(v, cat, s, hops, given).Some?
    requires w.finalAsOfHop == LastProbe(v, cat, s, hops, given)
    ensures w.finalAsOfHop.Some? && EverHeld(v, w.finalAsOfHop.value, value) <==> OnceHeld(v, cat, s, hops, given, value)
  {
    hide LastStop, OneRowsOf, EverHeld;
    if w.finalAsOfHop.Some? {
      HeldByRow(v, w.finalAsOfHop.value, value);
    }
  }

  lemma NoStopNoEnd(v: View, cat: Catalog, s: NodeId, hops: seq<PathHop>, given: Assumptions)
    ensures hops == [] || LastStop(v, cat, s, hops, given).None? ==> PathEnd(v, cat, s, hops, given).None?
  {
  }

  ghost predicate SomeCase(v: View, cat: Catalog, s: NodeId, cases: seq<Case>, given: Assumptions) {
    exists i: nat :: FirstCase(v, cat, s, cases, given, i)
  }

  /** A subject in scope is judged against the rule's own path, or that of the first case that matches. */
  ghost predicate SaysInScope(r: Verdict, v: View, cat: Catalog, rule: Rule, s: NodeId, given: Assumptions) {
    && (r.reason == Some(NoMatchingCase) <==> rule.cases != [] && !SomeCase(v, cat, s, rule.cases, given))
    && (rule.cases == [] ==> r.case_ == None && Says(r, v, cat, rule, s, given, rule.required))
    && (rule.cases != [] && SomeCase(v, cat, s, rule.cases, given) ==>
         && r.case_.Some? && FirstCase(v, cat, s, rule.cases, given, r.case_.value)
         && Says(r, v, cat, rule, s, given, rule.cases[r.case_.value].required))
  }

  lemma InScopeMeans(v: View, cat: Catalog, rule: Rule, s: NodeId, given: Assumptions, t: Trace)
    ensures var r := JudgeInScope(v, cat, rule, s, given, t).0;
      SaysInScope(r, v, cat, rule, s, given) && r.subject == s && r.reason != Some(OutOfScope)
  {
    if rule.cases == [] {
      ConcludeMeans(v, cat, rule, s, rule.required, None, given, t);
      hide JudgeAgainst;
    } else {
      hide SelectCase, CondHolds, Holds;
      SelectMeans(v, cat, s, rule.cases, 0, given, t);
      var (matched, t1) := SelectCase(v, cat, s, rule.cases, 0, given, t);
      if matched.Some? {
        assert FirstCase(v, cat, s, rule.cases, given, matched.value);
        ConcludeMeans(v, cat, rule, s, rule.cases[matched.value].required, matched, given, t1);
      }
      hide JudgeAgainst;
    }
  }

  /** The meaning of a whole judgment: out of scope exactly when the scope condition fails; without a matching case
      exactly when no case's condition holds; otherwise judged against the rule's own path, or that of the first
      case that matches. */
  lemma OutcomeMeans(v: View, cat: Catalog, rule: Rule, s: NodeId, given: Assumptions)
    ensures var r := Judge(v, cat, rule, s, given).0;
      && r.subject == s
      && (r.reason == Some(OutOfScope) <==> !HoldsIfAny(v, cat, s, rule.scope, given))
      && (HoldsIfAny(v, cat, s, rule.scope, given) ==> SaysInScope(r, v, cat, rule, s, given))
  {
    hide CondHolds, Holds, JudgeInScope, SomeCase, FirstCase, PathEnd, PathInstant, LastStop, OnceHeld;
    if rule.scope.Some? {
      CondMeans(v, cat, s, rule.scope.value, given, NoTrace);
    }
    var t := if rule.scope.None? then NoTrace else CondHolds(v, cat, s, rule.scope.value, given, NoTrace).1;
    InScopeMeans(v, cat, rule, s, given, t);
  }

  // --- paths -----------------------------------------------------------------------------------

  /** The ids of a path whose names all resolve. */
  function Ids(cat: Catalog, hops: seq<PathHop>): (ids: seq<FieldId>)
    requires forall i :: 0 <= i < |hops| ==> hops[i].predicate_ in cat.ids
    ensures |ids| == |hops|
  {
    seq(|hops|, i requires 0 <= i < |hops| => cat.ids[hops[i].predicate_])
  }

  lemma {:induction false} ComposeStuck(v: View, s: NodeId, ids: seq<FieldId>, i: nat, t: i64)
    requires 0 < i < |ids| && NodeOf(Compose(v, s, ids[..i], t)).None?
    ensures Compose(v, s, ids, t) == None
    decreases |ids|
  {
    var n := |ids| - 1;
    if i < n {
      assert ids[..n][..i] == ids[..i];
      ComposeStuck(v, s, ids[..n], i, t);
    }
  }

  lemma {:induction false} WalkFromCompose(v: View, cat: Catalog, s: NodeId, hops: seq<PathHop>, a: Name, at: i64,
                                          given: Assumptions, i: nat, w: Walk, t: Trace)
    requires forall i :: 0 <= i < |hops| ==> hops[i].predicate_ in cat.ids && hops[i].asOf == Some(a)
    requires AnchorAt(v, cat, s, a, given, NoTrace).0 == Some(at)
    requires i < |hops| && w.end.None?
    requires w.cur == if i == 0 then Some(s) else NodeOf(Compose(v, s, Ids(cat, hops)[..i], at))
    ensures WalkFrom(v, cat, s, hops, i, given, w, t).0.end == Compose(v, s, Ids(cat, hops), at)
    decreases |hops| - i
  {
    var ids := Ids(cat, hops);
    if w.cur.None? {
      ComposeStuck(v, s, ids, i, at);
    } else {
      var (w1, t1) := WalkHop(v, cat, s, hops[i], i + 1 == |hops|, given, w, t);
      var value := PointOneAsOf(v, (w.cur.value, ids[i]), at);
      assert AnchorAt(v, cat, s, a, given, t).0 == Some(at);
      assert ids[..i + 1][..i] == ids[..i] && ids[..i + 1][i] == ids[i];
      assert Compose(v, s, ids[..i + 1], at) == value;
      if i + 1 < |hops| {
        WalkFromCompose(v, cat, s, hops, a, at, given, i + 1, w1, t1);
      } else {
        assert ids[..i + 1] == ids;
      }
    }
  }

  /** A path whose hops are all read as of one anchor ends at what the derived timeline of the same chain
      shows at the anchor's instant. */
  lemma WalkIsCompose(v: View, cat: Catalog, s: NodeId, hops: seq<PathHop>, a: Name, at: i64, given: Assumptions,
                      t: Trace)
    requires hops != [] && forall i :: 0 <= i < |hops| ==> hops[i].predicate_ in cat.ids && hops[i].asOf == Some(a)
    requires AnchorAt(v, cat, s, a, given, NoTrace).0 == Some(at)
    ensures WalkPath(v, cat, s, hops, given, t).0.end == Compose(v, s, Ids(cat, hops), at)
  {
    WalkFromCompose(v, cat, s, hops, a, at, given, 0, Walk(Some(s), None, None, None), t);
  }

  // --- tests -----------------------------------------------------------------------------------

  /** The whole numbers between the bounds, an inclusive bound itself included. */
  predicate InBounds(lower: Option<(int, bool)>, upper: Option<(int, bool)>, x: int) {
    && (lower.Some? ==> lower.value.0 < x || (lower.value.1 && lower.value.0 == x))
    && (upper.Some? ==> x < upper.value.0 || (upper.value.1 && x == upper.value.0))
  }

  function IntBound(b: Option<(i64, bool)>): Option<Bound> {
    if b.Some? then Some(Bound(Int(b.value.0), b.value.1)) else None
  }

  function Plainly(b: Option<(i64, bool)>): Option<(int, bool)> {
    if b.Some? then Some((b.value.0 as int, b.value.1)) else None
  }

  /** A comparison with a bound comes out on the right side of it, or at an inclusive bound. */
  predicate Beyond(c: Option<Ordering>, side: Ordering, inclusive: bool) {
    c == Some(side) || (inclusive && c == Some(Equal))
  }

  /** A range with whole bounds holds of exactly the whole numbers between them; no range holds of anything but a
      number, and a float lies in it as the comparison of floats says; an equality holds of the value itself alone. */
  lemma TestsMean(cat: Catalog, lower: Option<(i64, bool)>, upper: Option<(i64, bool)>, v: ObjKey, e: ObjKey)
    ensures v.Int? ==> (Matches(cat, Range(IntBound(lower), IntBound(upper)), v) <==>
                         InBounds(Plainly(lower), Plainly(upper), v.num as int))
    ensures v.Float? ==> (Matches(cat, Range(IntBound(lower), IntBound(upper)), v) <==>
                           && (lower.Some? ==> Beyond(cat.floatCmp(v, Int(lower.value.0)), Greater, lower.value.1))
                           && (upper.Some? ==> Beyond(cat.floatCmp(v, Int(upper.value.0)), Less, upper.value.1)))
    ensures !v.Int? && !v.Float? ==> !Matches(cat, Range(IntBound(lower), IntBound(upper)), v)
    ensures Matches(cat, Equals(e), v) <==> v == e
  {
  }

  // --- assumptions -----------------------------------------------------------------------------

  /** No assumption is about an anchor that was found missing. */
  ghost predicate Unneeded(missing: seq<Missing>, given: Assumptions) {
    forall n, a :: Anchor(n, a) in missing ==> a !in given
  }

  ghost predicate Grows(a: Trace, b: Trace) { forall m :: m in a.missing ==> m in b.missing }

  lemma UnneededEarlier(a: Trace, b: Trace, given: Assumptions)
    requires Grows(a, b) && Unneeded(b.missing, given)
    ensures Unneeded(a.missing, given)
  {
  }

  lemma AnchorUnneeded(v: View, cat: Catalog, s: NodeId, a: Name, given: Assumptions, t: Trace)
    ensures Grows(t, AnchorAt(v, cat, s, a, map[], t).1)
    ensures Unneeded(AnchorAt(v, cat, s, a, map[], t).1.missing, given) ==>
      AnchorAt(v, cat, s, a, given, t) == AnchorAt(v, cat, s, a, map[], t)
  {
    var r := AnchorAt(v, cat, s, a, map[], t).1;
    if a in cat.ids && IntOf(PointOne(v, (s, cat.ids[a]))).None? {
      assert Anchor(s, a) in r.missing;
    }
  }

  lemma CondUnneeded(v: View, cat: Catalog, s: NodeId, c: Cond, given: Assumptions, t: Trace)
    ensures Grows(t, CondHolds(v, cat, s, c, map[], t).1)
    ensures Unneeded(CondHolds(v, cat, s, c, map[], t).1.missing, given) ==>
      CondHolds(v, cat, s, c, given, t) == CondHolds(v, cat, s, c, map[], t)
  {
    if c.asOf.Some? {
      AnchorUnneeded(v, cat, s, c.asOf.value, given, t);
    }
  }

  lemma HopUnneeded(v: View, cat: Catalog, s: NodeId, hop: PathHop, last: bool, given: Assumptions, w: Walk, t: Trace)
    requires w.cur.Some?
    ensures Grows(t, WalkHop(v, cat, s, hop, last, map[], w, t).1)
    ensures Unneeded(WalkHop(v, cat, s, hop, last, map[], w, t).1.missing, given) ==>
      WalkHop(v, cat, s, hop, last, given, w, t) == WalkHop(v, cat, s, hop, last, map[], w, t)
  {
    if hop.predicate_ in cat.ids && hop.asOf.Some? {
      var ta := AnchorAt(v, cat, s, hop.asOf.value, map[], t).1;
      AnchorUnneeded(v, cat, s, hop.asOf.value, given, t);
      assert Grows(ta, WalkHop(v, cat, s, hop, last, map[], w, t).1);
    }
  }

  lemma {:induction false} WalkUnneeded(v: View, cat: Catalog, s: NodeId, hops: seq<PathHop>, i: nat,
                                        given: Assumptions, w: Walk, t: Trace)
    requires i <= |hops|
    ensures var r := WalkFrom(v, cat, s, hops, i, map[], w, t);
      Grows(t, r.1) && (Unneeded(r.1.missing, given) ==> WalkFrom(v, cat, s, hops, i, given, w, t) == r)
    decreases |hops| - i
  {
    if i < |hops| && w.cur.Some? {
      hide WalkHop;
      var (w1, t1) := WalkHop(v, cat, s, hops[i], i + 1 == |hops|, map[], w, t);
      HopUnneeded(v, cat, s, hops[i], i + 1 == |hops|, given, w, t);
      WalkUnneeded(v, cat, s, hops, i + 1, given, w1, t1);
    }
  }

  lemma {:induction false} SelectUnneeded(v: View, cat: Catalog, s: NodeId, cases: seq<Case>, i: nat,
                                          given: Assumptions, t: Trace)
    requires i <= |cases|
    ensures var r := SelectCase(v, cat, s, cases, i, map[], t);
      Grows(t, r.1) && (Unneeded(r.1.missing, given) ==> SelectCase(v, cat, s, cases, i, given, t) == r)
    decreases |cases| - i
  {
    if i < |cases| && cases[i].when.Some? {
      hide CondHolds;
      CondUnneeded(v, cat, s, cases[i].when.value, given, t);
      SelectUnneeded(v, cat, s, cases, i + 1, given, CondHolds(v, cat, s, cases[i].when.value, map[], t).1);
    }
  }

  lemma ConcludeUnneeded(v: View, cat: Catalog, rule: Rule, s: NodeId, hops: seq<PathHop>, case_: Option<nat>,
                         given: Assumptions, req: Walk, dis: Walk, t: Trace)
    ensures var r := Conclude(v, cat, rule, s, hops, case_, map[], req, dis, t);
      && Grows(t, r.1)
      && (Unneeded(r.1.missing, given) ==> Conclude(v, cat, rule, s, hops, case_, given, req, dis, t) == r)
  {
    hide CondHolds, JudgePresent;
    if rule.absentWhen.Some? {
      CondUnneeded(v, cat, s, rule.absentWhen.value, given, ActualOf(v, cat, s, rule.actual, t).1);
    }
  }

  lemma AgainstUnneeded(v: View, cat: Catalog, rule: Rule, s: NodeId, hops: seq<PathHop>, case_: Option<nat>,
                        given: Assumptions, t: Trace)
    ensures var r := JudgeAgainst(v, cat, rule, s, hops, case_, map[], t);
      Grows(t, r.1) && (Unneeded(r.1.missing, given) ==> JudgeAgainst(v, cat, rule, s, hops, case_, given, t) == r)
  {
    hide Conclude, WalkFrom;
    var start := Walk(Some(s), None, None, None);
    var (req, t1) := WalkPath(v, cat, s, hops, map[], t);
    var (dis, t2) := WalkPath(v, cat, s, rule.distinctFrom, map[], t1);
    WalkUnneeded(v, cat, s, hops, 0, given, start, t);
    WalkUnneeded(v, cat, s, rule.distinctFrom, 0, given, start, t1);
    ConcludeUnneeded(v, cat, rule, s, hops, case_, given, req, dis, t2);
  }

  lemma ScopedUnneeded(v: View, cat: Catalog, rule: Rule, s: NodeId, given: Assumptions, t: Trace)
    ensures var r := JudgeInScope(v, cat, rule, s, map[], t);
      Grows(t, r.1) && (Unneeded(r.1.missing, given) ==> JudgeInScope(v, cat, rule, s, given, t) == r)
  {
    hide JudgeAgainst, SelectCase;
    if rule.cases == [] {
      AgainstUnneeded(v, cat, rule, s, rule.required, None, given, t);
    } else {
      var (matched, t1) := SelectCase(v, cat, s, rule.cases, 0, map[], t);
      SelectUnneeded(v, cat, s, rule.cases, 0, given, t);
      if matched.Some? {
        AgainstUnneeded(v, cat, rule, s, rule.cases[matched.value].required, matched, given, t1);
      }
    }
  }

  /** Assumptions stand in only for anchors the graph lacks: unless a judgment reports one of the assumed
      anchors missing, the assumptions change nothing, not even what is read. */
  lemma AssumptionsFillGaps(v: View, cat: Catalog, rule: Rule, s: NodeId, given: Assumptions)
    requires Unneeded(Judge(v, cat, rule, s, map[]).0.missing, given)
    ensures Judge(v, cat, rule, s, given) == Judge(v, cat, rule, s, map[])
  {
    hide CondHolds, JudgeInScope;
    if rule.scope.Some? {
      CondUnneeded(v, cat, s, rule.scope.value, given, NoTrace);
    }
    var (inScope, t) := if rule.scope.None? then (true, NoTrace)
      else CondHolds(v, cat, s, rule.scope.value, map[], NoTrace);
    if inScope {
      ScopedUnneeded(v, cat, rule, s, given, t);
    }
  }
}
