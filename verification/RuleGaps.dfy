/** What a judgment reports as missing and as assumed, told from the rule and the view. */
module RuleGaps {
  import opened Types
  import opened Snapshots
  import opened Queries
  import opened Conformance
  import opened RuleMeaning

  // --- what is consulted -----------------------------------------------------------------------

  /** The anchor that a condition is read at. */
  function CondAnchors(cat: Catalog, c: Option<Cond>): set<Name> {
    if c.Some? && c.value.asOf.Some? && c.value.predicate_ in cat.ids then {c.value.asOf.value} else {}
  }

  /** The anchors of the conditions consulted to find the first matching case: up to and including that of the match. */
  function CaseAnchors(v: View, cat: Catalog, s: NodeId, cases: seq<Case>, given: Assumptions): set<Name> {
    if cases == [] then {}
    else if HoldsIfAny(v, cat, s, cases[0].when, given) then CondAnchors(cat, cases[0].when)
    else CondAnchors(cat, cases[0].when) + CaseAnchors(v, cat, s, cases[1..], given)
  }

  /** The anchors of the hops that a path reaches. */
  function PathAnchors(v: View, cat: Catalog, s: NodeId, hops: seq<PathHop>, given: Assumptions): set<Name> {
    if hops == [] then {}
    else
      var n, hop := LastStop(v, cat, s, hops, given), hops[|hops| - 1];
      PathAnchors(v, cat, s, hops[..|hops| - 1], given) + if n.Some? && Anchored(cat, hop) then {hop.asOf.value} else {}
  }

  /** The hop gives nothing at `n`, although the instant to read it at is known. */
  predicate Broken(v: View, cat: Catalog, s: NodeId, hop: PathHop, n: NodeId, given: Assumptions) {
    && HopValue(v, cat, s, hop, n, given).None?
    && (Anchored(cat, hop) ==> Instant(v, cat, s, hop.asOf.value, given).Some?)
  }

  /** Where a path breaks off. */
  function BrokenHops(v: View, cat: Catalog, s: NodeId, hops: seq<PathHop>, given: Assumptions): set<(NodeId, Name)> {
    if hops == [] then {}
    else
      var n, hop := LastStop(v, cat, s, hops, given), hops[|hops| - 1];
      BrokenHops(v, cat, s, hops[..|hops| - 1], given)
      + if n.Some? && Broken(v, cat, s, hop, n.value, given) then {(n.value, hop.predicate_)} else {}
  }

  // --- what is reported of it ------------------------------------------------------------------

  /** The graph has no instant for the anchor. */
  predicate Wanting(v: View, cat: Catalog, s: NodeId, a: Name) {
    a in cat.ids && IntOf(PointOne(v, (s, cat.ids[a]))).None?
  }

  /** From `t` to `u` exactly these are reported more: of the anchors that the graph has no instant for, those that the
      caller assumes as assumed and the others as missing, and the broken hops. */
  ghost predicate Reports(t: Trace, u: Trace, v: View, cat: Catalog, s: NodeId, given: Assumptions,
                          anchors: set<Name>, broken: set<(NodeId, Name)>) {
    && (forall a :: a in u.assumed <==> a in t.assumed || (a in anchors && Wanting(v, cat, s, a) && a in given))
    && (forall n, a :: Anchor(n, a) in u.missing <==>
         Anchor(n, a) in t.missing || (n == s && a in anchors && Wanting(v, cat, s, a) && a !in given))
    && (forall n, p :: Missing.Hop(n, p) in u.missing <==> Missing.Hop(n, p) in t.missing || (n, p) in broken)
  }

  lemma ReportsMore(t: Trace, u: Trace, w: Trace, v: View, cat: Catalog, s: NodeId, given: Assumptions,
                    a: set<Name>, b: set<Name>, x: set<(NodeId, Name)>, y: set<(NodeId, Name)>)
    requires Reports(t, u, v, cat, s, given, a, x) && Reports(u, w, v, cat, s, given, b, y)
    ensures Reports(t, w, v, cat, s, given, a + b, x + y)
  {
  }

  lemma AnchorReports(v: View, cat: Catalog, s: NodeId, a: Name, given: Assumptions, t: Trace)
    ensures Reports(t, AnchorAt(v, cat, s, a, given, t).1, v, cat, s, given, {a}, {})
  {
  }

  lemma CondReports(v: View, cat: Catalog, s: NodeId, c: Cond, given: Assumptions, t: Trace)
    ensures Reports(t, CondHolds(v, cat, s, c, given, t).1, v, cat, s, given, CondAnchors(cat, Some(c)), {})
  {
    if c.asOf.Some? {
      AnchorReports(v, cat, s, c.asOf.value, given, t);
    }
  }

  /** One hop at the node the path has reached. */
  lemma HopReports(v: View, cat: Catalog, s: NodeId, hop: PathHop, last: bool, given: Assumptions, w: Walk, t: Trace)
    requires w.cur.Some?
    ensures Reports(t, WalkHop(v, cat, s, hop, last, given, w, t).1, v, cat, s, given,
                    if Anchored(cat, hop) then {hop.asOf.value} else {},
                    if Broken(v, cat, s, hop, w.cur.value, given) then {(w.cur.value, hop.predicate_)} else {})
  {
    hide PointOne, PointOneAsOf, Instant;
    if Anchored(cat, hop) {
      AnchorReports(v, cat, s, hop.asOf.value, given, t);
      AnchorIsInstant(v, cat, s, hop.asOf.value, given, t);
    }
    hide AnchorAt, Wanting;
  }

  /** A path that has nowhere to go on from consults nothing more. */
  lemma {:induction false} StuckReports(v: View, cat: Catalog, s: NodeId, hops: seq<PathHop>, i: nat, given: Assumptions)
    requires i <= |hops| && Reached(v, cat, s, hops[..i], given).None?
    ensures PathAnchors(v, cat, s, hops, given) == PathAnchors(v, cat, s, hops[..i], given)
    ensures BrokenHops(v, cat, s, hops, given) == BrokenHops(v, cat, s, hops[..i], given)
    decreases |hops|
  {
    hide HopValue, Broken;
    if i == |hops| {
      assert hops[..i] == hops;
    } else {
      var n := |hops| - 1;
      assert hops[..n][..i] == hops[..i];
      StuckReports(v, cat, s, hops[..n], i, given);
      Stuck(v, cat, s, hops, i, given);
    }
  }

  /** From hop `i` on a walk reports what the rest of the path adds. */
  lemma {:induction false} WalkReports(v: View, cat: Catalog, s: NodeId, hops: seq<PathHop>, i: nat, given: Assumptions,
                                       w: Walk, t: Trace, start: Trace)
    requires i <= |hops| && (i < |hops| ==> Stands(w, v, cat, s, hops[..i], given))
    requires Reports(start, t, v, cat, s, given, PathAnchors(v, cat, s, hops[..i], given),
                     BrokenHops(v, cat, s, hops[..i], given))
    ensures Reports(start, WalkFrom(v, cat, s, hops, i, given, w, t).1, v, cat, s, given,
                    PathAnchors(v, cat, s, hops, given), BrokenHops(v, cat, s, hops, given))
    decreases |hops| - i
  {
    hide Reports, Broken;
    if i == |hops| {
      assert hops[..i] == hops;
    } else if w.cur.None? {
      StuckReports(v, cat, s, hops, i, given);
    } else {
      var (w1, t1) := WalkHop(v, cat, s, hops[i], i + 1 == |hops|, given, w, t);
      HopStands(v, cat, s, hops, i, given, w, t);
      HopReports(v, cat, s, hops[i], i + 1 == |hops|, given, w, t);
      hide WalkHop, HopValue;
      assert hops[..i + 1][..i] == hops[..i];
      ReportsMore(start, t, t1, v, cat, s, given, PathAnchors(v, cat, s, hops[..i], given),
                  if Anchored(cat, hops[i]) then {hops[i].asOf.value} else {},
                  BrokenHops(v, cat, s, hops[..i], given),
                  if Broken(v, cat, s, hops[i], w.cur.value, given) then {(w.cur.value, hops[i].predicate_)} else {});
      WalkReports(v, cat, s, hops, i + 1, given, w1, t1, start);
    }
  }

  lemma PathReports(v: View, cat: Catalog, s: NodeId, hops: seq<PathHop>, given: Assumptions, t: Trace)
    ensures Reports(t, WalkPath(v, cat, s, hops, given, t).1, v, cat, s, given,
                    PathAnchors(v, cat, s, hops, given), BrokenHops(v, cat, s, hops, given))
  {
    assert hops[..0] == [];
    WalkReports(v, cat, s, hops, 0, given, Walk(Some(s), None, None, None), t, t);
  }

  lemma {:induction false} SelectReports(v: View, cat: Catalog, s: NodeId, cases: seq<Case>, i: nat, given: Assumptions,
                                         t: Trace)
    requires i <= |cases|
    ensures Reports(t, SelectCase(v, cat, s, cases, i, given, t).1, v, cat, s, given,
                    CaseAnchors(v, cat, s, cases[i..], given), {})
    decreases |cases| - i
  {
    hide CondHolds, Holds, Wanting;
    var none: set<(NodeId, Name)> := {};
    if i < |cases| && cases[i].when.Some? {
      var c := cases[i].when.value;
      var t1 := CondHolds(v, cat, s, c, given, t).1;
      CondMeans(v, cat, s, c, given, t);
      CondReports(v, cat, s, c, given, t);
      assert cases[i..][0] == cases[i] && cases[i..][1..] == cases[i + 1..];
      SelectReports(v, cat, s, cases, i + 1, given, t1);
      if !CondHolds(v, cat, s, c, given, t).0 {
        hide Reports;
        ReportsMore(t, t1, SelectCase(v, cat, s, cases, i + 1, given, t1).1, v, cat, s, given,
                    CondAnchors(cat, cases[i].when), CaseAnchors(v, cat, s, cases[i + 1..], given), none, none);
        assert none + none == none;
      }
    }
  }

  /** What judging against a path consults: both paths, and for a missing actual the absence condition. */
  function AgainstAnchors(v: View, cat: Catalog, rule: Rule, s: NodeId, hops: seq<PathHop>, given: Assumptions): set<Name> {
    PathAnchors(v, cat, s, hops, given) + PathAnchors(v, cat, s, rule.distinctFrom, given)
    + if ValueOf(v, cat, s, rule.actual).None? then CondAnchors(cat, rule.absentWhen) else {}
  }

  function AgainstBroken(v: View, cat: Catalog, rule: Rule, s: NodeId, hops: seq<PathHop>,
                         given: Assumptions): set<(NodeId, Name)> {
    BrokenHops(v, cat, s, hops, given) + BrokenHops(v, cat, s, rule.distinctFrom, given)
  }

  lemma ConcludeReports(v: View, cat: Catalog, rule: Rule, s: NodeId, hops: seq<PathHop>, case_: Option<nat>,
                        given: Assumptions, req: Walk, dis: Walk, t: Trace)
    ensures Reports(t, Conclude(v, cat, rule, s, hops, case_, given, req, dis, t).1, v, cat, s, given,
                    if ValueOf(v, cat, s, rule.actual).None? then CondAnchors(cat, rule.absentWhen) else {}, {})
  {
    hide CondHolds, JudgePresent, Wanting, PointOne;
    if rule.absentWhen.Some? {
      CondReports(v, cat, s, rule.absentWhen.value, given, ActualOf(v, cat, s, rule.actual, t).1);
    }
  }

  lemma AgainstReports(v: View, cat: Catalog, rule: Rule, s: NodeId, hops: seq<PathHop>, case_: Option<nat>,
                       given: Assumptions, t: Trace)
    ensures Reports(t, JudgeAgainst(v, cat, rule, s, hops, case_, given, t).1, v, cat, s, given,
                    AgainstAnchors(v, cat, rule, s, hops, given), AgainstBroken(v, cat, rule, s, hops, given))
  {
    hide Conclude, WalkPath, Reports, PathAnchors, BrokenHops, CondAnchors, ValueOf;
    var (req, t1) := WalkPath(v, cat, s, hops, given, t);
    var (dis, t2) := WalkPath(v, cat, s, rule.distinctFrom, given, t1);
    var a, b := PathAnchors(v, cat, s, hops, given), PathAnchors(v, cat, s, rule.distinctFrom, given);
    var c := if ValueOf(v, cat, s, rule.actual).None? then CondAnchors(cat, rule.absentWhen) else {};
    var broken := AgainstBroken(v, cat, rule, s, hops, given);
    PathReports(v, cat, s, hops, given, t);
    PathReports(v, cat, s, rule.distinctFrom, given, t1);
    ConcludeReports(v, cat, rule, s, hops, case_, given, req, dis, t2);
    ReportsMore(t, t1, t2, v, cat, s, given, a, b, BrokenHops(v, cat, s, hops, given),
                BrokenHops(v, cat, s, rule.distinctFrom, given));
    ReportsMore(t, t2, Conclude(v, cat, rule, s, hops, case_, given, req, dis, t2).1, v, cat, s, given, a + b, c, broken,
                {});
    assert broken + {} == broken;
  }

  // --- a whole judgment ------------------------------------------------------------------------

  /** The path a subject is judged against: the rule's own, or that of the first case that matches; none otherwise. */
  ghost predicate JudgedBy(v: View, cat: Catalog, rule: Rule, s: NodeId, given: Assumptions, hops: seq<PathHop>) {
    if rule.cases == [] then hops == rule.required
    else exists i: nat :: FirstCase(v, cat, s, rule.cases, given, i) && hops == rule.cases[i].required
  }

  lemma InScopeReports(v: View, cat: Catalog, rule: Rule, s: NodeId, given: Assumptions, t: Trace)
    ensures var u := JudgeInScope(v, cat, rule, s, given, t).1;
      var a := CaseAnchors(v, cat, s, rule.cases, given);
      && (forall hops :: JudgedBy(v, cat, rule, s, given, hops) ==>
           Reports(t, u, v, cat, s, given, a + AgainstAnchors(v, cat, rule, s, hops, given),
                   AgainstBroken(v, cat, rule, s, hops, given)))
      && ((forall hops :: !JudgedBy(v, cat, rule, s, given, hops)) ==> Reports(t, u, v, cat, s, given, a, {}))
  {
    hide JudgeAgainst, SelectCase, Reports, AgainstAnchors, AgainstBroken, CaseAnchors, HoldsIfAny;
    var none: set<(NodeId, Name)> := {};
    if rule.cases == [] {
      AgainstReports(v, cat, rule, s, rule.required, None, given, t);
      NoCases(v, cat, s, given);
      assert JudgedBy(v, cat, rule, s, given, rule.required);
      assert {} + AgainstAnchors(v, cat, rule, s, rule.required, given)
          == AgainstAnchors(v, cat, rule, s, rule.required, given);
    } else {
      var (matched, t1) := SelectCase(v, cat, s, rule.cases, 0, given, t);
      SelectMeans(v, cat, s, rule.cases, 0, given, t);
      SelectReports(v, cat, s, rule.cases, 0, given, t);
      assert rule.cases[0..] == rule.cases;
      if matched.Some? {
        var hops := rule.cases[matched.value].required;
        AgainstReports(v, cat, rule, s, hops, matched, given, t1);
        ReportsMore(t, t1, JudgeAgainst(v, cat, rule, s, hops, matched, given, t1).1, v, cat, s, given,
                    CaseAnchors(v, cat, s, rule.cases, given), AgainstAnchors(v, cat, rule, s, hops, given),
                    none, AgainstBroken(v, cat, rule, s, hops, given));
        assert none + AgainstBroken(v, cat, rule, s, hops, given) == AgainstBroken(v, cat, rule, s, hops, given);
        assert FirstCase(v, cat, s, rule.cases, given, matched.value);
        forall i: nat | FirstCase(v, cat, s, rule.cases, given, i)
          ensures i == matched.value
        {
        }
        assert JudgedBy(v, cat, rule, s, given, hops);
      } else {
        assert forall i: nat :: !FirstCase(v, cat, s, rule.cases, given, i);
      }
    }
  }

  lemma NoCases(v: View, cat: Catalog, s: NodeId, given: Assumptions)
    ensures CaseAnchors(v, cat, s, [], given) == {}
  {
  }

  /** The verdict carries nothing but why the rule says nothing about the subject. */
  predicate Valueless(r: Verdict) {
    && r.verdict == NotApplicable && r.mismatchKind == None && r.case_ == None && r.asOf == None
    && r.required == None && r.distinct == None && r.actual == None
  }

  /** Exactly what was consulted and not found is reported. Out of scope that is the scope's anchor alone; in scope also
      the anchors of the cases tried; and, for a subject judged against a path, those of the hops reached on both
      paths, the hops that gave nothing, and, with no actual value, the anchor of the absence condition. An anchor that
      the graph has no instant for is reported as assumed if the caller assumes one, else as missing. */
  lemma GapsMean(v: View, cat: Catalog, rule: Rule, s: NodeId, given: Assumptions)
    ensures var r, scope := Judge(v, cat, rule, s, given).0, CondAnchors(cat, rule.scope);
      var u, a := Trace(r.missing, r.assumed, []), scope + CaseAnchors(v, cat, s, rule.cases, given);
      && (!HoldsIfAny(v, cat, s, rule.scope, given) ==> Reports(NoTrace, u, v, cat, s, given, scope, {}) && Valueless(r))
      && (HoldsIfAny(v, cat, s, rule.scope, given) ==>
           && (forall hops :: JudgedBy(v, cat, rule, s, given, hops) ==>
                Reports(NoTrace, u, v, cat, s, given, a + AgainstAnchors(v, cat, rule, s, hops, given),
                        AgainstBroken(v, cat, rule, s, hops, given)))
           && ((forall hops :: !JudgedBy(v, cat, rule, s, given, hops)) ==>
                Reports(NoTrace, u, v, cat, s, given, a, {}) && Valueless(r)))
  {
    hide CondHolds, JudgeInScope, JudgedBy, Reports, AgainstAnchors, AgainstBroken, CaseAnchors, Holds;
    var none: set<(NodeId, Name)> := {};
    var r := Judge(v, cat, rule, s, given).0;
    var u := Trace(r.missing, r.assumed, []);
    var t := if rule.scope.None? then NoTrace else CondHolds(v, cat, s, rule.scope.value, given, NoTrace).1;
    var scope, a := CondAnchors(cat, rule.scope), CaseAnchors(v, cat, s, rule.cases, given);
    ScopeReports(v, cat, rule, s, given, t);
    if HoldsIfAny(v, cat, s, rule.scope, given) {
      var t1 := JudgeInScope(v, cat, rule, s, given, t).1;
      InScopeReports(v, cat, rule, s, given, t);
      forall hops | JudgedBy(v, cat, rule, s, given, hops)
        ensures Reports(NoTrace, u, v, cat, s, given, (scope + a) + AgainstAnchors(v, cat, rule, s, hops, given),
                        AgainstBroken(v, cat, rule, s, hops, given))
      {
        var b, broken := AgainstAnchors(v, cat, rule, s, hops, given), AgainstBroken(v, cat, rule, s, hops, given);
        ReportsMore(NoTrace, t, t1, v, cat, s, given, scope, a + b, none, broken);
        assert scope + (a + b) == (scope + a) + b && none + broken == broken;
        SameReports(NoTrace, t1, u, v, cat, s, given, (scope + a) + b, broken);
      }
      if forall hops :: !JudgedBy(v, cat, rule, s, given, hops) {
        ReportsMore(NoTrace, t, t1, v, cat, s, given, scope, a, none, none);
        assert none + none == none;
        SameReports(NoTrace, t1, u, v, cat, s, given, scope + a, none);
        NotJudged(v, cat, rule, s, given, t);
      }
    } else {
      SameReports(NoTrace, t, u, v, cat, s, given, scope, none);
    }
  }

  lemma ScopeReports(v: View, cat: Catalog, rule: Rule, s: NodeId, given: Assumptions, t: Trace)
    requires t == if rule.scope.None? then NoTrace else CondHolds(v, cat, s, rule.scope.value, given, NoTrace).1
    ensures Reports(NoTrace, t, v, cat, s, given, CondAnchors(cat, rule.scope), {})
    ensures rule.scope.Some? ==>
      (CondHolds(v, cat, s, rule.scope.value, given, NoTrace).0 <==> HoldsIfAny(v, cat, s, rule.scope, given))
  {
    hide CondHolds, Holds, Wanting;
    if rule.scope.Some? {
      CondReports(v, cat, s, rule.scope.value, given, NoTrace);
      CondMeans(v, cat, s, rule.scope.value, given, NoTrace);
    }
  }

  /** Which keys were read does not matter. */
  lemma SameReports(t: Trace, u: Trace, w: Trace, v: View, cat: Catalog, s: NodeId, given: Assumptions,
                    a: set<Name>, x: set<(NodeId, Name)>)
    requires Reports(t, u, v, cat, s, given, a, x) && w.missing == u.missing && w.assumed == u.assumed
    ensures Reports(t, w, v, cat, s, given, a, x)
  {
  }

  /** Without a path to judge against, no case matched. */
  lemma NotJudged(v: View, cat: Catalog, rule: Rule, s: NodeId, given: Assumptions, t: Trace)
    ensures (exists hops :: JudgedBy(v, cat, rule, s, given, hops)) || Valueless(JudgeInScope(v, cat, rule, s, given, t).0)
  {
    hide JudgeAgainst, SelectCase, HoldsIfAny;
    if rule.cases == [] {
      assert JudgedBy(v, cat, rule, s, given, rule.required);
    } else {
      SelectMeans(v, cat, s, rule.cases, 0, given, t);
      var matched := SelectCase(v, cat, s, rule.cases, 0, given, t).0;
      if matched.Some? {
        assert FirstCase(v, cat, s, rule.cases, given, matched.value);
        assert JudgedBy(v, cat, rule, s, given, rule.cases[matched.value].required);
      }
    }
  }
}
