/** The evaluator as it runs: loops over hops and cases that update what they found in place. */
module Judging {
  import opened Types
  import opened Snapshots
  import opened Queries
  import opened Conformance

  /** What a judgment in progress found missing, assumed and read. */
  class Gaps {
    var missing: seq<Missing>
    var assumed: seq<Name>
    var keys: seq<Key>

    function Value(): Trace
      reads this
    {
      Trace(missing, assumed, keys)
    }

    constructor ()
      ensures Value() == NoTrace
    {
      missing, assumed, keys := [], [], [];
    }

    method Rec(k: Key)
      modifies `keys
      ensures Value() == old(Value()).Read(k)
    {
      keys := keys + [k];
    }

    method MissIt(m: Missing)
      modifies `missing
      ensures Value() == old(Value()).Miss(m)
    {
      if m !in missing {
        missing := missing + [m];
      }
    }

    method AnchorInstant(v: View, cat: Catalog, s: NodeId, a: Name, given: Assumptions) returns (at: Option<i64>)
      modifies this
      ensures (at, Value()) == AnchorAt(v, cat, s, a, given, old(Value()))
    {
      if a !in cat.ids {
        return None;
      }
      Rec((s, cat.ids[a]));
      var found := IntOf(PointOne(v, (s, cat.ids[a])));
      if found.Some? {
        return found;
      }
      if a in given {
        if a !in assumed {
          assumed := assumed + [a];
        }
        return Some(given[a]);
      }
      MissIt(Anchor(s, a));
      return None;
    }

    method CondHoldsTraced(v: View, cat: Catalog, s: NodeId, c: Cond, given: Assumptions) returns (holds: bool)
      modifies this
      ensures (holds, Value()) == CondHolds(v, cat, s, c, given, old(Value()))
    {
      if c.predicate_ !in cat.ids {
        return false;
      }
      var k := (s, cat.ids[c.predicate_]);
      var value: Option<ObjKey>;
      if c.asOf.None? {
        Rec(k);
        value := PointOne(v, k);
      } else {
        var at := AnchorInstant(v, cat, s, c.asOf.value, given);
        Rec(k);
        value := if at.Some? then PointOneAsOf(v, k, at.value) else None;
      }
      return value.Some? && Matches(cat, c.test, value.value);
    }

    method WalkTraced(v: View, cat: Catalog, s: NodeId, hops: seq<PathHop>, given: Assumptions) returns (w: Walk)
      modifies this
      ensures (w, Value()) == WalkPath(v, cat, s, hops, given, old(Value()))
    {
      var cur, end, asOf := Some(s), None, None;
      var finalAsOfHop: Option<Key> := None;
      var i := 0;
      while i < |hops| && cur.Some?
        invariant i <= |hops|
        invariant WalkFrom(v, cat, s, hops, i, given, Walk(cur, end, asOf, finalAsOfHop), Value())
               == WalkPath(v, cat, s, hops, given, old(Value()))
        decreases |hops| - i
      {
        ghost var before, t := Walk(cur, end, asOf, finalAsOfHop), Value();
        var hop, node := hops[i], cur.value;
        var value: Option<ObjKey> := None;
        var anchorMissing := false;
        finalAsOfHop := None;
        if hop.predicate_ in cat.ids {
          var k := (node, cat.ids[hop.predicate_]);
          if hop.asOf.None? {
            Rec(k);
            value := PointOne(v, k);
          } else {
            var at := AnchorInstant(v, cat, s, hop.asOf.value, given);
            anchorMissing := at.None?;
            asOf, finalAsOfHop := at, Some(k);
            Rec(k);
            value := if at.Some? then PointOneAsOf(v, k, at.value) else None;
          }
        }
        if value.None? && !anchorMissing {
          MissIt(Missing.Hop(node, hop.predicate_));
        }
        if i + 1 == |hops| {
          end := value;
        } else {
          cur := NodeOf(value);
        }
        assert (Walk(cur, end, asOf, finalAsOfHop), Value()) ==
               WalkHop(v, cat, s, hop, i + 1 == |hops|, given, before, t);
        i := i + 1;
      }
      w := Walk(cur, end, asOf, finalAsOfHop);
    }

    method SelectCaseTraced(v: View, cat: Catalog, s: NodeId, cases: seq<Case>, given: Assumptions)
        returns (matched: Option<nat>)
      modifies this
      ensures (matched, Value()) == SelectCase(v, cat, s, cases, 0, given, old(Value()))
    {
      matched := None;
      var i := 0;
      while i < |cases|
        invariant i <= |cases| && matched.None?
        invariant SelectCase(v, cat, s, cases, i, given, Value()) == SelectCase(v, cat, s, cases, 0, given, old(Value()))
      {
        var holds := true;
        if cases[i].when.Some? {
          holds := CondHoldsTraced(v, cat, s, cases[i].when.value, given);
        }
        if holds {
          return Some(i);
        }
        i := i + 1;
      }
    }

    method ConcludeTraced(v: View, cat: Catalog, rule: Rule, s: NodeId, hops: seq<PathHop>, case_: Option<nat>,
                          given: Assumptions, req: Walk, dis: Walk) returns (verdict: Verdict)
      modifies this
      ensures (verdict, Value()) == Conclude(v, cat, rule, s, hops, case_, given, req, dis, old(Value()))
    {
      var asOf := if req.asOf.Some? then req.asOf else dis.asOf;
      var actual: Option<ObjKey> := None;
      if rule.actual in cat.ids {
        Rec((s, cat.ids[rule.actual]));
        actual := PointOne(v, (s, cat.ids[rule.actual]));
      }
      if actual.None? {
        var absent := false;
        if rule.absentWhen.Some? {
          absent := CondHoldsTraced(v, cat, s, rule.absentWhen.value, given);
        }
        return Verdict(s, if absent then Absent else Ok, None, None, req.end, dis.end, None, asOf, case_, [], []);
      }
      var (outcome, kind, reason) := JudgePresent(v, actual.value, hops, req, dis.end);
      return Verdict(s, outcome, kind, reason, req.end, dis.end, actual, asOf, case_, [], []);
    }

    method JudgeGapsTraced(v: View, cat: Catalog, rule: Rule, s: NodeId, given: Assumptions) returns (verdict: Verdict)
      requires Value() == NoTrace
      modifies this
      ensures (verdict, Value()) == JudgeGaps(v, cat, rule, s, given)
    {
      var inScope := true;
      if rule.scope.Some? {
        inScope := CondHoldsTraced(v, cat, s, rule.scope.value, given);
      }
      if !inScope {
        return NotApplicableFor(s, OutOfScope);
      }
      var hops, case_ := rule.required, None;
      if rule.cases != [] {
        case_ := SelectCaseTraced(v, cat, s, rule.cases, given);
        if case_.None? {
          return NotApplicableFor(s, NoMatchingCase);
        }
        hops := rule.cases[case_.value].required;
      }
      var req := WalkTraced(v, cat, s, hops, given);
      var dis := WalkTraced(v, cat, s, rule.distinctFrom, given);
      verdict := ConcludeTraced(v, cat, rule, s, hops, case_, given, req, dis);
    }
  }

  /** Judge a subject and report every key the judgment read. */
  method JudgeTraced(v: View, cat: Catalog, rule: Rule, s: NodeId, given: Assumptions)
      returns (verdict: Verdict, keys: seq<Key>)
    ensures (verdict, keys) == Judge(v, cat, rule, s, given)
  {
    var gaps := new Gaps();
    verdict := gaps.JudgeGapsTraced(v, cat, rule, s, given);
    verdict := verdict.(missing := gaps.missing, assumed := gaps.assumed);
    keys := gaps.keys;
  }
}
