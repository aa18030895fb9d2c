/** Conformance: a declared rule judged per subject, with every key it reads recorded. */
module Conformance {
  import opened Types
  import opened Rows
  import opened Snapshots
  import opened Queries

  type Name = string

  datatype Ordering = Less | Equal | Greater

  /** Names resolved to ids, and the comparison of numbers that are not both ints. */
  datatype Catalog = Catalog(ids: map<Name, FieldId>, floatCmp: (ObjKey, ObjKey) -> Option<Ordering>)

  // --- rules -----------------------------------------------------------------------------------

  datatype Bound = Bound(value: ObjKey, inclusive: bool)

  datatype Test = Equals(value: ObjKey) | Range(lower: Option<Bound>, upper: Option<Bound>)

  /** A condition on the subject's One value of `predicate`, read now or as of an anchor instant. */
  datatype Cond = Cond(predicate_: Name, test: Test, asOf: Option<Name>)

  datatype PathHop = PathHop(predicate_: Name, asOf: Option<Name>)

  datatype Case = Case(when: Option<Cond>, required: seq<PathHop>)

  datatype Rule = Rule(
    subjectType: Name,
    scope: Option<Cond>,
    required: seq<PathHop>,
    cases: seq<Case>,
    distinctFrom: seq<PathHop>,
    actual: Name,
    absentWhen: Option<Cond>)

  type Assumptions = map<Name, i64>

  predicate Numeric(o: ObjKey) { o.Int? || o.Float? }

  /** Two ints compare exactly; other numbers as floats; anything else is incomparable. */
  function NumCmp(cat: Catalog, a: ObjKey, b: ObjKey): Option<Ordering> {
    if a.Int? && b.Int? then Some(if a.num < b.num then Less else if a.num == b.num then Equal else Greater)
    else if Numeric(a) && Numeric(b) then cat.floatCmp(a, b)
    else None
  }

  predicate Matches(cat: Catalog, test: Test, v: ObjKey) {
    match test
    case Equals(e) => v == e
    case Range(lower, upper) =>
      && (lower.Some? ==>
           || NumCmp(cat, v, lower.value.value) == Some(Greater)
           || (NumCmp(cat, v, lower.value.value) == Some(Equal) && lower.value.inclusive))
      && (upper.Some? ==>
           || NumCmp(cat, v, upper.value.value) == Some(Less)
           || (NumCmp(cat, v, upper.value.value) == Some(Equal) && upper.value.inclusive))
      && Numeric(v)
  }

  // --- verdicts --------------------------------------------------------------------------------

  datatype Outcome = Ok | Absent | Mismatch | NotApplicable

  datatype MismatchKind = Stale | Wrong

  datatype Reason =
    | OutOfScope
    | NoMatchingCase
    | RequiredUnresolved
    | NotSubjectType
    | UnknownSubject
    | HiddenByLabel

  datatype Missing = Anchor(node: NodeId, predicate_: Name) | Hop(node: NodeId, predicate_: Name)

  datatype Verdict = Verdict(
    subject: NodeId,
    verdict: Outcome,
    mismatchKind: Option<MismatchKind>,
    reason: Option<Reason>,
    required: Option<ObjKey>,
    distinct: Option<ObjKey>,
    actual: Option<ObjKey>,
    asOf: Option<i64>,
    case_: Option<nat>,
    missing: seq<Missing>,
    assumed: seq<Name>)

  function NotApplicableFor(s: NodeId, reason: Reason): Verdict {
    Verdict(s, NotApplicable, None, Some(reason), None, None, None, None, None, [], [])
  }

  // --- reading with a trace --------------------------------------------------------------------

  /** What a judgment found missing, which assumptions it used, and every key it read. */
  datatype Trace = Trace(missing: seq<Missing>, assumed: seq<Name>, keys: seq<Key>) {
    function Read(k: Key): Trace { this.(keys := keys + [k]) }

    function Miss(m: Missing): Trace { if m in missing then this else this.(missing := missing + [m]) }

    function Assume(a: Name): Trace { if a in assumed then this else this.(assumed := assumed + [a]) }
  }

  const NoTrace: Trace := Trace([], [], [])

  function IntOf(o: Option<ObjKey>): Option<i64> {
    if o.Some? && o.value.Int? then Some(o.value.num) else None
  }

  function NodeOf(o: Option<ObjKey>): Option<NodeId> {
    if o.Some? && o.value.Node? then Some(o.value.node) else None
  }

  /** The instant of anchor `a` on subject `s`: the graph's value, else the caller's assumption. */
  function AnchorAt(v: View, cat: Catalog, s: NodeId, a: Name, given: Assumptions, t: Trace): (Option<i64>, Trace) {
    if a !in cat.ids then (None, t)
    else
      var t1 := t.Read((s, cat.ids[a]));
      var found := IntOf(PointOne(v, (s, cat.ids[a])));
      if found.Some? then (found, t1)
      else if a in given then (Some(given[a]), t1.Assume(a))
      else (None, t1.Miss(Anchor(s, a)))
  }

  /** Whether `c` holds on `s`; a condition on an unknown name holds never and reads nothing. */
  function CondHolds(v: View, cat: Catalog, s: NodeId, c: Cond, given: Assumptions, t: Trace): (bool, Trace) {
    if c.predicate_ !in cat.ids then (false, t)
    else
      var k := (s, cat.ids[c.predicate_]);
      if c.asOf.None? then
        (PointOne(v, k).Some? && Matches(cat, c.test, PointOne(v, k).value), t.Read(k))
      else
        var (at, t1) := AnchorAt(v, cat, s, c.asOf.value, given, t);
        var value := if at.Some? then PointOneAsOf(v, k, at.value) else None;
        (value.Some? && Matches(cat, c.test, value.value), t1.Read(k))
  }

  /** A path walk in progress: where it stands, and what its last hop gave. */
  datatype Walk = Walk(cur: Option<NodeId>, end: Option<ObjKey>, asOf: Option<i64>, finalAsOfHop: Option<Key>)

  /** One hop from node `w.cur`. */
  function WalkHop(v: View, cat: Catalog, s: NodeId, hop: PathHop, last: bool, given: Assumptions, w: Walk,
                   t: Trace): (Walk, Trace)
    requires w.cur.Some?
  {
    var node := w.cur.value;
    var (value, anchorMissing, w1, t1) :=
      if hop.predicate_ !in cat.ids then (None, false, w.(finalAsOfHop := None), t)
      else
        var k := (node, cat.ids[hop.predicate_]);
        if hop.asOf.None? then (PointOne(v, k), false, w.(finalAsOfHop := None), t.Read(k))
        else
          var (at, ta) := AnchorAt(v, cat, s, hop.asOf.value, given, t);
          (if at.Some? then PointOneAsOf(v, k, at.value) else None, at.None?,
           w.(asOf := at, finalAsOfHop := Some(k)), ta.Read(k));
    var t2 := if value.None? && !anchorMissing then t1.Miss(Missing.Hop(node, hop.predicate_)) else t1;
    (if last then w1.(end := value) else w1.(cur := NodeOf(value)), t2)
  }

  /** Walk the hops from index `i` on, stopping where there is no node to continue from. */
  function WalkFrom(v: View, cat: Catalog, s: NodeId, hops: seq<PathHop>, i: nat, given: Assumptions, w: Walk,
                    t: Trace): (Walk, Trace)
    requires i <= |hops|
    decreases |hops| - i
  {
    if i == |hops| || w.cur.None? then (w, t)
    else
      var (w1, t1) := WalkHop(v, cat, s, hops[i], i + 1 == |hops|, given, w, t);
      WalkFrom(v, cat, s, hops, i + 1, given, w1, t1)
  }

  function WalkPath(v: View, cat: Catalog, s: NodeId, hops: seq<PathHop>, given: Assumptions, t: Trace): (Walk, Trace) {
    WalkFrom(v, cat, s, hops, 0, given, Walk(Some(s), None, None, None), t)
  }

  /** The first case from index `i` on whose condition holds; only the conditions consulted are read. */
  function SelectCase(v: View, cat: Catalog, s: NodeId, cases: seq<Case>, i: nat, given: Assumptions,
                      t: Trace): (Option<nat>, Trace)
    requires i <= |cases|
    ensures SelectCase(v, cat, s, cases, i, given, t).0.Some?
      ==> SelectCase(v, cat, s, cases, i, given, t).0.value < |cases|
    decreases |cases| - i
  {
    if i == |cases| then (None, t)
    else if cases[i].when.None? then (Some(i), t)
    else
      var (holds, t1) := CondHolds(v, cat, s, cases[i].when.value, given, t);
      if holds then (Some(i), t1) else SelectCase(v, cat, s, cases, i + 1, given, t1)
  }

  /** Whether the key ever held `value`, at any valid time. */
  predicate EverHeld(v: View, k: Key, value: ObjKey) {
    exists i :: 0 <= i < |OneRowsOf(v, k)| && OneRowsOf(v, k)[i].v.obj == Some(value)
  }

  /** The observed value, when its predicate's name is known. */
  function ActualOf(v: View, cat: Catalog, s: NodeId, name: Name, t: Trace): (Option<ObjKey>, Trace) {
    if name !in cat.ids then (None, t)
    else (PointOne(v, (s, cat.ids[name])), t.Read((s, cat.ids[name])))
  }

  /** The verdict on a present actual. */
  function JudgePresent(v: View, a: ObjKey, hops: seq<PathHop>, req: Walk, distinct: Option<ObjKey>)
    : (Outcome, Option<MismatchKind>, Option<Reason>)
  {
    if hops != [] && req.end.None? then
      if distinct == Some(a) then (Mismatch, Some(Wrong), None) else (NotApplicable, None, Some(RequiredUnresolved))
    else if hops != [] && req.end != Some(a) then
      (Mismatch,
       Some(if req.finalAsOfHop.Some? && EverHeld(v, req.finalAsOfHop.value, a) then Stale else Wrong),
       None)
    else if distinct == Some(a) then (Mismatch, Some(Wrong), None)
    else (Ok, None, None)
  }

  /** The verdict on a missing actual: absent only when a declared absence condition holds. */
  function JudgeMissing(v: View, cat: Catalog, rule: Rule, s: NodeId, given: Assumptions, t: Trace): (Outcome, Trace) {
    if rule.absentWhen.None? then (Ok, t)
    else
      var (absent, t1) := CondHolds(v, cat, s, rule.absentWhen.value, given, t);
      (if absent then Absent else Ok, t1)
  }

  /** The verdict once both paths are walked. */
  function Conclude(v: View, cat: Catalog, rule: Rule, s: NodeId, hops: seq<PathHop>, case_: Option<nat>,
                    given: Assumptions, req: Walk, dis: Walk, t: Trace): (Verdict, Trace) {
    var asOf := if req.asOf.Some? then req.asOf else dis.asOf;
    var (actual, t1) := ActualOf(v, cat, s, rule.actual, t);
    if actual.None? then
      var (outcome, t2) := JudgeMissing(v, cat, rule, s, given, t1);
      (Verdict(s, outcome, None, None, req.end, dis.end, None, asOf, case_, [], []), t2)
    else
      var (outcome, kind, reason) := JudgePresent(v, actual.value, hops, req, dis.end);
      (Verdict(s, outcome, kind, reason, req.end, dis.end, actual, asOf, case_, [], []), t1)
  }

  /** The verdict once the required path is selected. */
  function JudgeAgainst(v: View, cat: Catalog, rule: Rule, s: NodeId, hops: seq<PathHop>, case_: Option<nat>,
                        given: Assumptions, t: Trace): (Verdict, Trace) {
    var (req, t1) := WalkPath(v, cat, s, hops, given, t);
    var (dis, t2) := WalkPath(v, cat, s, rule.distinctFrom, given, t1);
    Conclude(v, cat, rule, s, hops, case_, given, req, dis, t2)
  }

  /** The verdict after the scope check. */
  function JudgeInScope(v: View, cat: Catalog, rule: Rule, s: NodeId, given: Assumptions, t: Trace): (Verdict, Trace) {
    if rule.cases == [] then JudgeAgainst(v, cat, rule, s, rule.required, None, given, t)
    else
      var (matched, t1) := SelectCase(v, cat, s, rule.cases, 0, given, t);
      if matched.None? then (NotApplicableFor(s, NoMatchingCase), t1)
      else JudgeAgainst(v, cat, rule, s, rule.cases[matched.value].required, matched, given, t1)
  }

  function JudgeGaps(v: View, cat: Catalog, rule: Rule, s: NodeId, given: Assumptions): (Verdict, Trace) {
    var (inScope, t) := if rule.scope.None? then (true, NoTrace)
      else CondHolds(v, cat, s, rule.scope.value, given, NoTrace);
    if inScope then JudgeInScope(v, cat, rule, s, given, t) else (NotApplicableFor(s, OutOfScope), t)
  }

  /** The verdict for `s`, and every key the judgment read. */
  function Judge(v: View, cat: Catalog, rule: Rule, s: NodeId, given: Assumptions): (Verdict, seq<Key>) {
    var (verdict, t) := JudgeGaps(v, cat, rule, s, given);
    (verdict.(missing := t.missing, assumed := t.assumed), t.keys)
  }

  // --- the support set is enough ---------------------------------------------------------------

  /** Two views answer alike on every key of `ks`. */
  ghost predicate Agree(v: View, w: View, ks: seq<Key>) {
    forall k :: k in ks ==> Get(v.one, k) == Get(w.one, k) && Get(v.oneRows, k) == Get(w.oneRows, k)
  }

  lemma AgreePoint(v: View, w: View, ks: seq<Key>, k: Key)
    requires Agree(v, w, ks) && k in ks
    ensures PointOne(v, k) == PointOne(w, k) && OneRowsOf(v, k) == OneRowsOf(w, k)
  {
    assert Get(v.one, k) == Get(w.one, k) && Get(v.oneRows, k) == Get(w.oneRows, k);
  }

  lemma AnchorFrame(v: View, w: View, cat: Catalog, s: NodeId, a: Name, given: Assumptions, t: Trace)
    ensures t.keys <= AnchorAt(v, cat, s, a, given, t).1.keys
    ensures Agree(v, w, AnchorAt(v, cat, s, a, given, t).1.keys) ==>
      AnchorAt(w, cat, s, a, given, t) == AnchorAt(v, cat, s, a, given, t)
  {
    var r := AnchorAt(v, cat, s, a, given, t).1.keys;
    if a in cat.ids && Agree(v, w, r) {
      assert r[|t.keys|] == (s, cat.ids[a]);
      AgreePoint(v, w, r, (s, cat.ids[a]));
    }
  }

  lemma CondFrame(v: View, w: View, cat: Catalog, s: NodeId, c: Cond, given: Assumptions, t: Trace)
    ensures t.keys <= CondHolds(v, cat, s, c, given, t).1.keys
    ensures Agree(v, w, CondHolds(v, cat, s, c, given, t).1.keys) ==>
      CondHolds(w, cat, s, c, given, t) == CondHolds(v, cat, s, c, given, t)
  {
    if c.predicate_ in cat.ids {
      var k, r := (s, cat.ids[c.predicate_]), CondHolds(v, cat, s, c, given, t).1.keys;
      assert r[|r| - 1] == k;
      if c.asOf.Some? {
        AnchorFrame(v, w, cat, s, c.asOf.value, given, t);
      }
      if Agree(v, w, r) {
        AgreePoint(v, w, r, k);
      }
    }
  }

  lemma WalkHopFrame(v: View, w: View, cat: Catalog, s: NodeId, hop: PathHop, last: bool, given: Assumptions,
                     at: Walk, t: Trace)
    requires at.cur.Some?
    ensures t.keys <= WalkHop(v, cat, s, hop, last, given, at, t).1.keys
    ensures Agree(v, w, WalkHop(v, cat, s, hop, last, given, at, t).1.keys) ==>
      WalkHop(w, cat, s, hop, last, given, at, t) == WalkHop(v, cat, s, hop, last, given, at, t)
  {
    if hop.predicate_ in cat.ids {
      var k, r := (at.cur.value, cat.ids[hop.predicate_]), WalkHop(v, cat, s, hop, last, given, at, t).1.keys;
      assert r[|r| - 1] == k;
      if hop.asOf.Some? {
        AnchorFrame(v, w, cat, s, hop.asOf.value, given, t);
      }
      if Agree(v, w, r) {
        AgreePoint(v, w, r, k);
      }
    }
  }

  /** A final as-of hop that the walk reports was read. */
  ghost predicate FinalHopRead(w: Walk, t: Trace) {
    w.finalAsOfHop.Some? ==> w.finalAsOfHop.value in t.keys
  }

  lemma {:induction false} WalkFrame(v: View, w: View, cat: Catalog, s: NodeId, hops: seq<PathHop>, i: nat,
                                     given: Assumptions, at: Walk, t: Trace)
    requires i <= |hops| && FinalHopRead(at, t)
    ensures var r := WalkFrom(v, cat, s, hops, i, given, at, t);
      && t.keys <= r.1.keys
      && FinalHopRead(r.0, r.1)
      && (Agree(v, w, r.1.keys) ==> WalkFrom(w, cat, s, hops, i, given, at, t) == r)
    decreases |hops| - i
  {
    if i < |hops| && at.cur.Some? {
      var (w1, t1) := WalkHop(v, cat, s, hops[i], i + 1 == |hops|, given, at, t);
      WalkHopFrame(v, w, cat, s, hops[i], i + 1 == |hops|, given, at, t);
      WalkFrame(v, w, cat, s, hops, i + 1, given, w1, t1);
    }
  }

  lemma {:induction false} SelectFrame(v: View, w: View, cat: Catalog, s: NodeId, cases: seq<Case>, i: nat,
                                       given: Assumptions, t: Trace)
    requires i <= |cases|
    ensures var r := SelectCase(v, cat, s, cases, i, given, t);
      t.keys <= r.1.keys && (Agree(v, w, r.1.keys) ==> SelectCase(w, cat, s, cases, i, given, t) == r)
    decreases |cases| - i
  {
    if i < |cases| && cases[i].when.Some? {
      var c := cases[i].when.value;
      CondFrame(v, w, cat, s, c, given, t);
      SelectFrame(v, w, cat, s, cases, i + 1, given, CondHolds(v, cat, s, c, given, t).1);
    }
  }

  lemma PresentFrame(v: View, w: View, a: ObjKey, hops: seq<PathHop>, req: Walk, distinct: Option<ObjKey>, ks: seq<Key>)
    requires Agree(v, w, ks) && (req.finalAsOfHop.Some? ==> req.finalAsOfHop.value in ks)
    ensures JudgePresent(v, a, hops, req, distinct) == JudgePresent(w, a, hops, req, distinct)
  {
    if req.finalAsOfHop.Some? {
      AgreePoint(v, w, ks, req.finalAsOfHop.value);
    }
  }

  lemma ActualFrame(v: View, w: View, cat: Catalog, s: NodeId, name: Name, t: Trace)
    ensures var r := ActualOf(v, cat, s, name, t);
      t.keys <= r.1.keys && (Agree(v, w, r.1.keys) ==> ActualOf(w, cat, s, name, t) == r)
  {
    var r := ActualOf(v, cat, s, name, t).1.keys;
    if name in cat.ids && Agree(v, w, r) {
      assert r[|t.keys|] == (s, cat.ids[name]);
      AgreePoint(v, w, r, (s, cat.ids[name]));
    }
  }

  lemma ConcludeFrame(v: View, w: View, cat: Catalog, rule: Rule, s: NodeId, hops: seq<PathHop>, case_: Option<nat>,
                      given: Assumptions, req: Walk, dis: Walk, t: Trace)
    requires FinalHopRead(req, t)
    ensures var r := Conclude(v, cat, rule, s, hops, case_, given, req, dis, t);
      t.keys <= r.1.keys && (Agree(v, w, r.1.keys) ==> Conclude(w, cat, rule, s, hops, case_, given, req, dis, t) == r)
  {
    var r := Conclude(v, cat, rule, s, hops, case_, given, req, dis, t).1.keys;
    var (actual, t1) := ActualOf(v, cat, s, rule.actual, t);
    ActualFrame(v, w, cat, s, rule.actual, t);
    if actual.None? {
      if rule.absentWhen.Some? {
        CondFrame(v, w, cat, s, rule.absentWhen.value, given, t1);
      }
    } else if Agree(v, w, r) {
      PresentFrame(v, w, actual.value, hops, req, dis.end, r);
    }
  }

  lemma AgainstFrame(v: View, w: View, cat: Catalog, rule: Rule, s: NodeId, hops: seq<PathHop>, case_: Option<nat>,
                     given: Assumptions, t: Trace)
    ensures var r := JudgeAgainst(v, cat, rule, s, hops, case_, given, t);
      t.keys <= r.1.keys && (Agree(v, w, r.1.keys) ==> JudgeAgainst(w, cat, rule, s, hops, case_, given, t) == r)
  {
    var start := Walk(Some(s), None, None, None);
    var (req, t1) := WalkPath(v, cat, s, hops, given, t);
    var (dis, t2) := WalkPath(v, cat, s, rule.distinctFrom, given, t1);
    WalkFrame(v, w, cat, s, hops, 0, given, start, t);
    WalkFrame(v, w, cat, s, rule.distinctFrom, 0, given, start, t1);
    ConcludeFrame(v, w, cat, rule, s, hops, case_, given, req, dis, t2);
  }

  /** The support set decides the verdict: any view that answers alike on every key the judgment read gives
      the same verdict, and reads the same keys. */
  lemma JudgeFrame(v: View, w: View, cat: Catalog, rule: Rule, s: NodeId, given: Assumptions)
    requires Agree(v, w, Judge(v, cat, rule, s, given).1)
    ensures Judge(w, cat, rule, s, given) == Judge(v, cat, rule, s, given)
  {
    var (inScope, t) := if rule.scope.None? then (true, NoTrace)
      else CondHolds(v, cat, s, rule.scope.value, given, NoTrace);
    if rule.scope.Some? {
      CondFrame(v, w, cat, s, rule.scope.value, given, NoTrace);
    }
    if inScope {
      InScopeFrame(v, w, cat, rule, s, given, t);
    }
  }

  lemma InScopeFrame(v: View, w: View, cat: Catalog, rule: Rule, s: NodeId, given: Assumptions, t: Trace)
    ensures var r := JudgeInScope(v, cat, rule, s, given, t);
      t.keys <= r.1.keys && (Agree(v, w, r.1.keys) ==> JudgeInScope(w, cat, rule, s, given, t) == r)
  {
    if rule.cases == [] {
      AgainstFrame(v, w, cat, rule, s, rule.required, None, given, t);
    } else {
      var (matched, t1) := SelectCase(v, cat, s, rule.cases, 0, given, t);
      SelectFrame(v, w, cat, s, rule.cases, 0, given, t);
      if matched.Some? {
        AgainstFrame(v, w, cat, rule, s, rule.cases[matched.value].required, matched, given, t1);
      }
    }
  }
}
