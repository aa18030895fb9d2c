/** The verdict changes that a principal reads, and when they lead from what was shown before to what is shown now. */
module MaskedChanges {
  import opened Types
  import opened Rows
  import opened Snapshots
  import opened Refresh
  import opened Mask
  import opened Queries
  import opened Conformance
  import opened Verdicts
  import opened Incremental

  /** A change as a principal reads it. */
  datatype Change = Change(subject: NodeId, old_: Option<Verdict>, new_: Option<Verdict>)

  function SeenSide(v: Option<Verdict>, support: Support, s: Snapshot, m: FactMask): Option<Verdict> {
    if v.None? then None else Some(Seen(v.value, support, s, m))
  }

  function ChangeOf(d: VerdictDiff, s: Snapshot, m: FactMask): Change {
    Change(d.subject, SeenSide(d.old_, d.oldSupport, s, m), SeenSide(d.new_, d.newSupport, s, m))
  }

  /** Both sides are masked as of now; a subject that is hidden now, or looks the same on both sides, is dropped. */
  predicate Told(d: VerdictDiff, s: Snapshot, m: FactMask) {
    NodeVisible(s, d.subject, m.allowed) && ChangeOf(d, s, m).old_ != ChangeOf(d, s, m).new_
  }

  function ChangesFor(diffs: seq<VerdictDiff>, s: Snapshot, m: FactMask): seq<Change> {
    if diffs == [] then []
    else
      var d := diffs[|diffs| - 1];
      ChangesFor(diffs[..|diffs| - 1], s, m) + if Told(d, s, m) then [ChangeOf(d, s, m)] else []
  }

  function ApplyChanges(held: map<NodeId, Verdict>, changes: seq<Change>): map<NodeId, Verdict> {
    if changes == [] then held
    else
      var c := changes[|changes| - 1];
      Put(ApplyChanges(held, changes[..|changes| - 1]), c.subject, c.new_)
  }

  /** What the principal is shown of one judgment. */
  function ShownAt(j: Judged, s: Snapshot, m: FactMask, n: NodeId): Option<Verdict> {
    if NodeVisible(s, n, m.allowed) then SeenSide(j.verdict, Support(j.keys, j.labels), s, m) else None
  }

  lemma EvaluateAt(s: Snapshot, cat: Catalog, rule: Rule, m: FactMask, n: NodeId)
    ensures Get(Evaluate(s, cat, rule, m, map[]), n) == ShownAt(Fresh(s, cat, rule, n), s, m, n)
  {
    hide Judge, ViewOf, Seen, NodeVisible;
  }

  lemma NotAmong(diffs: seq<VerdictDiff>, n: NodeId)
    requires forall i :: 0 <= i < |diffs| ==> diffs[i].subject != n
    ensures n !in Subjects(diffs)
  {
  }

  /** Reading one more diff. */
  lemma AppliedSnoc(held: map<NodeId, Verdict>, rest: seq<VerdictDiff>, d: VerdictDiff, s: Snapshot, m: FactMask,
                    n: NodeId)
    ensures Get(ApplyChanges(held, ChangesFor(rest + [d], s, m)), n) ==
      if d.subject == n && Told(d, s, m) then ChangeOf(d, s, m).new_
        else Get(ApplyChanges(held, ChangesFor(rest, s, m)), n)
  {
    hide Told;
    assert (rest + [d])[..|rest|] == rest;
    var before, c := ChangesFor(rest, s, m), ChangeOf(d, s, m);
    assert (before + [c])[..|before|] == before;
    assert before + [] == before;
  }

  /** Applying the changes changes exactly the subjects that are told. */
  lemma {:induction false} AppliedAt(held: map<NodeId, Verdict>, diffs: seq<VerdictDiff>, s: Snapshot, m: FactMask,
                                     n: NodeId)
    requires forall i, j :: 0 <= i < j < |diffs| ==> diffs[i].subject != diffs[j].subject
    ensures n !in Subjects(diffs) ==> Get(ApplyChanges(held, ChangesFor(diffs, s, m)), n) == Get(held, n)
    ensures forall i :: 0 <= i < |diffs| && diffs[i].subject == n ==>
      Get(ApplyChanges(held, ChangesFor(diffs, s, m)), n) ==
        if Told(diffs[i], s, m) then ChangeOf(diffs[i], s, m).new_ else Get(held, n)
    decreases |diffs|
  {
    hide Told, ChangeOf, ApplyChanges, ChangesFor;
    if diffs != [] {
      var last := |diffs| - 1;
      var rest, d := diffs[..last], diffs[last];
      AppliedAt(held, rest, s, m, n);
      AppliedSnoc(held, rest, d, s, m, n);
      SubjectsMore(rest, d);
      assert diffs == rest + [d];
      if d.subject == n {
        NotAmong(rest, n);
      }
    } else {
      NoChange(held, s, m);
    }
  }

  lemma NoChange(held: map<NodeId, Verdict>, s: Snapshot, m: FactMask)
    ensures ApplyChanges(held, ChangesFor([], s, m)) == held
  {
  }

  // --- the guards of the mask ------------------------------------------------------------------

  /** The judgment found something missing on a node that the principal may not see. */
  predicate MissesHidden(v: Verdict, s: Snapshot, m: FactMask) {
    exists i :: 0 <= i < |v.missing| && !NodeVisible(s, v.missing[i].node, m.allowed)
  }

  /** The mask withholds a verdict: by the facts it was judged from, when the snapshot holds anything hidden at all,
      or by a node it found something missing on. */
  predicate Blocked(v: Verdict, support: Support, s: Snapshot, m: FactMask) {
    || (m.HidesAny(s) && v.reason != Some(UnknownSubject) && v.reason != Some(NotSubjectType) && Withheld(support, m))
    || MissesHidden(v, s, m)
  }

  predicate BlockedAt(j: Judged, s: Snapshot, m: FactMask) {
    j.verdict.Some? && Blocked(j.verdict.value, Support(j.keys, j.labels), s, m)
  }

  lemma SeenBlocked(v: Verdict, support: Support, s: Snapshot, m: FactMask)
    ensures Seen(v, support, s, m) == if Blocked(v, support, s, m) then NotApplicableFor(v.subject, HiddenByLabel) else v
  {
    hide FactMask.HidesAny, Withheld, NodeVisible;
  }

  /** A judgment speaks of its own subject, and never says itself that it is hidden. */
  ghost predicate Judges(j: Judged, n: NodeId) {
    j.verdict.Some? ==> j.verdict.value.subject == n && j.verdict.value.reason != Some(HiddenByLabel)
  }

  lemma ConcludeJudges(v: View, cat: Catalog, rule: Rule, s: NodeId, hops: seq<PathHop>, case_: Option<nat>,
                       given: Assumptions, t: Trace)
    ensures var r := JudgeAgainst(v, cat, rule, s, hops, case_, given, t).0;
      r.subject == s && r.reason != Some(HiddenByLabel)
  {
    hide WalkPath, CondHolds, ActualOf;
  }

  lemma FreshJudges(s: Snapshot, cat: Catalog, rule: Rule, n: NodeId)
    ensures Judges(Fresh(s, cat, rule, n), n)
  {
    hide WalkPath, CondHolds, ActualOf, SelectCase, JudgeAgainst, ViewOf, RowLabelsOf;
    var v, given := ViewOf(s), map[];
    var t := if rule.scope.None? then NoTrace else CondHolds(v, cat, n, rule.scope.value, given, NoTrace).1;
    ConcludeJudges(v, cat, rule, n, rule.required, None, given, t);
    var (matched, t1) := SelectCase(v, cat, n, rule.cases, 0, given, t);
    if matched.Some? {
      ConcludeJudges(v, cat, rule, n, rule.cases[matched.value].required, matched, given, t1);
    }
  }

  /** What is shown of a judgment over `was` and of one over `now` is the same, told from the guards. */
  predicate SameLook(a: Judged, was: Snapshot, b: Judged, now: Snapshot, m: FactMask, n: NodeId) {
    if b.verdict.None? || !NodeVisible(now, n, m.allowed) then a.verdict.None? || !NodeVisible(was, n, m.allowed)
    else
      && a.verdict.Some? && NodeVisible(was, n, m.allowed)
      && (BlockedAt(a, was, m) <==> BlockedAt(b, now, m))
      && (BlockedAt(b, now, m) || a.verdict == b.verdict)
  }

  lemma ShownAlike(a: Judged, was: Snapshot, b: Judged, now: Snapshot, m: FactMask, n: NodeId)
    requires Judges(a, n) && Judges(b, n)
    ensures ShownAt(a, was, m, n) == ShownAt(b, now, m, n) <==> SameLook(a, was, b, now, m, n)
  {
    hide Blocked, NodeVisible, Seen;
    if a.verdict.Some? {
      SeenBlocked(a.verdict.value, Support(a.keys, a.labels), was, m);
    }
    if b.verdict.Some? {
      SeenBlocked(b.verdict.value, Support(b.keys, b.labels), now, m);
    }
  }

  // --- one batch -------------------------------------------------------------------------------

  /** Some diff of the batch tells the principal about the subject. */
  ghost predicate Tells(diffs: seq<VerdictDiff>, s: Snapshot, m: FactMask, n: NodeId) {
    exists d :: d in diffs && d.subject == n && Told(d, s, m)
  }

  lemma OnlyDiff(diffs: seq<VerdictDiff>, d: VerdictDiff, n: NodeId)
    requires forall i, j :: 0 <= i < j < |diffs| ==> diffs[i].subject != diffs[j].subject
    requires d in diffs && d.subject == n
    ensures forall e :: e in diffs && e.subject == n ==> e == d
  {
  }

  /** What applying a batch leaves of a subject: its new judgment seen through the mask, if it was told. */
  lemma BatchAt(held: map<NodeId, Verdict>, was: Snapshot, now: Snapshot, cat: Catalog, rule: Rule,
                diffs: seq<VerdictDiff>, s: Snapshot, m: FactMask, n: NodeId)
    requires DiffsBetween(diffs, was, now, cat, rule)
    ensures Get(ApplyChanges(held, ChangesFor(diffs, s, m)), n) ==
      if Tells(diffs, s, m, n) then ShownAt(Fresh(now, cat, rule, n), s, m, n) else Get(held, n)
    ensures Tells(diffs, s, m, n) ==> NodeVisible(s, n, m.allowed)
  {
    hide Fresh, Seen, NodeVisible, ApplyChanges, ChangesFor;
    AppliedAt(held, diffs, s, m, n);
    if d :| d in diffs && d.subject == n {
      assert DiffOf(d, was, now, cat, rule);
      OnlyDiff(diffs, d, n);
    } else {
      NotAmong(diffs, n);
    }
  }

  /** A subject that the principal sees but is not told about: it has a verdict after the batch if it had one before,
      and the same one if both are shown. */
  lemma SilentStep(was: Snapshot, now: Snapshot, cat: Catalog, rule: Rule, diffs: seq<VerdictDiff>, s: Snapshot,
                   m: FactMask, n: NodeId)
    requires DiffsBetween(diffs, was, now, cat, rule) && NodeVisible(s, n, m.allowed) && !Tells(diffs, s, m, n)
    ensures var a, b := Fresh(was, cat, rule, n), Fresh(now, cat, rule, n);
      && (a.verdict.Some? <==> b.verdict.Some?)
      && (BlockedAt(a, s, m) || BlockedAt(b, s, m) || a.verdict == b.verdict)
      && (n in Subjects(diffs) ==> (BlockedAt(a, s, m) <==> BlockedAt(b, s, m)))
      && (n !in Subjects(diffs) ==> SameToReader(a, b))
  {
    hide Fresh, Seen, NodeVisible, Blocked;
    var a, b := Fresh(was, cat, rule, n), Fresh(now, cat, rule, n);
    if d :| d in diffs && d.subject == n {
      assert DiffOf(d, was, now, cat, rule) && !Told(d, s, m);
      FreshJudges(was, cat, rule, n);
      FreshJudges(now, cat, rule, n);
      ShownAlike(a, s, b, s, m, n);
    } else {
      NotAmong(diffs, n);
    }
  }

  // --- several batches read at once ------------------------------------------------------------

  /** One batch between every two consecutive snapshots. */
  ghost predicate Chain(snaps: seq<Snapshot>, batches: seq<seq<VerdictDiff>>, cat: Catalog, rule: Rule) {
    && |snaps| == |batches| + 1
    && forall i :: 0 <= i < |batches| ==> DiffsBetween(batches[i], snaps[i], snaps[i + 1], cat, rule)
  }

  lemma ChainMore(snaps: seq<Snapshot>, batches: seq<seq<VerdictDiff>>, cat: Catalog, rule: Rule, now: Snapshot,
                  diffs: seq<VerdictDiff>)
    requires Chain(snaps, batches, cat, rule) && DiffsBetween(diffs, snaps[|batches|], now, cat, rule)
    ensures Chain(snaps + [now], batches + [diffs], cat, rule)
    ensures |snaps + [now]| == |batches + [diffs]| + 1 && (snaps + [now])[|batches + [diffs]|] == now
  {
    hide DiffsBetween;
  }

  /** The changes of several batches, all masked as of one snapshot. */
  function Answer(batches: seq<seq<VerdictDiff>>, s: Snapshot, m: FactMask): seq<Change> {
    if batches == [] then []
    else Answer(batches[..|batches| - 1], s, m) + ChangesFor(batches[|batches| - 1], s, m)
  }

  lemma {:induction false} ApplyConcat(held: map<NodeId, Verdict>, x: seq<Change>, y: seq<Change>)
    ensures ApplyChanges(held, x + y) == ApplyChanges(ApplyChanges(held, x), y)
    decreases |y|
  {
    if y == [] {
      assert x + y == x;
    } else {
      assert (x + y)[..|x + y| - 1] == x + y[..|y| - 1];
      ApplyConcat(held, x, y[..|y| - 1]);
    }
  }

  /** How many batches there are up to the last that tells the principal about the subject; none if none does. */
  ghost function LastTold(batches: seq<seq<VerdictDiff>>, s: Snapshot, m: FactMask, n: NodeId): (k: nat)
    ensures k <= |batches|
  {
    if batches == [] then 0
    else if Tells(batches[|batches| - 1], s, m, n) then |batches|
    else LastTold(batches[..|batches| - 1], s, m, n)
  }

  lemma ChainPrefix(snaps: seq<Snapshot>, batches: seq<seq<VerdictDiff>>, cat: Catalog, rule: Rule)
    requires Chain(snaps, batches, cat, rule) && batches != []
    ensures Chain(snaps[..|batches|], batches[..|batches| - 1], cat, rule)
    ensures DiffsBetween(batches[|batches| - 1], snaps[|batches| - 1], snaps[|batches|], cat, rule)
  {
    hide DiffsBetween;
    var n := |batches| - 1;
    forall i | 0 <= i < n
      ensures DiffsBetween(batches[..n][i], snaps[..n + 1][i], snaps[..n + 1][i + 1], cat, rule)
    {
      assert DiffsBetween(batches[i], snaps[i], snaps[i + 1], cat, rule);
    }
  }

  /** The last batch that tells a subject decides what the principal holds of it. */
  lemma {:induction false} AnswerAt(held: map<NodeId, Verdict>, snaps: seq<Snapshot>, batches: seq<seq<VerdictDiff>>,
                                    cat: Catalog, rule: Rule, s: Snapshot, m: FactMask, n: NodeId)
    requires Chain(snaps, batches, cat, rule)
    ensures var k := LastTold(batches, s, m, n);
      && Get(ApplyChanges(held, Answer(batches, s, m)), n) ==
           (if k == 0 then Get(held, n) else ShownAt(Fresh(snaps[k], cat, rule, n), s, m, n))
      && (0 < k ==> NodeVisible(s, n, m.allowed))
    decreases |batches|
  {
    hide Fresh, Tells, ShownAt, NodeVisible, DiffsBetween, ApplyChanges, ChangesFor;
    if batches == [] {
      AppliedNone(held);
    } else {
      var i := |batches| - 1;
      ChainPrefix(snaps, batches, cat, rule);
      AnswerAt(held, snaps[..i + 1], batches[..i], cat, rule, s, m, n);
      ApplyConcat(held, Answer(batches[..i], s, m), ChangesFor(batches[i], s, m));
      BatchAt(ApplyChanges(held, Answer(batches[..i], s, m)), snaps[i], snaps[i + 1], cat, rule, batches[i], s, m, n);
    }
  }

  lemma AppliedNone(held: map<NodeId, Verdict>)
    ensures ApplyChanges(held, []) == held
  {
  }

  /** After the last batch that tells it, a subject in sight keeps having a verdict or having none. */
  lemma {:induction false} SilentSince(snaps: seq<Snapshot>, batches: seq<seq<VerdictDiff>>, cat: Catalog, rule: Rule,
                                       s: Snapshot, m: FactMask, n: NodeId)
    requires Chain(snaps, batches, cat, rule) && NodeVisible(s, n, m.allowed)
    ensures var a, b := Fresh(snaps[LastTold(batches, s, m, n)], cat, rule, n), Fresh(snaps[|batches|], cat, rule, n);
      a.verdict.Some? <==> b.verdict.Some?
    decreases |batches|
  {
    hide Fresh, Tells, NodeVisible, DiffsBetween, BlockedAt, Subjects, SameToReader;
    if batches != [] && !Tells(batches[|batches| - 1], s, m, n) {
      var i := |batches| - 1;
      ChainPrefix(snaps, batches, cat, rule);
      SilentStep(snaps[i], snaps[i + 1], cat, rule, batches[i], s, m, n);
      SilentSince(snaps[..i + 1], batches[..i], cat, rule, s, m, n);
    }
  }

  /** Where a principal that held what it was shown of the first snapshot ends after reading all the batches as of
      the last. */
  function Reached(snaps: seq<Snapshot>, batches: seq<seq<VerdictDiff>>, cat: Catalog, rule: Rule, m: FactMask)
    : map<NodeId, Verdict>
    requires snaps != []
  {
    ApplyChanges(Evaluate(snaps[0], cat, rule, m, map[]), Answer(batches, snaps[|snaps| - 1], m))
  }

  /** Told from the guards: what the principal last learned of the subject, `a` as seen in `was`, is what it would be
      shown now, of `b`. */
  predicate StillRight(a: Judged, was: Snapshot, b: Judged, now: Snapshot, m: FactMask, n: NodeId) {
    if !NodeVisible(now, n, m.allowed) then a.verdict.None? || !NodeVisible(was, n, m.allowed)
    else
      || b.verdict.None?
      || (&& NodeVisible(was, n, m.allowed)
          && (BlockedAt(a, was, m) <==> BlockedAt(b, now, m))
          && (BlockedAt(b, now, m) || a.verdict == b.verdict))
  }

  /** Reading several batches is right about a subject exactly when the judgment last told, or the first one if none
      was told, meets the guards of the mask as the present judgment does. */
  lemma ReachedIff(snaps: seq<Snapshot>, batches: seq<seq<VerdictDiff>>, cat: Catalog, rule: Rule, m: FactMask,
                   n: NodeId)
    requires Chain(snaps, batches, cat, rule)
    ensures var now := snaps[|batches|];
      var k := LastTold(batches, now, m, n);
      Get(Reached(snaps, batches, cat, rule, m), n) == Get(Evaluate(now, cat, rule, m, map[]), n) <==>
        StillRight(Fresh(snaps[k], cat, rule, n), if k == 0 then snaps[0] else now, Fresh(now, cat, rule, n), now, m, n)
  {
    hide Fresh, Evaluate, NodeVisible, ApplyChanges, Answer, BlockedAt, ShownAt, DiffsBetween;
    var now := snaps[|batches|];
    var k := LastTold(batches, now, m, n);
    var a, b := Fresh(snaps[k], cat, rule, n), Fresh(now, cat, rule, n);
    EvaluateAt(snaps[0], cat, rule, m, n);
    EvaluateAt(now, cat, rule, m, n);
    AnswerAt(Evaluate(snaps[0], cat, rule, m, map[]), snaps, batches, cat, rule, now, m, n);
    FreshJudges(snaps[k], cat, rule, n);
    FreshJudges(now, cat, rule, n);
    ShownAlike(a, if k == 0 then snaps[0] else now, b, now, m, n);
    if NodeVisible(now, n, m.allowed) {
      SilentSince(snaps, batches, cat, rule, now, m, n);
    }
  }

  lemma OneTold(diffs: seq<VerdictDiff>, s: Snapshot, m: FactMask, n: NodeId)
    ensures LastTold([diffs], s, m, n) == if Tells(diffs, s, m, n) then 1 else 0
  {
    hide Tells;
    assert [diffs][..0] == [];
  }

  /** What reading one batch leaves of a subject. */
  lemma ReachedOne(was: Snapshot, now: Snapshot, cat: Catalog, rule: Rule, m: FactMask, diffs: seq<VerdictDiff>,
                   n: NodeId)
    requires DiffsBetween(diffs, was, now, cat, rule)
    ensures Get(Reached([was, now], [diffs], cat, rule, m), n) ==
      if Tells(diffs, now, m, n) then ShownAt(Fresh(now, cat, rule, n), now, m, n)
        else Get(Evaluate(was, cat, rule, m, map[]), n)
  {
    hide Fresh, Evaluate, NodeVisible, Tells, ShownAt, DiffsBetween, ApplyChanges, ChangesFor, Answer;
    assert Chain([was, now], [diffs], cat, rule);
    OneTold(diffs, now, m, n);
    AnswerAt(Evaluate(was, cat, rule, m, map[]), [was, now], [diffs], cat, rule, now, m, n);
  }

  /** A judgment that stays as it was is not told. */
  lemma Silent(diffs: seq<VerdictDiff>, was: Snapshot, now: Snapshot, cat: Catalog, rule: Rule, s: Snapshot, m: FactMask,
               n: NodeId)
    requires DiffsBetween(diffs, was, now, cat, rule)
    requires SameToReader(Fresh(was, cat, rule, n), Fresh(now, cat, rule, n))
    ensures !Tells(diffs, s, m, n)
  {
    hide Fresh, Told;
    forall d | d in diffs
      ensures d.subject != n
    {
      assert DiffOf(d, was, now, cat, rule);
    }
  }

  /** One batch: it is right about a subject exactly when it tells it, or the principal could see it before if it can
      now, and the mask withholds its verdict now if it did before. */
  lemma OneBatchIff(was: Snapshot, now: Snapshot, cat: Catalog, rule: Rule, m: FactMask, diffs: seq<VerdictDiff>,
                    n: NodeId)
    requires DiffsBetween(diffs, was, now, cat, rule)
    ensures var a, b := Fresh(was, cat, rule, n), Fresh(now, cat, rule, n);
      Get(Reached([was, now], [diffs], cat, rule, m), n) == Get(Evaluate(now, cat, rule, m, map[]), n) <==>
        || Tells(diffs, now, m, n)
        || (if !NodeVisible(now, n, m.allowed) then a.verdict.None? || !NodeVisible(was, n, m.allowed)
            else
              || b.verdict.None?
              || (NodeVisible(was, n, m.allowed) && (BlockedAt(a, was, m) <==> BlockedAt(b, now, m))))
  {
    hide Fresh, Evaluate, NodeVisible, Reached, Tells, Blocked, DiffsBetween, Subjects;
    var snaps, batches := [was, now], [diffs];
    assert Chain(snaps, batches, cat, rule);
    ReachedIff(snaps, batches, cat, rule, m, n);
    OneTold(diffs, now, m, n);
    if NodeVisible(now, n, m.allowed) && !Tells(diffs, now, m, n) {
      SilentStep(was, now, cat, rule, diffs, now, m, n);
    }
  }

  /** A subject that comes in sight while its judgment stays as it was is not told: the reading leaves it out, and the
      verdicts shown now have it. */
  lemma UnhiddenSubjectMissed(was: Snapshot, now: Snapshot, cat: Catalog, rule: Rule, m: FactMask,
                              diffs: seq<VerdictDiff>, n: NodeId)
    requires DiffsBetween(diffs, was, now, cat, rule) && Fresh(now, cat, rule, n) == Fresh(was, cat, rule, n)
    requires Fresh(now, cat, rule, n).verdict.Some?
    requires !NodeVisible(was, n, m.allowed) && NodeVisible(now, n, m.allowed)
    ensures n !in Reached([was, now], [diffs], cat, rule, m) && n in Evaluate(now, cat, rule, m, map[])
  {
    hide Fresh, Evaluate, Seen, NodeVisible, BlockedAt, Reached;
    Silent(diffs, was, now, cat, rule, now, m, n);
    EvaluateAt(was, cat, rule, m, n);
    EvaluateAt(now, cat, rule, m, n);
    ReachedOne(was, now, cat, rule, m, diffs, n);
  }

  // --- when the reading is right about every subject -------------------------------------------

  lemma {:induction false} LabelsStored(keys: seq<Key>, s: Snapshot, l: Label)
    requires l in RowLabelsOf(keys, s)
    ensures l in LabelsIn(s.factLabels) && l <= MAX_LABEL
    decreases |keys|
  {
    var n := |keys| - 1;
    if l !in RowLabelsOf(keys[..n], s) {
      var rows: map<OrderKey, Label> := GetOr(s.factLabels, keys[n], map[]);
      var ok :| ok in rows && rows[ok] == l;
      assert s.factLabels[keys[n]][ok] == l;
    } else {
      LabelsStored(keys[..n], s, l);
    }
  }

  /** A mask that hides nothing of a snapshot withholds no judgment over it. */
  lemma NothingWithheld(s: Snapshot, cat: Catalog, rule: Rule, m: FactMask, n: NodeId)
    requires s.labelCounts == Counts(s.factLabels) && !m.HidesAny(s)
    ensures forall l :: l in Fresh(s, cat, rule, n).labels ==> l in m.allowed
  {
    hide Judge, ViewOf;
    if IsSubject(s, cat, rule, n) {
      var keys := Fresh(s, cat, rule, n).keys;
      forall l | l in RowLabelsOf(keys, s)
        ensures l in m.allowed
      {
        LabelsStored(keys, s, l);
        assert l in s.labelCounts;
      }
    }
  }

  /** The judgment read a predicate whose floor the principal is not allowed. */
  predicate ReadsFloor(keys: seq<Key>, m: FactMask) {
    exists i :: 0 <= i < |keys| && m.PredicateHidden(keys[i].1)
  }

  /** No node comes in sight or leaves it. */
  ghost predicate SameNodes(was: Snapshot, now: Snapshot, m: FactMask) {
    forall n :: NodeVisible(was, n, m.allowed) == NodeVisible(now, n, m.allowed)
  }

  /** A judgment that changes without a diff keeps reading a hidden floor, or keeps reading none. */
  ghost predicate SteadyFloors(snaps: seq<Snapshot>, batches: seq<seq<VerdictDiff>>, cat: Catalog, rule: Rule,
                               m: FactMask, n: NodeId)
    requires |snaps| == |batches| + 1
  {
    forall i :: 0 <= i < |batches| && n !in Subjects(batches[i]) ==>
      (ReadsFloor(Fresh(snaps[i], cat, rule, n).keys, m) <==> ReadsFloor(Fresh(snaps[i + 1], cat, rule, n).keys, m))
  }

  lemma SameBlocked(a: Judged, b: Judged, s: Snapshot, m: FactMask)
    requires SameToReader(a, b) && (ReadsFloor(a.keys, m) <==> ReadsFloor(b.keys, m))
    ensures BlockedAt(a, s, m) <==> BlockedAt(b, s, m)
  {
    hide FactMask.HidesAny, FactMask.PredicateHidden, MissesHidden;
    var x, y := Support(a.keys, a.labels), Support(b.keys, b.labels);
    assert Withheld(x, m) <==> (exists l :: l in a.labels && l !in m.allowed) || ReadsFloor(a.keys, m);
    assert Withheld(y, m) <==> (exists l :: l in b.labels && l !in m.allowed) || ReadsFloor(b.keys, m);
  }

  /** With steady floors the mask withholds a silent judgment throughout or not at all. */
  lemma {:induction false} SilentSame(snaps: seq<Snapshot>, batches: seq<seq<VerdictDiff>>, cat: Catalog, rule: Rule,
                                      s: Snapshot, m: FactMask, n: NodeId)
    requires Chain(snaps, batches, cat, rule) && NodeVisible(s, n, m.allowed)
    requires SteadyFloors(snaps, batches, cat, rule, m, n)
    ensures var a, b := Fresh(snaps[LastTold(batches, s, m, n)], cat, rule, n), Fresh(snaps[|batches|], cat, rule, n);
      (BlockedAt(a, s, m) <==> BlockedAt(b, s, m)) && (BlockedAt(b, s, m) || a.verdict == b.verdict)
    decreases |batches|
  {
    hide Fresh, Tells, NodeVisible, DiffsBetween, BlockedAt, Subjects, SameToReader, ReadsFloor;
    if batches != [] && !Tells(batches[|batches| - 1], s, m, n) {
      var i := |batches| - 1;
      ChainPrefix(snaps, batches, cat, rule);
      SilentStep(snaps[i], snaps[i + 1], cat, rule, batches[i], s, m, n);
      if n !in Subjects(batches[i]) {
        SameBlocked(Fresh(snaps[i], cat, rule, n), Fresh(snaps[i + 1], cat, rule, n), s, m);
      }
      SteadyPrefix(snaps, batches, cat, rule, m, n);
      SilentSame(snaps[..i + 1], batches[..i], cat, rule, s, m, n);
    }
  }

  lemma SteadyPrefix(snaps: seq<Snapshot>, batches: seq<seq<VerdictDiff>>, cat: Catalog, rule: Rule, m: FactMask,
                     n: NodeId)
    requires |snaps| == |batches| + 1 && batches != [] && SteadyFloors(snaps, batches, cat, rule, m, n)
    ensures SteadyFloors(snaps[..|batches|], batches[..|batches| - 1], cat, rule, m, n)
  {
    hide Fresh, Subjects, ReadsFloor;
    var k := |batches| - 1;
    forall i | 0 <= i < k && n !in Subjects(batches[..k][i])
      ensures ReadsFloor(Fresh(snaps[..k + 1][i], cat, rule, n).keys, m)
        <==> ReadsFloor(Fresh(snaps[..k + 1][i + 1], cat, rule, n).keys, m)
    {
      assert n !in Subjects(batches[i]);
    }
  }

  /** A judgment over `was` is withheld alike through both snapshots. */
  lemma WithheldAlike(was: Snapshot, now: Snapshot, cat: Catalog, rule: Rule, m: FactMask, n: NodeId)
    requires was.labelCounts == Counts(was.factLabels) && SameNodes(was, now, m) && (m.HidesAny(was) ==> m.HidesAny(now))
    ensures BlockedAt(Fresh(was, cat, rule, n), was, m) <==> BlockedAt(Fresh(was, cat, rule, n), now, m)
  {
    hide Fresh, NodeVisible, LabelAllowed;
    var a := Fresh(was, cat, rule, n);
    if !m.HidesAny(was) {
      NothingWithheld(was, cat, rule, m, n);
      assert forall p :: !m.PredicateHidden(p);
    }
    if a.verdict.Some? {
      assert MissesHidden(a.verdict.value, was, m) <==> MissesHidden(a.verdict.value, now, m);
    }
  }

  /** Reading several batches at once leads from the verdicts shown before to those shown now, as long as no node
      comes in sight or leaves it, no hidden floor silently enters or leaves what a judgment reads, and a store
      that held something hidden still does. */
  lemma MaskedReaderFollows(snaps: seq<Snapshot>, batches: seq<seq<VerdictDiff>>, cat: Catalog, rule: Rule, m: FactMask)
    requires Chain(snaps, batches, cat, rule) && forall n :: SteadyFloors(snaps, batches, cat, rule, m, n)
    requires var was, now := snaps[0], snaps[|batches|];
      was.labelCounts == Counts(was.factLabels) && SameNodes(was, now, m) && (m.HidesAny(was) ==> m.HidesAny(now))
    ensures Reached(snaps, batches, cat, rule, m) == Evaluate(snaps[|batches|], cat, rule, m, map[])
  {
    hide Fresh, Evaluate, Reached, DiffsBetween, SteadyFloors, FactMask.HidesAny, BlockedAt, NodeVisible, Tells;
    var now := snaps[|batches|];
    forall n: NodeId
      ensures Get(Reached(snaps, batches, cat, rule, m), n) == Get(Evaluate(now, cat, rule, m, map[]), n)
    {
      ReachedIff(snaps, batches, cat, rule, m, n);
      assert SteadyFloors(snaps, batches, cat, rule, m, n);
      if NodeVisible(now, n, m.allowed) {
        SilentSame(snaps, batches, cat, rule, now, m, n);
        WithheldAlike(snaps[0], now, cat, rule, m, n);
      }
    }
    SameMaps(Reached(snaps, batches, cat, rule, m), Evaluate(now, cat, rule, m, map[]));
  }
}
