/** Verdicts under a principal's label mask, and the one-shot evaluation of a rule. */
module Verdicts {
  import opened Types
  import opened Rows
  import opened Folds
  import opened FoldLaws
  import opened Snapshots
  import opened Refresh
  import opened Collection
  import opened Mask
  import opened Queries
  import opened Conformance

  /** What a judgment read, as far as masking needs it: the keys, and the labels stored on their live rows. */
  datatype Support = Support(keys: seq<Key>, rowLabels: set<Label>)

  const NoSupport: Support := Support([], {})

  function StoredOn(k: Key, s: Snapshot): set<Label> {
    var rows: map<OrderKey, Label> := GetOr(s.factLabels, k, map[]);
    set l | l in rows.Values && l <= MAX_LABEL
  }

  function RowLabelsOf(keys: seq<Key>, s: Snapshot): set<Label> {
    if keys == [] then {} else RowLabelsOf(keys[..|keys| - 1], s) + StoredOn(keys[|keys| - 1], s)
  }

  function SupportOf(keys: seq<Key>, s: Snapshot): Support { Support(keys, RowLabelsOf(keys, s)) }

  /** The support touches a fact that the mask hides. */
  predicate Withheld(support: Support, m: FactMask) {
    || (exists l :: l in support.rowLabels && l !in m.allowed)
    || (exists i :: 0 <= i < |support.keys| && m.PredicateHidden(support.keys[i].1))
  }

  function MaskVerdict(v: Verdict, support: Support, m: FactMask): Verdict {
    if v.reason == Some(UnknownSubject) || v.reason == Some(NotSubjectType) then v
    else if Withheld(support, m) then NotApplicableFor(v.subject, HiddenByLabel)
    else v
  }

  /** Whether a principal may see a node: an unlabeled node is public. */
  predicate NodeVisible(s: Snapshot, n: NodeId, allowed: set<Label>) {
    n in s.nodeLabels ==> s.nodeLabels[n] in allowed
  }

  function MaskMissingNodes(v: Verdict, s: Snapshot, allowed: set<Label>): Verdict {
    if exists i :: 0 <= i < |v.missing| && !NodeVisible(s, v.missing[i].node, allowed)
    then NotApplicableFor(v.subject, HiddenByLabel) else v
  }

  /** A verdict with its support, judged over a whole snapshot. */
  function JudgeOver(s: Snapshot, cat: Catalog, rule: Rule, n: NodeId, given: Assumptions): (Verdict, Support) {
    var (v, keys) := Judge(ViewOf(s), cat, rule, n, given);
    (v, SupportOf(keys, s))
  }

  function Seen(v: Verdict, support: Support, s: Snapshot, m: FactMask): Verdict {
    MaskMissingNodes(if m.HidesAny(s) then MaskVerdict(v, support, m) else v, s, m.allowed)
  }

  /** One verdict per visible subject of the rule's type, as a principal sees it. */
  function Evaluate(s: Snapshot, cat: Catalog, rule: Rule, m: FactMask, given: Assumptions): map<NodeId, Verdict> {
    if rule.subjectType !in cat.ids then map[]
    else
      map n | n in s.nodeTypes && s.nodeTypes[n] == cat.ids[rule.subjectType] && NodeVisible(s, n, m.allowed) ::
        var (v, support) := JudgeOver(s, cat, rule, n, given); Seen(v, support, s, m)
  }

  /** Every listed id answers once: a visible subject as above, any other id by why it has no verdict. */
  function EvaluateSubjects(s: Snapshot, cat: Catalog, rule: Rule, m: FactMask, ids: set<NodeId>,
                            given: Assumptions): map<NodeId, Verdict> {
    map n | n in ids ::
      if n in s.nodeTypes && !NodeVisible(s, n, m.allowed) then NotApplicableFor(n, UnknownSubject)
      else if n in s.nodeTypes && rule.subjectType in cat.ids && s.nodeTypes[n] == cat.ids[rule.subjectType] then
        var (v, support) := JudgeOver(s, cat, rule, n, given); Seen(v, support, s, m)
      else if n in s.nodeTypes then NotApplicableFor(n, NotSubjectType)
      else NotApplicableFor(n, UnknownSubject)
  }

  /** The verdict carries no values, only why there are none. */
  predicate OnlyReason(r: Verdict, n: NodeId, why: Reason) {
    && r.subject == n && r.verdict == NotApplicable && r.reason == Some(why)
    && r.mismatchKind == None && r.required == None && r.distinct == None && r.actual == None
    && r.asOf == None && r.case_ == None && r.missing == [] && r.assumed == []
  }

  /** Every listed id answers, and no other: a subject that the full evaluation lists answers as there; a node the
      principal may not see, and an id that is no node, as unknown; a node it sees of another type as no subject. */
  lemma SubjectsAgree(s: Snapshot, cat: Catalog, rule: Rule, m: FactMask, ids: set<NodeId>, given: Assumptions)
    ensures var all, some := Evaluate(s, cat, rule, m, given), EvaluateSubjects(s, cat, rule, m, ids, given);
      && some.Keys == ids
      && forall n :: n in ids ==>
        && (n in all ==> some[n] == all[n])
        && (n !in s.nodeTypes || !NodeVisible(s, n, m.allowed) ==> n !in all && OnlyReason(some[n], n, UnknownSubject))
        && (n in s.nodeTypes && NodeVisible(s, n, m.allowed) && n !in all ==>
              OnlyReason(some[n], n, NotSubjectType) && Get(cat.ids, rule.subjectType) != Some(s.nodeTypes[n]))
  {
    hide JudgeOver, Seen, NodeVisible;
  }

  /** A node the principal may not see might as well not be one: neither evaluation answers differently about any id
      when its type is taken away. */
  lemma HiddenIsAbsent(s: Snapshot, cat: Catalog, rule: Rule, m: FactMask, ids: set<NodeId>, given: Assumptions, n: NodeId)
    requires !NodeVisible(s, n, m.allowed)
    ensures var without := s.(nodeTypes := s.nodeTypes - {n});
      && EvaluateSubjects(without, cat, rule, m, ids, given) == EvaluateSubjects(s, cat, rule, m, ids, given)
      && Evaluate(without, cat, rule, m, given) == Evaluate(s, cat, rule, m, given)
  {
    hide EvaluateSubjects, Evaluate;
    var without := s.(nodeTypes := s.nodeTypes - {n});
    forall x
      ensures Get(EvaluateSubjects(without, cat, rule, m, ids, given), x) ==
        Get(EvaluateSubjects(s, cat, rule, m, ids, given), x)
      ensures Get(Evaluate(without, cat, rule, m, given), x) == Get(Evaluate(s, cat, rule, m, given), x)
    {
      HiddenIsAbsentAt(s, without, cat, rule, m, ids, given, n, x);
    }
    SameMaps(EvaluateSubjects(without, cat, rule, m, ids, given), EvaluateSubjects(s, cat, rule, m, ids, given));
    SameMaps(Evaluate(without, cat, rule, m, given), Evaluate(s, cat, rule, m, given));
  }

  lemma HiddenIsAbsentAt(s: Snapshot, without: Snapshot, cat: Catalog, rule: Rule, m: FactMask, ids: set<NodeId>,
                         given: Assumptions, n: NodeId, x: NodeId)
    requires !NodeVisible(s, n, m.allowed) && without == s.(nodeTypes := s.nodeTypes - {n})
    ensures Get(EvaluateSubjects(without, cat, rule, m, ids, given), x) ==
      Get(EvaluateSubjects(s, cat, rule, m, ids, given), x)
    ensures Get(Evaluate(without, cat, rule, m, given), x) == Get(Evaluate(s, cat, rule, m, given), x)
  {
    TypesUnread(s, without, cat, rule, m, x, given);
    hide JudgeOver, Seen;
  }

  /** Neither a judgment nor what is shown of it reads the types of nodes. */
  lemma TypesUnread(s: Snapshot, t: Snapshot, cat: Catalog, rule: Rule, m: FactMask, n: NodeId, given: Assumptions)
    requires t == s.(nodeTypes := t.nodeTypes)
    ensures var (v, support) := JudgeOver(s, cat, rule, n, given);
      JudgeOver(t, cat, rule, n, given) == (v, support) && Seen(v, support, t, m) == Seen(v, support, s, m)
  {
    hide Judge;
    var keys := Judge(ViewOf(s), cat, rule, n, given).1;
    SameLabelsRead(keys, s, t);
  }

  lemma {:induction false} SameLabelsRead(keys: seq<Key>, s: Snapshot, t: Snapshot)
    requires s.factLabels == t.factLabels
    ensures RowLabelsOf(keys, s) == RowLabelsOf(keys, t)
    decreases |keys|
  {
    if keys != [] {
      SameLabelsRead(keys[..|keys| - 1], s, t);
    }
  }

  // --- a verdict that is not withheld rests on visible facts only --------------------------------

  /** Labels are numbered 0 to 31. */
  ghost predicate SmallLabels(log: seq<LabeledOp>) {
    forall i :: 0 <= i < |log| && log[i].access.Some? ==> log[i].access.value <= MAX_LABEL
  }

  lemma {:induction false} RowLabelsInclude(keys: seq<Key>, s: Snapshot, k: Key)
    requires k in keys
    ensures StoredOn(k, s) <= RowLabelsOf(keys, s)
    decreases |keys|
  {
    var n := |keys| - 1;
    if keys[n] != k {
      assert k in keys[..n];
      RowLabelsInclude(keys[..n], s, k);
    }
  }

  /** The label of every live row was given by an op of the log. */
  lemma LabelsFromLog(log: seq<LabeledOp>, card: Key -> Cardinality, h: Hash, k: Key, ok: OrderKey)
    requires UniqueKeys(log) && Typed(log, card) && SmallLabels(log)
    requires var s := Observe(FoldLog(log), h); k in s.factLabels && ok in s.factLabels[k]
    ensures Observe(FoldLog(log), h).factLabels[k][ok] <= MAX_LABEL
  {
    var u := UniverseOf(log);
    InUniverse(log);
    FoldLabelsExact(log, card, u, k);
    LabelsAt(FoldLog(log), k);
    SnapshotLabels(FoldLog(log), h, k, u, ok);
    assert u(ok) == Owner(log, ok);
  }

  /** A key whose labels and predicate the mask shows is not affected by it. */
  lemma ShownKeyUnaffected(log: seq<LabeledOp>, m: FactMask, card: Key -> Cardinality, h: Hash, k: Key)
    requires UniqueKeys(log) && Typed(log, card) && SmallLabels(log) && !m.PredicateHidden(k.1)
    requires forall l :: l in StoredOn(k, Observe(FoldLog(log), h)) ==> l in m.allowed
    ensures !m.KeyAffected(Observe(FoldLog(log), h), k)
  {
    var s := Observe(FoldLog(log), h);
    if k in s.factLabels {
      forall ok | ok in s.factLabels[k]
        ensures m.RowVisible(k.1, Some(s.factLabels[k][ok]))
      {
        LabelsFromLog(log, card, h, k, ok);
        assert s.factLabels[k][ok] in StoredOn(k, s);
      }
    }
  }

  /** Every verdict that the mask does not withhold is the verdict judged over the store in which the hidden
      rows were never written, and it reads the same keys there. */
  lemma UnwithheldVerdict(log: seq<LabeledOp>, m: FactMask, card: Key -> Cardinality, h: Hash,
                          cat: Catalog, rule: Rule, n: NodeId, given: Assumptions)
    requires UniqueKeys(log) && Typed(log, card) && SmallLabels(log)
    requires var (_, support) := JudgeOver(Observe(FoldLog(log), h), cat, rule, n, given); !Withheld(support, m)
    ensures Judge(ViewOf(Observe(FoldLog(log), h)), cat, rule, n, given)
         == Judge(ViewOf(Observe(FoldLog(VisibleLog(log, m)), h)), cat, rule, n, given)
  {
    hide Observe, FoldLog, VisibleLog, Judge, UniqueKeys, Typed;
    var s, v := Observe(FoldLog(log), h), Observe(FoldLog(VisibleLog(log, m)), h);
    var (verdict, keys) := Judge(ViewOf(s), cat, rule, n, given);
    forall k | k in keys
      ensures Get(s.one, k) == Get(v.one, k) && Get(s.oneHistory, k) == Get(v.oneHistory, k)
    {
      var i :| 0 <= i < |keys| && keys[i] == k;
      RowLabelsInclude(keys, s, k);
      ShownKeyUnaffected(log, m, card, h, k);
      MaskedReads(log, m, card, h, k);
    }
    JudgeFrame(ViewOf(s), ViewOf(v), cat, rule, n, given);
  }
}
