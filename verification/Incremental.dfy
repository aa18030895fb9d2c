/** A rule maintained against a changing snapshot: only the subjects whose support was touched are judged again. */
module Incremental {
  import opened Types
  import opened Rows
  import opened Snapshots
  import opened Refresh
  import opened Mask
  import opened Queries
  import opened Conformance
  import opened Verdicts
  import opened Judging

  /** One subject's change; no old verdict means it entered, no new one that it left. */
  datatype VerdictDiff = VerdictDiff(
    subject: NodeId,
    old_: Option<Verdict>,
    new_: Option<Verdict>,
    oldSupport: Support,
    newSupport: Support)

  /** A subject's verdict, the keys it was judged from, and the labels on them. */
  datatype Judged = Judged(verdict: Option<Verdict>, keys: seq<Key>, labels: set<Label>)

  const NotJudged: Judged := Judged(None, [], {})

  /** What a fresh judgment of `n` gives, if it is a subject. */
  function Fresh(s: Snapshot, cat: Catalog, rule: Rule, n: NodeId): Judged {
    if IsSubject(s, cat, rule, n) then
      var (v, keys) := Judge(ViewOf(s), cat, rule, n, map[]);
      Judged(Some(v), keys, RowLabelsOf(keys, s))
    else NotJudged
  }

  predicate IsSubject(s: Snapshot, cat: Catalog, rule: Rule, n: NodeId) {
    rule.subjectType in cat.ids && Get(s.nodeTypes, n) == Some(cat.ids[rule.subjectType])
  }

  /** What two snapshots have in common outside the touched keys and nodes. */
  ghost predicate ChangedOnly(was: Snapshot, now: Snapshot, keys: set<Key>, nodes: set<NodeId>) {
    && (forall k :: k !in keys ==> Get(was.one, k) == Get(now.one, k))
    && (forall k :: k !in keys ==> Get(was.oneHistory, k) == Get(now.oneHistory, k))
    && (forall k :: k !in keys ==> Get(was.factLabels, k) == Get(now.factLabels, k))
    && (forall n :: n !in nodes ==> Get(was.nodeTypes, n) == Get(now.nodeTypes, n))
  }

  lemma {:induction false} SameRowLabels(keys: seq<Key>, was: Snapshot, now: Snapshot)
    requires forall k :: k in keys ==> Get(was.factLabels, k) == Get(now.factLabels, k)
    ensures RowLabelsOf(keys, was) == RowLabelsOf(keys, now)
    decreases |keys|
  {
    if keys != [] {
      var n := |keys| - 1;
      assert keys[n] in keys;
      assert Get(was.factLabels, keys[n]) == Get(now.factLabels, keys[n]);
      SameRowLabels(keys[..n], was, now);
    }
  }

  /** A subject none of whose reads was touched, and whose type was not, is judged as before. */
  lemma UntouchedSame(was: Snapshot, now: Snapshot, keys: set<Key>, nodes: set<NodeId>, cat: Catalog, rule: Rule,
                      n: NodeId)
    requires ChangedOnly(was, now, keys, nodes)
    requires forall k :: k in Fresh(was, cat, rule, n).keys ==> k !in keys
    requires Get(was.nodeTypes, n) == Get(now.nodeTypes, n)
    ensures Fresh(now, cat, rule, n) == Fresh(was, cat, rule, n)
  {
    if IsSubject(was, cat, rule, n) {
      var read := Judge(ViewOf(was), cat, rule, n, map[]).1;
      JudgeFrame(ViewOf(was), ViewOf(now), cat, rule, n, map[]);
      SameRowLabels(read, was, now);
    }
  }

  type Dependents = map<Key, set<NodeId>>
  type Supports = map<NodeId, seq<Key>>

  predicate Listed(d: Dependents, k: Key, n: NodeId) { k in d && n in d[k] }

  predicate HasRead(sup: Supports, n: NodeId, k: Key) { n in sup && k in sup[n] }

  /** Take `n` off the list of key `k`, dropping a list that becomes empty. */
  function Unlist(d: Dependents, k: Key, n: NodeId): Dependents {
    if k !in d then d else if d[k] - {n} == {} then d - {k} else d[k := d[k] - {n}]
  }

  lemma Unlisted(d: Dependents, k: Key, n: NodeId)
    ensures forall x, m :: Listed(Unlist(d, k, n), x, m) <==> Listed(d, x, m) && !(x == k && m == n)
    ensures (forall x :: x in d ==> d[x] != {}) ==> forall x :: x in Unlist(d, k, n) ==> Unlist(d, k, n)[x] != {}
  {
    forall x, m
      ensures Listed(Unlist(d, k, n), x, m) <==> Listed(d, x, m) && !(x == k && m == n)
    {
      if x == k && k in d {
        assert m in d[k] - {n} <==> m in d[k] && m != n;
      }
    }
  }

  function ListMore(d: Dependents, k: Key, n: NodeId): Dependents { d[k := GetOr(d, k, {}) + {n}] }

  lemma ListedMore(d: Dependents, k: Key, n: NodeId)
    ensures forall x, m :: Listed(ListMore(d, k, n), x, m) <==> Listed(d, x, m) || (x == k && m == n)
    ensures ListMore(d, k, n)[k] != {}
  {
    assert n in ListMore(d, k, n)[k];
  }

  class MaintainedConformance {
    const rule: Rule
    var verdicts: map<NodeId, Verdict>
    /** read key to the subjects whose last judgment read it */
    var dependents: map<Key, set<NodeId>>
    /** subject to the keys its last judgment read */
    var supports: map<NodeId, seq<Key>>
    /** subject to the labels stored on the rows it read */
    var rowLabels: map<NodeId, set<Label>>

    /** Seed from a full traced evaluation. */
    constructor (rule: Rule, s: Snapshot, cat: Catalog)
      ensures Maintains(s, cat) && this.rule == rule
    {
      this.rule := rule;
      verdicts, dependents, supports, rowLabels := map[], map[], map[], map[];
      new;
      var todo := s.nodeTypes.Keys;
      while todo != {}
        invariant todo <= s.nodeTypes.Keys && Inverted() && Tidy()
        invariant forall n :: At(n) == if n in todo then NotJudged else Fresh(s, cat, rule, n)
      {
        var n :| n in todo;
        if IsSubject(s, cat, rule, n) {
          var _ := JudgeInto(s, cat, n);
        }
        todo := todo - {n};
      }
    }

    /** What is maintained for a node. */
    function At(n: NodeId): Judged
      reads this
    {
      Judged(Get(verdicts, n), GetOr(supports, n, []), GetOr(rowLabels, n, {}))
    }

    /** The inverted index is exactly the inverse of the supports. */
    ghost predicate Inverted()
      reads `dependents, `supports
    {
      && (forall k, n :: Listed(dependents, k, n) <==> HasRead(supports, n, k))
      && (forall k :: k in dependents ==> dependents[k] != {})
    }

    ghost predicate Tidy()
      reads this
    {
      && supports.Keys == verdicts.Keys
      && rowLabels.Keys <= verdicts.Keys
    }

    /** The maintained state is a fresh judgment of every subject. */
    ghost predicate Maintains(s: Snapshot, cat: Catalog)
      reads this
    {
      Inverted() && Tidy() && forall n :: At(n) == Fresh(s, cat, rule, n)
    }

    function SupportAt(n: NodeId): Support
      reads `supports, `rowLabels
    {
      Support(GetOr(supports, n, []), GetOr(rowLabels, n, {}))
    }

    /** Forget a subject's support. */
    method ClearSupports(n: NodeId)
      requires Inverted()
      modifies `dependents, `supports, `rowLabels
      ensures Inverted() && supports == old(supports) - {n} && rowLabels == old(rowLabels) - {n}
    {
      rowLabels := rowLabels - {n};
      if n !in supports {
        assert supports - {n} == supports;
        return;
      }
      var keys := supports[n];
      supports := supports - {n};
      for i := 0 to |keys|
        invariant supports == old(supports) - {n} && rowLabels == old(rowLabels) - {n}
        invariant forall k, m :: Listed(dependents, k, m) <==>
          HasRead(supports, m, k) || (m == n && k in keys && k !in keys[..i])
        invariant forall k :: k in dependents ==> dependents[k] != {}
      {
        assert keys[..i + 1] == keys[..i] + [keys[i]];
        Unlisted(dependents, keys[i], n);
        dependents := Unlist(dependents, keys[i], n);
      }
      assert keys[..|keys|] == keys;
    }

    /** List a subject under every key it read. */
    method ListUnder(keys: seq<Key>, n: NodeId)
      requires Inverted() && n !in supports
      modifies `dependents
      ensures forall k, m :: Listed(dependents, k, m) <==> HasRead(supports, m, k) || (m == n && k in keys)
      ensures forall k :: k in dependents ==> dependents[k] != {}
    {
      for i := 0 to |keys|
        invariant forall k, m :: Listed(dependents, k, m) <==> HasRead(supports, m, k) || (m == n && k in keys[..i])
        invariant forall k :: k in dependents ==> dependents[k] != {}
      {
        assert keys[..i + 1] == keys[..i] + [keys[i]];
        ListedMore(dependents, keys[i], n);
        dependents := ListMore(dependents, keys[i], n);
      }
      assert keys[..|keys|] == keys;
    }

    /** Judge a subject with a trace and replace what is maintained for it. */
    method JudgeInto(s: Snapshot, cat: Catalog, n: NodeId) returns (v: Verdict)
      requires Inverted() && Tidy() && IsSubject(s, cat, rule, n)
      modifies this
      ensures Inverted() && Tidy() && At(n) == Fresh(s, cat, rule, n) && verdicts == old(verdicts)[n := v]
      ensures forall m :: m != n ==> At(m) == old(At(m))
    {
      hide Judge, ViewOf, RowLabelsOf;
      ClearSupports(n);
      var keys: seq<Key>;
      v, keys := JudgeTraced(ViewOf(s), cat, rule, n, map[]);
      ListUnder(keys, n);
      var support := SupportOf(keys, s);
      if support.rowLabels != {} {
        rowLabels := rowLabels[n := support.rowLabels];
      }
      supports := supports[n := support.keys];
      verdicts := verdicts[n := v];
    }

    method Remove(n: NodeId)
      requires Inverted() && Tidy()
      modifies this
      ensures Inverted() && Tidy() && At(n) == NotJudged && verdicts == old(verdicts) - {n}
      ensures forall m :: m != n ==> At(m) == old(At(m))
    {
      ClearSupports(n);
      verdicts := verdicts - {n};
    }

    /** The subjects that a change may have touched: those that read a touched key, and the touched nodes
        that are or were subjects. */
    method Candidates(s: Snapshot, cat: Catalog, keys: set<Key>, nodes: set<NodeId>) returns (out: set<NodeId>)
      ensures forall k, n :: k in keys && Listed(dependents, k, n) ==> n in out
      ensures forall n :: n in nodes && (IsSubject(s, cat, rule, n) || n in verdicts) ==> n in out
    {
      out := {};
      var todo := keys;
      while todo != {}
        invariant todo <= keys
        invariant forall k, n :: k in keys - todo && Listed(dependents, k, n) ==> n in out
      {
        var k :| k in todo;
        if k in dependents {
          out := out + dependents[k];
        }
        // a subject without a verdict yet, because its type name did not resolve before
        if IsSubject(s, cat, rule, k.0) && k.0 !in verdicts {
          out := out + {k.0};
        }
        todo := todo - {k};
      }
      var rest := nodes;
      while rest != {}
        invariant rest <= nodes
        invariant forall k, n :: k in keys && Listed(dependents, k, n) ==> n in out
        invariant forall n :: n in nodes - rest && (IsSubject(s, cat, rule, n) || n in verdicts) ==> n in out
      {
        var n :| n in rest;
        if IsSubject(s, cat, rule, n) || n in verdicts {
          out := out + {n};
        }
        rest := rest - {n};
      }
    }

    lemma NotCandidate(was: Snapshot, s: Snapshot, cat: Catalog, keys: set<Key>, nodes: set<NodeId>, out: set<NodeId>,
                       n: NodeId)
      requires Maintains(was, cat) && ChangedOnly(was, s, keys, nodes) && n !in out
      requires forall k, n :: k in keys && Listed(dependents, k, n) ==> n in out
      requires forall n :: n in nodes && (IsSubject(s, cat, rule, n) || n in verdicts) ==> n in out
      ensures Fresh(s, cat, rule, n) == Fresh(was, cat, rule, n)
    {
      assert At(n) == Fresh(was, cat, rule, n);
      if n !in nodes {
        forall k | k in Fresh(was, cat, rule, n).keys
          ensures k !in keys
        {
          assert HasRead(supports, n, k);
          assert Listed(dependents, k, n);
        }
        UntouchedSame(was, s, keys, nodes, cat, rule, n);
      }
    }

    /** Judge a candidate again, or forget it, and say what changed. */
    method Rejudge(s: Snapshot, cat: Catalog, n: NodeId) returns (d: VerdictDiff)
      requires Inverted() && Tidy()
      modifies this
      ensures Inverted() && Tidy() && At(n) == Fresh(s, cat, rule, n)
      ensures forall m :: m != n ==> At(m) == old(At(m))
      ensures d == DiffFrom(n, old(At(n)), At(n)) && verdicts == Put(old(verdicts), n, d.new_)
      ensures d.old_ == d.new_ ==> verdicts == old(verdicts)
    {
      var old_, oldSupport := Get(verdicts, n), SupportAt(n);
      var new_: Option<Verdict> := None;
      if IsSubject(s, cat, rule, n) {
        var v := JudgeInto(s, cat, n);
        new_ := Some(v);
      } else {
        Remove(n);
      }
      d := VerdictDiff(n, old_, new_, oldSupport, SupportAt(n));
    }

    /** Judge again what a materialize touched, and report every change. */
    method Apply(ghost was: Snapshot, s: Snapshot, cat: Catalog, keys: set<Key>, nodes: set<NodeId>)
        returns (diffs: seq<VerdictDiff>)
      requires Maintains(was, cat) && ChangedOnly(was, s, keys, nodes)
      modifies this
      ensures Maintains(s, cat)
      ensures DiffsBetween(diffs, was, s, cat, rule)
      ensures verdicts == ApplyDiffs(old(verdicts), diffs)
    {
      if rule.subjectType !in cat.ids {
        assert forall n :: At(n) == Fresh(was, cat, rule, n) == Fresh(s, cat, rule, n);
        return [];
      }
      var todo := Affected(was, s, cat, keys, nodes);
      diffs := RejudgeAll(was, s, cat, todo);
    }

    /** The candidates are enough: every other node is judged as before. */
    method Affected(ghost was: Snapshot, s: Snapshot, cat: Catalog, keys: set<Key>, nodes: set<NodeId>)
        returns (out: set<NodeId>)
      requires Maintains(was, cat) && ChangedOnly(was, s, keys, nodes)
      ensures forall n :: n !in out ==> Fresh(s, cat, rule, n) == Fresh(was, cat, rule, n)
    {
      out := Candidates(s, cat, keys, nodes);
      forall n | n !in out
        ensures Fresh(s, cat, rule, n) == Fresh(was, cat, rule, n)
      {
        NotCandidate(was, s, cat, keys, nodes, out, n);
      }
    }

    /** Judge every candidate again, one by one. */
    method RejudgeAll(ghost was: Snapshot, s: Snapshot, cat: Catalog, candidates: set<NodeId>)
        returns (diffs: seq<VerdictDiff>)
      requires Maintains(was, cat)
      requires forall n :: n !in candidates ==> Fresh(s, cat, rule, n) == Fresh(was, cat, rule, n)
      modifies this
      ensures Maintains(s, cat)
      ensures DiffsBetween(diffs, was, s, cat, rule)
      ensures verdicts == ApplyDiffs(old(verdicts), diffs)
    {
      var todo := candidates;
      diffs := [];
      while todo != {}
        invariant HalfDone(was, s, cat, todo)
        invariant DiffsSoFar(diffs, todo, was, s, cat, rule)
        invariant verdicts == ApplyDiffs(old(verdicts), diffs)
      {
        var n :| n in todo;
        diffs := RejudgeOne(was, s, cat, todo, diffs, n, old(verdicts));
        todo := todo - {n};
      }
    }

    /** The nodes still to judge are as they were judged before, the others as they are judged now. */
    ghost predicate HalfDone(was: Snapshot, s: Snapshot, cat: Catalog, todo: set<NodeId>)
      reads this
    {
      Inverted() && Tidy() && forall n :: At(n) == Fresh(if n in todo then was else s, cat, rule, n)
    }

    /** What a principal is shown of the maintained verdicts. */
    function Shown(s: Snapshot, m: FactMask): map<NodeId, Verdict>
      reads this
    {
      map n | n in verdicts && NodeVisible(s, n, m.allowed) :: Seen(verdicts[n], SupportAt(n), s, m)
    }

    /** Masking the maintained verdicts gives exactly what a one-shot evaluation gives, under any mask. */
    lemma ShownIsEvaluate(s: Snapshot, cat: Catalog, m: FactMask)
      requires Maintains(s, cat)
      ensures Shown(s, m) == Evaluate(s, cat, rule, m, map[])
    {
      var all := Evaluate(s, cat, rule, m, map[]);
      forall n: NodeId
        ensures Get(Shown(s, m), n) == Get(all, n)
      {
        assert At(n) == Fresh(s, cat, rule, n);
      }
      SameMaps(Shown(s, m), all);
    }

    method RejudgeOne(ghost was: Snapshot, s: Snapshot, cat: Catalog, ghost todo: set<NodeId>, diffs: seq<VerdictDiff>,
                      n: NodeId, ghost start: map<NodeId, Verdict>) returns (out: seq<VerdictDiff>)
      requires HalfDone(was, s, cat, todo) && n in todo && DiffsSoFar(diffs, todo, was, s, cat, rule)
      requires verdicts == ApplyDiffs(start, diffs)
      modifies this
      ensures HalfDone(was, s, cat, todo - {n}) && DiffsSoFar(out, todo - {n}, was, s, cat, rule)
      ensures verdicts == ApplyDiffs(start, out)
    {
      hide Fresh, Inverted, Tidy;
      assert At(n) == Fresh(was, cat, rule, n);
      DiffsStep(diffs, todo, was, s, cat, rule, n);
      var d := Rejudge(s, cat, n);
      assert (diffs + [d])[..|diffs|] == diffs;
      out := if d.old_ != d.new_ || d.oldSupport.rowLabels != d.newSupport.rowLabels then diffs + [d] else diffs;
    }
  }

  function DiffFrom(n: NodeId, a: Judged, b: Judged): VerdictDiff {
    VerdictDiff(n, a.verdict, b.verdict, Support(a.keys, a.labels), Support(b.keys, b.labels))
  }

  function Subjects(diffs: seq<VerdictDiff>): set<NodeId> { set d | d in diffs :: d.subject }

  lemma SubjectsMore(diffs: seq<VerdictDiff>, d: VerdictDiff)
    ensures Subjects(diffs + [d]) == Subjects(diffs) + {d.subject}
  {
    assert forall x :: x in diffs + [d] <==> x in diffs || x == d;
  }

  /** Alike to every masked reader: the same verdict and the same labels on the rows it was judged from. */
  predicate SameToReader(a: Judged, b: Judged) { a.verdict == b.verdict && a.labels == b.labels }

  /** A diff carries both judgments of its subject, and they differ. */
  ghost predicate DiffOf(d: VerdictDiff, was: Snapshot, now: Snapshot, cat: Catalog, rule: Rule) {
    var a, b := Fresh(was, cat, rule, d.subject), Fresh(now, cat, rule, d.subject);
    d == DiffFrom(d.subject, a, b) && !SameToReader(a, b)
  }

  /** Exactly one diff for every subject whose verdict or row labels changed. */
  ghost predicate DiffsBetween(diffs: seq<VerdictDiff>, was: Snapshot, now: Snapshot, cat: Catalog, rule: Rule) {
    && (forall d :: d in diffs ==> DiffOf(d, was, now, cat, rule))
    && (forall i, j :: 0 <= i < j < |diffs| ==> diffs[i].subject != diffs[j].subject)
    && (forall n :: n !in Subjects(diffs) ==> SameToReader(Fresh(was, cat, rule, n), Fresh(now, cat, rule, n)))
  }

  ghost predicate DiffsSoFar(diffs: seq<VerdictDiff>, todo: set<NodeId>, was: Snapshot, now: Snapshot, cat: Catalog,
                             rule: Rule) {
    && (forall n :: n !in todo && n !in Subjects(diffs) ==>
         SameToReader(Fresh(was, cat, rule, n), Fresh(now, cat, rule, n)))
    && (forall d :: d in diffs ==> d.subject !in todo && DiffOf(d, was, now, cat, rule))
    && (forall i, j :: 0 <= i < j < |diffs| ==> diffs[i].subject != diffs[j].subject)
  }

  lemma DiffsStep(diffs: seq<VerdictDiff>, todo: set<NodeId>, was: Snapshot, now: Snapshot, cat: Catalog, rule: Rule,
                  n: NodeId)
    requires DiffsSoFar(diffs, todo, was, now, cat, rule) && n in todo
    ensures var a, b := Fresh(was, cat, rule, n), Fresh(now, cat, rule, n);
      DiffsSoFar(if SameToReader(a, b) then diffs else diffs + [DiffFrom(n, a, b)], todo - {n}, was, now, cat, rule)
  {
    var a, b := Fresh(was, cat, rule, n), Fresh(now, cat, rule, n);
    SubjectsMore(diffs, DiffFrom(n, a, b));
    forall i | 0 <= i < |diffs|
      ensures diffs[i].subject != n
    {
      assert diffs[i] in diffs;
    }
  }

  /** What a client does with a list of diffs. */
  function ApplyDiffs(m: map<NodeId, Verdict>, diffs: seq<VerdictDiff>): map<NodeId, Verdict> {
    if diffs == [] then m
    else
      var d := diffs[|diffs| - 1];
      Put(ApplyDiffs(m, diffs[..|diffs| - 1]), d.subject, d.new_)
  }
}
