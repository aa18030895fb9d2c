/** What a principal learns by reading a watched rule's changes through its mask, over whole runs of the engine. */
module MaskedRuns {
  import opened Types
  import opened Folds
  import opened Snapshots
  import opened Refresh
  import opened Collection
  import opened Changelogs
  import opened Engines
  import opened Mask
  import opened Conformance
  import opened Verdicts
  import opened Incremental
  import opened MaskedChanges
  import opened Live

  // --- from the journal to the drains ----------------------------------------------------------

  lemma {:induction false} JournaledConcat(a: seq<seq<VerdictDiff>>, b: seq<seq<VerdictDiff>>)
    ensures Journaled(a + b) == Journaled(a) + Journaled(b)
    decreases |b|
  {
    if b == [] {
      assert a + b == a;
      assert Journaled(a) + [] == Journaled(a);
    } else {
      assert (a + b)[..|a + b| - 1] == a + b[..|b| - 1];
      JournaledConcat(a, b[..|b| - 1]);
    }
  }

  /** A drain that changed nothing adds nothing to what a principal reads. */
  lemma {:induction false} JournaledAnswer(steps: seq<seq<VerdictDiff>>, s: Snapshot, m: FactMask)
    ensures Answer(Journaled(steps), s, m) == Answer(steps, s, m)
    decreases |steps|
  {
    hide Told;
    if steps != [] {
      var n := |steps| - 1;
      JournaledAnswer(steps[..n], s, m);
      if steps[n] == [] {
        assert Journaled(steps[..n]) + [] == Journaled(steps[..n]);
        assert Answer(steps[..n], s, m) + [] == Answer(steps[..n], s, m);
      } else {
        assert Journaled(steps)[..|Journaled(steps)| - 1] == Journaled(steps[..n]);
      }
    }
  }

  /** What was journaled since is what the drains since then changed. */
  lemma JournaledSince(wasSteps: seq<seq<VerdictDiff>>, steps: seq<seq<VerdictDiff>>, was: seq<Entry>, all: seq<Entry>)
    requires wasSteps <= steps && was <= all
    requires Batches(was) == Journaled(wasSteps) && Batches(all) == Journaled(steps)
    ensures Batches(all[|was|..]) == Journaled(steps[|wasSteps|..])
  {
    hide Journaled;
    var more := steps[|wasSteps|..];
    assert steps == wasSteps + more;
    JournaledConcat(wasSteps, more);
    assert Batches(all) == Batches(was) + Batches(all[|was|..]);
    assert (Batches(was) + Journaled(more))[|was|..] == Journaled(more);
    assert (Batches(was) + Batches(all[|was|..]))[|was|..] == Batches(all[|was|..]);
  }

  /** A client that has read all but what came above its cursor is answered with exactly that. */
  lemma ReadSince(was: seq<Entry>, all: seq<Entry>, cursor: nat, head: nat)
    requires Ordered(all) && Grew(was, all, cursor + 1)
    requires forall i :: 0 <= i < |was| ==> was[i].head <= cursor
    requires forall i :: 0 <= i < |all| ==> all[i].head <= head
    ensures Between(all, cursor, head) == all[|was|..]
  {
    var more := all[|was|..];
    assert forall i :: 0 <= i < |more| ==> more[i] == all[|was| + i];
    KeptAnswers(all, |was|, cursor, head);
    BetweenSplits(more, cursor, head);
    UpToNone(more, cursor);
    assert [] + Between(more, cursor, head) == Between(more, cursor, head);
  }

  lemma ChainSuffix(snaps: seq<Snapshot>, steps: seq<seq<VerdictDiff>>, cat: Catalog, rule: Rule, k: nat)
    requires Chain(snaps, steps, cat, rule) && k <= |steps|
    ensures Chain(snaps[k..], steps[k..], cat, rule) && |snaps[k..]| == |steps[k..]| + 1
  {
    hide DiffsBetween;
    forall i | 0 <= i < |steps| - k
      ensures DiffsBetween(steps[k..][i], snaps[k..][i], snaps[k..][i + 1], cat, rule)
    {
      assert DiffsBetween(steps[k + i], snaps[k + i], snaps[k + i + 1], cat, rule);
    }
  }

  // --- whole runs ------------------------------------------------------------------------------

  /** Where the principal stands on a subject after its read: the guards of the mask on what it last learned. */
  ghost predicate Learned(snaps: seq<Snapshot>, steps: seq<seq<VerdictDiff>>, cat: Catalog, rule: Rule, m: FactMask,
                          n: NodeId)
    requires |snaps| == |steps| + 1
  {
    var now := snaps[|steps|];
    var k := LastTold(steps, now, m, n);
    StillRight(Fresh(snaps[k], cat, rule, n), if k == 0 then snaps[0] else now, Fresh(now, cat, rule, n), now, m, n)
  }

  lemma Learns(held: map<NodeId, Verdict>, changes: seq<Change>, snaps: seq<Snapshot>, steps: seq<seq<VerdictDiff>>,
               cat: Catalog, rule: Rule, m: FactMask)
    requires Chain(snaps, steps, cat, rule) && held == Evaluate(snaps[0], cat, rule, m, map[])
    requires changes == Answer(steps, snaps[|steps|], m)
    ensures forall n :: Learned(snaps, steps, cat, rule, m, n) <==>
      Get(ApplyChanges(held, changes), n) == Get(Evaluate(snaps[|steps|], cat, rule, m, map[]), n)
  {
    forall n
      ensures Learned(snaps, steps, cat, rule, m, n) <==>
        Get(ApplyChanges(held, changes), n) == Get(Evaluate(snaps[|steps|], cat, rule, m, map[]), n)
    {
      hide Fresh, Evaluate, Answer, StillRight, LastTold, Chain;
      ReachedIff(snaps, steps, cat, rule, m, n);
    }
  }

  /** Nothing that the mask hides changes in a way that the principal cannot be told: no node comes in sight or leaves
      it, a store that held something hidden still does, and no hidden floor silently enters or leaves what a
      judgment reads. */
  ghost predicate Untroubled(snaps: seq<Snapshot>, steps: seq<seq<VerdictDiff>>, cat: Catalog, rule: Rule, m: FactMask)
    requires |snaps| == |steps| + 1
  {
    && SameNodes(snaps[0], snaps[|steps|], m)
    && (m.HidesAny(snaps[0]) ==> m.HidesAny(snaps[|steps|]))
    && forall n :: SteadyFloors(snaps, steps, cat, rule, m, n)
  }

  lemma LearnsAll(held: map<NodeId, Verdict>, changes: seq<Change>, snaps: seq<Snapshot>, steps: seq<seq<VerdictDiff>>,
                  cat: Catalog, rule: Rule, m: FactMask)
    requires Chain(snaps, steps, cat, rule) && held == Evaluate(snaps[0], cat, rule, m, map[])
    requires changes == Answer(steps, snaps[|steps|], m)
    requires snaps[0].labelCounts == Counts(snaps[0].factLabels) && Untroubled(snaps, steps, cat, rule, m)
    ensures ApplyChanges(held, changes) == Evaluate(snaps[|steps|], cat, rule, m, map[])
  {
    hide Fresh, Evaluate, Answer, SameNodes, FactMask.HidesAny, SteadyFloors, DiffsBetween;
    MaskedReaderFollows(snaps, steps, cat, rule, m);
  }

  /** What the engine shows once everything written is drained. */
  ghost function Drained(w: Watched): Snapshot
    requires |w.engine.history| <= U64_LIMIT
    reads w.engine
  {
    Observe(FoldOf(w.engine.history), w.engine.cache.hash)
  }

  /** A drained engine shows a principal the one-shot evaluation of everything written. */
  lemma ShownDrained(w: Watched, m: FactMask)
    requires w.Valid() && w.engine.watermark == |w.engine.history|
    ensures |w.engine.history| <= U64_LIMIT && w.engine.cache.Value() == Drained(w)
    ensures w.maintained.Shown(Drained(w), m) == Evaluate(Drained(w), w.cat, w.maintained.rule, m, map[])
    ensures Drained(w).labelCounts == Counts(Drained(w).factLabels)
    ensures Chain(w.live.snaps, w.live.steps, w.cat, w.maintained.rule) && w.live.snaps[|w.live.steps|] == Drained(w)
  {
    hide FoldOf, GcSame, Chain, Evaluate, Watched.Current;
    assert w.engine.history[..|w.engine.history|] == w.engine.history;
    w.ShownIsEvaluation(m);
    w.StepsLead();
    w.engine.cache.ShowsIsObserve(w.engine.base.Value());
    GcSameObserve(w.engine.base.Value(), FoldOf(w.engine.history), w.engine.cache.hash);
  }

  /** A principal holds the verdicts it is shown of a drained engine. After any run of writes, flushes, drains and
      compactions in which every append is flushed before it is drained, it reads its changes after the head it had.
      It is told to resync exactly when the run journaled more batches than the journal has room for. Otherwise what it reads is right
      about a subject exactly when what it last learned of it still meets the guards of its mask, and right
      throughout when nothing hidden changes in a way it cannot be told. */
  method RunThenReadMasked(w: Watched, events: seq<LiveEvent>, m: FactMask)
      returns (changes: Option<seq<Change>>, ghost snaps: seq<Snapshot>, ghost steps: seq<seq<VerdictDiff>>)
    requires w.Valid() && w.engine.watermark == |w.engine.history| && FlushedFirst(events + [DrainNow])
    requires TypedLive(events, w.engine.card) && |w.engine.history| + |events| <= U64_LIMIT
    modifies w.engine, w.engine.changelog, w.engine.base, w.engine.cache, w.maintained, w.live
    ensures w.Valid() && |w.engine.history| <= U64_LIMIT && Chain(snaps, steps, w.cat, w.maintained.rule)
    ensures snaps[0] == old(Drained(w)) && snaps[|steps|] == Drained(w)
    ensures old(w.live.all) <= w.live.all
    ensures changes.None? <==> |w.live.all| - |old(w.live.all)| > w.live.Room()
    ensures changes.Some? ==>
      forall n :: Learned(snaps, steps, w.cat, w.maintained.rule, m, n) <==>
        Get(ApplyChanges(old(w.maintained.Shown(Drained(w), m)), changes.value), n)
          == Get(w.maintained.Shown(Drained(w), m), n)
    ensures changes.Some? && Untroubled(snaps, steps, w.cat, w.maintained.rule, m) ==>
      ApplyChanges(old(w.maintained.Shown(Drained(w), m)), changes.value) == w.maintained.Shown(Drained(w), m)
  {
    hide FoldOf, GcSame, OpsFrom, TypedOp, Observe, Replay, NamedAgain, Ordered, Between, UpTo, Watched.Valid, Chain,
         ShowsEvaluation, Drained, Untroubled, Learned, Evaluate, Answer, MaintainedConformance.Shown, ApplyChanges,
         Batches, Journaled, TypedLive, FlushedFirst;
    ShownDrained(w, m);
    w.JournalLeads();
    w.StepsLead();
    ghost var was, wasSteps, wasSnaps := w.live.all, w.live.steps, w.live.snaps;
    ghost var held := w.maintained.Shown(Drained(w), m);
    var cursor, r := RunThenRead(w, events);
    ShownDrained(w, m);
    w.JournalLeads();
    w.StepsLead();
    steps, snaps := w.live.steps[|wasSteps|..], w.live.snaps[|wasSteps|..];
    ChainSuffix(w.live.snaps, w.live.steps, w.cat, w.maintained.rule, |wasSteps|);
    ReadSince(was, w.live.all, cursor, w.Head());
    if r.None? {
      return None, snaps, steps;
    }
    changes := Some(Answer(Batches(r.value), w.engine.cache.Value(), m));
    JournaledSince(wasSteps, w.live.steps, was, w.live.all);
    JournaledAnswer(steps, Drained(w), m);
    Learns(held, changes.value, snaps, steps, w.cat, w.maintained.rule, m);
    if Untroubled(snaps, steps, w.cat, w.maintained.rule, m) {
      LearnsAll(held, changes.value, snaps, steps, w.cat, w.maintained.rule, m);
    }
  }
}
