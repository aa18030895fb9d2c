/** A watched rule over a live engine: maintained verdicts, and a bounded journal of their changes. */
module Live {
  import opened Types
  import opened Rows
  import opened Folds
  import opened Snapshots
  import opened Refresh
  import opened Collection
  import opened Changelogs
  import opened Engines
  import opened Mask
  import opened Conformance
  import opened Verdicts
  import opened Incremental
  import opened MaskedChanges

  /** A batch of verdict changes and the durable head it ended at. */
  datatype Entry = Entry(head: nat, diffs: seq<VerdictDiff>)

  /** The verdict map that a client at `cursor` holds after the batches up to it. */
  function Replay(start: map<NodeId, Verdict>, entries: seq<Entry>): map<NodeId, Verdict> {
    if entries == [] then start
    else ApplyDiffs(Replay(start, entries[..|entries| - 1]), entries[|entries| - 1].diffs)
  }

  /** A drain leads on by what it changed, journaled or empty. */
  lemma ReplayMore(start: map<NodeId, Verdict>, all: seq<Entry>, head: nat, diffs: seq<VerdictDiff>)
    ensures Replay(start, all + if diffs == [] then [] else [Entry(head, diffs)]) == ApplyDiffs(Replay(start, all), diffs)
  {
    if diffs == [] {
      assert all + [] == all;
    } else {
      assert (all + [Entry(head, diffs)])[..|all|] == all;
    }
  }

  /** The entries a read after `cursor` up to `upper` answers with. */
  function Between(entries: seq<Entry>, cursor: nat, upper: nat): seq<Entry> {
    if entries == [] then []
    else
      var last := entries[|entries| - 1];
      Between(entries[..|entries| - 1], cursor, upper) + if cursor < last.head <= upper then [last] else []
  }

  /** Heads never fall; batches drained before their sync share the head of the batch before. */
  ghost predicate Ordered(entries: seq<Entry>) {
    forall i, j :: 0 <= i < j < |entries| ==> entries[i].head <= entries[j].head
  }

  lemma {:induction false} ReplayConcat(start: map<NodeId, Verdict>, a: seq<Entry>, b: seq<Entry>)
    ensures Replay(start, a + b) == Replay(Replay(start, a), b)
    decreases |b|
  {
    if b == [] {
      assert a + b == a;
    } else {
      assert (a + b)[..|a + b| - 1] == a + b[..|b| - 1];
      ReplayConcat(start, a, b[..|b| - 1]);
    }
  }

  /** The entries up to a head, that head's own included. */
  function UpTo(entries: seq<Entry>, head: nat): seq<Entry> {
    if entries == [] then []
    else
      var last := entries[|entries| - 1];
      UpTo(entries[..|entries| - 1], head) + if last.head <= head then [last] else []
  }

  lemma OrderedPrefix(entries: seq<Entry>)
    requires Ordered(entries) && entries != []
    ensures var n := |entries| - 1;
      Ordered(entries[..n]) && forall i :: 0 <= i < n ==> entries[..n][i].head <= entries[n].head
  {
  }

  /** In a journal whose heads never fall, what a read after a cursor answers with is a suffix. */
  lemma {:induction false} BetweenSplits(entries: seq<Entry>, cursor: nat, upper: nat)
    requires Ordered(entries) && forall i :: 0 <= i < |entries| ==> entries[i].head <= upper
    ensures UpTo(entries, cursor) + Between(entries, cursor, upper) == entries
    decreases |entries|
  {
    hide Between, UpTo;
    if entries != [] {
      var n := |entries| - 1;
      OrderedPrefix(entries);
      hide Ordered;
      BetweenSplits(entries[..n], cursor, upper);
      if entries[n].head <= cursor {
        BetweenEmpty(entries[..n], cursor, upper);
      }
      SplitSnoc(entries[..n], entries[n], cursor, upper);
      assert entries == entries[..n] + [entries[n]];
    } else {
      SplitNothing(cursor, upper);
    }
  }

  lemma SplitNothing(cursor: nat, upper: nat)
    ensures UpTo([], cursor) + Between([], cursor, upper) == []
  {
  }

  lemma SplitSnoc(rest: seq<Entry>, last: Entry, cursor: nat, upper: nat)
    requires UpTo(rest, cursor) + Between(rest, cursor, upper) == rest && last.head <= upper
    requires last.head <= cursor ==> Between(rest, cursor, upper) == []
    ensures UpTo(rest + [last], cursor) + Between(rest + [last], cursor, upper) == rest + [last]
  {
    var a, b := UpTo(rest, cursor), Between(rest, cursor, upper);
    assert (rest + [last])[..|rest|] == rest;
    if last.head <= cursor {
      assert a + [] == a && b + [] == b && rest == a;
    } else {
      assert a + [] == a && a + (b + [last]) == (a + b) + [last];
    }
  }

  lemma {:induction false} BetweenEmpty(entries: seq<Entry>, cursor: nat, upper: nat)
    requires forall i :: 0 <= i < |entries| ==> entries[i].head <= cursor
    ensures Between(entries, cursor, upper) == []
    decreases |entries|
  {
    if entries != [] {
      BetweenEmpty(entries[..|entries| - 1], cursor, upper);
    }
  }

  lemma {:induction false} UpToNone(entries: seq<Entry>, head: nat)
    requires forall i :: 0 <= i < |entries| ==> head < entries[i].head
    ensures UpTo(entries, head) == []
    decreases |entries|
  {
    if entries != [] {
      UpToNone(entries[..|entries| - 1], head);
    }
  }

  lemma {:induction false} BetweenConcat(a: seq<Entry>, b: seq<Entry>, cursor: nat, upper: nat)
    ensures Between(a + b, cursor, upper) == Between(a, cursor, upper) + Between(b, cursor, upper)
    decreases |b|
  {
    if b == [] {
      assert a + b == a;
    } else {
      assert (a + b)[..|a + b| - 1] == a + b[..|b| - 1];
      BetweenConcat(a, b[..|b| - 1], cursor, upper);
    }
  }

  /** The subjects that some batch says something about. */
  function Named(entries: seq<Entry>): set<NodeId> {
    if entries == [] then {} else Named(entries[..|entries| - 1]) + Subjects(entries[|entries| - 1].diffs)
  }

  lemma {:induction false} DiffsDecide(m: map<NodeId, Verdict>, w: map<NodeId, Verdict>, diffs: seq<VerdictDiff>,
                                       n: NodeId)
    ensures n in Subjects(diffs) ==> Get(ApplyDiffs(m, diffs), n) == Get(ApplyDiffs(w, diffs), n)
    ensures n !in Subjects(diffs) ==> Get(ApplyDiffs(m, diffs), n) == Get(m, n)
    decreases |diffs|
  {
    if diffs != [] {
      var last := |diffs| - 1;
      DiffsDecide(m, w, diffs[..last], n);
      SubjectsMore(diffs[..last], diffs[last]);
      assert diffs[..last] + [diffs[last]] == diffs;
    }
  }

  /** The last batch that names a subject decides its verdict; without one it keeps what it had. */
  lemma {:induction false} ReplayDecides(m: map<NodeId, Verdict>, w: map<NodeId, Verdict>, entries: seq<Entry>, n: NodeId)
    ensures n in Named(entries) ==> Get(Replay(m, entries), n) == Get(Replay(w, entries), n)
    ensures n !in Named(entries) ==> Get(Replay(m, entries), n) == Get(m, n)
    decreases |entries|
  {
    if entries != [] {
      var last := |entries| - 1;
      ReplayDecides(m, w, entries[..last], n);
      DiffsDecide(Replay(m, entries[..last]), Replay(w, entries[..last]), entries[last].diffs, n);
      DiffsDecide(Replay(w, entries[..last]), Replay(m, entries[..last]), entries[last].diffs, n);
    }
  }

  /** Every subject that the missed batches changed is named again by what was read. */
  ghost predicate NamedAgain(held: map<NodeId, Verdict>, missed: seq<Entry>, read: seq<Entry>) {
    forall n :: Get(Replay(held, missed), n) != Get(held, n) ==> n in Named(read)
  }

  /** A client that missed some batches still ends right exactly when every subject they changed is named again
      by what it read. */
  lemma MissedIff(held: map<NodeId, Verdict>, missed: seq<Entry>, read: seq<Entry>)
    ensures Replay(held, read) == Replay(held, missed + read) <==> NamedAgain(held, missed, read)
    ensures missed == [] ==> NamedAgain(held, missed, read)
  {
    hide Replay, Named;
    ReplayConcat(held, missed, read);
    var m := Replay(held, missed);
    if NamedAgain(held, missed, read) {
      forall n
        ensures Get(Replay(held, read), n) == Get(Replay(m, read), n)
      {
        ReplayDecides(held, m, read, n);
        ReplayDecides(m, held, read, n);
      }
      SameMaps(Replay(held, read), Replay(m, read));
    } else {
      var n :| Get(m, n) != Get(held, n) && n !in Named(read);
      ReplayDecides(held, m, read, n);
      ReplayDecides(m, held, read, n);
    }
    if missed == [] {
      NothingMissed(held);
    }
  }

  lemma NothingMissed(held: map<NodeId, Verdict>)
    ensures Replay(held, []) == held
  {
  }

  // --- the bounded journal ---------------------------------------------------------------------

  /** Batches that were all dropped at or below the cursor are not missed by a read after it. */
  lemma KeptAnswers(all: seq<Entry>, dropped: nat, cursor: nat, upper: nat)
    requires dropped <= |all| && forall i :: 0 <= i < dropped ==> all[i].head <= cursor
    ensures Between(all[dropped..], cursor, upper) == Between(all, cursor, upper)
  {
    hide Between;
    BetweenConcat(all[..dropped], all[dropped..], cursor, upper);
    BetweenEmpty(all[..dropped], cursor, upper);
    assert all[..dropped] + all[dropped..] == all;
    assert [] + Between(all[dropped..], cursor, upper) == Between(all[dropped..], cursor, upper);
  }

  lemma {:induction false} BetweenFewer(entries: seq<Entry>, cursor: nat, upper: nat)
    ensures |Between(entries, cursor, upper)| <= |entries|
    decreases |entries|
  {
    if entries != [] {
      BetweenFewer(entries[..|entries| - 1], cursor, upper);
    }
  }

  /** Every batch from the `k`th on is answered with. */
  lemma {:induction false} BetweenAll(entries: seq<Entry>, cursor: nat, upper: nat, k: nat)
    requires k <= |entries| && forall i :: k <= i < |entries| ==> cursor < entries[i].head <= upper
    ensures |Between(entries, cursor, upper)| >= |entries| - k
    decreases |entries|
  {
    if k < |entries| {
      BetweenAll(entries[..|entries| - 1], cursor, upper, k);
    }
  }

  /** The diffs of each batch. */
  function Batches(entries: seq<Entry>): (b: seq<seq<VerdictDiff>>)
    ensures |b| == |entries|
  {
    seq(|entries|, i requires 0 <= i < |entries| => entries[i].diffs)
  }

  /** The batches that are journaled: those that say something. */
  function Journaled(steps: seq<seq<VerdictDiff>>): seq<seq<VerdictDiff>> {
    if steps == [] then []
    else
      var last := steps[|steps| - 1];
      Journaled(steps[..|steps| - 1]) + if last == [] then [] else [last]
  }

  /** The journal is the end of all batches since `start`, and `mark` is the head of the last one dropped. */
  ghost predicate KeptEnd(log: seq<Entry>, all: seq<Entry>, mark: nat, start: nat) {
    && |log| <= |all|
    && log == all[|all| - |log|..]
    && Ordered(all)
    && (forall i :: 0 <= i < |all| ==> start <= all[i].head)
    && mark == (if |log| == |all| then start else all[|all| - |log| - 1].head)
  }

  lemma KeptNone(start: nat)
    ensures KeptEnd([], [], start, start)
  {
  }

  lemma KeptMore(log: seq<Entry>, all: seq<Entry>, mark: nat, start: nat, e: Entry)
    requires KeptEnd(log, all, mark, start) && start <= e.head && forall i :: 0 <= i < |all| ==> all[i].head <= e.head
    ensures KeptEnd(log + [e], all + [e], mark, start)
  {
    assert log + [e] == (all + [e])[|all + [e]| - |log + [e]|..];
  }

  lemma KeptDrop(log: seq<Entry>, all: seq<Entry>, mark: nat, start: nat)
    requires KeptEnd(log, all, mark, start) && log != []
    ensures KeptEnd(log[1..], all, log[0].head, start) && log[0] in all
  {
    assert log[0] == all[|all| - |log|];
    assert log[1..] == all[|all| - |log[1..]|..];
  }

  /** Nothing above the mark was dropped. */
  lemma KeptBelow(log: seq<Entry>, all: seq<Entry>, mark: nat, start: nat)
    requires KeptEnd(log, all, mark, start)
    ensures start <= mark && |log| <= |all| && log == all[|all| - |log|..] && Ordered(all)
    ensures forall i :: 0 <= i < |all| - |log| ==> all[i].head <= mark
    ensures |log| < |all| ==> forall i :: |all| - |log| - 1 <= i < |all| ==> mark <= all[i].head
  {
    var n := |all| - |log|;
    if 0 < n {
      assert forall i :: 0 <= i < n - 1 ==> all[i].head <= all[n - 1].head;
    }
  }

  lemma JournaledMore(all: seq<Entry>, steps: seq<seq<VerdictDiff>>, head: nat, diffs: seq<VerdictDiff>)
    requires Batches(all) == Journaled(steps)
    ensures Batches(all + if diffs == [] then [] else [Entry(head, diffs)]) == Journaled(steps + [diffs])
  {
    assert (steps + [diffs])[..|steps|] == steps;
    if diffs == [] {
      assert all + [] == all;
    } else {
      assert Batches(all + [Entry(head, diffs)]) == Batches(all) + [diffs];
    }
  }

  class LiveRule {
    const cap: nat
    var log: seq<Entry>
    var truncatedTo: nat
    /** Every batch since the watch began, of which `log` keeps the last. */
    ghost var all: seq<Entry>
    ghost const watchedAt: nat
    /** What each drain since the watch began changed, and the snapshots between the drains. */
    ghost var steps: seq<seq<VerdictDiff>>
    ghost var snaps: seq<Snapshot>

    /** How many batches the journal holds when it is full: an empty journal takes one whatever its cap. */
    function Room(): nat { if cap == 0 then 1 else cap }

    /** The journal is the end of all batches, and knows how far it has forgotten them. */
    ghost predicate Suffix()
      reads this
    {
      KeptEnd(log, all, truncatedTo, watchedAt) && Batches(all) == Journaled(steps)
    }

    /** Nothing is dropped as long as there is room. */
    ghost predicate Valid()
      reads this
    {
      Suffix() && |log| == if |all| <= Room() then |all| else Room()
    }

    constructor (head: nat, cap: nat, ghost seen: Snapshot)
      ensures Valid() && all == log == [] && truncatedTo == watchedAt == head && this.cap == cap
      ensures steps == [] && snaps == [seen]
    {
      this.cap, log, truncatedTo, all, watchedAt := cap, [], head, [], head;
      steps, snaps := [], [seen];
      new;
      KeptNone(head);
      hide KeptEnd;
    }

    /** Journal what a drain changed, if anything. */
    method Take(head: nat, diffs: seq<VerdictDiff>, ghost now: Snapshot)
      requires Valid() && watchedAt <= head && truncatedTo <= head && forall i :: 0 <= i < |all| ==> all[i].head <= head
      modifies this
      ensures Valid() && truncatedTo <= head && steps == old(steps) + [diffs] && snaps == old(snaps) + [now]
      ensures all == old(all) + if diffs == [] then [] else [Entry(head, diffs)]
    {
      hide Batches, Journaled, KeptEnd;
      if diffs != [] {
        Push(head, diffs);
      } else {
        JournaledMore(all, steps, head, diffs);
        steps := steps + [diffs];
        assert all == old(all) + [];
      }
      snaps := snaps + [now];
    }

    /** Journal a batch, dropping the oldest when the journal is full. */
    method Push(head: nat, diffs: seq<VerdictDiff>)
      requires Valid() && watchedAt <= head && truncatedTo <= head && forall i :: 0 <= i < |all| ==> all[i].head <= head
      requires diffs != []
      modifies `log, `truncatedTo, `all, `steps
      ensures Valid() && truncatedTo <= head && all == old(all) + [Entry(head, diffs)] && steps == old(steps) + [diffs]
      ensures log != [] && log[|log| - 1] == Entry(head, diffs)
    {
      hide Batches, Journaled, KeptEnd;
      JournaledMore(all, steps, head, diffs);
      MakeRoom(head);
      KeptMore(log, all, truncatedTo, watchedAt, Entry(head, diffs));
      log := log + [Entry(head, diffs)];
      all := all + [Entry(head, diffs)];
      steps := steps + [diffs];
    }

    /** Make room for one more batch, if there is none. */
    method MakeRoom(ghost head: nat)
      requires Valid() && truncatedTo <= head && forall i :: 0 <= i < |all| ==> all[i].head <= head
      modifies `log, `truncatedTo
      ensures Suffix() && truncatedTo <= head && |log| == if |all| < Room() then |all| else Room() - 1
    {
      hide Batches, Journaled, KeptEnd;
      if |log| >= cap && log != [] {
        KeptDrop(log, all, truncatedTo, watchedAt);
        DropOldest();
      }
    }

    /** Drop the oldest batch and remember how far the journal has forgotten. */
    method DropOldest()
      requires Suffix() && log != []
      modifies `log, `truncatedTo
      ensures Suffix() && log == old(log)[1..] && truncatedTo == old(log)[0].head
    {
      hide Batches, Journaled, KeptEnd;
      KeptDrop(log, all, truncatedTo, watchedAt);
      truncatedTo := log[0].head;
      log := log[1..];
    }

    /** A cursor lies behind the mark exactly when more batches than the journal has room for came after it. */
    lemma ForgottenIff(cursor: nat, upper: nat)
      requires Valid() && watchedAt <= cursor && forall i :: 0 <= i < |all| ==> all[i].head <= upper
      ensures cursor < truncatedTo <==> |Between(all, cursor, upper)| > Room()
    {
      hide Batches, Journaled, Between, KeptEnd, Ordered;
      KeptBelow(log, all, truncatedTo, watchedAt);
      var n := |all| - |log|;
      if cursor < truncatedTo {
        MarkDropped();
        BetweenAll(all, cursor, upper, n - 1);
      } else {
        KeptAnswers(all, n, cursor, upper);
        BetweenFewer(log, cursor, upper);
      }
    }

    lemma MarkDropped()
      requires Valid()
      ensures watchedAt < truncatedTo ==> |log| < |all|
    {
    }

    /** The changes after `cursor` up to `upper`, or a resync when the journal may have dropped some. */
    method Changes(cursor: nat, upper: nat) returns (r: Option<seq<Entry>>)
      requires Valid()
      ensures r.None? <==> cursor < truncatedTo
      ensures r.Some? ==> r.value == Between(all, cursor, upper)
    {
      hide Batches, Journaled, KeptEnd, Ordered;
      if cursor < truncatedTo {
        return None;
      }
      var out: seq<Entry> := [];
      for i := 0 to |log|
        invariant out == Between(log[..i], cursor, upper)
      {
        assert log[..i + 1][..i] == log[..i];
        if cursor < log[i].head <= upper {
          out := out + [log[i]];
        }
      }
      assert log[..|log|] == log;
      KeptBelow(log, all, truncatedTo, watchedAt);
      KeptAnswers(all, |all| - |log|, cursor, upper);
      return Some(out);
    }
  }

  // --- the engine and the rule together --------------------------------------------------------

  /** What the engine promises about the keys a materialize touched is what the maintenance needs. */
  lemma TouchedIsEnough(was: State, now: State, h: Hash, keys: set<Key>, nodes: set<NodeId>)
    requires forall k :: k !in keys ==> SameAt(was, now, k)
    requires forall n :: n !in nodes ==> Get(was.nodeAttrs, n) == Get(now.nodeAttrs, n)
    ensures ChangedOnly(Observe(was, h), Observe(now, h), keys, nodes)
  {
    var a, b := Observe(was, h), Observe(now, h);
    forall k: Key | k !in keys
      ensures Get(a.oneHistory, k) == Get(b.oneHistory, k) && Get(a.one, k) == Get(b.one, k)
      ensures Get(a.factLabels, k) == Get(b.factLabels, k)
    {
      assert SameAt(was, now, k);
      LabelsAt(was, k);
      LabelsAt(now, k);
    }
    forall n | n !in nodes
      ensures Get(a.nodeTypes, n) == Get(b.nodeTypes, n)
    {
      assert Get(was.nodeAttrs, n) == Get(now.nodeAttrs, n);
      assert n in was.nodeAttrs <==> n in now.nodeAttrs;
    }
  }

  /** The journal grew, if at all, by batches whose heads are at least `head`. */
  ghost predicate Grew(was: seq<Entry>, now: seq<Entry>, head: nat) {
    was <= now && forall i :: |was| <= i < |now| ==> head <= now[i].head
  }

  class Watched {
    const engine: Engine
    const maintained: MaintainedConformance
    const live: LiveRule
    const cat: Catalog
    /** The verdict map when the watch began. */
    ghost const start: map<NodeId, Verdict>

    /** The maintained map is a fresh judgment over `f`, and what the journaled diffs lead to. */
    ghost predicate Current(f: State, head: nat)
      reads maintained, live
    {
      && live.Valid()
      && maintained.Maintains(Observe(f, engine.cache.hash), cat)
      && live.watchedAt <= head
      && live.truncatedTo <= head
      && (forall i :: 0 <= i < |live.all| ==> live.all[i].head <= head)
      && maintained.verdicts == Replay(start, live.all)
      && Chain(live.snaps, live.steps, cat, maintained.rule)
      && live.snaps[|live.steps|] == Observe(f, engine.cache.hash)
    }

    /** More drains have been followed since. */
    twostate predicate Further()
      reads live
    {
      old(live.steps) <= live.steps && old(live.snaps) <= live.snaps
    }

    /** The seqno up to which the engine's writes are durable: what a client's cursor is. */
    ghost function Head(): nat
      reads engine, engine.changelog
    {
      engine.changelog.DurableHead()
    }

    ghost predicate Valid()
      reads this, engine, engine.changelog, engine.base, engine.cache, maintained, live
    {
      engine.Valid() && engine.changelog.durable && Current(engine.base.Value(), Head())
    }

    /** Start watching: seed from a drained engine. */
    constructor (e: Engine, rule: Rule, cat: Catalog, cap: nat)
      requires e.Valid() && e.watermark == |e.history| && e.changelog.durable
      ensures Valid() && engine == e && this.cat == cat && maintained.rule == rule && fresh(maintained) && fresh(live)
      ensures start == maintained.verdicts && live.truncatedTo == Head()
    {
      hide FoldOf, GcSame, OpsFrom, TypedHistory, DiskHolds, Observe, LiveRule.Valid, MaintainedConformance.Maintains,
           DiffsBetween, SnapshotCache.Shows, Engine.LogValid, Engine.BaseAt;
      engine := e;
      this.cat := cat;
      e.cache.ShowsIsObserve(e.base.Value());
      var m := new MaintainedConformance(rule, e.cache.Value(), cat);
      maintained := m;
      live := new LiveRule(e.changelog.DurableHead(), cap, e.cache.Value());
      start := m.verdicts;
    }

    /** Bring the watched rule up to the snapshot of `now`, and journal what changed. */
    method Maintain(ghost was: State, now: Snapshot, ghost f: State, keys: set<Key>, nodes: set<NodeId>,
                    ghost before: nat, head: nat)
      requires now == Observe(f, engine.cache.hash) && before <= head && Current(was, before)
      requires ChangedOnly(Observe(was, engine.cache.hash), now, keys, nodes)
      modifies maintained, live
      ensures Further()
      ensures Current(f, head) && Grew(old(live.all), live.all, head)
    {
      hide Observe, Chain, DiffsBetween, ApplyDiffs, Replay, ChangedOnly, MaintainedConformance.Maintains, LiveRule.Valid;
      var diffs := maintained.Apply(Observe(was, engine.cache.hash), now, cat, keys, nodes);
      ChainMore(live.snaps, live.steps, cat, maintained.rule, now, diffs);
      ReplayMore(start, live.all, head, diffs);
      live.Take(head, diffs, now);
    }

    /** The watched rule follows what the engine has just drained; a drain of nothing leaves it alone. */
    method Follow(ghost was: State, keys: set<Key>, nodes: set<NodeId>, ghost before: nat)
      requires Current(was, before) && engine.cache.Shows(engine.base.Value()) && before <= Head()
      requires forall k :: k !in keys ==> SameAt(was, engine.base.Value(), k)
      requires forall n :: n !in nodes ==> Get(was.nodeAttrs, n) == Get(engine.base.nodeAttrs, n)
      modifies maintained, live
      ensures Further()
      ensures Current(engine.base.Value(), Head()) && Grew(old(live.all), live.all, Head())
      ensures keys == {} && nodes == {} ==> live.all == old(live.all)
    {
      hide LiveRule.Valid, Chain, Replay, MaintainedConformance.Maintains, GcSame, OpsFrom;
      ghost var f, h := engine.base.Value(), engine.cache.hash;
      TouchedIsEnough(was, f, h, keys, nodes);
      engine.cache.ShowsIsObserve(f);
      if keys == {} && nodes == {} {
        SameMaps(was.nodeAttrs, f.nodeAttrs);
        ObserveEqual(was, f, h);
        return;
      }
      var head := engine.changelog.DurableHead();
      Maintain(was, engine.cache.Value(), f, keys, nodes, before, head);
    }

    /** Drain the engine's tail, synced or not, and keep the watched rule current. */
    method MaterializeLive()
      requires Valid()
      modifies engine`watermark, engine.changelog`materialized, engine.base, engine.cache, maintained, live
      ensures Further()
      ensures Valid() && engine.watermark == |engine.history| && Head() == old(Head())
      ensures Grew(old(live.all), live.all, Head())
      ensures old(engine.watermark) == |engine.history| ==> live.all == old(live.all)
    {
      hide FoldOf, GcSame, TouchedKeys, TouchedNodes, OpsFrom, SameAt, TypedRecord, Observe;
      ghost var was, before := engine.base.Value(), Head();
      var keys, nodes := engine.Materialize();
      Follow(was, keys, nodes, before);
    }

    /** Append without draining. */
    method WriteLive(r: Record)
      requires Valid() && |engine.history| < U64_LIMIT && TypedRecord(r, engine.card)
      modifies engine`history, engine.changelog`records
      ensures Valid() && Head() == old(Head())
      ensures engine.history ==
        if old(|engine.history| - engine.watermark) >= engine.changelog.maxUnmaterialized then old(engine.history)
        else old(engine.history) + [r]
    {
      var _ := engine.Write(r.source, r.kind, r.access);
    }

    /** Make everything appended durable, then drain it through the watched rule: the write path's flush. */
    method FlushLive()
      requires Valid()
      modifies engine`watermark, engine.changelog, engine.base, engine.cache, maintained, live
      ensures Further()
      ensures Valid() && Head() == engine.watermark == |engine.history| && engine.history == old(engine.history)
      ensures Grew(old(live.all), live.all, Head())
      ensures old(engine.watermark) == |engine.history| ==> live.all == old(live.all)
    {
      hide FoldOf, GcSame, OpsFrom, TypedRecord, Observe;
      engine.Sync();
      assert Valid();
      MaterializeLive();
    }

    /** Compact a drained engine; the watched rule sees nothing of it. */
    method CompactLive()
      requires Valid() && engine.watermark == |engine.history|
      modifies engine`watermark, engine.changelog, engine.base, engine.cache
      ensures Valid() && engine.history == old(engine.history)
      ensures Head() == engine.watermark == |engine.history|
    {
      CompactQuietly(engine);
    }

    /** Whatever the principal, the maintained verdicts masked are a one-shot evaluation of the drained writes. */
    lemma ShownIsEvaluation(m: FactMask)
      requires Valid()
      ensures var s := Observe(FoldOf(engine.history[..engine.watermark]), engine.cache.hash);
        maintained.Shown(s, m) == Evaluate(s, cat, maintained.rule, m, map[])
    {
      GcSameObserve(engine.base.Value(), FoldOf(engine.history[..engine.watermark]), engine.cache.hash);
      maintained.ShownIsEvaluate(Observe(engine.base.Value(), engine.cache.hash), cat, m);
    }

    /** The journal leads from the first map to the maintained one, and no batch lies above the head. */
    lemma JournalLeads()
      requires Valid()
      ensures Ordered(live.all) && forall i :: 0 <= i < |live.all| ==> live.all[i].head <= Head()
      ensures maintained.verdicts == Replay(start, live.all)
      ensures Head() <= |engine.history| && engine.watermark <= |engine.history| && live.watchedAt <= Head()
    {
    }

    /** The drains followed so far lead from snapshot to snapshot, up to that of the drained writes. */
    lemma StepsLead()
      requires Valid()
      ensures Chain(live.snaps, live.steps, cat, maintained.rule) && Batches(live.all) == Journaled(live.steps)
      ensures |live.snaps| == |live.steps| + 1
      ensures live.snaps[|live.steps|] == Observe(FoldOf(engine.history[..engine.watermark]), engine.cache.hash)
    {
      hide FoldOf, Observe, GcSame, DiffsBetween, Engine.FilesHold, Engine.LogValid, Replay,
           MaintainedConformance.Maintains;
      GcSameObserve(engine.base.Value(), FoldOf(engine.history[..engine.watermark]), engine.cache.hash);
    }

    lemma LiveValid()
      requires Valid()
      ensures live.Valid()
    {
    }

    /** The journal has forgotten a batch after the cursor exactly when more of them came than it has room for. */
    lemma ForgottenAt(cursor: nat)
      requires Valid() && live.watchedAt <= cursor
      ensures cursor < live.truncatedTo <==> |Between(live.all, cursor, Head())| > live.Room()
    {
      live.ForgottenIff(cursor, Head());
    }

    /** The journal has forgotten nothing above the head. */
    lemma TruncatedBelow()
      requires Valid()
      ensures live.truncatedTo <= Head()
    {
    }

    /** A client's read, which drains what is left first: the changes after its cursor up to the head, or a
        resync. */
    method ReadChanges(cursor: nat) returns (r: Option<seq<Entry>>)
      requires Valid()
      modifies engine`watermark, engine.changelog`materialized, engine.base, engine.cache, maintained, live
      ensures Further()
      ensures Valid() && engine.watermark == |engine.history| && Head() == old(Head())
      ensures Grew(old(live.all), live.all, Head())
      ensures old(engine.watermark) == |engine.history| ==> live.all == old(live.all)
      ensures r.None? <==> cursor < live.truncatedTo
      ensures r.Some? ==> r.value == Between(live.all, cursor, Head())
    {
      hide FoldOf, GcSame, OpsFrom, TypedRecord, Observe, Current, Between;
      MaterializeLive();
      LiveValid();
      r := live.Changes(cursor, engine.changelog.DurableHead());
    }
  }

  /** What a client that held the map when the journal was `was` long and the head was `cursor` is given, and what
      it misses: the batches journaled since then at that same head. */
  lemma ReadLeads(start: map<NodeId, Verdict>, was: seq<Entry>, all: seq<Entry>, cursor: nat, head: nat)
    requires Ordered(all) && Grew(was, all, cursor)
    requires forall i :: 0 <= i < |was| ==> was[i].head <= cursor
    requires forall i :: 0 <= i < |all| ==> all[i].head <= head
    ensures var held, missed, read := Replay(start, was), UpTo(all[|was|..], cursor), Between(all, cursor, head);
      && (Replay(held, read) == Replay(start, all) <==> NamedAgain(held, missed, read))
      && (Grew(was, all, cursor + 1) ==> Replay(held, read) == Replay(start, all))
  {
    hide NamedAgain, Replay, Between, UpTo;
    var more := all[|was|..];
    assert all == was + more;
    assert forall i :: 0 <= i < |more| ==> more[i] == all[|was| + i];
    BetweenConcat(was, more, cursor, head);
    BetweenEmpty(was, cursor, head);
    BetweenSplits(more, cursor, head);
    ReplayConcat(start, was, more);
    assert [] + Between(more, cursor, head) == Between(more, cursor, head);
    MissedIff(Replay(start, was), UpTo(more, cursor), Between(all, cursor, head));
    if Grew(was, all, cursor + 1) {
      UpToNone(more, cursor);
    }
  }

  /** Nothing lies after the head. */
  lemma {:induction false} BetweenSame(entries: seq<Entry>, head: nat)
    ensures Between(entries, head, head) == []
    decreases |entries|
  {
    if entries != [] {
      BetweenSame(entries[..|entries| - 1], head);
    }
  }

  /** A node has a maintained verdict exactly when it is of the rule's type. */
  lemma JudgedWhenTyped(w: Watched, n: NodeId)
    requires w.Valid() && w.maintained.rule.subjectType in w.cat.ids
    ensures n in w.maintained.verdicts <==>
      TypeOf(FoldOf(w.engine.history[..w.engine.watermark]), n) == Some(w.cat.ids[w.maintained.rule.subjectType])
  {
    hide Judge, RowLabelsOf, GcSame, FoldOf, Engine.FilesHold, Engine.LogValid, LiveRule.Valid, Replay, Chain;
    var f, h := w.engine.base.Value(), w.engine.cache.hash;
    var g := FoldOf(w.engine.history[..w.engine.watermark]);
    GcSameObserve(f, g, h);
    assert w.maintained.At(n) == Fresh(Observe(f, h), w.cat, w.maintained.rule, n);
    NodeTypeShown(g, h, n);
  }

  lemma NodeTypeShown(f: State, h: Hash, n: NodeId)
    ensures Get(Observe(f, h).nodeTypes, n) == TypeOf(f, n)
  {
  }

  lemma TypeApplied(f: State, seqno: u64, n: NodeId, t: FieldId)
    requires TypeOf(f, n) == None
    ensures TypeOf(ApplyLabeled(f, RecordToOp(seqno, Record(0, WriteKind.SetNodeType(n, t), None))), n) == Some(t)
  {
  }

  /** A first type is the one a node gets. */
  lemma FirstType(history: seq<Record>, n: NodeId, t: FieldId, card: Key -> Cardinality)
    requires var r := Record(0, WriteKind.SetNodeType(n, t), None); TypedHistory(history + [r], card)
    requires TypeOf(FoldOf(history), n) == None
    ensures TypeOf(FoldOf(history + [Record(0, WriteKind.SetNodeType(n, t), None)]), n) == Some(t)
  {
    var r := Record(0, WriteKind.SetNodeType(n, t), None);
    var ops, op := Ops(history), RecordToOp(|history| as u64, r);
    TypeApplied(FoldOf(history), |history| as u64, n, t);
    hide FoldInto, TypeOf, ApplyLabeled, RecordToOp, TypedRecord;
    assert Ops(history + [r]) == ops + [op];
    FoldSnoc(Empty, ops, op);
  }

  /** A client reads at the head of a drained and synced engine, and some node has no type. The node is given the
      rule's type by a write that is not synced, and the client reads again. It is answered with nothing, and the
      maintained map now has a verdict for the node that the map it holds does not have. */
  method UnsyncedWriteMissed(w: Watched, n: NodeId) returns (cursor: nat, r: Option<seq<Entry>>)
    requires w.Valid() && w.Head() == w.engine.watermark == |w.engine.history| < U64_LIMIT
    requires 0 < w.engine.changelog.maxUnmaterialized
    requires w.maintained.rule.subjectType in w.cat.ids && TypeOf(FoldOf(w.engine.history), n) == None
    modifies w.engine, w.engine.changelog, w.engine.base, w.engine.cache, w.maintained, w.live
    ensures w.Valid() && cursor == old(w.Head()) == w.Head()
    ensures w.engine.history ==
      old(w.engine.history) + [Record(0, WriteKind.SetNodeType(n, w.cat.ids[w.maintained.rule.subjectType]), None)]
    ensures r == Some([])
    ensures n in w.maintained.verdicts && n !in old(w.maintained.verdicts)
  {
    hide FoldOf, GcSame, OpsFrom, Observe, Watched.Current;
    var t := w.cat.ids[w.maintained.rule.subjectType];
    ghost var before := w.engine.history;
    assert before[..|before|] == before;
    JudgedWhenTyped(w, n);
    cursor := w.engine.changelog.DurableHead();
    w.WriteLive(Record(0, WriteKind.SetNodeType(n, t), None));
    assert w.engine.history[..|w.engine.history|] == w.engine.history;
    FirstType(before, n, t, w.engine.card);
    r := w.ReadChanges(cursor);
    assert w.engine.history[..|w.engine.history|] == w.engine.history;
    JudgedWhenTyped(w, n);
    BetweenSame(w.live.all, cursor);
    w.TruncatedBelow();
  }

  // --- whole runs ------------------------------------------------------------------------------

  datatype LiveEvent = Append(record: Record) | Flush | DrainNow | CompactNow

  ghost predicate TypedLive(events: seq<LiveEvent>, card: Key -> Cardinality) {
    forall i :: 0 <= i < |events| && events[i].Append? ==> TypedRecord(events[i].record, card)
  }

  /** Whether the run ends with an append that waits for a flush; nothing when an append was drained, by a read or
      before a compaction, without a flush in between. */
  function Waiting(events: seq<LiveEvent>): Option<bool>
    decreases |events|
  {
    if events == [] then Some(false)
    else
      var n := |events| - 1;
      var waits :- Waiting(events[..n]);
      match events[n]
      case Append(_) => Some(true)
      case Flush => Some(false)
      case _ => if waits then None else Some(false)
  }

  predicate FlushedFirst(events: seq<LiveEvent>) { Waiting(events).Some? }

  /** The verdicts shown through any mask are a one-shot evaluation of the drained writes. */
  ghost predicate ShowsEvaluation(w: Watched)
    requires w.Valid()
    reads w, w.engine, w.engine.changelog, w.engine.base, w.engine.cache, w.maintained, w.live
  {
    var s := Observe(FoldOf(w.engine.history[..w.engine.watermark]), w.engine.cache.hash);
    forall m :: w.maintained.Shown(s, m) == Evaluate(s, w.cat, w.maintained.rule, m, map[])
  }

  lemma EvaluationShown(w: Watched)
    requires w.Valid()
    ensures ShowsEvaluation(w)
  {
    hide FoldOf, Observe;
    forall m
      ensures var s := Observe(FoldOf(w.engine.history[..w.engine.watermark]), w.engine.cache.hash);
        w.maintained.Shown(s, m) == Evaluate(s, w.cat, w.maintained.rule, m, map[])
    {
      w.ShownIsEvaluation(m);
    }
  }

  /** Something is appended that is neither drained nor synced. */
  ghost predicate Loose(w: Watched)
    reads w.engine, w.engine.changelog
  {
    w.engine.watermark < |w.engine.history| && w.Head() < |w.engine.history|
  }

  method StepWatched(w: Watched, ev: LiveEvent)
    requires w.Valid() && |w.engine.history| < U64_LIMIT
    requires ev.Append? ==> TypedRecord(ev.record, w.engine.card)
    modifies w.engine, w.engine.changelog, w.engine.base, w.engine.cache, w.maintained, w.live
    ensures w.Valid() && w.Further() && old(w.Head()) <= w.Head() && old(w.engine.watermark) <= w.engine.watermark
    ensures w.engine.history == old(w.engine.history)
         || (ev.Append? && w.engine.history == old(w.engine.history) + [ev.record])
    ensures !ev.Append? ==> w.engine.watermark == |w.engine.history|
    ensures Grew(old(w.live.all), w.live.all, old(w.Head()))
    ensures ev.Append? || ev.Flush? || !old(Loose(w)) ==> Grew(old(w.live.all), w.live.all, old(w.engine.watermark) + 1)
  {
    hide FoldOf, GcSame, OpsFrom, TypedOp, Observe, Watched.Current;
    match ev
    case Append(r) => w.WriteLive(r);
    case Flush => w.FlushLive();
    case DrainNow => w.MaterializeLive();
    case CompactNow =>
      w.MaterializeLive();
      w.CompactLive();
  }

  /** Every run of writes, flushes, drains and compactions keeps the watched rule a fresh judgment of the drained
      writes. The journal only grows, by batches not below the head at the start, and above the mark drained at
      the start when every append is flushed before it is drained. */
  method RunWatched(w: Watched, events: seq<LiveEvent>)
    requires w.Valid() && TypedLive(events, w.engine.card) && |w.engine.history| + |events| <= U64_LIMIT
    modifies w.engine, w.engine.changelog, w.engine.base, w.engine.cache, w.maintained, w.live
    ensures w.Valid() && w.Further() && ShowsEvaluation(w)
    ensures old(w.engine.history) <= w.engine.history && old(w.Head()) <= w.Head()
    ensures old(w.engine.watermark) <= w.engine.watermark
    ensures Grew(old(w.live.all), w.live.all, old(w.Head()))
    ensures old(!Loose(w)) && FlushedFirst(events) ==> Grew(old(w.live.all), w.live.all, old(w.engine.watermark) + 1)
    ensures old(!Loose(w)) && Waiting(events) == Some(false) ==> !Loose(w)
  {
    hide FoldOf, GcSame, OpsFrom, TypedOp, Observe, Watched.Valid, ShowsEvaluation;
    for i := 0 to |events|
      invariant w.Valid() && w.Further() && old(w.Head()) <= w.Head() && old(w.engine.watermark) <= w.engine.watermark
      invariant |w.engine.history| + |events| - i <= U64_LIMIT && old(w.engine.history) <= w.engine.history
      invariant Grew(old(w.live.all), w.live.all, old(w.Head()))
      invariant old(!Loose(w)) && FlushedFirst(events[..i]) ==>
        Grew(old(w.live.all), w.live.all, old(w.engine.watermark) + 1)
      invariant old(!Loose(w)) && Waiting(events[..i]) == Some(false) ==> !Loose(w)
    {
      assert events[..i + 1][..i] == events[..i];
      StepWatched(w, events[i]);
    }
    assert events[..|events|] == events;
    EvaluationShown(w);
  }

  /** A client that held a map at its cursor reads what came after it. */
  method ReadAfter(w: Watched, cursor: nat, ghost was: seq<Entry>, ghost held: map<NodeId, Verdict>)
      returns (r: Option<seq<Entry>>)
    requires w.Valid() && cursor <= w.Head() && cursor <= w.engine.watermark && Grew(was, w.live.all, cursor)
    requires held == Replay(w.start, was) && forall i :: 0 <= i < |was| ==> was[i].head <= cursor
    requires w.live.watchedAt <= cursor
    modifies w.engine`watermark, w.engine.changelog`materialized, w.engine.base, w.engine.cache, w.maintained, w.live
    ensures w.Valid() && w.Further() && w.Head() == old(w.Head()) && Grew(was, w.live.all, cursor)
    ensures w.engine.watermark == |w.engine.history| && w.engine.history == old(w.engine.history)
    ensures old(!Loose(w) && Grew(was, w.live.all, cursor + 1)) ==> Grew(was, w.live.all, cursor + 1)
    ensures r.None? <==> |Between(w.live.all, cursor, w.Head())| > w.live.Room()
    ensures r.Some? ==>
      (Replay(held, r.value) == w.maintained.verdicts <==> NamedAgain(held, UpTo(w.live.all[|was|..], cursor), r.value))
    ensures r.Some? && Grew(was, w.live.all, cursor + 1) ==> Replay(held, r.value) == w.maintained.verdicts
    ensures r.Some? ==> r.value == Between(w.live.all, cursor, w.Head())
  {
    hide FoldOf, GcSame, OpsFrom, TypedOp, Observe, Replay, NamedAgain, Between, UpTo, Watched.Valid;
    w.JournalLeads();
    r := w.ReadChanges(cursor);
    w.JournalLeads();
    w.ForgottenAt(cursor);
    ReadLeads(w.start, was, w.live.all, cursor, w.Head());
  }

  /** A client takes its cursor with the map it is shown, when everything is drained; after any run it reads what
      came after its cursor. It is told to resync exactly when more batches came than the journal has room for.
      Otherwise what it read leads from the map it held to the map now maintained exactly when every subject
      changed by a batch journaled at the very head of its cursor is named again by what it read; and always when
      every append was flushed before it was drained. */
  method RunThenRead(w: Watched, events: seq<LiveEvent>) returns (cursor: nat, r: Option<seq<Entry>>)
    requires w.Valid() && w.engine.watermark == |w.engine.history|
    requires TypedLive(events, w.engine.card) && |w.engine.history| + |events| <= U64_LIMIT
    modifies w.engine, w.engine.changelog, w.engine.base, w.engine.cache, w.maintained, w.live
    ensures w.Valid() && w.Further() && cursor == old(w.Head()) <= w.Head()
    ensures w.engine.watermark == |w.engine.history|
    ensures r.None? <==> |Between(w.live.all, cursor, w.Head())| > w.live.Room()
    ensures Grew(old(w.live.all), w.live.all, cursor)
    ensures r.Some? ==>
      var held, missed := old(w.maintained.verdicts), UpTo(w.live.all[|old(w.live.all)|..], cursor);
      Replay(held, r.value) == w.maintained.verdicts <==> NamedAgain(held, missed, r.value)
    ensures r.Some? && FlushedFirst(events + [DrainNow]) ==>
      Replay(old(w.maintained.verdicts), r.value) == w.maintained.verdicts
    ensures r.Some? ==> r.value == Between(w.live.all, cursor, w.Head())
    ensures FlushedFirst(events + [DrainNow]) ==> Grew(old(w.live.all), w.live.all, cursor + 1)
  {
    hide FoldOf, GcSame, OpsFrom, TypedOp, Observe, Replay, NamedAgain, Ordered, Between, UpTo, Watched.Valid,
         ShowsEvaluation;
    w.JournalLeads();
    cursor := w.engine.changelog.DurableHead();
    ghost var was, held := w.live.all, w.maintained.verdicts;
    RunWatched(w, events);
    assert (events + [DrainNow])[..|events|] == events;
    r := ReadAfter(w, cursor, was, held);
  }
}
