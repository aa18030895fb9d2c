/** Whole ingest calls: what the suppressed store answers, and when it loses an element. */
module Answers {
  import opened Types
  import opened Rows
  import opened Folds
  import opened Snapshots
  import opened Changelogs
  import opened Engines
  import opened Interpreter
  import opened Mask
  import opened Queries
  import opened Views
  import opened Faces
  import opened Ledger
  import opened Ingest
  import opened Suppression
  import opened Losses

  /** The end of a call: the last flush, and a drain whether or not that flush had anything to append. */
  function Finish(d: Draft, limit: nat): Progress
    requires d.drained <= |d.history|
  {
    var q := Flush(d, limit);
    if q.Stopped? then q else Going(q.draft.(drained := |q.draft.history|, dirty := {}))
  }

  /** A whole call: its lines, then its end. */
  function Call(d: Draft, xs: seq<Line>, limit: nat, card: Key -> Cardinality, h: Hash): Progress
    requires Room(d, MostOf(xs))
  {
    TakeAllRoom(d, xs, limit, card, h, 0);
    var p := TakeAll(d, xs, limit, card, h);
    if p.Stopped? then p else Finish(p.draft, limit)
  }

  lemma FinishRests(d: Draft, es: seq<Entry>, lost: set<(Key, ObjKey)>, limit: nat, card: Key -> Cardinality)
    requires Orderly(d, card) && Follows(d, es, lost, card) && Room(d, 0) && Finish(d, limit).Going?
    ensures Rested(Finish(d, limit).draft, card) && Follows(Finish(d, limit).draft, es, lost, card)
  {
    FlushKeeps(d, limit, card);
    hide Flush, Agrees, Sound, InterpretAll, Facts, FactsFrom;
    var n := Finish(d, limit).draft;
    forall k
      ensures Agrees(Pending(n, k), Facts(es, k), k, card(k), lost)
    {
      PendingAgrees(d, es, lost, card, k);
    }
  }

  /** A call that is not stopped leaves the store rested, answering as the append-all store but for what it
      lost, even when it met an undrained tail. */
  lemma CallFollows(d: Draft, es: seq<Entry>, lost: set<(Key, ObjKey)>, xs: seq<Line>, limit: nat,
                    card: Key -> Cardinality, h: Hash)
    requires Settled(d, card) && Follows(d, es, lost, card) && Room(d, MostOf(xs)) && |es| + MostOf(xs) <= U64_LIMIT
    requires Call(d, xs, limit, card, h).Going?
    ensures var n := Call(d, xs, limit, card, h).draft;
      Rested(n, card) && Follows(n, AppendLines(es, xs, card), LostAll(lost, d, xs, limit, card, h), card)
  {
    hide TakeAll, Finish, Orderly, Follows, Rested, LostAll, AppendLines;
    TakeAllRoom(d, xs, limit, card, h, 0);
    TakeAllFollows(d, es, lost, xs, limit, card, h);
    FinishRests(TakeAll(d, xs, limit, card, h).draft, AppendLines(es, xs, card), LostAll(lost, d, xs, limit, card, h),
                limit, card);
  }

  // --- the room a call takes -------------------------------------------------------------------

  lemma {:induction false} AppendLinesRoom(es: seq<Entry>, xs: seq<Line>, card: Key -> Cardinality)
    requires |es| + MostOf(xs) <= U64_LIMIT
    ensures |AppendLines(es, xs, card)| <= |es| + MostOf(xs)
    decreases |xs|
  {
    hide AppendLine;
    if xs != [] {
      AppendLineRoom(es, xs[0], card);
      AppendLinesRoom(AppendLine(es, xs[0], card), xs[1..], card);
    }
  }

  /** A call appends no more than its lines hold. */
  lemma CallRoom(d: Draft, xs: seq<Line>, limit: nat, card: Key -> Cardinality, h: Hash, more: nat)
    requires Room(d, MostOf(xs) + more)
    ensures Room(Call(d, xs, limit, card, h).draft, more)
  {
    hide TakeAll;
    TakeAllRoom(d, xs, limit, card, h, 0);
    TakeAllRoom(d, xs, limit, card, h, more);
    FlushRoom(TakeAll(d, xs, limit, card, h).draft, limit, more);
  }

  // --- the answers -----------------------------------------------------------------------------

  /** Under every mask, a One key has the same value now and at every instant as if nothing had been skipped. */
  lemma OneAnswers(d: Draft, es: seq<Entry>, lost: set<(Key, ObjKey)>, card: Key -> Cardinality, h: Hash, m: FactMask,
                   k: Key, at: i64)
    requires Rested(d, card) && Follows(d, es, lost, card) && card(k) == One
    ensures var a, b := MaskedView(Observe(FoldOf(Records(d.history)), h), m),
      MaskedView(Observe(FoldOf(Records(es)), h), m);
      PointOne(a, k) == PointOne(b, k) && PointOneAsOf(a, k, at) == PointOneAsOf(b, k, at)
  {
    hide Facts, FactsFrom, FoldOf, Observe, InterpretAll, Collapse, MaskedView;
    PendingAgrees(d, es, lost, card, k);
    PendingNothing(d, k);
    FacesOfHistory(d.history, k, card, h);
    FacesOfHistory(es, k, card, h);
    SameAnswers(FoldOf(Records(d.history)), FoldOf(Records(es)), h, m, k, at);
  }

  /** ... and so the same timeline, segment by segment. */
  lemma OneTimelines(d: Draft, es: seq<Entry>, lost: set<(Key, ObjKey)>, card: Key -> Cardinality, h: Hash,
                     m: FactMask, k: Key,
                     a: seq<Segment>, b: seq<Segment>)
    requires Rested(d, card) && Follows(d, es, lost, card) && card(k) == One
    requires IsTimeline(a, t => PointOneAsOf(MaskedView(Observe(FoldOf(Records(d.history)), h), m), k, t))
    requires IsTimeline(b, t => PointOneAsOf(MaskedView(Observe(FoldOf(Records(es)), h), m), k, t))
    ensures a == b
  {
    hide Agrees, InterpretAll, FoldOf, Observe, MaskedView, Disjoint, Coalesced, PointOneAsOf;
    var value := t => PointOneAsOf(MaskedView(Observe(FoldOf(Records(d.history)), h), m), k, t);
    forall t
      ensures At(b, t) == value(t)
    {
      OneAnswers(d, es, lost, card, h, m, k, t);
    }
    TimelineUnique(a, b, value);
  }

  /** Edge properties and node attributes are as if nothing had been skipped; of the present elements of a
      Many key exactly the lost ones are missing. */
  lemma OtherAnswers(d: Draft, es: seq<Entry>, lost: set<(Key, ObjKey)>, card: Key -> Cardinality, h: Hash, k: Key)
    requires Rested(d, card) && Follows(d, es, lost, card)
    ensures var s, all := Observe(FoldOf(Records(d.history)), h), Observe(FoldOf(Records(es)), h);
      && s.nodeTypes == all.nodeTypes && s.nodeLabels == all.nodeLabels
      && GetOr(s.edgeProps, k, map[]) == GetOr(all.edgeProps, k, map[])
      && (card(k) == Many ==> forall o :: Lacks(GetOr(s.many, k, {}), GetOr(all.many, k, {}), o, (k, o) in lost))
  {
    hide Facts, FactsFrom, FoldOf, Observe, InterpretAll, Collapse;
    PendingAgrees(d, es, lost, card, k);
    PendingNothing(d, k);
    PlainFacts(d.history, k);
    PlainFacts(es, k);
    SnapshotIsInterpretation(Records(d.history), Elements(d.history), card, h);
    SnapshotIsInterpretation(Records(es), Elements(es), card, h);
  }

  // --- when a Many key has its full present set ------------------------------------------------

  function PresentSet(es: seq<Entry>, k: Key, h: Hash): set<ObjKey>
    requires |es| <= U64_LIMIT
  {
    GetOr(Observe(FoldOf(Records(es)), h).many, k, {})
  }

  /** An element is missing after a call that began with nothing lost exactly when some line asserted it, was
      skipped because the drained state has a matching row, while the element's removal waited in the
      undrained tail of a key not marked as written, and no later line names the element. */
  lemma MissingIff(d: Draft, es: seq<Entry>, xs: seq<Line>, limit: nat, card: Key -> Cardinality, h: Hash, k: Key,
                   o: ObjKey)
    requires Settled(d, card) && Follows(d, es, {}, card) && Room(d, MostOf(xs)) && |es| + MostOf(xs) <= U64_LIMIT
    requires Call(d, xs, limit, card, h).Going? && card(k) == Many
    ensures var n, all := Call(d, xs, limit, card, h).draft, AppendLines(es, xs, card);
      && |n.history| <= U64_LIMIT && |all| <= U64_LIMIT
      && PresentSet(n.history, k, h) <= PresentSet(all, k, h)
      && (o in PresentSet(all, k, h) - PresentSet(n.history, k, h) <==> LostBy(d, xs, k, o, limit, card, h))
  {
    hide Finish, Orderly, Follows, LostBy, FoldOf, Observe, TakeAll, LostAll, AppendLines;
    CallRoom(d, xs, limit, card, h, 0);
    AppendLinesRoom(es, xs, card);
    CallFollows(d, es, {}, xs, limit, card, h);
    LostAllIff({}, d, xs, k, o, limit, card, h);
    var n, all, lost := Call(d, xs, limit, card, h).draft, AppendLines(es, xs, card), LostAll({}, d, xs, limit, card, h);
    OtherAnswers(n, all, lost, card, h, k);
    forall e | e in PresentSet(n.history, k, h)
      ensures e in PresentSet(all, k, h)
    {
      assert Lacks(PresentSet(n.history, k, h), PresentSet(all, k, h), e, (k, e) in lost);
    }
    assert Lacks(PresentSet(n.history, k, h), PresentSet(all, k, h), o, (k, o) in lost);
  }

  /** So a Many key has its full present set if and only if no line of the call loses an element of it. */
  lemma ManyAnswersIff(d: Draft, es: seq<Entry>, xs: seq<Line>, limit: nat, card: Key -> Cardinality, h: Hash, k: Key)
    requires Settled(d, card) && Follows(d, es, {}, card) && Room(d, MostOf(xs)) && |es| + MostOf(xs) <= U64_LIMIT
    requires Call(d, xs, limit, card, h).Going? && card(k) == Many
    ensures var n, all := Call(d, xs, limit, card, h).draft, AppendLines(es, xs, card);
      && |n.history| <= U64_LIMIT && |all| <= U64_LIMIT
      && (PresentSet(n.history, k, h) == PresentSet(all, k, h) <==> forall o :: !LostBy(d, xs, k, o, limit, card, h))
  {
    hide Call, Settled, Follows, LostBy, PresentSet, AppendLines;
    var n, all := Call(d, xs, limit, card, h).draft, AppendLines(es, xs, card);
    MissingIff(d, es, xs, limit, card, h, k, NoElem);
    var some, full := PresentSet(n.history, k, h), PresentSet(all, k, h);
    forall o
      ensures LostBy(d, xs, k, o, limit, card, h) <==> o in full && o !in some
      ensures o in some ==> o in full
    {
      MissingIff(d, es, xs, limit, card, h, k, o);
    }
    if forall o :: !LostBy(d, xs, k, o, limit, card, h) {
      assert forall o :: o in full && o !in some ==> LostBy(d, xs, k, o, limit, card, h);
    }
  }

  /** Told from the lines alone: a call loses an element only if it asserts it after retracting it and then
      retracting something, or, on a store whose tail was not drained, if it asserts an element whose removal
      waits there. */
  lemma NothingLost(d: Draft, xs: seq<Line>, limit: nat, card: Key -> Cardinality, h: Hash)
    requires Settled(d, card) && Room(d, MostOf(xs)) && TakeAll(d, xs, limit, card, h).Going?
    requires NeverRegrants(xs)
    requires forall k, o :: RemovalWaits(d, k, o) ==> !Grants(xs, k, o)
    ensures LostAll({}, d, xs, limit, card, h) == {}
  {
    hide Orderly, TakeAll, LostAll, Regrants, Grants, RemovalWaits;
    var lost := LostAll({}, d, xs, limit, card, h);
    forall k, o
      ensures (k, o) !in lost
    {
      if card(k).Many? {
        NotLost({}, d, xs, k, o, limit, card, h);
      } else {
        LostAreMany({}, d, xs, k, o, limit, card, h);
      }
    }
    assert forall p :: p in lost ==> p == (p.0, p.1);
  }

  /** ... so that, when the lines are safe in this sense, the store answers as the append-all store throughout. */
  lemma SafeCall(d: Draft, es: seq<Entry>, xs: seq<Line>, limit: nat, card: Key -> Cardinality, h: Hash)
    requires Settled(d, card) && Follows(d, es, {}, card) && Room(d, MostOf(xs)) && |es| + MostOf(xs) <= U64_LIMIT
    requires Call(d, xs, limit, card, h).Going?
    requires NeverRegrants(xs)
    requires forall k, o :: RemovalWaits(d, k, o) ==> !Grants(xs, k, o)
    ensures Follows(Call(d, xs, limit, card, h).draft, AppendLines(es, xs, card), {}, card)
  {
    hide Finish, Orderly, Follows, TakeAll, LostAll, AppendLines, NeverRegrants, Grants, RemovalWaits;
    CallFollows(d, es, {}, xs, limit, card, h);
    NothingLost(d, xs, limit, card, h);
  }

  function Retracts(xs: seq<Line>): nat {
    if xs == [] then 0 else (if xs[0].Retract? then 1 else 0) + Retracts(xs[1..])
  }

  lemma {:induction false} RetractsCount(xs: seq<Line>, i: nat, j: nat)
    requires i < j < |xs| && xs[i].Retract? && xs[j].Retract?
    ensures Retracts(xs) >= 2
    decreases |xs|
  {
    if i > 0 {
      RetractsCount(xs[1..], i - 1, j - 1);
    } else {
      RetractsOne(xs[1..], j - 1);
    }
  }

  lemma {:induction false} RetractsOne(xs: seq<Line>, j: nat)
    requires j < |xs| && xs[j].Retract?
    ensures Retracts(xs) >= 1
    decreases |xs|
  {
    if j > 0 {
      RetractsOne(xs[1..], j - 1);
    }
  }

  /** In particular a drained store takes any call with at most one retract line without losing an element. */
  lemma OneRetractPerCall(d: Draft, es: seq<Entry>, xs: seq<Line>, limit: nat, card: Key -> Cardinality, h: Hash)
    requires Rested(d, card) && Follows(d, es, {}, card) && Room(d, MostOf(xs)) && |es| + MostOf(xs) <= U64_LIMIT
    requires Call(d, xs, limit, card, h).Going? && Retracts(xs) <= 1
    ensures Follows(Call(d, xs, limit, card, h).draft, AppendLines(es, xs, card), {}, card)
  {
    hide Finish, Orderly, Follows, TakeAll, AppendLines, Call, Retracts;
    forall k, o
      ensures !Regrants(xs, k, o)
    {
      if i, j, l :| 0 <= i < j < l < |xs| && IsRetract(xs[i], k, o) && xs[j].Retract? && IsFact(xs[l], k, o) {
        RetractsCount(xs, i, j);
      }
    }
    forall k, o
      ensures !RemovalWaits(d, k, o)
    {
      DrainedWaits(d, k, o);
    }
    SafeCall(d, es, xs, limit, card, h);
  }
}
