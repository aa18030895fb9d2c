/** What a call on a rested store loses, told before the call; and concrete calls that lose an element. */
module LostGrants {
  import opened Types
  import opened Rows
  import opened Folds
  import opened Snapshots
  import opened Changelogs
  import opened Engines
  import opened Interpreter
  import opened Ledger
  import opened Ingest
  import opened Suppression
  import opened Losses
  import opened QuietCalls
  import opened Answers

  // --- told before the call --------------------------------------------------------------------

  /** A line asserts an element, every line before it would be skipped by the store as it rests or is a retraction or
      a node line, and no later line names the element. After the call the element is missing exactly when the
      store has a row that matches the assertion, an earlier line retracts the element, and the last retract line
      before the assertion does not mark its key. */
  lemma QuietMissingIff(d: Draft, es: seq<Entry>, xs: seq<Line>, l: nat, k: Key, o: ObjKey, limit: nat,
                        card: Key -> Cardinality, h: Hash)
    requires Rested(d, card) && Follows(d, es, {}, card) && Room(d, MostOf(xs)) && |es| + MostOf(xs) <= U64_LIMIT
    requires Call(d, xs, limit, card, h).Going? && card(k) == Many
    requires l < |xs| && IsFact(xs[l], k, o) && AllQuiet(d, xs[..l], card, h)
    requires forall m :: l < m < |xs| ==> !Names(xs[m], k, o)
    ensures var n, all := Call(d, xs, limit, card, h).draft, AppendLines(es, xs, card);
      && |n.history| <= U64_LIMIT && |all| <= U64_LIMIT
      && (o in PresentSet(all, k, h) - PresentSet(n.history, k, h) <==>
            Asserted(Drained(d), xs[l]) && RetractedIn(xs[..l], k, o) && k !in Marked(d, xs[..l]))
  {
    hide Finish, TakeAll, Follows, Orderly, LostAll, LostBy, AllQuiet, Marked, RetractedIn, PresentSet, AppendLines,
         Asserted;
    QuietLossIff(d, xs, l, k, o, limit, card, h);
    LostAllIff({}, d, xs, k, o, limit, card, h);
    MissingIff(d, es, xs, limit, card, h, k, o);
  }

  // --- one element, granted before the call ----------------------------------------------------

  const Grant: Key := (1, 7)
  const Other: Key := (2, 7)
  const Granted: Entry := Entry(Record(0, WriteKind.AddMany(Grant, Node(5), 0, None), None), NoElem)
  const First: Line := Line.Retract(0, Grant, Node(5))
  const Second: Line := Line.Retract(0, Other, Node(5))
  const Again: Line := Line.Fact(0, Grant, Node(5), 0, None, None, [])
  const Before: Draft := Draft([Granted], 1, [], {}, map[], map[])

  lemma GrantedFold(card: Key -> Cardinality)
    requires forall k :: card(k) == Many
    ensures Sound([Granted], card) && Facts([Granted], Grant).present == {Node(5)}
    ensures SameAttrs(Before, [Granted])
  {
    hide FoldOf, LiveTags;
    assert TypedRecord(Granted.record, card);
    assert Sound([], card);
    SoundSnoc([], Granted, card);
    assert [] + [Granted] == [Granted];
    FactsSnoc(Nothing, [], Granted, Grant);
    InterpretSnoc([], Granted);
  }

  lemma GrantedRests(card: Key -> Cardinality)
    requires forall k :: card(k) == Many
    ensures Sound([Granted], card) && Rested(Before, card) && Follows(Before, [Granted], {}, card)
  {
    hide Sound, SameAttrs, Facts, FactsFrom;
    GrantedFold(card);
    forall k
      ensures Agrees(Pending(Before, k), Facts([Granted], k), k, card(k), {})
    {
      PendingNothing(Before, k);
    }
  }

  lemma GrantedRows()
    ensures Asserted(FoldOf(Records([Granted])), Again)
  {
    var ok, v, lop := OrderKey(0, 0, 0), Version(Some(Node(5)), 0, None), RecordToOp(0, Granted.record);
    var f := FoldOf(Records([Granted]));
    FoldSnoc(Empty, [], lop);
    assert Ops(Records([Granted])) == [] + [lop];
    assert f == ApplyLabeled(Empty, lop);
    assert LiveElem(f, Grant, Node(5)) == map[ok := v];
    SortRowsAppend(map[], ok, v);
    assert Interpreter.ElemRows(f, Grant, Node(5)) == [Row(ok, v)];
    assert AssertedBy(f, Again, Row(ok, v));
  }

  /** The first retract appends; the second finds an empty batch, drains nothing and forgets the dirty key. */
  lemma RetractsTaken(limit: nat, card: Key -> Cardinality, h: Hash) returns (n: Draft)
    requires limit >= 2 && forall k :: card(k) == Many
    ensures Take(Before, First, limit, card, h) == Going(LineOne(card))
    ensures |LineOne(card).history| == 2 && Take(LineOne(card), Second, limit, card, h) == Going(n)
    ensures n.drained == 1 && 2 <= |n.history| <= 3 && n.history[..1] == [Granted] && n.batch == [] && Grant !in n.dirty
    ensures Node(5) !in Pending(n, Grant).present
  {
    hide LiveTags, FoldOf, Sound;
    GrantedFold(card);
    PresenceOfHistory([Granted], Grant, card);
    if LiveTags(FoldOf(Records([Granted])), Grant, Node(5)) == [] {
      NoTagsAbsent(FoldOf(Records([Granted])), Grant, Node(5));
    }
    var one := LineOne(card);
    FactsSnoc(Nothing, [Granted], one.history[1], Grant);
    assert one.history == [Granted] + [one.history[1]];
    n := Take(one, Second, limit, card, h).draft;
    if |n.history| == 3 {
      FactsSnoc(Nothing, one.history, n.history[2], Grant);
      assert n.history == one.history + [n.history[2]];
    }
    PendingNothing(n, Grant);
  }

  function LineOne(card: Key -> Cardinality): Draft {
    var tags := LiveTags(FoldOf(Records([Granted])), Grant, Node(5));
    Draft([Granted] + if tags == [] then [] else [Entry(Retraction(0, Grant, tags), Node(5))],
          1, [], {Grant}, map[], map[])
  }

  /** Re-asserting the retracted element in the same call is skipped against the stale base. */
  lemma AgainSkipped(n: Draft, limit: nat, card: Key -> Cardinality, h: Hash)
    requires forall k :: card(k) == Many
    requires n.drained == 1 && 2 <= |n.history| <= 3 && n.history[..1] == [Granted] && n.batch == [] && Grant !in n.dirty
    ensures FactSkipped(n, Again, card, h) && Take(n, Again, limit, card, h) == Going(n)
  {
    hide Asserted, FoldOf, Observe;
    GrantedRows();
  }

  // --- two retract lines in a row --------------------------------------------------------------

  lemma ThreeLines(limit: nat, card: Key -> Cardinality, h: Hash)
    requires limit >= 2 && forall k :: card(k) == Many
    ensures MostOf([First, Second, Again]) == 3 && Call(Before, [First, Second, Again], limit, card, h).Going?
    ensures TakeAll(Before, [First, Second, Again], limit, card, h).Going?
  {
    hide Take, FactSkipped, Pending;
    var one := LineOne(card);
    var n := RetractsTaken(limit, card, h);
    AgainSkipped(n, limit, card, h);
    var xs := [First, Second, Again];
    assert xs[1..] == [Second, Again] && [Second, Again][1..] == [Again] && [Again][1..] == [];
    assert MostOf([Again]) == 1 && MostOf([Second, Again]) == 2 && MostOf(xs) == 3;
    assert TakeAll(n, [], limit, card, h) == Going(n);
    assert TakeAll(n, [Again], limit, card, h) == Going(n);
    assert TakeAll(one, [Second, Again], limit, card, h) == Going(n);
    assert TakeAll(Before, xs, limit, card, h) == Going(n);
  }

  lemma RetractsQuiet(card: Key -> Cardinality, h: Hash)
    requires forall k :: card(k) == Many
    ensures AllQuiet(Before, [First, Second], card, h) && RetractedIn([First, Second], Grant, Node(5))
    ensures Grant !in Marked(Before, [First, Second])
  {
    hide HasTags;
    var xs := [First, Second];
    assert IsRetract(xs[0], Grant, Node(5));
    assert xs[..1] == [First];
  }

  /** The element that was granted, retracted and granted again is missing from the store. */
  lemma TwoRetractsLose(limit: nat, card: Key -> Cardinality, h: Hash)
    requires limit >= 2 && forall k :: card(k) == Many
    ensures MostOf([First, Second, Again]) == 3
    ensures var p, all := Call(Before, [First, Second, Again], limit, card, h),
        AppendLines([Granted], [First, Second, Again], card);
      && p.Going? && |p.draft.history| <= U64_LIMIT && |all| <= U64_LIMIT
      && Node(5) !in PresentSet(p.draft.history, Grant, h) && Node(5) in PresentSet(all, Grant, h)
  {
    hide Call, TakeAll, Follows, Orderly, LostAll, AllQuiet, Marked, RetractedIn, PresentSet, AppendLines, FoldOf,
         Asserted, MostOf;
    var xs := [First, Second, Again];
    ThreeLines(limit, card, h);
    GrantedRests(card);
    GrantedRows();
    RetractsQuiet(card, h);
    assert xs[..2] == [First, Second] && Before.history[..1] == [Granted];
    QuietMissingIff(Before, [Granted], xs, 2, Grant, Node(5), limit, card, h);
  }

  // --- a call that an error stops --------------------------------------------------------------

  /** A close of a Many key that names no element is an error. */
  const Malformed: Line := Line.Close(0, Grant, None, 0, None)

  lemma UnmarkedFollows(d: Draft, es: seq<Entry>, lost: set<(Key, ObjKey)>, card: Key -> Cardinality)
    requires Follows(d, es, lost, card)
    ensures Follows(d.(dirty := {}), es, lost, card)
  {
    hide Agrees, Pending;
    PendingIgnoresDirty(d);
  }

  /** The call stops after its retraction is appended, and nothing drains it. */
  lemma StopsUndrained(limit: nat, card: Key -> Cardinality, h: Hash)
    requires limit >= 2 && forall k :: card(k) == Many
    ensures MostOf([First, Malformed]) == 2
    ensures Call(Before, [First, Malformed], limit, card, h) == Stopped(LineOne(card))
    ensures |LineOne(card).history| == 2 && Settled(LineOne(card).(dirty := {}), card)
    ensures Follows(LineOne(card).(dirty := {}), AppendLine([Granted], First, card), {}, card)
    ensures Loses(LineOne(card).(dirty := {}), Again)
  {
    hide Take, FoldOf, LiveTags, Asserted, Sound, SameAttrs, Agrees, Pending, Facts;
    var one, xs := LineOne(card), [First, Malformed];
    var d := one.(dirty := {});
    GrantedRests(card);
    GrantedRows();
    var n := RetractsTaken(limit, card, h);
    assert xs[1..] == [Malformed] && [Malformed][1..] == [];
    assert MostOf([Malformed]) == 1 && MostOf(xs) == 2;
    TakeByKind(one, Malformed, limit, card, h);
    assert TakeAll(one, [Malformed], limit, card, h) == Stopped(one);
    TakeFollows(Before, [Granted], {}, First, limit, card, h);
    assert LostAfter({}, Before, First, card, h) == {};
    UnmarkedFollows(one, AppendLine([Granted], First, card), {}, card);
    assert d.history[..1] == [Granted];
    assert RemovesElem(d.history[d.drained..][0], Grant, Node(5));
  }

  /** The next call re-asserts the element, with no retract line in it: skipped against the stale base, the
      assertion is lost when the call's drain takes the removal. */
  lemma StoppedCallLoses(limit: nat, card: Key -> Cardinality, h: Hash)
    requires limit >= 2 && forall k :: card(k) == Many
    ensures MostOf([First, Malformed]) == 2 && MostOf([Again]) == 1
    ensures var p := Call(Before, [First, Malformed], limit, card, h);
      && p.Stopped? && Room(p.draft, 1) && p.draft.batch == []
      && var d, es := p.draft.(dirty := {}), AppendLine([Granted], First, card);
         && Settled(d, card) && |es| <= 2 && Follows(d, es, {}, card)
         && var q, all := Call(d, [Again], limit, card, h), AppendLines(es, [Again], card);
            && q.Going? && |q.draft.history| <= U64_LIMIT && |all| <= U64_LIMIT
            && Node(5) !in PresentSet(q.draft.history, Grant, h) && Node(5) in PresentSet(all, Grant, h)
  {
    hide Take, Follows, Orderly, PresentSet, FoldOf, Asserted, Loses, AppendLines, Observe, LiveTags;
    StopsUndrained(limit, card, h);
    var d, es := LineOne(card).(dirty := {}), AppendLine([Granted], First, card);
    var xs := [Again];
    assert xs[1..] == [] && MostOf(xs) == 1 && d.history[..1] == [Granted];
    assert Take(d, Again, limit, card, h) == Going(d) by {
      AgainSkipped(d, limit, card, h);
    }
    assert TakeAll(d, xs, limit, card, h) == Going(d);
    assert LostAt(d, xs, 0, Grant, Node(5), limit, card, h);
    MissingIff(d, es, xs, limit, card, h, Grant, Node(5));
  }
}
