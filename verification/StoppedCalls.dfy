/** Calls that an error may stop: what has reached the engine, and what it answers. */
module StoppedCalls {
  import opened Types
  import opened Rows
  import opened Folds
  import opened Snapshots
  import opened Changelogs
  import opened Engines
  import opened Interpreter
  import opened Ledger
  import opened Ingest
  import opened Suppression
  import opened Losses
  import opened Answers

  type ElemSet = set<(Key, ObjKey)>

  /** What an ingest that appends everything has taken so far, with the elements missing beside it; and as much
      of it as has reached the engine, the rest waiting in the batch. */
  datatype Books = Books(all: seq<Entry>, lost: ElemSet, reached: seq<Entry>, reachedLost: ElemSet)

  ghost predicate InStep(d: Draft, b: Books, card: Key -> Cardinality) {
    && |b.reached| <= |b.all|
    && Follows(d, b.all, b.lost, card)
    && Follows(d.(batch := []), b.reached, b.reachedLost, card)
  }

  /** The books after a line that goes on: a line that leaves nothing waiting has reached the engine with all
      before it; while something waits only node attributes go past it. */
  function Enter(b: Books, d: Draft, x: Line, limit: nat, card: Key -> Cardinality, h: Hash): Books
    requires Room(d, Most(x)) && |b.all| + Most(x) <= U64_LIMIT && |b.reached| <= |b.all|
  {
    var all, lost := AppendLine(b.all, x, card), LostAfter(b.lost, d, x, card, h);
    if Take(d, x, limit, card, h).draft.batch == [] then Books(all, lost, all, lost)
    else Books(all, lost, if x.NodeLine? then AppendLine(b.reached, x, card) else b.reached, b.reachedLost)
  }

  /** What has reached the engine when line `x` stops the call: a retract line may have flushed what waited, a
      node line may have written its type. */
  function Leave(b: Books, d: Draft, x: Line, limit: nat): (seq<Entry>, ElemSet)
    requires d.drained <= |d.history|
  {
    if x.Retract? && Flush(d, limit).Going? then (b.all, b.lost)
    else if x.NodeLine? && TakeType(d, x, limit).Going? && x.ty.Some? then (b.reached + [TypeEntry(x)], b.reachedLost)
    else (b.reached, b.reachedLost)
  }

  lemma EnterRoom(b: Books, d: Draft, x: Line, limit: nat, card: Key -> Cardinality, h: Hash)
    requires Room(d, Most(x)) && |b.all| + Most(x) <= U64_LIMIT && |b.reached| <= |b.all|
    ensures var n := Enter(b, d, x, limit, card, h); |n.reached| <= |n.all| <= |b.all| + Most(x)
  {
    hide Take, LiveTags, FoldOf, LostAfter;
    AppendLineRoom(b.all, x, card);
    if x.NodeLine? {
      AppendLineRoom(b.reached, x, card);
    } else if x.Fact? {
      AllPropsLength(x, x.props);
    }
  }

  /** A line that goes on keeps the books. */
  lemma EnterKeeps(d: Draft, b: Books, x: Line, limit: nat, card: Key -> Cardinality, h: Hash)
    requires Orderly(d, card) && InStep(d, b, card) && Room(d, Most(x)) && |b.all| + Most(x) <= U64_LIMIT
    requires Take(d, x, limit, card, h).Going?
    ensures var n := Take(d, x, limit, card, h).draft; Orderly(n, card) && InStep(n, Enter(b, d, x, limit, card, h), card)
  {
    hide Orderly, Follows, Take, LostAfter, AppendLine;
    var n := Take(d, x, limit, card, h).draft;
    EnterRoom(b, d, x, limit, card, h);
    TakeFollows(d, b.all, b.lost, x, limit, card, h);
    if n.batch == [] {
      assert n.(batch := []) == n;
    } else if x.NodeLine? {
      AloneNode(d, b.reached, b.reachedLost, x, limit, card, h);
    } else {
      WaitingKept(d, b.reached, b.reachedLost, x, limit, card, h);
    }
  }

  /** While something waits, a line that is no node line leaves the engine alone. */
  lemma WaitingKept(d: Draft, es: seq<Entry>, lost: ElemSet, x: Line, limit: nat, card: Key -> Cardinality, h: Hash)
    requires Room(d, Most(x)) && Take(d, x, limit, card, h).Going? && !x.NodeLine?
    requires Take(d, x, limit, card, h).draft.batch != [] && Follows(d.(batch := []), es, lost, card)
    ensures Follows(Take(d, x, limit, card, h).draft.(batch := []), es, lost, card)
  {
    hide KeptOf, LiveTags, FoldOf, Observe, ClosedAlready, Follows, Retracted;
    TakeByKind(d, x, limit, card, h);
    var n := Take(d, x, limit, card, h).draft;
    if x.Retract? {
      RetractWaitsNot(d, x, limit, card);
    } else {
      assert n.history == d.history && n.types == d.types && n.labels == d.labels;
      SameEngine(d, n, es, lost, card);
    }
  }

  lemma RetractWaitsNot(d: Draft, x: Line, limit: nat, card: Key -> Cardinality)
    requires x.Retract? && d.drained <= |d.history| && |d.history| + |d.batch| <= U64_LIMIT
    ensures TakeRetract(d, x, limit, card).draft.batch == []
  {
    hide LiveTags, FoldOf;
  }

  lemma SameEngine(d: Draft, n: Draft, es: seq<Entry>, lost: ElemSet, card: Key -> Cardinality)
    requires n.history == d.history && n.types == d.types && n.labels == d.labels
    requires Follows(d.(batch := []), es, lost, card)
    ensures Follows(n.(batch := []), es, lost, card)
  {
    hide Agrees, Facts, FactsFrom;
    forall k
      ensures Agrees(Pending(n.(batch := []), k), Facts(es, k), k, card(k), lost)
    {
      PendingAgrees(d.(batch := []), es, lost, card, k);
      PendingNothing(d.(batch := []), k);
      PendingNothing(n.(batch := []), k);
    }
  }

  /** A node line does to the engine alone what it does to the draft. */
  lemma AloneNode(d: Draft, es: seq<Entry>, lost: ElemSet, x: Line, limit: nat, card: Key -> Cardinality, h: Hash)
    requires x.NodeLine? && Orderly(d, card) && Room(d, 2) && |es| + 2 <= U64_LIMIT
    requires Follows(d.(batch := []), es, lost, card) && Take(d, x, limit, card, h).Going?
    ensures Follows(Take(d, x, limit, card, h).draft.(batch := []), AppendLine(es, x, card), lost, card)
  {
    TakeByKind(d, x, limit, card, h);
    var a := d.(batch := []);
    assert Orderly(a, card);
    hide Orderly, Follows, AppendLine;
    assert TakeNode(a, x, limit) == Going(TakeNode(d, x, limit).draft.(batch := []));
    NodeFollows(a, es, lost, x, limit, card);
  }

  /** Losing the batch leaves what has reached the engine. */
  lemma Emptied(d: Draft, n: Draft, es: seq<Entry>, lost: ElemSet, card: Key -> Cardinality)
    requires Orderly(d, card) && Follows(d.(batch := []), es, lost, card)
    requires n.batch == [] && n.history == d.history && n.drained == d.drained
    requires n.types == d.types && n.labels == d.labels
    ensures Settled(n.(dirty := {}), card) && Follows(n.(dirty := {}), es, lost, card)
  {
    hide Follows, Sound, InterpretAll;
    SameEngine(d, n.(dirty := {}), es, lost, card);
  }

  lemma StoppedKeyed(d: Draft, x: Line, limit: nat, card: Key -> Cardinality, h: Hash)
    requires Room(d, Most(x)) && (x.Fact? || x.Close?) && Take(d, x, limit, card, h).Stopped?
    ensures var n := Take(d, x, limit, card, h).draft;
      n.batch == [] && n.history == d.history && n.drained == d.drained && n.types == d.types && n.labels == d.labels
  {
    hide KeptOf, FoldOf, Observe, ClosedAlready;
    TakeByKind(d, x, limit, card, h);
  }

  lemma LeaveRetract(d: Draft, b: Books, x: Line, limit: nat, card: Key -> Cardinality)
    requires x.Retract? && Orderly(d, card) && InStep(d, b, card) && Room(d, 1) && TakeRetract(d, x, limit, card).Stopped?
    ensures var n, r := TakeRetract(d, x, limit, card).draft, Leave(b, d, x, limit);
      Settled(n.(dirty := {}), card) && Follows(n.(dirty := {}), r.0, r.1, card)
  {
    hide Orderly, Sound, InterpretAll, Agrees, Pending, LiveTags, FoldOf;
    var n, c := TakeRetract(d, x, limit, card).draft, Flush(d, limit).draft;
    if Flush(d, limit).Going? {
      FlushKeeps(d, limit, card);
      assert c.(batch := []) == c;
      assert Follows(c, b.all, b.lost, card);
      Emptied(c, n, b.all, b.lost, card);
    } else {
      Emptied(d, n, b.reached, b.reachedLost, card);
    }
  }

  lemma LeaveNode(d: Draft, b: Books, x: Line, limit: nat, card: Key -> Cardinality)
    requires x.NodeLine? && Orderly(d, card) && InStep(d, b, card) && Room(d, 2) && |b.all| + 2 <= U64_LIMIT
    requires TakeNode(d, x, limit).Stopped?
    ensures var n, r := TakeNode(d, x, limit).draft, Leave(b, d, x, limit);
      Settled(n.(dirty := {}), card) && Follows(n.(dirty := {}), r.0, r.1, card)
  {
    var a, n, t := d.(batch := []), TakeNode(d, x, limit).draft, TakeType(d, x, limit).draft.(batch := []);
    assert Orderly(a, card);
    hide Orderly, Follows;
    if x.ty.Some? && TakeType(d, x, limit).Going? {
      AttrFollows(a, b.reached, b.reachedLost, TypeEntry(x), card, t);
      assert t.(batch := []) == t;
      Emptied(t, n, b.reached + [TypeEntry(x)], b.reachedLost, card);
    } else {
      Emptied(d, n, b.reached, b.reachedLost, card);
    }
  }

  /** A line that stops the call leaves nothing waiting, and what it leaves has been told. */
  lemma LeaveKeeps(d: Draft, b: Books, x: Line, limit: nat, card: Key -> Cardinality, h: Hash)
    requires Orderly(d, card) && InStep(d, b, card) && Room(d, Most(x)) && |b.all| + Most(x) <= U64_LIMIT
    requires Take(d, x, limit, card, h).Stopped?
    ensures var n, r := Take(d, x, limit, card, h).draft, Leave(b, d, x, limit);
      && |r.0| <= |b.all| + Most(x)
      && Settled(n.(dirty := {}), card) && Follows(n.(dirty := {}), r.0, r.1, card)
  {
    TakeByKind(d, x, limit, card, h);
    hide Orderly, Follows, Take, Settled, TakeRetract, TakeNode;
    if x.Retract? {
      LeaveRetract(d, b, x, limit, card);
    } else if x.NodeLine? {
      LeaveNode(d, b, x, limit, card);
    } else {
      StoppedKeyed(d, x, limit, card, h);
      Emptied(d, Take(d, x, limit, card, h).draft, b.reached, b.reachedLost, card);
    }
  }

  // --- whole calls -----------------------------------------------------------------------------

  /** What of a list of lines has reached the engine when the call ends: everything, unless it is stopped. */
  function LinesReach(b: Books, d: Draft, xs: seq<Line>, limit: nat, card: Key -> Cardinality, h: Hash)
    : (seq<Entry>, ElemSet)
    requires Room(d, MostOf(xs)) && |b.all| + MostOf(xs) <= U64_LIMIT && |b.reached| <= |b.all|
    decreases |xs|
  {
    if xs == [] then if Flush(d, limit).Going? then (b.all, b.lost) else (b.reached, b.reachedLost)
    else
      TakeRoom(d, xs[0], limit, card, h, MostOf(xs[1..]));
      EnterRoom(b, d, xs[0], limit, card, h);
      var p := Take(d, xs[0], limit, card, h);
      if p.Stopped? then Leave(b, d, xs[0], limit)
      else LinesReach(Enter(b, d, xs[0], limit, card, h), p.draft, xs[1..], limit, card, h)
  }

  /** What a whole call adds to the history of everything, as far as it has reached the engine. */
  function CallReaches(es: seq<Entry>, lost: ElemSet, d: Draft, xs: seq<Line>, limit: nat, card: Key -> Cardinality,
                       h: Hash): (seq<Entry>, ElemSet)
    requires Room(d, MostOf(xs)) && |es| + MostOf(xs) <= U64_LIMIT
  {
    LinesReach(Books(es, lost, es, lost), d, xs, limit, card, h)
  }

  lemma EndKeeps(d: Draft, b: Books, limit: nat, card: Key -> Cardinality)
    requires Orderly(d, card) && InStep(d, b, card) && Room(d, 0)
    ensures var n := Finish(d, limit).draft.(dirty := {});
      var r := if Flush(d, limit).Going? then (b.all, b.lost) else (b.reached, b.reachedLost);
      Settled(n, card) && Follows(n, r.0, r.1, card)
  {
    hide Orderly, Follows;
    if Flush(d, limit).Going? {
      FinishRests(d, b.all, b.lost, limit, card);
      assert Finish(d, limit).draft.(dirty := {}) == Finish(d, limit).draft;
    } else {
      Emptied(d, Finish(d, limit).draft, b.reached, b.reachedLost, card);
    }
  }

  lemma {:induction false} LinesKeep(d: Draft, b: Books, xs: seq<Line>, limit: nat, card: Key -> Cardinality, h: Hash)
    requires Orderly(d, card) && InStep(d, b, card) && Room(d, MostOf(xs)) && |b.all| + MostOf(xs) <= U64_LIMIT
    ensures var p, r := Call(d, xs, limit, card, h), LinesReach(b, d, xs, limit, card, h);
      && |r.0| <= |b.all| + MostOf(xs)
      && Settled(p.draft.(dirty := {}), card) && Follows(p.draft.(dirty := {}), r.0, r.1, card)
      && (p.Going? ==> r == (AppendLines(b.all, xs, card), LostAll(b.lost, d, xs, limit, card, h)))
    decreases |xs|
  {
    assert |b.reached| <= |b.all|;
    hide Orderly, Follows, Settled, Take, Enter, Leave, Finish, InStep, AppendLine, LostAfter;
    if xs == [] {
      EndKeeps(d, b, limit, card);
    } else {
      var x := xs[0];
      var p := Take(d, x, limit, card, h);
      TakeRoom(d, x, limit, card, h, MostOf(xs[1..]));
      EnterRoom(b, d, x, limit, card, h);
      if p.Stopped? {
        LeaveKeeps(d, b, x, limit, card, h);
      } else {
        EnterKeeps(d, b, x, limit, card, h);
        EntersAll(b, d, x, limit, card, h);
        LinesKeep(p.draft, Enter(b, d, x, limit, card, h), xs[1..], limit, card, h);
      }
    }
  }

  lemma EntersAll(b: Books, d: Draft, x: Line, limit: nat, card: Key -> Cardinality, h: Hash)
    requires Room(d, Most(x)) && |b.all| + Most(x) <= U64_LIMIT && |b.reached| <= |b.all|
    ensures var n := Enter(b, d, x, limit, card, h);
      n.all == AppendLine(b.all, x, card) && n.lost == LostAfter(b.lost, d, x, card, h)
  {
    hide Take, AppendLine, LostAfter;
    EnterRoom(b, d, x, limit, card, h);
  }

  /** However a call ends, the store it leaves answers as the history of everything that reached the engine, but
      for what was lost; and everything reaches the engine unless the call is stopped. */
  lemma CallKeeps(d: Draft, es: seq<Entry>, lost: ElemSet, xs: seq<Line>, limit: nat, card: Key -> Cardinality, h: Hash)
    requires Settled(d, card) && Follows(d, es, lost, card) && Room(d, MostOf(xs)) && |es| + MostOf(xs) <= U64_LIMIT
    ensures var p, r := Call(d, xs, limit, card, h), CallReaches(es, lost, d, xs, limit, card, h);
      && |r.0| <= |es| + MostOf(xs)
      && Settled(p.draft.(dirty := {}), card) && Follows(p.draft.(dirty := {}), r.0, r.1, card)
      && (p.Going? ==> Rested(p.draft, card) && r == (AppendLines(es, xs, card), LostAll(lost, d, xs, limit, card, h)))
  {
    hide Follows, Call, LinesReach, Orderly;
    assert d.(batch := []) == d;
    LinesKeep(d, Books(es, lost, es, lost), xs, limit, card, h);
    if Call(d, xs, limit, card, h).Going? {
      CallFollows(d, es, lost, xs, limit, card, h);
    }
  }

  // --- any number of calls ---------------------------------------------------------------------

  lemma {:induction false} ReachRoom(d: Draft, b: Books, xs: seq<Line>, limit: nat, card: Key -> Cardinality, h: Hash)
    requires Room(d, MostOf(xs)) && |b.all| + MostOf(xs) <= U64_LIMIT && |b.reached| <= |b.all|
    ensures |LinesReach(b, d, xs, limit, card, h).0| <= |b.all| + MostOf(xs)
    decreases |xs|
  {
    hide Take, Enter;
    if xs != [] {
      TakeRoom(d, xs[0], limit, card, h, MostOf(xs[1..]));
      EnterRoom(b, d, xs[0], limit, card, h);
      if Take(d, xs[0], limit, card, h).Going? {
        ReachRoom(Take(d, xs[0], limit, card, h).draft, Enter(b, d, xs[0], limit, card, h), xs[1..], limit, card, h);
      }
    }
  }

  /** The store between calls: an error loses the batch, and every call starts with no key marked. */
  function Between(d: Draft): Draft { d.(batch := [], dirty := {}) }

  /** What happens to the store: an ingest call, or a drain of its tail, as a read of a rule's changes starts with. */
  datatype Turn = IngestCall(lines: seq<Line>) | DrainTail

  function MostTurn(t: Turn): nat { if t.IngestCall? then MostOf(t.lines) else 0 }

  function MostTurns(turns: seq<Turn>): nat { if turns == [] then 0 else MostTurn(turns[0]) + MostTurns(turns[1..]) }

  /** Where some turns end: the store, the history of everything that has reached it, what is missing beside that
      history, and which turns went through. */
  datatype Ending = Ending(draft: Draft, reached: seq<Entry>, lost: ElemSet, oks: seq<bool>)

  function AfterTurn(d: Draft, es: seq<Entry>, lost: ElemSet, t: Turn, limit: nat, card: Key -> Cardinality, h: Hash)
    : Ending
    requires Room(d, MostTurn(t)) && |es| + MostTurn(t) <= U64_LIMIT
  {
    match t
    case IngestCall(xs) =>
      var p, r := Call(d, xs, limit, card, h), CallReaches(es, lost, d, xs, limit, card, h);
      Ending(Between(p.draft), r.0, r.1, [p.Going?])
    case DrainTail => Ending(d.(drained := |d.history|), es, lost, [true])
  }

  lemma TurnRoom(d: Draft, es: seq<Entry>, lost: ElemSet, t: Turn, limit: nat, card: Key -> Cardinality, h: Hash,
                 more: nat)
    requires Room(d, MostTurn(t) + more) && |es| + MostTurn(t) <= U64_LIMIT
    ensures var e := AfterTurn(d, es, lost, t, limit, card, h);
      Room(e.draft, more) && |e.reached| <= |es| + MostTurn(t) && |e.oks| == 1
  {
    hide Call, LinesReach;
    if t.IngestCall? {
      CallRoom(d, t.lines, limit, card, h, more);
      ReachRoom(d, Books(es, lost, es, lost), t.lines, limit, card, h);
    }
  }

  function AfterTurns(d: Draft, es: seq<Entry>, lost: ElemSet, turns: seq<Turn>, limit: nat,
                      card: Key -> Cardinality, h: Hash): Ending
    requires Room(d, MostTurns(turns)) && |es| + MostTurns(turns) <= U64_LIMIT
    decreases |turns|
  {
    if turns == [] then Ending(d, es, lost, [])
    else
      TurnRoom(d, es, lost, turns[0], limit, card, h, MostTurns(turns[1..]));
      var e := AfterTurn(d, es, lost, turns[0], limit, card, h);
      var rest := AfterTurns(e.draft, e.reached, e.lost, turns[1..], limit, card, h);
      rest.(oks := e.oks + rest.oks)
  }

  /** The history of everything, after every turn. */
  function AppendTurns(es: seq<Entry>, turns: seq<Turn>, card: Key -> Cardinality): seq<Entry>
    requires |es| + MostTurns(turns) <= U64_LIMIT
    decreases |turns|
  {
    if turns == [] then es
    else if turns[0].DrainTail? then AppendTurns(es, turns[1..], card)
    else
      AppendLinesRoom(es, turns[0].lines, card);
      AppendTurns(AppendLines(es, turns[0].lines, card), turns[1..], card)
  }

  /** Draining a store that waits for nothing changes no answer, and leaves it rested. */
  lemma DrainKeeps(d: Draft, es: seq<Entry>, lost: ElemSet, card: Key -> Cardinality)
    requires Settled(d, card) && Follows(d, es, lost, card)
    ensures var n := d.(drained := |d.history|); Rested(n, card) && Follows(n, es, lost, card)
  {
    hide Agrees, Sound, InterpretAll, Facts, FactsFrom;
    var n := d.(drained := |d.history|);
    forall k
      ensures Agrees(Pending(n, k), Facts(es, k), k, card(k), lost)
    {
      PendingAgrees(d, es, lost, card, k);
    }
  }

  lemma RestedBetween(d: Draft, card: Key -> Cardinality)
    ensures Rested(d, card) ==> Settled(d, card) && Between(d) == d
  {
  }

  /** A turn keeps the store in step with what has reached it; a turn that goes through leaves it drained, and
      everything has reached it. */
  lemma TurnKeeps(d: Draft, es: seq<Entry>, lost: ElemSet, t: Turn, limit: nat, card: Key -> Cardinality, h: Hash)
    requires Settled(d, card) && Follows(d, es, lost, card)
    requires Room(d, MostTurn(t)) && |es| + MostTurn(t) <= U64_LIMIT
    ensures var e := AfterTurn(d, es, lost, t, limit, card, h);
      && Settled(e.draft, card) && Follows(e.draft, e.reached, e.lost, card) && |e.oks| == 1
      && (e.oks[0] ==> Rested(e.draft, card))
      && (e.oks[0] && t.IngestCall? ==> e.reached == AppendLines(es, t.lines, card))
  {
    hide Follows, Call, CallReaches, Settled, Rested, LostAll, AppendLines;
    match t
    case IngestCall(xs) =>
      CallKeeps(d, es, lost, xs, limit, card, h);
      var p := Call(d, xs, limit, card, h);
      SettledBetween(p.draft, card);
      RestedBetween(p.draft, card);
    case DrainTail =>
      DrainKeeps(d, es, lost, card);
      RestedBetween(d.(drained := |d.history|), card);
  }

  /** Between calls nothing waits in the batch. */
  lemma SettledBetween(n: Draft, card: Key -> Cardinality)
    requires Settled(n.(dirty := {}), card)
    ensures Between(n) == n.(dirty := {})
  {
  }

  /** Any number of calls, stopped or not, and of drains between them leave a store that answers as the history of
      everything that reached it, but for what was lost; a drained one if the last turn went through, and everything
      has reached it if all did. */
  lemma {:induction false} TurnsKeep(d: Draft, es: seq<Entry>, lost: ElemSet, turns: seq<Turn>, limit: nat,
                                     card: Key -> Cardinality, h: Hash)
    requires Settled(d, card) && Follows(d, es, lost, card)
    requires Room(d, MostTurns(turns)) && |es| + MostTurns(turns) <= U64_LIMIT
    ensures var e := AfterTurns(d, es, lost, turns, limit, card, h);
      && Settled(e.draft, card) && Follows(e.draft, e.reached, e.lost, card) && |e.oks| == |turns|
      && (false !in e.oks ==> e.reached == AppendTurns(es, turns, card))
      && (turns != [] && e.oks[|turns| - 1] ==> Rested(e.draft, card))
    decreases |turns|
  {
    hide Follows, AfterTurn, Settled, Rested, AppendLines;
    if turns != [] {
      TurnRoom(d, es, lost, turns[0], limit, card, h, MostTurns(turns[1..]));
      TurnKeeps(d, es, lost, turns[0], limit, card, h);
      var e := AfterTurn(d, es, lost, turns[0], limit, card, h);
      TurnsKeep(e.draft, e.reached, e.lost, turns[1..], limit, card, h);
      var rest := AfterTurns(e.draft, e.reached, e.lost, turns[1..], limit, card, h);
      assert (e.oks + rest.oks)[0] == e.oks[0];
      assert turns[1..] != [] ==> (e.oks + rest.oks)[|turns| - 1] == rest.oks[|turns| - 2];
      assert forall ok :: ok in rest.oks ==> ok in e.oks + rest.oks;
      if turns[0].IngestCall? {
        AppendLinesRoom(es, turns[0].lines, card);
      } else {
        assert e.reached == es by {
          DrainReaches(d, es, lost, limit, card, h);
        }
      }
    }
  }

  lemma DrainReaches(d: Draft, es: seq<Entry>, lost: ElemSet, limit: nat, card: Key -> Cardinality, h: Hash)
    requires Room(d, 0) && |es| <= U64_LIMIT
    ensures var e := AfterTurn(d, es, lost, DrainTail, limit, card, h);
      e.reached == es && e.lost == lost && e.oks == [true]
  {
  }

  // --- when nothing is lost --------------------------------------------------------------------

  /** However the call ends, lines that leave an element alone do not lose it. */
  lemma {:induction false} ReachNotLost(b: Books, d: Draft, xs: seq<Line>, k: Key, o: ObjKey, limit: nat,
                                        card: Key -> Cardinality, h: Hash)
    requires Orderly(d, card) && Room(d, MostOf(xs)) && |b.all| + MostOf(xs) <= U64_LIMIT && |b.reached| <= |b.all|
    requires (k, o) !in b.lost && (k, o) !in b.reachedLost
    requires card(k) == Many ==> LeavesAlone(d, xs, k, o)
    ensures (k, o) !in LinesReach(b, d, xs, limit, card, h).1
    decreases |xs|
  {
    hide Orderly, Take, Enter, LeavesAlone, LostAfter, Flush, TakeType;
    if xs != [] {
      var x, p := xs[0], Take(d, xs[0], limit, card, h);
      TakeRoom(d, x, limit, card, h, MostOf(xs[1..]));
      EnterRoom(b, d, x, limit, card, h);
      if p.Going? {
        TakeOrderly(d, x, limit, card, h);
        if card(k) == Many {
          NotLostFirst(b.lost, d, xs, k, o, limit, card, h);
        } else {
          OneNotLost(b.lost, d, x, k, o, card, h);
        }
        EnterLost(b, d, x, limit, card, h);
        ReachNotLost(Enter(b, d, x, limit, card, h), p.draft, xs[1..], k, o, limit, card, h);
      }
    }
  }

  /** No element of a One key is ever lost. */
  lemma OneNotLost(lost: ElemSet, d: Draft, x: Line, k: Key, o: ObjKey, card: Key -> Cardinality, h: Hash)
    requires Room(d, Most(x)) && (k, o) !in lost && card(k).One?
    ensures (k, o) !in LostAfter(lost, d, x, card, h)
  {
    hide Pending, FactSkipped;
  }

  lemma EnterLost(b: Books, d: Draft, x: Line, limit: nat, card: Key -> Cardinality, h: Hash)
    requires Room(d, Most(x)) && |b.all| + Most(x) <= U64_LIMIT && |b.reached| <= |b.all|
    ensures var n := Enter(b, d, x, limit, card, h);
      n.lost == LostAfter(b.lost, d, x, card, h) && (n.reachedLost == n.lost || n.reachedLost == b.reachedLost)
  {
    hide Take, AppendLine, LostAfter;
    EnterRoom(b, d, x, limit, card, h);
  }

  /** From a drained store a call loses nothing, however it ends, unless it asserts an element after retracting it
      and then retracting something. */
  lemma LosslessCall(d: Draft, es: seq<Entry>, xs: seq<Line>, limit: nat, card: Key -> Cardinality, h: Hash)
    requires Rested(d, card) && Room(d, MostOf(xs)) && |es| + MostOf(xs) <= U64_LIMIT && NeverRegrants(xs)
    ensures CallReaches(es, {}, d, xs, limit, card, h).1 == {}
  {
    hide LinesReach, Regrants, RemovalWaits, Grants, GrantsAfterRetract;
    var lost := CallReaches(es, {}, d, xs, limit, card, h).1;
    forall k, o
      ensures (k, o) !in lost
    {
      DrainedWaits(d, k, o);
      ReachNotLost(Books(es, {}, es, {}), d, xs, k, o, limit, card, h);
    }
    assert forall p :: p in lost ==> p == (p.0, p.1);
  }

  ghost predicate NoneRegrants(turns: seq<Turn>) {
    forall i :: 0 <= i < |turns| && turns[i].IngestCall? ==> NeverRegrants(turns[i].lines)
  }

  /** Every turn that does not go through is the last, or the tail it leaves is drained next. */
  predicate DrainedAfterStops(turns: seq<Turn>, oks: seq<bool>)
    requires |oks| == |turns|
  {
    forall i :: 0 <= i < |turns| - 1 && !oks[i] ==> turns[i + 1].DrainTail?
  }

  lemma RestRegrantsNot(turns: seq<Turn>)
    requires turns != [] && NoneRegrants(turns)
    ensures (turns[0].IngestCall? ==> NeverRegrants(turns[0].lines)) && NoneRegrants(turns[1..])
  {
    hide NeverRegrants;
    assert forall i :: 0 <= i < |turns[1..]| ==> turns[1..][i] == turns[i + 1];
  }

  lemma RestDrained(turns: seq<Turn>, ok: bool, oks: seq<bool>)
    requires |oks| + 1 == |turns| && DrainedAfterStops(turns, [ok] + oks)
    ensures DrainedAfterStops(turns[1..], oks) && (!ok && turns[1..] != [] ==> turns[1..][0].DrainTail?)
  {
    forall i | 0 <= i < |turns[1..]| - 1 && !oks[i]
      ensures turns[1..][i + 1].DrainTail?
    {
      assert ([ok] + oks)[i + 1] == oks[i];
    }
    assert ([ok] + oks)[0] == ok;
  }

  lemma TurnLossless(d: Draft, es: seq<Entry>, t: Turn, limit: nat, card: Key -> Cardinality, h: Hash)
    requires Rested(d, card) || t.DrainTail?
    requires Room(d, MostTurn(t)) && |es| + MostTurn(t) <= U64_LIMIT && (t.IngestCall? ==> NeverRegrants(t.lines))
    ensures AfterTurn(d, es, {}, t, limit, card, h).lost == {}
  {
    hide Rested, CallReaches, Call, NeverRegrants;
    if t.IngestCall? {
      LosslessCall(d, es, t.lines, limit, card, h);
    }
  }

  /** On a drained store nothing is lost, stopped calls or not, when no call asserts an element after retracting it
      and then retracting something, and the tail that a stopped call leaves is drained before the next. */
  lemma {:induction false} TurnsLossless(d: Draft, es: seq<Entry>, turns: seq<Turn>, limit: nat,
                                         card: Key -> Cardinality, h: Hash)
    requires Settled(d, card) && Follows(d, es, {}, card) && NoneRegrants(turns)
    requires Rested(d, card) || turns == [] || turns[0].DrainTail?
    requires Room(d, MostTurns(turns)) && |es| + MostTurns(turns) <= U64_LIMIT
    requires var oks := AfterTurns(d, es, {}, turns, limit, card, h).oks;
      |oks| == |turns| && DrainedAfterStops(turns, oks)
    ensures AfterTurns(d, es, {}, turns, limit, card, h).lost == {}
    decreases |turns|
  {
    hide Follows, AfterTurn, Settled, Rested, NoneRegrants, NeverRegrants, DrainedAfterStops, AppendTurns;
    if turns != [] {
      var rest := turns[1..];
      TurnRoom(d, es, {}, turns[0], limit, card, h, MostTurns(rest));
      TurnKeeps(d, es, {}, turns[0], limit, card, h);
      RestRegrantsNot(turns);
      TurnLossless(d, es, turns[0], limit, card, h);
      var e := AfterTurn(d, es, {}, turns[0], limit, card, h);
      var more := AfterTurns(e.draft, e.reached, {}, rest, limit, card, h);
      assert e.oks == [e.oks[0]];
      RestDrained(turns, e.oks[0], more.oks);
      TurnsLossless(e.draft, e.reached, rest, limit, card, h);
    }
  }
}
