/** Which lines of an ingest call lose an element of a Many key, told from the lines and the store they meet. */
module Losses {
  import opened Types
  import opened Rows
  import opened Folds
  import opened Snapshots
  import opened Changelogs
  import opened Engines
  import opened Interpreter
  import opened Ledger
  import opened Ingest
  import opened Suppression

  // --- one assertion ---------------------------------------------------------------------------

  predicate RemovesElem(e: Entry, k: Key, o: ObjKey) {
    e.record.kind.RemoveMany? && e.record.kind.key == k && e.elem == o
  }

  predicate RemovalIn(es: seq<Entry>, k: Key, o: ObjKey) {
    exists i :: 0 <= i < |es| && RemovesElem(es[i], k, o)
  }

  /** A removal of the element is appended but not drained. */
  predicate RemovalWaits(d: Draft, k: Key, o: ObjKey)
    requires d.drained <= |d.history|
  {
    RemovalIn(d.history[d.drained..], k, o)
  }

  lemma RemovalConcat(a: seq<Entry>, b: seq<Entry>, k: Key, o: ObjKey)
    ensures RemovalIn(a + b, k, o) <==> RemovalIn(a, k, o) || RemovalIn(b, k, o)
  {
    if i :| 0 <= i < |a| && RemovesElem(a[i], k, o) {
      assert RemovesElem((a + b)[i], k, o);
    }
    if i :| 0 <= i < |b| && RemovesElem(b[i], k, o) {
      assert RemovesElem((a + b)[|a| + i], k, o);
    }
  }

  /** An assertion that the probe finds in the drained state, of an element whose removal is not drained and
      whose key is not marked as written. */
  predicate Loses(d: Draft, x: Line)
    requires x.Fact? && d.drained <= |d.history| && |d.history| <= U64_LIMIT
  {
    x.key !in d.dirty && Asserted(Drained(d), x) && RemovalWaits(d, x.key, x.obj)
  }

  lemma {:induction false} TailPresent(x: KeyFacts, es: seq<Entry>, k: Key, o: ObjKey)
    requires forall i :: 0 <= i < |es| ==> Direct(es[i].record.kind)
    ensures o in FactsFrom(x, es, k).present <==> o in x.present && !RemovalIn(es, k, o)
    decreases |es|
  {
    if es != [] {
      var n := |es| - 1;
      TailPresent(x, es[..n], k, o);
      RemovalConcat(es[..n], [es[n]], k, o);
      assert es == es[..n] + [es[n]];
      assert [es[n]][0] == es[n];
    }
  }

  /** An element of a clean key is present when the drained state has it and no removal of it waits. */
  lemma CleanPresent(d: Draft, k: Key, o: ObjKey, card: Key -> Cardinality)
    requires Orderly(d, card) && k !in d.dirty
    ensures o in Pending(d, k).present <==> o in Facts(d.history[..d.drained], k).present && !RemovalWaits(d, k, o)
  {
    hide Sound, InterpretAll, TypedRecord, Absorb;
    var tail := d.history[d.drained..];
    forall i | 0 <= i < |d.batch|
      ensures WrittenKey(Bare(d.batch)[i].record.kind) != Some(k)
    {
      assert d.batch[i] in d.batch && Queued(d.batch[i], d.dirty, card);
    }
    FactsUntouched(Facts(d.history, k), Bare(d.batch), k);
    assert d.history == d.history[..d.drained] + tail;
    FactsConcat(Nothing, d.history[..d.drained], tail, k);
    forall i | 0 <= i < |tail|
      ensures Direct(tail[i].record.kind)
    {
      assert tail[i] == d.history[d.drained + i];
    }
    TailPresent(Facts(d.history[..d.drained], k), tail, k, o);
  }

  lemma AssertedPresent(d: Draft, x: Line, card: Key -> Cardinality, h: Hash)
    requires Orderly(d, card) && Room(d, 0) && x.Fact? && Asserted(Drained(d), x)
    ensures x.obj in Facts(d.history[..d.drained], x.key).present
  {
    hide Sound, InterpretAll, Facts, FoldOf, Interpreter.ElemRows;
    DrainedSound(d, card);
    ElementRows(d.history[..d.drained], x.key, x.obj, card, h);
  }

  /** A skipped assertion meets an absent element exactly when the probe's base has the element and its
      removal waits behind the drained mark of a key that is not marked. */
  lemma LosesIff(d: Draft, x: Line, card: Key -> Cardinality, h: Hash)
    requires Orderly(d, card) && Room(d, 0) && x.Fact? && card(x.key) == Many
    ensures FactSkipped(d, x, card, h) && x.obj !in Pending(d, x.key).present <==> Loses(d, x)
  {
    hide Orderly, Pending, Asserted, FoldOf, Observe, RemovalWaits;
    if x.key !in d.dirty {
      assert d.drained <= |d.history| by {
        DrainedSound(d, card);
      }
      CleanPresent(d, x.key, x.obj, card);
      if Asserted(Drained(d), x) {
        AssertedPresent(d, x, card, h);
      }
    }
  }

  /** A store between calls: nothing waits in a batch, and no key is marked; a removal may be undrained. */
  ghost predicate Settled(d: Draft, card: Key -> Cardinality) { Orderly(d, card) && d.batch == [] && d.dirty == {} }

  /** A store between calls that is drained. */
  ghost predicate Rested(d: Draft, card: Key -> Cardinality) { Settled(d, card) && d.drained == |d.history| }

  // --- a list of lines -------------------------------------------------------------------------

  lemma OwnHistory(d: Draft, card: Key -> Cardinality)
    requires Orderly(d, card) && Room(d, 0)
    ensures Follows(d, d.history + Bare(d.batch), {}, card)
  {
    hide Sound, InterpretAll, Queued, Facts, FactsFrom;
    GrowBatch(d, d.history, d.batch, d.dirty, card);
    forall k
      ensures Agrees(Pending(d, k), Facts(d.history + Bare(d.batch), k), k, card(k), {})
    {
      FactsOfBoth(d, k);
    }
  }

  lemma FactsOfBoth(d: Draft, k: Key)
    ensures Pending(d, k) == Facts(d.history + Bare(d.batch), k)
  {
    FactsConcat(Nothing, d.history, Bare(d.batch), k);
  }

  /** Every line keeps a draft orderly. */
  lemma TakeOrderly(d: Draft, x: Line, limit: nat, card: Key -> Cardinality, h: Hash)
    requires Orderly(d, card) && Room(d, Most(x)) && Take(d, x, limit, card, h).Going?
    ensures Orderly(Take(d, x, limit, card, h).draft, card)
  {
    hide Orderly, Follows, Take;
    OwnHistory(d, card);
    TakeFollows(d, d.history + Bare(d.batch), {}, x, limit, card, h);
  }

  /** The draft that line `l` of a call meets. */
  function DraftAt(d: Draft, xs: seq<Line>, l: nat, limit: nat, card: Key -> Cardinality, h: Hash): (c: Draft)
    requires l <= |xs| && Room(d, MostOf(xs))
    ensures Room(c, MostOf(xs[l..]))
    decreases l
  {
    if l == 0 then assert xs[0..] == xs; d
    else
      TakeRoom(d, xs[0], limit, card, h, MostOf(xs[1..]));
      assert xs[1..][l - 1..] == xs[l..];
      DraftAt(Take(d, xs[0], limit, card, h).draft, xs[1..], l - 1, limit, card, h)
  }

  predicate IsFact(x: Line, k: Key, o: ObjKey) { x.Fact? && x.key == k && x.obj == o }

  predicate IsRetract(x: Line, k: Key, o: ObjKey) { x.Retract? && x.key == k && x.obj == o }

  /** The line says something about the element, whether or not it is skipped. */
  predicate Names(x: Line, k: Key, o: ObjKey) {
    IsFact(x, k, o) || IsRetract(x, k, o) || (x.Close? && x.key == k && x.elem == Some(o))
  }

  /** Line `l` asserts the element and loses it, and no later line names it again. */
  predicate LostAt(d: Draft, xs: seq<Line>, l: nat, k: Key, o: ObjKey, limit: nat, card: Key -> Cardinality, h: Hash)
    requires l < |xs| && Room(d, MostOf(xs))
  {
    && IsFact(xs[l], k, o)
    && Loses(DraftAt(d, xs, l, limit, card, h), xs[l])
    && forall m :: l < m < |xs| ==> !Names(xs[m], k, o)
  }

  predicate LostBy(d: Draft, xs: seq<Line>, k: Key, o: ObjKey, limit: nat, card: Key -> Cardinality, h: Hash)
    requires Room(d, MostOf(xs))
  {
    exists l: nat :: l < |xs| && LostAt(d, xs, l, k, o, limit, card, h)
  }

  predicate Unnamed(xs: seq<Line>, k: Key, o: ObjKey) { forall m :: 0 <= m < |xs| ==> !Names(xs[m], k, o) }

  lemma LostAtNext(d: Draft, xs: seq<Line>, l: nat, k: Key, o: ObjKey, limit: nat, card: Key -> Cardinality, h: Hash)
    requires l + 1 < |xs| && Room(d, MostOf(xs))
    ensures Room(Take(d, xs[0], limit, card, h).draft, MostOf(xs[1..]))
    ensures LostAt(d, xs, l + 1, k, o, limit, card, h)
       <==> LostAt(Take(d, xs[0], limit, card, h).draft, xs[1..], l, k, o, limit, card, h)
  {
    hide Take, Loses, Names, IsFact;
    TakeRoom(d, xs[0], limit, card, h, MostOf(xs[1..]));
    LaterNames(xs, l, k, o);
    assert xs[l + 1] == xs[1..][l];
  }

  lemma LostAtFirst(d: Draft, xs: seq<Line>, k: Key, o: ObjKey, limit: nat, card: Key -> Cardinality, h: Hash)
    requires xs != [] && Room(d, MostOf(xs))
    ensures LostAt(d, xs, 0, k, o, limit, card, h) <==> IsFact(xs[0], k, o) && Loses(d, xs[0]) && Unnamed(xs[1..], k, o)
  {
    hide Loses, Names, IsFact;
    assert forall m :: 0 < m < |xs| ==> xs[m] == xs[1..][m - 1];
    assert forall m :: 0 <= m < |xs[1..]| ==> xs[1..][m] == xs[m + 1];
  }

  /** A call loses an element either at its first line or by the rest. */
  lemma LostByFirst(d: Draft, xs: seq<Line>, k: Key, o: ObjKey, limit: nat, card: Key -> Cardinality, h: Hash)
    requires xs != [] && Room(d, MostOf(xs))
    ensures Room(Take(d, xs[0], limit, card, h).draft, MostOf(xs[1..]))
    ensures LostBy(d, xs, k, o, limit, card, h) <==>
      || (IsFact(xs[0], k, o) && Loses(d, xs[0]) && Unnamed(xs[1..], k, o))
      || LostBy(Take(d, xs[0], limit, card, h).draft, xs[1..], k, o, limit, card, h)
  {
    assert MostOf(xs) == Most(xs[0]) + MostOf(xs[1..]);
    hide Take, Loses, Names, IsFact, LostAt, Unnamed, MostOf, Most;
    TakeRoom(d, xs[0], limit, card, h, MostOf(xs[1..]));
    LostAtFirst(d, xs, k, o, limit, card, h);
    var rest, n := xs[1..], Take(d, xs[0], limit, card, h).draft;
    if l: nat :| l < |rest| && LostAt(n, rest, l, k, o, limit, card, h) {
      LostAtNext(d, xs, l, k, o, limit, card, h);
    }
    if l: nat :| l < |xs| && LostAt(d, xs, l, k, o, limit, card, h) {
      if l > 0 {
        LostAtNext(d, xs, l - 1, k, o, limit, card, h);
      }
    }
  }

  lemma LaterNames(xs: seq<Line>, l: nat, k: Key, o: ObjKey)
    requires xs != [] && l < |xs|
    ensures (forall m :: l + 1 < m < |xs| ==> !Names(xs[m], k, o))
       <==> forall m :: l < m < |xs[1..]| ==> !Names(xs[1..][m], k, o)
  {
    var rest := xs[1..];
    assert forall m :: 0 < m < |xs| ==> xs[m] == rest[m - 1];
    if forall m :: l < m < |rest| ==> !Names(rest[m], k, o) {
      forall m | l + 1 < m < |xs|
        ensures !Names(xs[m], k, o)
      {
        assert !Names(rest[m - 1], k, o);
      }
    }
  }

  /** Over a whole list of lines, an element is lost exactly when some line loses it and no later line names
      it, or it was missing before and no line names it. */
  lemma {:induction false} LostAllIff(lost: set<(Key, ObjKey)>, d: Draft, xs: seq<Line>, k: Key, o: ObjKey, limit: nat,
                                      card: Key -> Cardinality, h: Hash)
    requires Orderly(d, card) && Room(d, MostOf(xs)) && TakeAll(d, xs, limit, card, h).Going? && card(k) == Many
    ensures (k, o) in LostAll(lost, d, xs, limit, card, h) <==>
      LostBy(d, xs, k, o, limit, card, h) || ((k, o) in lost && Unnamed(xs, k, o))
    decreases |xs|
  {
    hide Orderly, Take, Loses, Pending, FactSkipped;
    if xs != [] {
      var x, rest := xs[0], xs[1..];
      var n := Take(d, x, limit, card, h).draft;
      TakeRoom(d, x, limit, card, h, MostOf(rest));
      TakeOrderly(d, x, limit, card, h);
      LostAllIff(LostAfter(lost, d, x, card, h), n, rest, k, o, limit, card, h);
      LostByFirst(d, xs, k, o, limit, card, h);
      if IsFact(x, k, o) {
        LosesIff(d, x, card, h);
      }
      assert Unnamed(xs, k, o) <==> !Names(x, k, o) && Unnamed(rest, k, o) by {
        assert forall m :: 0 < m < |xs| ==> xs[m] == rest[m - 1];
      }
      assert (k, o) in LostAfter(lost, d, x, card, h) <==>
        (IsFact(x, k, o) && Loses(d, x)) || ((k, o) in lost && !Names(x, k, o));
    }
  }

  // --- what the lines alone tell ---------------------------------------------------------------

  predicate Grants(xs: seq<Line>, k: Key, o: ObjKey) { exists l :: 0 <= l < |xs| && IsFact(xs[l], k, o) }

  predicate GrantsAfterRetract(xs: seq<Line>, k: Key, o: ObjKey) {
    exists j, l :: 0 <= j < l < |xs| && xs[j].Retract? && IsFact(xs[l], k, o)
  }

  /** The element is retracted, then any retract line comes, then the element is asserted. */
  predicate Regrants(xs: seq<Line>, k: Key, o: ObjKey) {
    exists i, j, l :: 0 <= i < j < l < |xs| && IsRetract(xs[i], k, o) && xs[j].Retract? && IsFact(xs[l], k, o)
  }

  ghost predicate NeverRegrants(xs: seq<Line>) { forall k, o :: !Regrants(xs, k, o) }

  lemma GrantsFirst(xs: seq<Line>, k: Key, o: ObjKey)
    requires xs != []
    ensures IsFact(xs[0], k, o) || Grants(xs[1..], k, o) ==> Grants(xs, k, o)
    ensures xs[0].Retract? && Grants(xs[1..], k, o) ==> GrantsAfterRetract(xs, k, o)
  {
    if l :| 0 <= l < |xs[1..]| && IsFact(xs[1..][l], k, o) {
      assert IsFact(xs[l + 1], k, o);
    }
  }

  lemma RegrantsFirst(xs: seq<Line>, k: Key, o: ObjKey)
    requires xs != []
    ensures GrantsAfterRetract(xs[1..], k, o) ==> GrantsAfterRetract(xs, k, o) && Grants(xs, k, o)
    ensures IsRetract(xs[0], k, o) && GrantsAfterRetract(xs[1..], k, o) ==> Regrants(xs, k, o)
  {
    var rest := xs[1..];
    if j, l :| 0 <= j < l < |rest| && rest[j].Retract? && IsFact(rest[l], k, o) {
      assert xs[j + 1].Retract? && IsFact(xs[l + 1], k, o);
    }
  }

  lemma RegrantsRest(xs: seq<Line>, k: Key, o: ObjKey)
    requires xs != [] && Regrants(xs[1..], k, o)
    ensures Regrants(xs, k, o)
  {
    var rest := xs[1..];
    if i, j, l :| 0 <= i < j < l < |rest| && IsRetract(rest[i], k, o) && rest[j].Retract? && IsFact(rest[l], k, o) {
      assert IsRetract(xs[i + 1], k, o) && xs[j + 1].Retract? && IsFact(xs[l + 1], k, o);
    }
  }

  /** Only a retract line makes a removal wait, and marks its key; only a retract line forgets the mark of a
      key whose removal goes on waiting. */
  lemma WaitsStep(d: Draft, x: Line, limit: nat, card: Key -> Cardinality, h: Hash, k: Key, o: ObjKey)
    requires Room(d, Most(x)) && Take(d, x, limit, card, h).Going?
    ensures var n := Take(d, x, limit, card, h).draft;
      n.drained <= |n.history| && (RemovalWaits(n, k, o) ==>
        if RemovalWaits(d, k, o) then !x.Retract? && k in d.dirty ==> k in n.dirty
        else IsRetract(x, k, o) && k in n.dirty)
  {
    hide KeptOf, LiveTags, FoldOf, Observe, ClosedAlready, RemovalIn;
    TakeRoom(d, x, limit, card, h, 0);
    match x
    case Fact(_, _, _, _, _, _, _) => QueueWaits(d, KeptOf(d, x, card, h), x.key, limit, k, o);
    case Close(_, _, _, _, _) =>
      if x.key !in d.dirty && ClosedAlready(Observe(Drained(d), h), x) {
        QueueWaits(d, [], x.key, limit, k, o);
      } else {
        QueueWaits(d, [CloseRecord(x)], x.key, limit, k, o);
      }
    case Retract(_, _, _) => RetractWaits(d, x, limit, card, k, o);
    case NodeLine(_, _, _) =>
      assert Take(d, x, limit, card, h) == TakeNode(d, x, limit);
      NodeWaits(d, x, limit, k, o);
  }

  lemma DrainedWaits(d: Draft, k: Key, o: ObjKey)
    requires d.drained == |d.history|
    ensures !RemovalWaits(d, k, o)
  {
  }

  lemma QueueWaits(d: Draft, rs: seq<Record>, x: Key, limit: nat, k: Key, o: ObjKey)
    requires d.drained <= |d.history| && FlushFull(Queue(d, rs, x), limit).Going?
    ensures var n := FlushFull(Queue(d, rs, x), limit).draft;
      n.drained <= |n.history| && (RemovalWaits(n, k, o) ==> RemovalWaits(d, k, o) && (k in d.dirty ==> k in n.dirty))
  {
    hide RemovalIn;
    var q, n := Queue(d, rs, x), FlushFull(Queue(d, rs, x), limit).draft;
    if |q.batch| >= FLUSH_AT {
      DrainedWaits(n, k, o);
    }
  }

  lemma FlushWaits(d: Draft, limit: nat, k: Key, o: ObjKey)
    requires d.drained <= |d.history| && Flush(d, limit).Going?
    ensures var c := Flush(d, limit).draft; c.drained <= |c.history| && (RemovalWaits(c, k, o) ==> RemovalWaits(d, k, o))
  {
    hide RemovalIn;
    if d.batch != [] {
      DrainedWaits(Flush(d, limit).draft, k, o);
    }
  }

  /** A removal that starts to wait is the retract line's own. */
  lemma RetractedWaits(c: Draft, x: Line, limit: nat, k: Key, o: ObjKey)
    requires x.Retract? && c.drained <= |c.history| < U64_LIMIT && Retracted(c, x, limit).Going?
    ensures var n := Retracted(c, x, limit).draft;
      && n.drained == c.drained <= |n.history|
      && (RemovalWaits(n, k, o) && !RemovalWaits(c, k, o) ==> IsRetract(x, k, o) && k in n.dirty)
  {
    hide LiveTags, FoldOf;
    var n := Retracted(c, x, limit).draft;
    if n.history != c.history {
      var e := n.history[|c.history|];
      assert n.history == c.history + [e];
      assert n.history[n.drained..] == c.history[c.drained..] + [e];
      RemovalConcat(c.history[c.drained..], [e], k, o);
      assert RemovalIn([e], k, o) ==> RemovesElem(e, k, o);
    }
  }

  lemma RetractWaits(d: Draft, x: Line, limit: nat, card: Key -> Cardinality, k: Key, o: ObjKey)
    requires x.Retract? && Room(d, 1) && TakeRetract(d, x, limit, card).Going?
    ensures var n := TakeRetract(d, x, limit, card).draft;
      n.drained <= |n.history| && (RemovalWaits(n, k, o) && !RemovalWaits(d, k, o) ==> IsRetract(x, k, o) && k in n.dirty)
  {
    hide Retracted, RemovalIn;
    FlushRoom(d, limit, 1);
    FlushWaits(d, limit, k, o);
    hide Flush;
    RetractedWaits(Flush(d, limit).draft.(dirty := {}), x, limit, k, o);
  }

  /** A node line appends at most its type and its label. */
  lemma NodeAppends(d: Draft, x: Line, limit: nat)
    requires x.NodeLine? && d.drained <= |d.history| && TakeNode(d, x, limit).Going?
    ensures var n := TakeNode(d, x, limit).draft;
      && n.drained == d.drained && n.dirty == d.dirty && n.batch == d.batch && d.history <= n.history
      && forall i :: |d.history| <= i < |n.history| ==>
           n.history[i].record.kind.SetNodeType? || n.history[i].record.kind.SetNodeLabel?
  {
  }

  lemma NodeWaits(d: Draft, x: Line, limit: nat, k: Key, o: ObjKey)
    requires x.NodeLine? && d.drained <= |d.history| && TakeNode(d, x, limit).Going?
    ensures var n := TakeNode(d, x, limit).draft;
      && n.drained == d.drained <= |n.history| && n.dirty == d.dirty
      && (RemovalWaits(n, k, o) <==> RemovalWaits(d, k, o))
  {
    NodeAppends(d, x, limit);
    hide TakeNode;
    var n := TakeNode(d, x, limit).draft;
    var more := n.history[|d.history|..];
    assert n.history[n.drained..] == d.history[d.drained..] + more;
    RemovalConcat(d.history[d.drained..], more, k, o);
    assert forall i :: 0 <= i < |more| ==> more[i] == n.history[|d.history| + i];
  }

  /** The lines leave the element alone: they do not grant it after retracting it and then retracting something, nor
      while a removal of it waits on a key that is not marked, or would no longer be. */
  ghost predicate LeavesAlone(d: Draft, xs: seq<Line>, k: Key, o: ObjKey)
    requires d.drained <= |d.history|
  {
    && !Regrants(xs, k, o)
    && (RemovalWaits(d, k, o) ==> if k in d.dirty then !GrantsAfterRetract(xs, k, o) else !Grants(xs, k, o))
  }

  /** The first such line does not lose the element, and the others go on leaving it alone. */
  lemma NotLostFirst(lost: set<(Key, ObjKey)>, d: Draft, xs: seq<Line>, k: Key, o: ObjKey, limit: nat,
                     card: Key -> Cardinality, h: Hash)
    requires Orderly(d, card) && xs != [] && Room(d, MostOf(xs)) && Take(d, xs[0], limit, card, h).Going?
    requires card(k) == Many && (k, o) !in lost && LeavesAlone(d, xs, k, o)
    ensures var n := Take(d, xs[0], limit, card, h).draft;
      && Orderly(n, card) && Room(n, MostOf(xs[1..]))
      && (k, o) !in LostAfter(lost, d, xs[0], card, h) && LeavesAlone(n, xs[1..], k, o)
  {
    hide Orderly, Take, RemovalWaits, Asserted, FoldOf, Grants, GrantsAfterRetract, Regrants, Pending, FactSkipped;
    var x := xs[0];
    TakeRoom(d, x, limit, card, h, MostOf(xs[1..]));
    TakeOrderly(d, x, limit, card, h);
    GrantsFirst(xs, k, o);
    RegrantsFirst(xs, k, o);
    if Regrants(xs[1..], k, o) {
      RegrantsRest(xs, k, o);
    }
    WaitsStep(d, x, limit, card, h, k, o);
    if IsFact(x, k, o) {
      LosesIff(d, x, card, h);
    }
  }

  /** A call that does not grant the element after retracting it and then retracting something loses it only
      if a removal of it was waiting before the call. */
  lemma {:induction false} NotLost(lost: set<(Key, ObjKey)>, d: Draft, xs: seq<Line>, k: Key, o: ObjKey, limit: nat,
                                   card: Key -> Cardinality, h: Hash)
    requires Orderly(d, card) && Room(d, MostOf(xs)) && TakeAll(d, xs, limit, card, h).Going? && card(k) == Many
    requires (k, o) !in lost && !Regrants(xs, k, o)
    requires RemovalWaits(d, k, o) ==> if k in d.dirty then !GrantsAfterRetract(xs, k, o) else !Grants(xs, k, o)
    ensures (k, o) !in LostAll(lost, d, xs, limit, card, h)
    decreases |xs|
  {
    hide Orderly, Take, RemovalWaits, Grants, GrantsAfterRetract, Regrants, LostAfter;
    if xs != [] {
      NotLostFirst(lost, d, xs, k, o, limit, card, h);
      NotLost(LostAfter(lost, d, xs[0], card, h), Take(d, xs[0], limit, card, h).draft, xs[1..], k, o, limit, card, h);
    }
  }

  /** Only elements of Many keys are ever lost. */
  lemma {:induction false} LostAreMany(lost: set<(Key, ObjKey)>, d: Draft, xs: seq<Line>, k: Key, o: ObjKey, limit: nat,
                                       card: Key -> Cardinality, h: Hash)
    requires Room(d, MostOf(xs)) && (k, o) !in lost && card(k).One?
    ensures (k, o) !in LostAll(lost, d, xs, limit, card, h)
    decreases |xs|
  {
    hide Take, Pending, FactSkipped;
    if xs != [] {
      TakeRoom(d, xs[0], limit, card, h, MostOf(xs[1..]));
      var p := Take(d, xs[0], limit, card, h);
      if p.Going? {
        LostAreMany(LostAfter(lost, d, xs[0], card, h), p.draft, xs[1..], k, o, limit, card, h);
      }
    }
  }

  lemma {:induction false} MostOfPrefix(xs: seq<Line>, l: nat)
    requires l <= |xs|
    ensures MostOf(xs[..l]) <= MostOf(xs)
    decreases l
  {
    if l > 0 {
      MostOfPrefix(xs[1..], l - 1);
      assert xs[..l][1..] == xs[1..][..l - 1];
    }
  }

  /** The draft that a line meets is where the lines before it lead. */
  lemma {:induction false} TakeAllPrefix(d: Draft, xs: seq<Line>, l: nat, limit: nat, card: Key -> Cardinality, h: Hash)
    requires Room(d, MostOf(xs)) && l <= |xs| && TakeAll(d, xs, limit, card, h).Going?
    ensures Room(d, MostOf(xs[..l])) && TakeAll(d, xs[..l], limit, card, h) == Going(DraftAt(d, xs, l, limit, card, h))
    decreases l
  {
    hide Take;
    MostOfPrefix(xs, l);
    if l > 0 {
      TakeRoom(d, xs[0], limit, card, h, MostOf(xs[1..]));
      TakeAllPrefix(Take(d, xs[0], limit, card, h).draft, xs[1..], l - 1, limit, card, h);
      assert xs[..l][1..] == xs[1..][..l - 1];
    } else {
      assert xs[..l] == [];
    }
  }

  lemma {:induction false} MostOfSnoc(xs: seq<Line>, x: Line)
    ensures MostOf(xs + [x]) == MostOf(xs) + Most(x)
    decreases |xs|
  {
    if xs == [] {
      assert [x][1..] == [];
    } else {
      assert (xs + [x])[1..] == xs[1..] + [x];
      MostOfSnoc(xs[1..], x);
    }
  }

  /** One more line. */
  lemma {:induction false} TakeAllSnoc(d: Draft, xs: seq<Line>, x: Line, limit: nat, card: Key -> Cardinality, h: Hash)
    requires Room(d, MostOf(xs) + Most(x)) && TakeAll(d, xs, limit, card, h).Going?
    ensures MostOf(xs + [x]) == MostOf(xs) + Most(x) && Room(TakeAll(d, xs, limit, card, h).draft, Most(x))
    ensures TakeAll(d, xs + [x], limit, card, h) == Take(TakeAll(d, xs, limit, card, h).draft, x, limit, card, h)
    decreases |xs|
  {
    hide Take;
    MostOfSnoc(xs, x);
    if xs == [] {
      TakeRoom(d, x, limit, card, h, 0);
      assert xs + [x] == [x] && [x][1..] == [];
    } else {
      TakeRoom(d, xs[0], limit, card, h, MostOf(xs[1..]) + Most(x));
      assert (xs + [x])[1..] == xs[1..] + [x];
      TakeAllSnoc(Take(d, xs[0], limit, card, h).draft, xs[1..], x, limit, card, h);
    }
  }
}
