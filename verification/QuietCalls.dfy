/** Calls whose lines would all be skipped by the store as it rests: exactly what they lose. */
module QuietCalls {
  import opened Types
  import opened Rows
  import opened Folds
  import opened Snapshots
  import opened Changelogs
  import opened Engines
  import opened Interpreter
  import opened Ledger
  import opened Ingest
  import opened Suppression
  import opened Losses

  /** The element has a live add row, present or not. */
  predicate HasTags(es: seq<Entry>, k: Key, o: ObjKey)
    requires |es| <= U64_LIMIT
  {
    LiveTags(FoldOf(Records(es)), k, o) != []
  }

  predicate RetractedIn(xs: seq<Line>, k: Key, o: ObjKey) { exists i :: 0 <= i < |xs| && IsRetract(xs[i], k, o) }

  lemma RetractedSnoc(xs: seq<Line>, x: Line, k: Key, o: ObjKey)
    ensures RetractedIn(xs + [x], k, o) <==> RetractedIn(xs, k, o) || IsRetract(x, k, o)
  {
    assert (xs + [x])[|xs|] == x;
    if i :| 0 <= i < |xs| && IsRetract(xs[i], k, o) {
      assert IsRetract((xs + [x])[i], k, o);
    }
  }

  /** As the first line of a call, `x` would queue nothing. */
  predicate Quiet(d: Draft, x: Line, card: Key -> Cardinality, h: Hash)
    requires d.drained <= |d.history| && |d.history| <= U64_LIMIT
  {
    match x
    case Fact(_, _, _, _, _, _, _) => KeptOf(d, x, card, h) == []
    case Close(_, k, elem, _, _) => (card(k).One? <==> elem.None?) && ClosedAlready(Observe(Drained(d), h), x)
    case Retract(_, k, _) => card(k).Many?
    case NodeLine(_, _, _) => true
  }

  /** The key that the last retract line of `xs` marks: it removes something unless the element has no live
      tag or was retracted before. */
  function Marked(d: Draft, xs: seq<Line>): set<Key>
    requires |d.history| <= U64_LIMIT
    decreases |xs|
  {
    if xs == [] then {}
    else
      var n := |xs| - 1;
      var x := xs[n];
      if !x.Retract? then Marked(d, xs[..n])
      else if HasTags(d.history, x.key, x.obj) && !RetractedIn(xs[..n], x.key, x.obj) then {x.key}
      else {}
  }

  predicate Unmarked(d: Draft, xs: seq<Line>, x: Line)
    requires |d.history| <= U64_LIMIT
  {
    x.Fact? || x.Close? ==> x.key !in Marked(d, xs)
  }

  /** Every line is quiet, and asserts or closes nothing on the key that the last retract line before it marks. */
  predicate AllQuiet(d: Draft, xs: seq<Line>, card: Key -> Cardinality, h: Hash)
    requires d.drained <= |d.history| && |d.history| <= U64_LIMIT
  {
    forall m :: 0 <= m < |xs| ==> Quiet(d, xs[m], card, h) && Unmarked(d, xs[..m], xs[m])
  }

  // --- what a retraction does to live tags -----------------------------------------------------

  lemma TagsFromAdds(f: State, k: Key, o: ObjKey)
    ensures LiveTags(f, k, o) != [] <==> exists ok :: ok in LiveElem(f, k, o) && LiveElem(f, k, o)[ok].obj.Some?
  {
    if LiveTags(f, k, o) != [] {
      var ok := LiveTags(f, k, o)[0];
      assert ok in LiveTags(f, k, o);
      TagsAreAdds(f, k, o, ok);
    }
    if ok :| ok in LiveElem(f, k, o) && LiveElem(f, k, o)[ok].obj.Some? {
      TagsAreAdds(f, k, o, ok);
    }
  }

  lemma RetractionTags(f: State, history: seq<Record>, k: Key, o: ObjKey, x: ObjKey)
    requires k in f.keys ==> KeyTraced(f.keys[k], k, history) && f.keys[k].ManyState?
    ensures var g := Apply(f, Op.RemoveMany(k, LiveTags(f, k, o)));
      LiveTags(g, k, x) != [] <==> LiveTags(f, k, x) != [] && x != o
  {
    hide LiveTags;
    var g := Apply(f, Op.RemoveMany(k, LiveTags(f, k, o)));
    TagsFromAdds(f, k, x);
    TagsFromAdds(g, k, x);
    if k in f.keys && x in f.keys[k].elems {
      var st := f.keys[k];
      assert g.keys[k] == st.(removes := st.removes + set t | t in LiveTags(f, k, o));
      if x == o {
        OwnTagsRemoved(st, f, k, o);
        var live := Live(st.elems[o], st.removes + (set t | t in LiveTags(f, k, o)), st.hd);
        assert LiveElem(g, k, x) == live;
        assert forall ok :: ok in live ==> live[ok].obj.None?;
      } else {
        OtherTagsKept(st, f, history, k, o, x);
        assert LiveElem(g, k, x) == LiveElem(f, k, x);
      }
    } else {
      assert LiveElem(f, k, x) == map[];
      assert LiveElem(g, k, x) == map[];
    }
  }

  lemma SameKeyTags(f: State, g: State, k: Key, o: ObjKey)
    requires Get(f.keys, k) == Get(g.keys, k)
    ensures LiveTags(f, k, o) == LiveTags(g, k, o)
  {
    assert k in f.keys <==> k in g.keys;
    assert LiveElem(f, k, o) == LiveElem(g, k, o);
  }

  /** A retraction takes the tags of its own element and no others. */
  lemma TagsAfter(es: seq<Entry>, x: Line, k: Key, o: ObjKey, card: Key -> Cardinality)
    requires x.Retract? && card(x.key).Many? && Sound(es, card) && |es| < U64_LIMIT
    ensures var tags := LiveTags(FoldOf(Records(es)), x.key, x.obj);
      HasTags(es + [Entry(Retraction(x.source, x.key, tags), x.obj)], k, o) <==> HasTags(es, k, o) && !IsRetract(x, k, o)
  {
    hide FoldOf, LiveTags, Sound;
    var f, rs := FoldOf(Records(es)), Records(es);
    var r := Retraction(x.source, x.key, LiveTags(f, x.key, x.obj));
    FoldOfMore(es, Entry(r, x.obj), card);
    if k == x.key {
      RetractionTags(f, rs, k, x.obj, o);
    } else {
      OtherEntries(f, OpOf(rs, r), k);
      SameKeyTags(f, ApplyLabeled(f, OpOf(rs, r)), k, o);
    }
  }

  /** A node attribute leaves every tag alone. */
  lemma TagsAfterAttr(es: seq<Entry>, e: Entry, k: Key, o: ObjKey, card: Key -> Cardinality)
    requires Sound(es, card) && |es| < U64_LIMIT && (e.record.kind.SetNodeType? || e.record.kind.SetNodeLabel?)
    ensures HasTags(es + [e], k, o) <==> HasTags(es, k, o)
  {
    hide FoldOf, LiveTags, Sound;
    var f, lop := FoldOf(Records(es)), OpOf(Records(es), e.record);
    FoldOfMore(es, e, card);
    OtherEntries(f, lop, k);
    SameKeyTags(f, ApplyLabeled(f, lop), k, o);
  }

  // --- a quiet call drains nothing -------------------------------------------------------------

  /** Where quiet lines `xs` lead from a rested store `d`. */
  ghost predicate QuietAt(c: Draft, d: Draft, xs: seq<Line>, card: Key -> Cardinality) {
    && Orderly(c, card) && |c.history| <= U64_LIMIT
    && c.batch == [] && c.drained == |d.history| && d.history <= c.history
    && c.dirty == Marked(d, xs)
    && forall k, o :: TagsAt(c, d, xs, k, o)
  }

  predicate TagsAt(c: Draft, d: Draft, xs: seq<Line>, k: Key, o: ObjKey)
    requires |c.history| <= U64_LIMIT && |d.history| <= U64_LIMIT && c.drained <= |c.history|
  {
    && (HasTags(c.history, k, o) <==> HasTags(d.history, k, o) && !RetractedIn(xs, k, o))
    && (RemovalWaits(c, k, o) <==> HasTags(d.history, k, o) && RetractedIn(xs, k, o))
  }

  lemma QuietStart(d: Draft, limit: nat, card: Key -> Cardinality, h: Hash)
    requires Rested(d, card) && Room(d, 0)
    ensures TakeAll(d, [], limit, card, h) == Going(d) && QuietAt(d, d, [], card)
  {
  }

  lemma SameDrained(c: Draft, d: Draft, xs: seq<Line>, card: Key -> Cardinality)
    requires QuietAt(c, d, xs, card) && d.drained == |d.history|
    ensures c.drained <= |c.history| && Drained(c) == Drained(d)
  {
    assert c.history[..c.drained] == d.history[..d.drained];
  }

  /** A quiet assertion or close leaves the draft as it is. */
  lemma QuietSkips(c: Draft, d: Draft, xs: seq<Line>, x: Line, limit: nat, card: Key -> Cardinality, h: Hash)
    requires Rested(d, card) && QuietAt(c, d, xs, card) && Room(c, Most(x)) && |d.history| <= U64_LIMIT
    requires x.Fact? || x.Close?
    requires Quiet(d, x, card, h) && Unmarked(d, xs, x)
    ensures Take(c, x, limit, card, h) == Going(c)
  {
    SameDrained(c, d, xs, card);
    hide Observe, FoldOf, ClosedAlready, RepeatsHead, Asserted, KeptProps, Orderly, TagsAt, Drained;
    assert x.key !in c.dirty && x.key !in d.dirty;
    if x.Fact? {
      assert FactSkipped(c, x, card, h) == FactSkipped(d, x, card, h);
      assert KeptOf(c, x, card, h) == KeptOf(d, x, card, h) == [];
    }
  }

  lemma SkippedAt(c: Draft, d: Draft, xs: seq<Line>, x: Line, card: Key -> Cardinality)
    requires QuietAt(c, d, xs, card) && |d.history| <= U64_LIMIT && !x.Retract?
    ensures QuietAt(c, d, xs + [x], card)
  {
    hide HasTags, Orderly, RemovalWaits;
    assert (xs + [x])[..|xs|] == xs;
    forall k, o
      ensures TagsAt(c, d, xs + [x], k, o)
    {
      RetractedSnoc(xs, x, k, o);
      assert TagsAt(c, d, xs, k, o);
    }
  }

  lemma NoRemoval(e: Entry, k: Key, o: ObjKey)
    ensures RemovalIn([e], k, o) <==> RemovesElem(e, k, o)
  {
    assert [e][0] == e;
  }

  /** One more node attribute, or none, in the history. */
  lemma AttrAt(c: Draft, n: Draft, d: Draft, xs: seq<Line>, e: Entry, card: Key -> Cardinality, k: Key, o: ObjKey)
    requires Sound(c.history, card) && |c.history| < U64_LIMIT && |d.history| <= U64_LIMIT && c.drained <= |c.history|
    requires TagsAt(c, d, xs, k, o) && (e.record.kind.SetNodeType? || e.record.kind.SetNodeLabel?)
    requires n.drained == c.drained && (n.history == c.history || n.history == c.history + [e])
    ensures TagsAt(n, d, xs, k, o)
  {
    hide HasTags, Sound, RemovalIn;
    if n.history != c.history {
      TagsAfterAttr(c.history, e, k, o, card);
      assert n.history[n.drained..] == c.history[c.drained..] + [e];
      RemovalConcat(c.history[c.drained..], [e], k, o);
      NoRemoval(e, k, o);
    }
  }

  lemma NodeTags(c: Draft, d: Draft, xs: seq<Line>, x: Line, limit: nat, card: Key -> Cardinality, k: Key, o: ObjKey)
    requires x.NodeLine? && Room(c, 2) && |d.history| <= U64_LIMIT && TakeNode(c, x, limit).Going?
    requires Sound(TakeNode(c, x, limit).draft.history, card) && TagsAt(c, d, xs, k, o)
    ensures TagsAt(TakeNode(c, x, limit).draft, d, xs, k, o)
  {
    hide Sound, TagsAt;
    var t, n := TakeType(c, x, limit).draft, TakeNode(c, x, limit).draft;
    SoundPrefix(n.history, |c.history|, card);
    SoundPrefix(n.history, |t.history|, card);
    assert n.history[..|c.history|] == c.history && n.history[..|t.history|] == t.history;
    var none := Entry(Record(0, WriteKind.SetNodeType(x.node, 0), None), NoElem);
    AttrAt(c, t, d, xs, if x.ty.Some? then TypeEntry(x) else none, card, k, o);
    AttrAt(t, n, d, xs, if x.access.Some? then LabelEntry(x) else none, card, k, o);
  }

  lemma QuietNode(c: Draft, d: Draft, xs: seq<Line>, x: Line, limit: nat, card: Key -> Cardinality)
    requires QuietAt(c, d, xs, card) && x.NodeLine? && Room(c, 2) && |d.history| <= U64_LIMIT
    requires TakeNode(c, x, limit).Going? && Orderly(TakeNode(c, x, limit).draft, card)
    ensures QuietAt(TakeNode(c, x, limit).draft, d, xs + [x], card)
  {
    hide TagsAt, Marked, Sound, SameAttrs, TakeNode;
    NodeAppends(c, x, limit);
    var n := TakeNode(c, x, limit).draft;
    assert |n.history| <= U64_LIMIT by {
      DrainedSound(n, card);
    }
    forall k, o
      ensures TagsAt(n, d, xs, k, o)
    {
      assert TagsAt(c, d, xs, k, o);
      NodeTags(c, d, xs, x, limit, card, k, o);
    }
    SkippedAt(n, d, xs, x, card);
  }

  /** A retract line finds nothing to flush; it appends a removal exactly when the element has tags left. */
  lemma RetractTags(c: Draft, d: Draft, xs: seq<Line>, x: Line, limit: nat, card: Key -> Cardinality, k: Key, o: ObjKey)
    requires x.Retract? && card(x.key).Many? && Sound(c.history, card) && |c.history| < U64_LIMIT
    requires c.drained <= |c.history| && |d.history| <= U64_LIMIT && Retracted(c, x, limit).Going?
    requires TagsAt(c, d, xs, k, o) && TagsAt(c, d, xs, x.key, x.obj)
    ensures TagsAt(Retracted(c, x, limit).draft, d, xs + [x], k, o)
  {
    hide Sound, RemovalIn, FoldOf, LiveTags;
    var n := Retracted(c, x, limit).draft;
    RetractedSnoc(xs, x, k, o);
    if HasTags(c.history, x.key, x.obj) {
      TagsAfter(c.history, x, k, o, card);
      var e := n.history[|c.history|];
      assert n.history == c.history + [e] && n.history[n.drained..] == c.history[c.drained..] + [e];
      RemovalConcat(c.history[c.drained..], [e], k, o);
      NoRemoval(e, k, o);
    }
  }

  lemma QuietRetract(c: Draft, d: Draft, xs: seq<Line>, x: Line, limit: nat, card: Key -> Cardinality)
    requires QuietAt(c, d, xs, card) && x.Retract? && card(x.key).Many? && Room(c, 1) && |d.history| <= U64_LIMIT
    requires TakeRetract(c, x, limit, card).Going? && Orderly(TakeRetract(c, x, limit, card).draft, card)
    ensures QuietAt(TakeRetract(c, x, limit, card).draft, d, xs + [x], card)
  {
    hide TagsAt, Sound, SameAttrs, FoldOf, LiveTags;
    var a, n := c.(dirty := {}), TakeRetract(c, x, limit, card).draft;
    assert n == Retracted(a, x, limit).draft;
    forall k, o
      ensures TagsAt(n, d, xs + [x], k, o)
    {
      assert TagsAt(c, d, xs, k, o) && TagsAt(c, d, xs, x.key, x.obj);
      SameTags(c, a, d, xs, k, o);
      SameTags(c, a, d, xs, x.key, x.obj);
      RetractTags(a, d, xs, x, limit, card, k, o);
    }
    assert (xs + [x])[..|xs|] == xs;
    assert TagsAt(c, d, xs, x.key, x.obj);
    MarksOwn(c, d, xs, x);
  }

  lemma SameTags(c: Draft, a: Draft, d: Draft, xs: seq<Line>, k: Key, o: ObjKey)
    requires |c.history| <= U64_LIMIT && |d.history| <= U64_LIMIT && c.drained <= |c.history|
    requires a.history == c.history && a.drained == c.drained
    ensures TagsAt(a, d, xs, k, o) == TagsAt(c, d, xs, k, o)
  {
  }

  lemma MarksOwn(c: Draft, d: Draft, xs: seq<Line>, x: Line)
    requires x.Retract? && |c.history| <= U64_LIMIT && |d.history| <= U64_LIMIT && c.drained <= |c.history|
    requires TagsAt(c, d, xs, x.key, x.obj)
    ensures Marked(d, xs + [x]) ==
      if LiveTags(FoldOf(Records(c.history)), x.key, x.obj) == [] then {} else {x.key}
  {
    hide FoldOf, LiveTags;
    assert (xs + [x])[..|xs|] == xs;
  }

  /** One more quiet line. */
  lemma QuietStep(c: Draft, d: Draft, xs: seq<Line>, x: Line, limit: nat, card: Key -> Cardinality, h: Hash)
    requires Rested(d, card) && |d.history| <= U64_LIMIT && QuietAt(c, d, xs, card) && Room(c, Most(x))
    requires Quiet(d, x, card, h) && Unmarked(d, xs, x) && Take(c, x, limit, card, h).Going?
    ensures QuietAt(Take(c, x, limit, card, h).draft, d, xs + [x], card)
  {
    assert Orderly(c, card);
    TakeByKind(c, x, limit, card, h);
    hide Take, Orderly, TakeNode, TakeRetract, KeptOf, ClosedAlready, Drained, TagsAt, Marked;
    TakeOrderly(c, x, limit, card, h);
    match x
    case Retract(_, _, _) => QuietRetract(c, d, xs, x, limit, card);
    case NodeLine(_, _, _) => QuietNode(c, d, xs, x, limit, card);
    case _ =>
      QuietSkips(c, d, xs, x, limit, card, h);
      SkippedAt(c, d, xs, x, card);
  }

  /** Quiet lines queue and drain nothing: only their retractions and node attributes are appended. */
  lemma {:induction false} QuietRun(d: Draft, xs: seq<Line>, limit: nat, card: Key -> Cardinality, h: Hash)
    requires Rested(d, card) && Room(d, MostOf(xs)) && AllQuiet(d, xs, card, h)
    requires TakeAll(d, xs, limit, card, h).Going?
    ensures QuietAt(TakeAll(d, xs, limit, card, h).draft, d, xs, card)
    decreases |xs|
  {
    hide Take, Quiet, Unmarked, QuietAt, Rested, TakeAll;
    if xs == [] {
      QuietStart(d, limit, card, h);
    } else {
      var n := |xs| - 1;
      var rest, x := xs[..n], xs[n];
      assert xs == rest + [x];
      MostOfSnoc(rest, x);
      TakeAllPrefix(d, xs, n, limit, card, h);
      forall m | 0 <= m < n
        ensures Quiet(d, rest[m], card, h) && Unmarked(d, rest[..m], rest[m])
      {
        assert rest[m] == xs[m] && rest[..m] == xs[..m];
      }
      QuietRun(d, rest, limit, card, h);
      TakeAllSnoc(d, rest, x, limit, card, h);
      QuietStep(TakeAll(d, rest, limit, card, h).draft, d, rest, x, limit, card, h);
    }
  }

  lemma AssertedHasTags(d: Draft, x: Line)
    requires x.Fact? && d.drained == |d.history| <= U64_LIMIT && Asserted(Drained(d), x)
    ensures HasTags(d.history, x.key, x.obj)
  {
    assert d.history[..d.drained] == d.history;
    var f := FoldOf(Records(d.history));
    hide FoldOf, LiveTags;
    SortRowsCorrect(LiveElem(f, x.key, x.obj));
    var rows := Interpreter.ElemRows(f, x.key, x.obj);
    var r := Last(rows);
    assert r in rows;
    TagsAreAdds(f, x.key, x.obj, r.ok);
  }

  /** Exactly what a fact line loses after quiet lines on a rested store, told before the call: the store has a
      matching live row, an earlier line retracts the element, and the last retract line before the fact does
      not mark its key. */
  lemma QuietLossIff(d: Draft, xs: seq<Line>, l: nat, k: Key, o: ObjKey, limit: nat, card: Key -> Cardinality, h: Hash)
    requires Rested(d, card) && Room(d, MostOf(xs)) && TakeAll(d, xs, limit, card, h).Going? && card(k) == Many
    requires l < |xs| && IsFact(xs[l], k, o) && AllQuiet(d, xs[..l], card, h)
    requires forall m :: l < m < |xs| ==> !Names(xs[m], k, o)
    ensures (k, o) in LostAll({}, d, xs, limit, card, h) <==>
      Asserted(Drained(d), xs[l]) && RetractedIn(xs[..l], k, o) && k !in Marked(d, xs[..l])
  {
    hide Take, TakeAll, LostAll, Orderly, AllQuiet, Asserted, Marked, RetractedIn, HasTags, RemovalWaits, DraftAt,
         Drained;
    var c := DraftAt(d, xs, l, limit, card, h);
    LostAllIff({}, d, xs, k, o, limit, card, h);
    TakeAllPrefix(d, xs, l, limit, card, h);
    QuietRun(d, xs[..l], limit, card, h);
    SameDrained(c, d, xs[..l], card);
    assert TagsAt(c, d, xs[..l], k, o);
    if Asserted(Drained(d), xs[l]) {
      AssertedHasTags(d, xs[l]);
    }
    assert LostAt(d, xs, l, k, o, limit, card, h) <==> Loses(c, xs[l]);
    assert Names(xs[l], k, o) && forall m :: 0 <= m < |xs| && IsFact(xs[m], k, o) ==> Names(xs[m], k, o);
  }
}
