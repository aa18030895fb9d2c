/** Sending the same facts again: what an ingest call wrote is recognised, and a second call appends nothing. */
module Resending {
  import opened Types
  import opened Rows
  import opened Folds
  import opened FoldLaws
  import opened Snapshots
  import opened Collection
  import opened Changelogs
  import opened Engines
  import opened Interpreter
  import opened Mask
  import opened Ledger
  import opened Ingest
  import opened Suppression
  import opened Losses
  import opened Answers
  import opened ManySkips
  import opened StoppedCalls

  // --- a line that the store holds -------------------------------------------------------------

  /** A line that writes a row: a fact, or a close of the right kind for its key. */
  predicate WritesRow(x: Line, card: Key -> Cardinality) { x.Fact? || (x.Close? && (card(x.key).One? <==> x.elem.None?)) }

  /** The version that the line writes. */
  function LineVersion(x: Line): Version
    requires x.Fact? || x.Close?
  {
    if x.Fact? then Version(Some(x.obj), x.validFrom, x.validTo) else Version(None, x.validFrom, None)
  }

  /** The row says what the line says, under the same label; a fact also from the same source. */
  predicate SaysLine(f: State, r: Row, x: Line)
    requires x.Fact? || x.Close?
  {
    && (if x.Fact? then r.v == LineVersion(x) && r.ok.source == x.source
        else r.v.obj.None? && r.v.validFrom == x.validFrom)
    && Get(StoredLabels(f, x.key), r.ok) == x.access
  }

  /** The rows among which a line is looked for: of its One key, or of its element. */
  function RowsOn(f: State, x: Line, card: Key -> Cardinality): seq<Row>
    requires WritesRow(x, card)
  {
    if card(x.key).One? then OneRows(f, x.key) else Interpreter.ElemRows(f, x.key, ElemOf(x))
  }

  /** The last row says what the line says; for a fact about an element, any row does while the element is present. */
  predicate Held(f: State, x: Line, card: Key -> Cardinality)
    requires WritesRow(x, card)
  {
    var rows := RowsOn(f, x, card);
    && rows != []
    && if x.Fact? && card(x.key).Many?
       then Last(rows).v.obj.Some? && exists i :: 0 <= i < |rows| && rows[i].v.obj.Some? && SaysElement(f, rows[i], x)
       else SaysLine(f, Last(rows), x)
  }

  /** An add row of the line's source, interval and label. */
  predicate SaysElement(f: State, r: Row, x: Line)
    requires x.Fact?
  {
    && r.v.validFrom == x.validFrom && r.v.validTo == x.validTo && r.ok.source == x.source
    && Get(StoredLabels(f, x.key), r.ok) == x.access
  }

  /** Stored labels belong to records of the history. */
  lemma {:induction false} StoredTraced(es: seq<Entry>, k: Key, card: Key -> Cardinality)
    requires Sound(es, card)
    ensures forall ok :: ok in StoredLabels(FoldOf(Records(es)), k) ==> ok.tx as int < |es|
    decreases |es|
  {
    if es != [] {
      var n := |es| - 1;
      SoundPrefix(es, n, card);
      StoredTraced(es[..n], k, card);
      LastTyped(es, card);
      assert es == es[..n] + [es[n]];
      FoldOfMore(es[..n], es[n], card);
      hide FoldOf, Sound, Traced;
      StoredStep(FoldOf(Records(es[..n])), Records(es[..n]), es[n].record, k);
    }
  }

  lemma LastTyped(es: seq<Entry>, card: Key -> Cardinality)
    requires Sound(es, card) && es != []
    ensures TypedRecord(es[|es| - 1].record, card)
  {
    assert Records(es)[|es| - 1] == es[|es| - 1].record;
  }

  /** One more record stores a label at most for its own row, under the key it writes. */
  lemma StoredStep(f: State, rs: seq<Record>, r: Record, k: Key)
    requires |rs| < U64_LIMIT
    ensures var g, n := ApplyLabeled(f, OpOf(rs, r)), |rs| as u64;
      && (forall ok :: ok != OrderKey(n, r.source, n) ==> Get(StoredLabels(g, k), ok) == Get(StoredLabels(f, k), ok))
      && (WrittenKey(r.kind) != Some(k) || !OpOf(rs, r).op.WritesRow() ==> StoredLabels(g, k) == StoredLabels(f, k))
      && (WrittenKey(r.kind) == Some(k) && OpOf(rs, r).op.WritesRow() && r.access.Some? ==>
           Get(StoredLabels(g, k), OrderKey(n, r.source, n)) == r.access)
      && (r.access.None? ==> StoredLabels(g, k) == StoredLabels(f, k))
  {
    var op := OpOf(rs, r).op;
    LabelsApplied(f, OpOf(rs, r), k);
    hide ApplyLabeled, Apply;
  }

  lemma LabelsApplied(f: State, lop: LabeledOp, k: Key)
    ensures StoredLabels(ApplyLabeled(f, lop), k) ==
      if lop.access.Some? && lop.op.WritesRow() && lop.op.key == k
      then StoredLabels(f, k)[lop.op.ok := lop.access.value] else StoredLabels(f, k)
  {
    hide ApplyKey;
  }

  // --- writing a line makes it held ------------------------------------------------------------

  function LineEntry(x: Line, card: Key -> Cardinality): Entry
    requires x.Fact? || x.Close?
  {
    Entry(Written(x, card), NoElem)
  }

  /** The key of the row that the line writes as record `n`. */
  function LineKey(n: nat, x: Line): OrderKey
    requires (x.Fact? || x.Close?) && n < U64_LIMIT
  {
    OrderKey(n as u64, x.source, n as u64)
  }

  lemma LineTyped(x: Line, card: Key -> Cardinality)
    requires WritesRow(x, card)
    ensures var r := Written(x, card);
      && TypedRecord(r, card) && r.kind.key == x.key && r.source == x.source && r.access == x.access
      && (if card(x.key).One? then r.kind.SetOne? || r.kind.CloseOne?
          else (r.kind.AddMany? || r.kind.CloseMany?) && r.kind.obj == ElemOf(x))
  {
  }

  /** A further row of a One key comes last among its rows. */
  lemma OneOnTop(es: seq<Entry>, x: Line, card: Key -> Cardinality)
    requires Sound(es, card) && |es| < U64_LIMIT && WritesRow(x, card) && card(x.key).One?
    ensures OneRows(FoldOf(Records(es + [LineEntry(x, card)])), x.key)
         == OneRows(FoldOf(Records(es)), x.key) + [Row(LineKey(|es|, x), LineVersion(x))]
  {
    var e, f := LineEntry(x, card), FoldOf(Records(es));
    LineTyped(x, card);
    FoldOfMore(es, e, card);
    KeysApplied(f, Records(es), e.record);
    hide FoldOf, Sound, ApplyLabeled, TypedState;
    var op := OpOf(Records(es), e.record).op;
    TracedOne(f, Records(es), x.key, card);
    OneStep(f, FoldOf(Records(es + [e])), Records(es), x.key, op.ok, op.RowVersion());
  }

  lemma TracedOne(f: State, rs: seq<Record>, k: Key, card: Key -> Cardinality)
    requires Traced(f, rs) && TypedState(f, card) && card(k).One?
    ensures k in f.keys ==> f.keys[k].OneState? && KeyTraced(f.keys[k], k, rs)
  {
  }

  /** The row of the line comes last, under the line's source and label. */
  lemma LineOnTop(es: seq<Entry>, x: Line, card: Key -> Cardinality)
    requires Sound(es, card) && |es| < U64_LIMIT && WritesRow(x, card)
    ensures var f, g := FoldOf(Records(es)), FoldOf(Records(es + [LineEntry(x, card)]));
      && RowsOn(g, x, card) == RowsOn(f, x, card) + [Row(LineKey(|es|, x), LineVersion(x))]
      && Get(StoredLabels(g, x.key), LineKey(|es|, x)) == x.access
  {
    var e, f := LineEntry(x, card), FoldOf(Records(es));
    LineTyped(x, card);
    FoldOfMore(es, e, card);
    StoredTraced(es, x.key, card);
    StoredStep(f, Records(es), e.record, x.key);
    RowWritten(Records(es), x, card);
    hide FoldOf, Sound, ApplyLabeled, TypedState, Traced, OneRows, LiveElem, StoredLabels;
    if card(x.key).One? {
      OneOnTop(es, x, card);
    } else {
      RowOnTop(es, e, card);
    }
  }

  lemma RowWritten(rs: seq<Record>, x: Line, card: Key -> Cardinality)
    requires |rs| < U64_LIMIT && WritesRow(x, card)
    ensures OpOf(rs, Written(x, card)).op.WritesRow()
  {
  }

  lemma FreshHeld(es: seq<Entry>, x: Line, card: Key -> Cardinality)
    requires Sound(es, card) && |es| < U64_LIMIT && WritesRow(x, card)
    ensures Held(FoldOf(Records(es + [LineEntry(x, card)])), x, card)
  {
    hide FoldOf, Sound, RowsOn, StoredLabels;
    LineOnTop(es, x, card);
    var g := FoldOf(Records(es + [LineEntry(x, card)]));
    var rows := RowsOn(g, x, card);
    assert SaysLine(g, rows[|rows| - 1], x);
    if x.Fact? {
      assert SaysElement(g, rows[|rows| - 1], x);
    }
  }

  // --- what leaves it held ---------------------------------------------------------------------

  /** The entry writes no row that could come after the line's, and removes none that the line needs. */
  predicate Spares(e: Entry, x: Line, card: Key -> Cardinality)
    requires WritesRow(x, card)
  {
    var w := e.record.kind;
    || WrittenKey(w) != Some(x.key)
    || w.SetEdgeProp?
    || (card(x.key).Many? && (w.AddMany? || w.CloseMany?) && w.obj != ElemOf(x))
    || (card(x.key).Many? && w.RemoveMany? && (x.Close? || e.elem != ElemOf(x)))
  }

  /** The same rows with the same labels say the same. */
  lemma SameRowsHeld(f: State, g: State, x: Line, card: Key -> Cardinality)
    requires WritesRow(x, card) && Held(f, x, card) && RowsOn(g, x, card) == RowsOn(f, x, card)
    requires forall r :: r in RowsOn(f, x, card) ==> Get(StoredLabels(g, x.key), r.ok) == Get(StoredLabels(f, x.key), r.ok)
    ensures Held(g, x, card)
  {
    hide RowsOn, StoredLabels;
    var rows := RowsOn(f, x, card);
    if x.Fact? && card(x.key).Many? {
      var i :| 0 <= i < |rows| && rows[i].v.obj.Some? && SaysElement(f, rows[i], x);
      assert rows[i] in rows && SaysElement(g, rows[i], x);
    } else {
      assert Last(rows) in rows;
    }
  }

  /** Every row was written by a record of the history. */
  lemma RowsTraced(es: seq<Entry>, x: Line, card: Key -> Cardinality)
    requires Sound(es, card) && WritesRow(x, card)
    ensures forall r :: r in RowsOn(FoldOf(Records(es)), x, card) ==> r.ok.tx as int < |es|
  {
    hide FoldOf, LiveTags;
    var f, k := FoldOf(Records(es)), x.key;
    HistoryMatches(Records(es), Elements(es), card);
    FoldOfTyped(Records(es), card);
    hide Sound, Matches;
    if card(k).One? {
      SortRowsCorrect(LiveOne(f, k));
      TracedOne(f, Records(es), k, card);
    } else {
      SortRowsCorrect(LiveElem(f, k, ElemOf(x)));
      forall r | r in RowsOn(f, x, card)
        ensures r.ok.tx as int < |es|
      {
        assert KeyTraced(f.keys[k], k, Records(es)) && r.ok in f.keys[k].elems[ElemOf(x)];
        assert ElemRow(r.ok, Records(es), k, ElemOf(x));
      }
    }
  }

  lemma LabelsKept(es: seq<Entry>, e: Entry, x: Line, card: Key -> Cardinality)
    requires Sound(es, card) && |es| < U64_LIMIT && TypedRecord(e.record, card) && WritesRow(x, card)
    ensures var f, g := FoldOf(Records(es)), FoldOf(Records(es + [e]));
      forall r :: r in RowsOn(f, x, card) ==> Get(StoredLabels(g, x.key), r.ok) == Get(StoredLabels(f, x.key), r.ok)
  {
    RowsTraced(es, x, card);
    FoldOfMore(es, e, card);
    hide FoldOf, Sound, TypedRecord, RowsOn, Traced;
    StoredStep(FoldOf(Records(es)), Records(es), e.record, x.key);
  }

  /** A write to another key, or of an edge property, keeps the rows. */
  lemma RowsElsewhere(es: seq<Entry>, e: Entry, x: Line, card: Key -> Cardinality)
    requires Sound(es, card) && |es| < U64_LIMIT && TypedRecord(e.record, card) && WritesRow(x, card)
    requires WrittenKey(e.record.kind) != Some(x.key) || e.record.kind.SetEdgeProp?
    ensures RowsOn(FoldOf(Records(es + [e])), x, card) == RowsOn(FoldOf(Records(es)), x, card)
  {
    var f, g := FoldOf(Records(es)), FoldOf(Records(es + [e]));
    FoldOfMore(es, e, card);
    assert Get(g.keys, x.key) == Get(f.keys, x.key) by {
      if e.record.kind.SetEdgeProp? {
        StoresApplied(f, Records(es), e.record);
      } else {
        OnlyWrittenKey(f, OpOf(Records(es), e.record), Blank, e.record.kind, e.elem, |es| as u64, e.record, x.key);
      }
    }
    hide FoldOf, Sound, TypedRecord, ApplyLabeled, Traced;
    SameKeyRows(f, g, x.key);
    if card(x.key).Many? {
      assert LiveElem(f, x.key, ElemOf(x)) == LiveElem(g, x.key, ElemOf(x));
    }
  }

  /** The key state after a retraction of an element. */
  lemma Removed(es: seq<Entry>, e: Entry, k: Key, card: Key -> Cardinality)
    requires Sound(es, card) && |es| < U64_LIMIT && TypedRecord(e.record, card) && card(k).Many?
    requires e.record.kind.RemoveMany? && e.record.kind.key == k && Resolves(es, e)
    ensures var f, g := FoldOf(Records(es)), FoldOf(Records(es + [e]));
      var st := GetOr(f.keys, k, NewKeyState(Many));
      && (k in f.keys ==> st.ManyState? && KeyTraced(st, k, Records(es)))
      && Get(g.keys, k) == Some(st.(removes := st.removes + set t | t in LiveTags(f, k, e.elem)))
  {
    var f := FoldOf(Records(es));
    FoldOfMore(es, e, card);
    KeysApplied(f, Records(es), e.record);
    hide FoldOf, Sound, ApplyLabeled, LiveTags;
    ManyTyped(f, k, card);
  }

  lemma ManyTyped(f: State, k: Key, card: Key -> Cardinality)
    requires TypedState(f, card) && card(k).Many?
    ensures k in f.keys ==> f.keys[k].ManyState?
  {
  }

  /** Removing another element keeps the rows. */
  lemma RowsBeside(es: seq<Entry>, e: Entry, k: Key, o: ObjKey, card: Key -> Cardinality)
    requires Sound(es, card) && |es| < U64_LIMIT && TypedRecord(e.record, card) && card(k).Many?
    requires e.record.kind.RemoveMany? && e.record.kind.key == k && e.elem != o && Resolves(es, e)
    ensures LiveElem(FoldOf(Records(es + [e])), k, o) == LiveElem(FoldOf(Records(es)), k, o)
  {
    hide FoldOf, Sound, LiveTags, TypedRecord, Resolves, KeyTraced;
    var f := FoldOf(Records(es));
    Removed(es, e, k, card);
    if k in f.keys && o in f.keys[k].elems {
      OtherTagsKept(f.keys[k], f, Records(es), k, e.elem, o);
    }
  }

  /** A retraction removes only adds, so a close that is last among the rows stays so. */
  lemma CloseOutlives(es: seq<Entry>, e: Entry, k: Key, o: ObjKey, card: Key -> Cardinality)
    requires Sound(es, card) && |es| < U64_LIMIT && TypedRecord(e.record, card) && card(k).Many?
    requires e.record.kind.RemoveMany? && e.record.kind.key == k && e.elem == o && Resolves(es, e)
    requires var rows := Interpreter.ElemRows(FoldOf(Records(es)), k, o); rows != [] && Last(rows).v.obj.None?
    ensures var rows, more := Interpreter.ElemRows(FoldOf(Records(es)), k, o),
        Interpreter.ElemRows(FoldOf(Records(es + [e])), k, o);
      more != [] && Last(more) == Last(rows)
  {
    hide FoldOf, Sound, LiveTags, TypedRecord, Resolves, KeyTraced;
    var f, g := FoldOf(Records(es)), FoldOf(Records(es + [e]));
    var last := Last(Interpreter.ElemRows(f, k, o));
    Removed(es, e, k, card);
    SortRowsCorrect(LiveElem(f, k, o));
    assert last in Interpreter.ElemRows(f, k, o);
    TagsAreAdds(f, k, o, last.ok);
    assert forall ok :: ok in LiveElem(g, k, o) ==> ok in LiveElem(f, k, o) && LiveElem(g, k, o)[ok] == LiveElem(f, k, o)[ok];
    assert last.ok in LiveElem(g, k, o);
    GreatestStays(LiveElem(f, k, o), LiveElem(g, k, o), last);
  }

  lemma GreatestStays(m: map<OrderKey, Version>, n: map<OrderKey, Version>, last: Row)
    requires SortRows(m) != [] && Last(SortRows(m)) == last
    requires last.ok in n && forall ok :: ok in n ==> ok in m && n[ok] == m[ok]
    ensures SortRows(n) != [] && Last(SortRows(n)) == last
  {
    SortRowsCorrect(m);
    LastIsGreatest(m);
    LastIsGreatest(n);
  }

  /** One more entry that spares the line. */
  lemma StepHeld(es: seq<Entry>, e: Entry, x: Line, card: Key -> Cardinality)
    requires Sound(es, card) && |es| < U64_LIMIT && TypedRecord(e.record, card) && Resolves(es, e)
    requires WritesRow(x, card) && Spares(e, x, card) && Held(FoldOf(Records(es)), x, card)
    ensures Held(FoldOf(Records(es + [e])), x, card)
  {
    var f, g, w := FoldOf(Records(es)), FoldOf(Records(es + [e])), e.record.kind;
    LabelsKept(es, e, x, card);
    hide FoldOf, Sound, TypedRecord, Resolves, StoredLabels, SaysElement;
    if WrittenKey(w) != Some(x.key) || w.SetEdgeProp? {
      RowsElsewhere(es, e, x, card);
      SameRowsHeld(f, g, x, card);
    } else if w.AddMany? || w.CloseMany? {
      OtherRows(es, e, card, ElemOf(x));
      SameRowsHeld(f, g, x, card);
    } else if e.elem != ElemOf(x) {
      RowsBeside(es, e, x.key, ElemOf(x), card);
      SameRowsHeld(f, g, x, card);
    } else {
      CloseOutlives(es, e, x.key, ElemOf(x), card);
      var rows := RowsOn(f, x, card);
      assert Last(rows) in rows;
    }
  }

  lemma SoundLast(es: seq<Entry>, card: Key -> Cardinality)
    requires Sound(es, card) && es != []
    ensures var n := |es| - 1; Sound(es[..n], card) && TypedRecord(es[n].record, card) && Resolves(es[..n], es[n])
  {
    hide FoldOf, LiveTags;
    var n := |es| - 1;
    SoundPrefix(es, n, card);
    assert Records(es)[n] == es[n].record;
  }

  /** Any number of entries that spare the line. */
  lemma {:induction false} HeldOn(es: seq<Entry>, more: seq<Entry>, x: Line, card: Key -> Cardinality)
    requires WritesRow(x, card) && Sound(es + more, card) && |es| <= U64_LIMIT && Held(FoldOf(Records(es)), x, card)
    requires forall i :: 0 <= i < |more| ==> Spares(more[i], x, card)
    ensures |es + more| <= U64_LIMIT && Held(FoldOf(Records(es + more)), x, card)
    decreases |more|
  {
    assert |Records(es + more)| <= U64_LIMIT;
    hide FoldOf, Held, Spares, Sound, Resolves, TypedRecord;
    if more == [] {
      assert es + more == es;
    } else {
      var n := |more| - 1;
      assert (es + more)[..|es| + n] == es + more[..n] && (es + more[..n]) + [more[n]] == es + more;
      SoundLast(es + more, card);
      HeldOn(es, more[..n], x, card);
      StepHeld(es + more[..n], more[n], x, card);
    }
  }

  // --- what the call decides by ----------------------------------------------------------------

  lemma LabelShown(f: State, h: Hash, k: Key, ok: OrderKey)
    requires ok in LiveKeys(f, k)
    ensures RowLabel(Observe(f, h), k, ok) == Get(StoredLabels(f, k), ok)
  {
    LabelsAt(f, k);
    assert Get(LiveLabels(f, k), ok) == Get(StoredLabels(f, k), ok);
  }

  lemma RowsLive(f: State, x: Line, card: Key -> Cardinality, r: Row)
    requires WritesRow(x, card) && r in RowsOn(f, x, card)
    ensures r.ok in LiveKeys(f, x.key)
  {
    SortRowsCorrect(LiveOne(f, x.key));
    LiveKeysFrom(f, x.key, r.ok);
    if card(x.key).Many? {
      SortRowsCorrect(LiveElem(f, x.key, ElemOf(x)));
    }
  }

  lemma OneShown(f: State, h: Hash, k: Key)
    ensures GetOr(Observe(f, h).oneHistory, k, []) == OneRows(f, k)
  {
    if k !in f.keys {
      assert LiveOne(f, k) == map[];
    }
  }

  /** A line is held exactly when the call's decision, made on the snapshot or on the fold, finds it repeated. */
  lemma HeldShown(f: State, h: Hash, x: Line, card: Key -> Cardinality)
    requires WritesRow(x, card)
    ensures x.Fact? && card(x.key).One? ==> (RepeatsHead(Observe(f, h), x) <==> Held(f, x, card))
    ensures x.Fact? && card(x.key).Many? ==> (Asserted(f, x) <==> Held(f, x, card))
    ensures x.Close? ==> (ClosedAlready(Observe(f, h), x) <==> Held(f, x, card))
  {
    var rows := RowsOn(f, x, card);
    if rows != [] {
      assert Last(rows) in rows;
      RowsLive(f, x, card, Last(rows));
      LabelShown(f, h, x.key, Last(rows).ok);
    }
    if card(x.key).One? {
      OneShown(f, h, x.key);
    } else {
      ElemShown(f, h, x.key, ElemOf(x));
    }
    hide Observe, RowLabel, LiveKeys, StoredLabels, OneRows, LiveElem, SortRows;
    if x.Fact? && card(x.key).Many? {
      AssertedHeld(f, x, card);
    }
  }

  lemma AssertedHeld(f: State, x: Line, card: Key -> Cardinality)
    requires x.Fact? && card(x.key).Many?
    ensures Asserted(f, x) <==> Held(f, x, card)
  {
    hide StoredLabels, LiveElem, SortRows;
    var rows := Interpreter.ElemRows(f, x.key, x.obj);
    if i :| 0 <= i < |rows| && AssertedBy(f, x, rows[i]) {
      assert SaysElement(f, rows[i], x);
    }
    if i :| 0 <= i < |rows| && rows[i].v.obj.Some? && SaysElement(f, rows[i], x) {
      assert AssertedBy(f, x, rows[i]);
    }
  }

  // --- drafts ----------------------------------------------------------------------------------

  /** The line is held by the engine and the waiting batch spares it, or its record waits there with only such
      records behind it that spare it. */
  ghost predicate SecureFrom(d: Draft, x: Line, card: Key -> Cardinality, i: nat)
    requires WritesRow(x, card) && |d.history| <= U64_LIMIT
  {
    && i <= |d.batch|
    && (if i == 0 then Held(FoldOf(Records(d.history)), x, card) else d.batch[i - 1] == Written(x, card))
    && forall j :: i <= j < |d.batch| ==> Spares(Entry(d.batch[j], NoElem), x, card)
  }

  ghost predicate Secure(d: Draft, x: Line, card: Key -> Cardinality)
    requires WritesRow(x, card) && |d.history| <= U64_LIMIT
  {
    exists i: nat :: SecureFrom(d, x, card, i)
  }

  /** Once all is written the line is held. */
  lemma SecureHeld(d: Draft, x: Line, card: Key -> Cardinality)
    requires Orderly(d, card) && Room(d, 0) && WritesRow(x, card) && Secure(d, x, card)
    ensures Held(FoldOf(Records(d.history + Bare(d.batch))), x, card)
  {
    hide FoldOf, Held, Spares, Sound, TypedRecord;
    var i: nat :| SecureFrom(d, x, card, i);
    GrowBatch(d, d.history, d.batch, d.dirty, card);
    if i == 0 {
      HeldOn(d.history, Bare(d.batch), x, card);
    } else {
      var a, b := d.batch[..i - 1], d.batch[i..];
      assert d.batch == a + [Written(x, card)] + b;
      assert forall j :: 0 <= j < |b| ==> b[j] == d.batch[i + j];
      WaitingHeld(d.history, a, b, x, card);
    }
  }

  lemma SoundFront(a: seq<Entry>, b: seq<Entry>, card: Key -> Cardinality)
    requires Sound(a + b, card)
    ensures Sound(a, card) && |a| + |b| <= U64_LIMIT
  {
    assert (a + b)[..|a|] == a;
    SoundPrefix(a + b, |a|, card);
  }

  /** The line's record, with some before it and some that spare it after it. */
  lemma WaitingHeld(es: seq<Entry>, a: seq<Record>, b: seq<Record>, x: Line, card: Key -> Cardinality)
    requires WritesRow(x, card) && Sound(es + Bare(a + [Written(x, card)] + b), card)
    requires forall j :: 0 <= j < |b| ==> Spares(Entry(b[j], NoElem), x, card)
    ensures var all := es + Bare(a + [Written(x, card)] + b);
      |all| <= U64_LIMIT && Held(FoldOf(Records(all)), x, card)
  {
    hide FoldOf, Held, Spares, Sound, Written;
    var before, mid := es + Bare(a), [LineEntry(x, card)];
    assert es + Bare(a + [Written(x, card)] + b) == (before + mid) + Bare(b);
    SoundFront(before + mid, Bare(b), card);
    SoundFront(before, mid, card);
    FreshHeld(before, x, card);
    HeldOn(before + mid, Bare(b), x, card);
  }

  lemma SecureFlushed(d: Draft, x: Line, limit: nat, card: Key -> Cardinality)
    requires Orderly(d, card) && Room(d, 0) && WritesRow(x, card) && Secure(d, x, card)
    ensures Flush(d, limit).Going? ==> Secure(Flush(d, limit).draft, x, card) && Secure(Clear(Flush(d, limit)).draft, x, card)
    ensures FlushFull(d, limit).Going? ==> Secure(FlushFull(d, limit).draft, x, card)
  {
    SecureHeld(d, x, card);
    hide FoldOf, Held, Spares;
    if d.batch != [] && Flush(d, limit).Going? {
      assert SecureFrom(Flush(d, limit).draft, x, card, 0);
      assert SecureFrom(Clear(Flush(d, limit)).draft, x, card, 0);
    } else if d.batch == [] {
      var i: nat :| SecureFrom(d, x, card, i);
      assert SecureFrom(d.(dirty := {}), x, card, i);
    }
  }

  lemma SecureQueued(d: Draft, rs: seq<Record>, k: Key, x: Line, card: Key -> Cardinality)
    requires WritesRow(x, card) && |d.history| <= U64_LIMIT && Secure(d, x, card)
    requires forall i :: 0 <= i < |rs| ==> Spares(Entry(rs[i], NoElem), x, card)
    ensures Secure(Queue(d, rs, k), x, card)
  {
    hide FoldOf, Held, Spares;
    var i: nat :| SecureFrom(d, x, card, i);
    assert SecureFrom(Queue(d, rs, k), x, card, i);
  }

  lemma SecureGrown(d: Draft, n: Draft, more: seq<Entry>, x: Line, card: Key -> Cardinality)
    requires WritesRow(x, card) && |d.history| <= U64_LIMIT && Secure(d, x, card)
    requires n.batch == d.batch && n.history == d.history + more && Sound(n.history, card)
    requires forall i :: 0 <= i < |more| ==> Spares(more[i], x, card)
    ensures |n.history| <= U64_LIMIT && Secure(n, x, card)
  {
    SoundFront(d.history, more, card);
    hide FoldOf, Held, Spares, Sound;
    var i: nat :| SecureFrom(d, x, card, i);
    if i == 0 {
      HeldOn(d.history, more, x, card);
    }
    assert SecureFrom(n, x, card, i);
  }

  // --- one line --------------------------------------------------------------------------------

  /** Line `y` writes nothing after `x` that could hide it. */
  predicate LineSpares(y: Line, x: Line, card: Key -> Cardinality)
    requires WritesRow(x, card)
  {
    match y
    case Fact(_, k, o, _, _, _, _) => k != x.key || (card(k).Many? && o != ElemOf(x))
    case Close(_, k, elem, _, _) => k != x.key || (card(k).Many? && elem != Some(ElemOf(x)))
    case Retract(_, k, o) => k != x.key || x.Close? || o != x.obj
    case NodeLine(_, _, _) => true
  }

  lemma {:induction false} KeptAreProps(s: Snapshot, x: Line, clean: bool, ps: seq<(Text, ObjKey)>)
    requires x.Fact?
    ensures forall r :: r in KeptProps(s, x, clean, ps) ==> r.kind.SetEdgeProp? && r.kind.key == x.key
    decreases |ps|
  {
    hide PropHeld;
    if ps != [] {
      KeptAreProps(s, x, clean, ps[..|ps| - 1]);
    }
  }

  /** What is kept of a fact line that spares the other. */
  lemma KeptSpares(d: Draft, y: Line, x: Line, card: Key -> Cardinality, h: Hash)
    requires y.Fact? && WritesRow(x, card) && LineSpares(y, x, card) && Room(d, 0)
    ensures forall i :: 0 <= i < |KeptOf(d, y, card, h)| ==> Spares(Entry(KeptOf(d, y, card, h)[i], NoElem), x, card)
  {
    hide FactSkipped, Observe, FoldOf, KeptProps;
    var props := KeptProps(Observe(Drained(d), h), y, y.key !in d.dirty, y.props);
    KeptAreProps(Observe(Drained(d), h), y, y.key !in d.dirty, y.props);
    forall i | 0 <= i < |KeptOf(d, y, card, h)|
      ensures Spares(Entry(KeptOf(d, y, card, h)[i], NoElem), x, card)
    {
      var r := KeptOf(d, y, card, h)[i];
      assert r == FactRecord(y, card) || r in props;
    }
  }

  lemma EmptySecure(d: Draft, x: Line, card: Key -> Cardinality)
    requires WritesRow(x, card) && |d.history| <= U64_LIMIT && d.batch == [] && Secure(d, x, card)
    ensures Held(FoldOf(Records(d.history)), x, card)
  {
    hide FoldOf, Held, Spares;
  }

  lemma RetractKeeps(d: Draft, y: Line, limit: nat, x: Line, card: Key -> Cardinality, h: Hash)
    requires y.Retract? && Orderly(d, card) && Room(d, 1) && WritesRow(x, card) && LineSpares(y, x, card)
    requires Secure(d, x, card) && Take(d, y, limit, card, h).Going?
    ensures var n := Take(d, y, limit, card, h).draft; |n.history| <= U64_LIMIT && Secure(n, x, card)
  {
    TakeOrderly(d, y, limit, card, h);
    TakeByKind(d, y, limit, card, h);
    SecureFlushed(d, x, limit, card);
    FlushRoom(d, limit, 1);
    hide Take, FoldOf, LiveTags, Secure, Flush, Sound, Retracted, InterpretAll;
    var c := Clear(Flush(d, limit)).draft;
    assert Take(d, y, limit, card, h) == Retracted(c, y, limit) && card(y.key).Many?;
    RetractedKeeps(c, y, limit, x, card);
  }

  lemma RetractedKeeps(c: Draft, y: Line, limit: nat, x: Line, card: Key -> Cardinality)
    requires y.Retract? && card(y.key).Many? && c.drained <= |c.history| < U64_LIMIT && Retracted(c, y, limit).Going?
    requires Sound(Retracted(c, y, limit).draft.history, card)
    requires WritesRow(x, card) && LineSpares(y, x, card) && Secure(c, x, card)
    ensures var n := Retracted(c, y, limit).draft; |n.history| <= U64_LIMIT && Secure(n, x, card)
  {
    hide FoldOf, Held, Spares, LiveTags, Secure, Sound, LineSpares;
    var n := Retracted(c, y, limit).draft;
    if n.history != c.history {
      var e := n.history[|c.history|];
      assert n.history == c.history + [e] && e.elem == y.obj;
      RetractionSpares(e, y, x, card);
      SecureGrown(c, n, [e], x, card);
    } else {
      SecureMarked(c, n, x, card);
    }
  }

  /** Which keys are marked does not matter. */
  lemma SecureMarked(c: Draft, n: Draft, x: Line, card: Key -> Cardinality)
    requires WritesRow(x, card) && |c.history| <= U64_LIMIT && Secure(c, x, card)
    requires n.history == c.history && n.batch == c.batch
    ensures Secure(n, x, card)
  {
    hide FoldOf, Held, Spares;
    var i: nat :| SecureFrom(c, x, card, i);
    assert SecureFrom(n, x, card, i);
  }

  lemma RetractionSpares(e: Entry, y: Line, x: Line, card: Key -> Cardinality)
    requires y.Retract? && e.record.kind.RemoveMany? && e.record.kind.key == y.key && e.elem == y.obj && card(y.key).Many?
    requires WritesRow(x, card) && LineSpares(y, x, card)
    ensures Spares(e, x, card)
  {
  }

  lemma NodeKeeps(d: Draft, y: Line, limit: nat, x: Line, card: Key -> Cardinality, h: Hash)
    requires y.NodeLine? && Orderly(d, card) && Room(d, 2) && WritesRow(x, card)
    requires Secure(d, x, card) && Take(d, y, limit, card, h).Going?
    ensures var n := Take(d, y, limit, card, h).draft; |n.history| <= U64_LIMIT && Secure(n, x, card)
  {
    TakeOrderly(d, y, limit, card, h);
    TakeByKind(d, y, limit, card, h);
    NodeAppends(d, y, limit);
    hide Take, TakeNode, FoldOf, Held, Secure;
    var n := TakeNode(d, y, limit).draft;
    var more := n.history[|d.history|..];
    assert forall i :: 0 <= i < |more| ==> more[i] == n.history[|d.history| + i];
    assert n.history == d.history + more;
    SecureGrown(d, n, more, x, card);
  }

  /** What a fact line queues, before the batch may be flushed. */
  lemma FactQueue(d: Draft, y: Line, card: Key -> Cardinality, h: Hash)
    requires y.Fact? && Orderly(d, card) && Room(d, Most(y))
    ensures var q := Queue(d, KeptOf(d, y, card, h), y.key); Orderly(q, card) && Room(q, 0)
  {
    FactQueued(d, y, card, h);
    KeptPropsFewer(Observe(Drained(d), h), y, y.key !in d.dirty, y.props);
    hide FactSkipped, Observe, FoldOf, KeptProps, Orderly, Queued;
    QueueKeeps(d, KeptOf(d, y, card, h), y.key, card);
  }

  lemma FactKeeps(d: Draft, y: Line, limit: nat, x: Line, card: Key -> Cardinality, h: Hash)
    requires y.Fact? && Orderly(d, card) && Room(d, Most(y)) && WritesRow(x, card) && LineSpares(y, x, card)
    requires Secure(d, x, card) && Take(d, y, limit, card, h).Going?
    ensures var n := Take(d, y, limit, card, h).draft; |n.history| <= U64_LIMIT && Secure(n, x, card)
  {
    TakeRoom(d, y, limit, card, h, 0);
    KeptSpares(d, y, x, card, h);
    FactQueue(d, y, card, h);
    hide KeptOf, FlushFull, Secure, Spares, Orderly;
    SecureQueued(d, KeptOf(d, y, card, h), y.key, x, card);
    SecureFlushed(Queue(d, KeptOf(d, y, card, h), y.key), x, limit, card);
  }

  lemma CloseKeeps(d: Draft, y: Line, limit: nat, x: Line, card: Key -> Cardinality, h: Hash)
    requires y.Close? && Orderly(d, card) && Room(d, 1) && WritesRow(x, card) && LineSpares(y, x, card)
    requires Secure(d, x, card) && Take(d, y, limit, card, h).Going?
    ensures var n := Take(d, y, limit, card, h).draft; |n.history| <= U64_LIMIT && Secure(n, x, card)
  {
    TakeRoom(d, y, limit, card, h, 0);
    TakeByKind(d, y, limit, card, h);
    hide Take, FlushFull, Secure, Orderly, ClosedAlready, Observe, FoldOf;
    SecureFlushed(d, x, limit, card);
    if WritesRow(y, card) {
      var q := Queue(d, [CloseRecord(y)], y.key);
      CloseQueued(y, card);
      QueueKeeps(d, [CloseRecord(y)], y.key, card);
      assert Spares(Entry(CloseRecord(y), NoElem), x, card);
      SecureQueued(d, [CloseRecord(y)], y.key, x, card);
      SecureFlushed(q, x, limit, card);
    }
  }

  /** A line that spares another leaves it secure. */
  lemma TakeKeeps(d: Draft, y: Line, limit: nat, x: Line, card: Key -> Cardinality, h: Hash)
    requires Orderly(d, card) && Room(d, Most(y)) && WritesRow(x, card) && LineSpares(y, x, card)
    requires Secure(d, x, card) && Take(d, y, limit, card, h).Going?
    ensures var n := Take(d, y, limit, card, h).draft; |n.history| <= U64_LIMIT && Secure(n, x, card)
  {
    TakeRoom(d, y, limit, card, h, 0);
    hide Take, Secure, Orderly, LineSpares;
    match y
    case Fact(_, _, _, _, _, _, _) => FactKeeps(d, y, limit, x, card, h);
    case Close(_, _, _, _, _) => CloseKeeps(d, y, limit, x, card, h);
    case Retract(_, _, _) => RetractKeeps(d, y, limit, x, card, h);
    case NodeLine(_, _, _) => NodeKeeps(d, y, limit, x, card, h);
  }

  // --- a line taken is secure ------------------------------------------------------------------

  /** The line is found repeated. */
  predicate Repeated(d: Draft, x: Line, card: Key -> Cardinality, h: Hash)
    requires WritesRow(x, card) && d.drained <= |d.history| <= U64_LIMIT
  {
    if x.Fact? then FactSkipped(d, x, card, h) else x.key !in d.dirty && ClosedAlready(Observe(Drained(d), h), x)
  }

  lemma RepeatedHeld(d: Draft, x: Line, card: Key -> Cardinality, h: Hash)
    requires WritesRow(x, card) && d.drained <= |d.history| <= U64_LIMIT
    ensures Repeated(d, x, card, h) <==> x.key !in d.dirty && Held(Drained(d), x, card)
  {
    hide Observe, FoldOf, Held, Asserted, RepeatsHead, ClosedAlready;
    HeldShown(Drained(d), h, x, card);
  }

  /** What waits behind a clean key spares a line on it, unless it removes the element of a fact. */
  lemma CleanSpares(d: Draft, x: Line, card: Key -> Cardinality)
    requires Orderly(d, card) && WritesRow(x, card) && x.key !in d.dirty
    requires x.Fact? && card(x.key).Many? ==> !RemovalWaits(d, x.key, x.obj)
    ensures forall i :: 0 <= i < |d.batch| ==> Spares(Entry(d.batch[i], NoElem), x, card)
    ensures forall i :: d.drained <= i < |d.history| ==> Spares(d.history[i], x, card)
  {
    forall i | 0 <= i < |d.batch|
      ensures Spares(Entry(d.batch[i], NoElem), x, card)
    {
      assert d.batch[i] in d.batch && Queued(d.batch[i], d.dirty, card);
    }
    var tail := d.history[d.drained..];
    forall i | d.drained <= i < |d.history|
      ensures Spares(d.history[i], x, card)
    {
      var e := d.history[i];
      assert tail[i - d.drained] == e && Direct(e.record.kind);
      EntryTypedAt(d.history, i, card);
      if e.record.kind.RemoveMany? && e.record.kind.key == x.key && x.Fact? {
        assert !RemovesElem(tail[i - d.drained], x.key, x.obj);
      }
    }
  }

  lemma EntryTypedAt(es: seq<Entry>, i: nat, card: Key -> Cardinality)
    requires Sound(es, card) && i < |es|
    ensures TypedRecord(es[i].record, card)
    ensures es[i].record.kind.RemoveMany? ==> card(es[i].record.kind.key).Many?
  {
    assert Records(es)[i] == es[i].record;
  }

  /** A line found repeated was secure already. */
  lemma RepeatedSecure(d: Draft, x: Line, card: Key -> Cardinality, h: Hash)
    requires Orderly(d, card) && Room(d, 0) && WritesRow(x, card) && Repeated(d, x, card, h)
    requires x.Fact? && card(x.key).Many? ==> !Loses(d, x)
    ensures Secure(d, x, card)
  {
    RepeatedHeld(d, x, card, h);
    if x.Fact? && card(x.key).Many? {
      NoRemovalWaits(d, x, card, h);
    }
    hide Observe, FoldOf, Held, Repeated, Loses, RemovalWaits;
    CleanSpares(d, x, card);
    hide Spares, Orderly;
    DrainedHeldOn(d, x, card);
    assert SecureFrom(d, x, card, 0);
  }

  lemma NoRemovalWaits(d: Draft, x: Line, card: Key -> Cardinality, h: Hash)
    requires Room(d, 0) && x.Fact? && Repeated(d, x, card, h) && !Loses(d, x) && card(x.key).Many?
    ensures !RemovalWaits(d, x.key, x.obj)
  {
    hide FoldOf, Observe, RemovalWaits, Asserted;
  }

  lemma DrainedHeldOn(d: Draft, x: Line, card: Key -> Cardinality)
    requires Orderly(d, card) && Room(d, 0) && WritesRow(x, card) && Held(Drained(d), x, card)
    requires forall i :: d.drained <= i < |d.history| ==> Spares(d.history[i], x, card)
    ensures Held(FoldOf(Records(d.history)), x, card)
  {
    hide FoldOf, Held, Spares, Sound;
    var front, tail := d.history[..d.drained], d.history[d.drained..];
    assert d.history == front + tail;
    assert forall i :: 0 <= i < |tail| ==> tail[i] == d.history[d.drained + i];
    HeldOn(front, tail, x, card);
  }

  /** A fact line and what it queues. */
  lemma FactSecures(d: Draft, x: Line, limit: nat, card: Key -> Cardinality, h: Hash)
    requires x.Fact? && Orderly(d, card) && Room(d, Most(x)) && Take(d, x, limit, card, h).Going?
    requires card(x.key).Many? ==> !Loses(d, x)
    ensures var n := Take(d, x, limit, card, h).draft; |n.history| <= U64_LIMIT && Secure(n, x, card)
  {
    TakeRoom(d, x, limit, card, h, 0);
    FactQueue(d, x, card, h);
    var props := KeptProps(Observe(Drained(d), h), x, x.key !in d.dirty, x.props);
    KeptAreProps(Observe(Drained(d), h), x, x.key !in d.dirty, x.props);
    assert forall i :: 0 <= i < |props| ==> props[i] in props && Spares(Entry(props[i], NoElem), x, card);
    var q := Queue(d, KeptOf(d, x, card, h), x.key);
    if FactSkipped(d, x, card, h) {
      RepeatedSecure(d, x, card, h);
      hide FactSkipped, KeptProps, Secure, Spares, Orderly, Loses, FlushFull;
      assert KeptOf(d, x, card, h) == [] + props == props;
      SecureQueued(d, props, x.key, x, card);
      SecureFlushed(q, x, limit, card);
    } else {
      hide FactSkipped, KeptProps, Spares, Orderly, Loses, FlushFull, Observe, FoldOf, Held;
      assert q.batch == d.batch + ([FactRecord(x, card)] + props);
      assert SecureFrom(q, x, card, |d.batch| + 1);
      hide Secure;
      SecureFlushed(q, x, limit, card);
    }
  }

  lemma CloseSecures(d: Draft, x: Line, limit: nat, card: Key -> Cardinality, h: Hash)
    requires x.Close? && Orderly(d, card) && Room(d, 1) && Take(d, x, limit, card, h).Going?
    ensures WritesRow(x, card)
    ensures var n := Take(d, x, limit, card, h).draft; |n.history| <= U64_LIMIT && Secure(n, x, card)
  {
    TakeRoom(d, x, limit, card, h, 0);
    TakeByKind(d, x, limit, card, h);
    hide Take, FlushFull, Observe, FoldOf, ClosedAlready, Held, Spares;
    assert WritesRow(x, card);
    if Repeated(d, x, card, h) {
      RepeatedSecure(d, x, card, h);
      hide Secure, Orderly;
      SecureFlushed(d, x, limit, card);
    } else {
      var q := Queue(d, [CloseRecord(x)], x.key);
      CloseQueued(x, card);
      assert SecureFrom(q, x, card, |d.batch| + 1);
      hide Secure, Orderly;
      QueueKeeps(d, [CloseRecord(x)], x.key, card);
      SecureFlushed(q, x, limit, card);
    }
  }

  /** What is secure when a call ends is found repeated afterwards. */
  lemma FinishRepeats(d: Draft, limit: nat, x: Line, card: Key -> Cardinality, h: Hash)
    requires Orderly(d, card) && Room(d, 0) && WritesRow(x, card) && Secure(d, x, card) && Finish(d, limit).Going?
    ensures var n := Finish(d, limit).draft; n.drained <= |n.history| <= U64_LIMIT && Repeated(n, x, card, h)
  {
    FlushRoom(d, limit, 0);
    SecureFlushed(d, x, limit, card);
    hide FoldOf, Held, Secure, Observe, Repeated;
    var c, n := Flush(d, limit).draft, Finish(d, limit).draft;
    assert c.batch == [] && n.history == c.history && n.drained == |n.history| && n.dirty == {};
    EmptySecure(c, x, card);
    assert n.history[..n.drained] == n.history;
    RepeatedHeld(n, x, card, h);
  }

  // --- the same line again ---------------------------------------------------------------------

  /** An element that a lost assertion left absent is not found asserted. */
  lemma LostNotRepeated(d: Draft, x: Line, limit: nat, card: Key -> Cardinality, h: Hash)
    requires x.Fact? && card(x.key).Many? && Orderly(d, card) && Room(d, Most(x)) && Loses(d, x)
    requires Take(d, x, limit, card, h).Going?
    requires Room(Take(d, x, limit, card, h).draft, 0) && Finish(Take(d, x, limit, card, h).draft, limit).Going?
    ensures var n := Finish(Take(d, x, limit, card, h).draft, limit).draft;
      n.drained <= |n.history| <= U64_LIMIT && !Repeated(n, x, card, h)
  {
    var c := Take(d, x, limit, card, h).draft;
    var n := Finish(c, limit).draft;
    OwnHistory(d, card);
    LosesIff(d, x, card, h);
    TakeFollows(d, d.history + Bare(d.batch), {}, x, limit, card, h);
    hide Take, Finish, Orderly, Follows, Loses, FoldOf, Observe;
    var es := AppendLine(d.history + Bare(d.batch), x, card);
    FlushRoom(c, limit, 0);
    FinishRests(c, es, LostAfter({}, d, x, card, h), limit, card);
    LostAbsent(n, es, LostAfter({}, d, x, card, h), x, card);
    RestedDrained(n, card);
    RepeatedHeld(n, x, card, h);
    AssertedHeld(Drained(n), x, card);
  }

  lemma RestedDrained(n: Draft, card: Key -> Cardinality)
    requires Rested(n, card)
    ensures n.history[..n.drained] == n.history && Sound(n.history, card) && n.batch == []
  {
  }

  lemma LostAbsent(n: Draft, es: seq<Entry>, lost: set<(Key, ObjKey)>, x: Line, card: Key -> Cardinality)
    requires x.Fact? && card(x.key).Many? && Rested(n, card) && Follows(n, es, lost, card) && (x.key, x.obj) in lost
    ensures |n.history| <= U64_LIMIT && !Asserted(FoldOf(Records(n.history)), x)
  {
    RestedDrained(n, card);
    PendingAgrees(n, es, lost, card, x.key);
    PendingNothing(n, x.key);
    assert Lacks(Pending(n, x.key).present, Facts(es, x.key).present, x.obj, true);
    PresenceOfHistory(n.history, x.key, card);
    hide FoldOf, Facts, FactsFrom, Interpreter.ElemRows;
  }

  /** A fact or close taken in a call that ends is found repeated afterwards, so that sending it again writes no row; only
      a fact that was itself skipped while a removal of its element waited is not. */
  lemma LineTwice(d: Draft, x: Line, limit: nat, card: Key -> Cardinality, h: Hash)
    requires Orderly(d, card) && Room(d, Most(x)) && (x.Fact? || x.Close?) && Take(d, x, limit, card, h).Going?
    requires Room(Take(d, x, limit, card, h).draft, 0) && Finish(Take(d, x, limit, card, h).draft, limit).Going?
    ensures WritesRow(x, card)
    ensures var n := Finish(Take(d, x, limit, card, h).draft, limit).draft;
      && n.drained <= |n.history| <= U64_LIMIT
      && (Repeated(n, x, card, h) <==> !(x.Fact? && card(x.key).Many? && Loses(d, x)))
  {
    var c := Take(d, x, limit, card, h).draft;
    TakeOrderly(d, x, limit, card, h);
    hide Take, Finish, Orderly, Secure, Repeated, Loses;
    if x.Close? {
      CloseSecures(d, x, limit, card, h);
      FinishRepeats(c, limit, x, card, h);
    } else if card(x.key).Many? && Loses(d, x) {
      LostNotRepeated(d, x, limit, card, h);
    } else {
      FactSecures(d, x, limit, card, h);
      FinishRepeats(c, limit, x, card, h);
    }
  }

  // --- a whole call again ----------------------------------------------------------------------

  /** Lines that all spare a line leave it secure. */
  lemma {:induction false} SecureThrough(d: Draft, xs: seq<Line>, limit: nat, x: Line, card: Key -> Cardinality, h: Hash)
    requires Orderly(d, card) && Room(d, MostOf(xs)) && WritesRow(x, card) && Secure(d, x, card)
    requires (forall i :: 0 <= i < |xs| ==> LineSpares(xs[i], x, card)) && TakeAll(d, xs, limit, card, h).Going?
    ensures var n := TakeAll(d, xs, limit, card, h).draft; |n.history| <= U64_LIMIT && Secure(n, x, card)
    decreases |xs|
  {
    hide Orderly, Take, Secure, LineSpares;
    if xs != [] {
      TakeRoom(d, xs[0], limit, card, h, MostOf(xs[1..]));
      TakeOrderly(d, xs[0], limit, card, h);
      TakeKeeps(d, xs[0], limit, x, card, h);
      SecureThrough(Take(d, xs[0], limit, card, h).draft, xs[1..], limit, x, card, h);
    }
  }

  /** Facts and closes, none of which writes to the One key, or to the element of the Many key, of one before it. */
  ghost predicate Independent(xs: seq<Line>, card: Key -> Cardinality) {
    && (forall i :: 0 <= i < |xs| ==> WritesRow(xs[i], card))
    && (forall i, j :: 0 <= i < j < |xs| ==> LineSpares(xs[j], xs[i], card))
  }

  lemma IndependentRest(xs: seq<Line>, card: Key -> Cardinality)
    requires Independent(xs, card) && xs != []
    ensures Independent(xs[1..], card) && WritesRow(xs[0], card)
    ensures forall i :: 0 <= i < |xs[1..]| ==> LineSpares(xs[1..][i], xs[0], card)
  {
    hide LineSpares, WritesRow;
    var rest := xs[1..];
    assert forall i :: 0 <= i < |rest| ==> rest[i] == xs[i + 1];
  }

  ghost predicate NoneWaits(d: Draft)
    requires d.drained <= |d.history|
  {
    forall k, o :: !RemovalWaits(d, k, o)
  }

  /** A fact or close line makes no removal wait. */
  lemma StillNoneWaits(d: Draft, x: Line, limit: nat, card: Key -> Cardinality, h: Hash)
    requires Room(d, Most(x)) && Take(d, x, limit, card, h).Going? && !x.Retract? && NoneWaits(d)
    ensures var n := Take(d, x, limit, card, h).draft; n.drained <= |n.history| && NoneWaits(n)
  {
    TakeRoom(d, x, limit, card, h, 0);
    hide Take, RemovalWaits;
    var n := Take(d, x, limit, card, h).draft;
    forall k, o
      ensures !RemovalWaits(n, k, o)
    {
      WaitsStep(d, x, limit, card, h, k, o);
    }
  }

  lemma OneSecures(d: Draft, x: Line, limit: nat, card: Key -> Cardinality, h: Hash)
    requires Orderly(d, card) && Room(d, Most(x)) && WritesRow(x, card) && NoneWaits(d)
    requires Take(d, x, limit, card, h).Going?
    ensures var n := Take(d, x, limit, card, h).draft; |n.history| <= U64_LIMIT && Secure(n, x, card)
  {
    hide Take, Secure, Orderly, RemovalWaits, Asserted, FoldOf;
    if x.Fact? {
      FactSecures(d, x, limit, card, h);
    } else {
      CloseSecures(d, x, limit, card, h);
    }
  }

  ghost predicate EachSecure(n: Draft, xs: seq<Line>, card: Key -> Cardinality) {
    |n.history| <= U64_LIMIT && forall i :: 0 <= i < |xs| ==> WritesRow(xs[i], card) && Secure(n, xs[i], card)
  }

  lemma EachMore(n: Draft, xs: seq<Line>, card: Key -> Cardinality)
    requires xs != [] && EachSecure(n, xs[1..], card) && WritesRow(xs[0], card) && Secure(n, xs[0], card)
    ensures EachSecure(n, xs, card)
  {
    hide Secure;
    var rest := xs[1..];
    forall i | 0 <= i < |xs|
      ensures WritesRow(xs[i], card) && Secure(n, xs[i], card)
    {
      assert i > 0 ==> xs[i] == rest[i - 1];
    }
  }

  lemma NoneSecure(n: Draft, card: Key -> Cardinality)
    requires Room(n, 0)
    ensures EachSecure(n, [], card)
  {
  }

  lemma {:induction false} AllSecure(d: Draft, xs: seq<Line>, limit: nat, card: Key -> Cardinality, h: Hash)
    requires Orderly(d, card) && Room(d, MostOf(xs)) && NoneWaits(d) && Independent(xs, card)
    requires TakeAll(d, xs, limit, card, h).Going?
    ensures EachSecure(TakeAll(d, xs, limit, card, h).draft, xs, card)
    decreases |xs|
  {
    hide Orderly, Take, Secure, Independent, NoneWaits, LineSpares, EachSecure;
    if xs == [] {
      NoneSecure(d, card);
    } else {
      IndependentRest(xs, card);
      var c, rest := Take(d, xs[0], limit, card, h).draft, xs[1..];
      TakeRoom(d, xs[0], limit, card, h, MostOf(rest));
      TakeOrderly(d, xs[0], limit, card, h);
      StillNoneWaits(d, xs[0], limit, card, h);
      OneSecures(d, xs[0], limit, card, h);
      SecureThrough(c, rest, limit, xs[0], card, h);
      AllSecure(c, rest, limit, card, h);
      EachMore(TakeAll(d, xs, limit, card, h).draft, xs, card);
    }
  }

  // --- edge properties -------------------------------------------------------------------------

  /** All the properties of the line hold. */
  predicate PropsIn(props: PropValues, x: Line)
    requires x.Fact?
  {
    forall i :: 0 <= i < |x.props| ==> Get(GetOr(props, x.obj, map[]), x.props[i].0) == Some(x.props[i].1)
  }

  lemma {:induction false} PropsWritten(f: KeyFacts, x: Line, ps: seq<(Text, ObjKey)>)
    requires x.Fact? && DistinctNames(ps)
    ensures var g := FactsFrom(f, Bare(AllProps(x, ps)), x.key);
      forall i :: 0 <= i < |ps| ==> Get(GetOr(g.props, x.obj, map[]), ps[i].0) == Some(ps[i].1)
    decreases |ps|
  {
    if ps != [] {
      var n := |ps| - 1;
      PropsWritten(f, x, ps[..n]);
      PropsSnoc(f, x, AllProps(x, ps[..n]), ps[n]);
    }
  }

  /** What appending a line to everything leaves of a key's properties. */
  lemma AppendedProps(es: seq<Entry>, x: Line, card: Key -> Cardinality)
    requires x.Fact? && |es| + Most(x) <= U64_LIMIT
    ensures PropsIn(Facts(AppendLine(es, x, card), x.key).props, x)
  {
    hide Absorb;
    var r := FactRecord(x, card);
    BareConcat([r], AllProps(x, x.props));
    FactsConcat(Nothing, es, Bare([r] + AllProps(x, x.props)), x.key);
    FactsConcat(Facts(es, x.key), Bare([r]), Bare(AllProps(x, x.props)), x.key);
    PropsWritten(FactsFrom(Facts(es, x.key), Bare([r]), x.key), x, x.props);
  }

  /** A line that spares another leaves its properties as they are. */
  lemma SparedProps(es: seq<Entry>, y: Line, x: Line, card: Key -> Cardinality)
    requires x.Fact? && |es| + Most(y) <= U64_LIMIT && LineSpares(y, x, card) && (y.Fact? || y.Close?)
    requires PropsIn(Facts(es, x.key).props, x)
    ensures PropsIn(Facts(AppendLine(es, y, card), x.key).props, x)
  {
    if y.Close? {
      BareConcat([], [CloseRecord(y)]);
      FactsConcat(Nothing, es, Bare([CloseRecord(y)]), x.key);
      BareOne(Facts(es, x.key), CloseRecord(y), x.key);
    } else {
      var all := [FactRecord(y, card)] + AllProps(y, y.props);
      FactsConcat(Nothing, es, Bare(all), x.key);
      if y.key == x.key {
        hide Absorb;
        BareConcat([FactRecord(y, card)], AllProps(y, y.props));
        FactsConcat(Facts(es, x.key), Bare([FactRecord(y, card)]), Bare(AllProps(y, y.props)), x.key);
        BareOne(Facts(es, x.key), FactRecord(y, card), x.key);
        BodyKeepsProps(Facts(es, x.key), FactRecord(y, card), x.key);
        OtherProps(FactsFrom(Facts(es, x.key), Bare([FactRecord(y, card)]), x.key), y, y.props, x.obj);
      } else {
        AllUntouched(Facts(es, x.key), y, x.key, card);
      }
    }
  }

  lemma AllUntouched(f: KeyFacts, y: Line, k: Key, card: Key -> Cardinality)
    requires y.Fact? && y.key != k
    ensures FactsFrom(f, Bare([FactRecord(y, card)] + AllProps(y, y.props)), k) == f
  {
    var all := [FactRecord(y, card)] + AllProps(y, y.props);
    AllAreProps(y, y.props);
    forall i | 0 <= i < |all|
      ensures WrittenKey(Bare(all)[i].record.kind) != Some(k)
    {
      assert all[i] == FactRecord(y, card) || all[i] in AllProps(y, y.props);
    }
    FactsUntouched(f, Bare(all), k);
  }

  lemma {:induction false} AllAreProps(x: Line, ps: seq<(Text, ObjKey)>)
    requires x.Fact?
    ensures forall r :: r in AllProps(x, ps) ==> r.kind.SetEdgeProp? && r.kind.key == x.key
    decreases |ps|
  {
    if ps != [] {
      AllAreProps(x, ps[..|ps| - 1]);
    }
  }

  lemma {:induction false} OtherProps(f: KeyFacts, y: Line, ps: seq<(Text, ObjKey)>, o: ObjKey)
    requires y.Fact? && o != y.obj
    ensures GetOr(FactsFrom(f, Bare(AllProps(y, ps)), y.key).props, o, map[]) == GetOr(f.props, o, map[])
    decreases |ps|
  {
    if ps == [] {
      assert Bare(AllProps(y, ps)) == [];
    } else {
      var n := |ps| - 1;
      OtherProps(f, y, ps[..n], o);
      PropsSnoc(f, y, AllProps(y, ps[..n]), ps[n]);
    }
  }

  ghost predicate EachProps(es: seq<Entry>, xs: seq<Line>) {
    forall i :: 0 <= i < |xs| && xs[i].Fact? ==> PropsIn(Facts(es, xs[i].key).props, xs[i])
  }

  lemma {:induction false} PropsThrough(es: seq<Entry>, xs: seq<Line>, x: Line, card: Key -> Cardinality)
    requires x.Fact? && |es| + MostOf(xs) <= U64_LIMIT && PropsIn(Facts(es, x.key).props, x)
    requires forall i :: 0 <= i < |xs| ==> (xs[i].Fact? || xs[i].Close?) && LineSpares(xs[i], x, card)
    ensures PropsIn(Facts(AppendLines(es, xs, card), x.key).props, x)
    decreases |xs|
  {
    hide PropsIn, LineSpares, AppendLine, Facts;
    if xs != [] {
      AppendLineRoom(es, xs[0], card);
      SparedProps(es, xs[0], x, card);
      PropsThrough(AppendLine(es, xs[0], card), xs[1..], x, card);
    }
  }

  lemma {:induction false} AllPropsIn(es: seq<Entry>, xs: seq<Line>, card: Key -> Cardinality)
    requires |es| + MostOf(xs) <= U64_LIMIT && Independent(xs, card)
    ensures EachProps(AppendLines(es, xs, card), xs)
    decreases |xs|
  {
    if xs != [] {
      IndependentRest(xs, card);
      WritersOnly(xs[1..], card);
      hide Independent, LineSpares, AppendLine, PropsIn, Facts, WritesRow;
      var more, rest := AppendLine(es, xs[0], card), xs[1..];
      AppendLineRoom(es, xs[0], card);
      AllPropsIn(more, rest, card);
      if xs[0].Fact? {
        AppendedProps(es, xs[0], card);
        PropsThrough(more, rest, xs[0], card);
      }
      var all := AppendLines(es, xs, card);
      forall i | 0 <= i < |xs| && xs[i].Fact?
        ensures PropsIn(Facts(all, xs[i].key).props, xs[i])
      {
        assert i > 0 ==> xs[i] == rest[i - 1];
      }
    }
  }

  lemma WritersOnly(xs: seq<Line>, card: Key -> Cardinality)
    requires Independent(xs, card)
    ensures forall i :: 0 <= i < |xs| ==> xs[i].Fact? || xs[i].Close?
  {
  }

  /** Properties that hold in the drained state are not written again. */
  lemma {:induction false} NothingKept(s: Snapshot, x: Line, ps: seq<(Text, ObjKey)>)
    requires x.Fact?
    requires forall i :: 0 <= i < |ps| ==>
      Get(GetOr(GetOr(s.edgeProps, x.key, map[]), x.obj, map[]), ps[i].0) == Some(ps[i].1)
    ensures KeptProps(s, x, true, ps) == []
    decreases |ps|
  {
    if ps != [] {
      NothingKept(s, x, ps[..|ps| - 1]);
      assert PropHeld(s, x.key, x.obj, ps[|ps| - 1]);
    }
  }

  // --- nothing is appended ---------------------------------------------------------------------

  /** The store recognises the line, and its properties. */
  predicate Recognised(n: Draft, x: Line, card: Key -> Cardinality, h: Hash) {
    && WritesRow(x, card) && n.drained <= |n.history| <= U64_LIMIT && n.dirty == {}
    && Repeated(n, x, card, h)
    && (x.Fact? ==> KeptProps(Observe(Drained(n), h), x, true, x.props) == [])
  }

  /** A recognised line changes nothing. */
  lemma RecognisedTaken(n: Draft, x: Line, limit: nat, card: Key -> Cardinality, h: Hash)
    requires Recognised(n, x, card, h) && Room(n, Most(x)) && n.batch == []
    ensures Take(n, x, limit, card, h) == Going(n)
  {
    TakeByKind(n, x, limit, card, h);
    hide FactSkipped, Observe, FoldOf, ClosedAlready, KeptProps;
    if x.Fact? {
      assert KeptOf(n, x, card, h) == [];
    }
  }

  lemma {:induction false} AllRecognisedTaken(n: Draft, xs: seq<Line>, limit: nat, card: Key -> Cardinality, h: Hash)
    requires Room(n, MostOf(xs)) && n.batch == [] && forall i :: 0 <= i < |xs| ==> Recognised(n, xs[i], card, h)
    ensures TakeAll(n, xs, limit, card, h) == Going(n)
    decreases |xs|
  {
    hide Recognised, Take;
    if xs != [] {
      TakeRoom(n, xs[0], limit, card, h, MostOf(xs[1..]));
      RecognisedTaken(n, xs[0], limit, card, h);
      AllRecognisedTaken(n, xs[1..], limit, card, h);
    }
  }

  /** After a call every one of its lines is recognised. */
  lemma CallRecognised(d: Draft, xs: seq<Line>, limit: nat, card: Key -> Cardinality, h: Hash, i: nat)
    requires Rested(d, card) && Room(d, MostOf(xs)) && Independent(xs, card) && i < |xs|
    requires Call(d, xs, limit, card, h).Going?
    ensures Recognised(Call(d, xs, limit, card, h).draft, xs[i], card, h)
  {
    hide TakeAll, Finish, Orderly, Follows, Rested, LostAll, AppendLines, Secure, Repeated, Recognised, LineSpares, Call,
         Independent, NoneWaits, Settled, KeptProps;
    var n, x := Call(d, xs, limit, card, h).draft, xs[i];
    RestedStart(d, card);
    CallSecures(d, xs, limit, card, h, i);
    CallFollows(d, d.history, {}, xs, limit, card, h);
    RestedBatch(n, card);
    if x.Fact? {
      AllPropsIn(d.history, xs, card);
      assert PropsIn(Facts(AppendLines(d.history, xs, card), x.key).props, x);
      KeptNothing(n, AppendLines(d.history, xs, card), LostAll({}, d, xs, limit, card, h), x, card, h);
    }
    MakeRecognised(n, x, card, h);
  }

  lemma CallParts(d: Draft, xs: seq<Line>, limit: nat, card: Key -> Cardinality, h: Hash)
    requires Room(d, MostOf(xs)) && Call(d, xs, limit, card, h).Going?
    ensures var p := TakeAll(d, xs, limit, card, h);
      p.Going? && Room(p.draft, 0) && Finish(p.draft, limit) == Call(d, xs, limit, card, h)
  {
    hide TakeAll, Finish;
    TakeAllRoom(d, xs, limit, card, h, 0);
  }

  /** After a call every one of its lines is found repeated. */
  lemma CallSecures(d: Draft, xs: seq<Line>, limit: nat, card: Key -> Cardinality, h: Hash, i: nat)
    requires Orderly(d, card) && NoneWaits(d) && Room(d, MostOf(xs)) && Independent(xs, card) && i < |xs|
    requires Call(d, xs, limit, card, h).Going?
    ensures var n := Call(d, xs, limit, card, h).draft;
      WritesRow(xs[i], card) && n.drained <= |n.history| <= U64_LIMIT && Repeated(n, xs[i], card, h)
  {
    hide TakeAll, Finish, Orderly, Secure, Repeated, Call, Independent, NoneWaits, Follows, LostAll, AppendLines;
    var c := TakeAll(d, xs, limit, card, h).draft;
    CallParts(d, xs, limit, card, h);
    AllSecure(d, xs, limit, card, h);
    TakeAllOrderly(d, xs, limit, card, h);
    FinishRepeats(c, limit, xs[i], card, h);
  }

  lemma {:induction false} TakeAllOrderly(d: Draft, xs: seq<Line>, limit: nat, card: Key -> Cardinality, h: Hash)
    requires Orderly(d, card) && Room(d, MostOf(xs)) && TakeAll(d, xs, limit, card, h).Going?
    ensures Orderly(TakeAll(d, xs, limit, card, h).draft, card)
    decreases |xs|
  {
    hide Orderly, Take;
    if xs != [] {
      TakeRoom(d, xs[0], limit, card, h, MostOf(xs[1..]));
      TakeOrderly(d, xs[0], limit, card, h);
      TakeAllOrderly(Take(d, xs[0], limit, card, h).draft, xs[1..], limit, card, h);
    }
  }

  lemma RestedStart(d: Draft, card: Key -> Cardinality)
    requires Rested(d, card) && Room(d, 0)
    ensures Orderly(d, card) && NoneWaits(d) && Follows(d, d.history, {}, card) && Settled(d, card)
  {
    hide Sound, InterpretAll, FoldOf, Facts, FactsFrom, Agrees;
    OwnHistory(d, card);
    assert d.history + Bare(d.batch) == d.history;
  }

  lemma RestedBatch(n: Draft, card: Key -> Cardinality)
    requires Rested(n, card)
    ensures n.batch == [] && n.dirty == {} && n.drained == |n.history| <= U64_LIMIT
  {
  }

  lemma MakeRecognised(n: Draft, x: Line, card: Key -> Cardinality, h: Hash)
    requires WritesRow(x, card) && n.drained <= |n.history| <= U64_LIMIT && n.dirty == {} && Repeated(n, x, card, h)
    requires x.Fact? ==> KeptProps(Observe(Drained(n), h), x, true, x.props) == []
    ensures Recognised(n, x, card, h)
  {
  }

  lemma KeptNothing(n: Draft, es: seq<Entry>, lost: set<(Key, ObjKey)>, x: Line, card: Key -> Cardinality, h: Hash)
    requires x.Fact? && Rested(n, card) && Follows(n, es, lost, card) && PropsIn(Facts(es, x.key).props, x)
    ensures |n.history| <= U64_LIMIT && KeptProps(Observe(Drained(n), h), x, true, x.props) == []
  {
    RestedDrained(n, card);
    PendingAgrees(n, es, lost, card, x.key);
    PendingNothing(n, x.key);
    PropsShown(n.history, x.key, card, h);
    hide Facts, FactsFrom, Observe, FoldOf, Sound, InterpretAll;
    NothingKept(Observe(Drained(n), h), x, x.props);
  }

  /** Sending the same facts and closes again appends nothing, whatever the store held before: a store that has taken a
      call of lines, none of which writes to the key or element of one before it, takes the same call again as it is. */
  lemma ResendAppendsNothing(d: Draft, xs: seq<Line>, limit: nat, card: Key -> Cardinality, h: Hash)
    requires Rested(d, card) && Room(d, MostOf(xs)) && Independent(xs, card) && Call(d, xs, limit, card, h).Going?
    requires Room(Call(d, xs, limit, card, h).draft, MostOf(xs))
    ensures var n := Call(d, xs, limit, card, h).draft; Call(n, xs, limit, card, h) == Going(n)
  {
    var n := Call(d, xs, limit, card, h).draft;
    forall i | 0 <= i < |xs|
      ensures Recognised(n, xs[i], card, h)
    {
      CallRecognised(d, xs, limit, card, h, i);
    }
    RestedStart(d, card);
    CallFollows(d, d.history, {}, xs, limit, card, h);
    RestedBatch(n, card);
    hide Recognised, TakeAll, Rested, Follows, Orderly;
    AllRecognisedTaken(n, xs, limit, card, h);
  }

  // --- what the snapshot shows of it -----------------------------------------------------------

  /** After the call the current row of the One key, or some row of the present element, has the line's object, interval,
      source and label; the current row of a closed key or element is a close from the line's start under its label. */
  lemma RepeatedShows(n: Draft, x: Line, card: Key -> Cardinality, h: Hash)
    requires WritesRow(x, card) && n.drained <= |n.history| <= U64_LIMIT && Repeated(n, x, card, h)
    ensures var s := Observe(Drained(n), h);
      var one, elem := GetOr(s.oneHistory, x.key, []), if card(x.key).Many?
        then GetOr(GetOr(s.manyHistory, x.key, map[]), ElemOf(x), []) else [];
      && (x.Fact? && card(x.key).One? ==>
           && one != [] && Last(one).v == Version(Some(x.obj), x.validFrom, x.validTo)
           && Last(one).ok.source == x.source && RowLabel(s, x.key, Last(one).ok) == x.access)
      && (x.Fact? && card(x.key).Many? ==>
           && elem != [] && Last(elem).v.obj.Some?
           && exists r :: r in elem && r.v.obj.Some? && r.v.validFrom == x.validFrom && r.v.validTo == x.validTo
                && r.ok.source == x.source && RowLabel(s, x.key, r.ok) == x.access)
      && (x.Close? ==>
           var rows := if card(x.key).One? then one else elem;
           && rows != [] && Last(rows).v.obj.None? && Last(rows).v.validFrom == x.validFrom
           && RowLabel(s, x.key, Last(rows).ok) == x.access)
  {
    hide Observe, FoldOf, RowLabel, Interpreter.ElemRows;
    if x.Fact? && card(x.key).Many? {
      AssertedShown(Drained(n), h, x);
    }
  }

  lemma AssertedShown(f: State, h: Hash, x: Line)
    requires x.Fact? && Asserted(f, x)
    ensures var s := Observe(f, h);
      var elem := GetOr(GetOr(s.manyHistory, x.key, map[]), x.obj, []);
      && elem != [] && Last(elem).v.obj.Some?
      && exists r :: r in elem && r.v.obj.Some? && r.v.validFrom == x.validFrom && r.v.validTo == x.validTo
           && r.ok.source == x.source && RowLabel(s, x.key, r.ok) == x.access
  {
    var rows := Interpreter.ElemRows(f, x.key, x.obj);
    var i :| 0 <= i < |rows| && AssertedBy(f, x, rows[i]);
    assert rows[i] in rows;
    SortRowsCorrect(LiveElem(f, x.key, x.obj));
    LiveKeysFrom(f, x.key, rows[i].ok);
    LabelShown(f, h, x.key, rows[i].ok);
    ElemShown(f, h, x.key, x.obj);
  }

  // --- where the records come from -------------------------------------------------------------

  /** The record is one that the line asks for: its source, its key, and for a row its label and content. */
  predicate FromLine(r: Record, x: Line) {
    match x
    case Fact(source, k, o, from, to, access, props) =>
      && r.source == source
      && ((r.kind == WriteKind.SetOne(k, o, from, to) && r.access == access)
          || (r.kind == WriteKind.AddMany(k, o, from, to) && r.access == access)
          || (r.access.None? && exists p :: p in props && r.kind == WriteKind.SetEdgeProp(k, o, p.0, p.1)))
    case Close(source, k, elem, from, access) =>
      && r.source == source && r.access == access
      && r.kind == if elem.None? then WriteKind.CloseOne(k, from) else WriteKind.CloseMany(k, elem.value, from)
    case Retract(source, k, _) => r.source == source && r.access.None? && r.kind.RemoveMany? && r.kind.key == k
    case NodeLine(n, ty, access) =>
      && r.source == 0 && r.access.None?
      && ((ty.Some? && r.kind == WriteKind.SetNodeType(n, ty.value))
          || (access.Some? && r.kind == WriteKind.SetNodeLabel(n, access.value)))
  }

  /** What is waiting or written after a line, beyond what was written before it. */
  ghost predicate Since(d: Draft, n: Draft, r: Record) {
    r in n.batch || exists i :: |d.history| <= i < |n.history| && n.history[i].record == r
  }

  /** Nothing waiting is lost, and whatever is new was asked for by the line. */
  ghost predicate Provenance(d: Draft, n: Draft, x: Line) {
    && d.history <= n.history
    && (forall r :: r in d.batch ==> Since(d, n, r))
    && (forall r :: Since(d, n, r) ==> r in d.batch || FromLine(r, x))
  }

  lemma QueueProvenance(d: Draft, rs: seq<Record>, k: Key, limit: nat, x: Line)
    requires d.drained <= |d.history| && (forall r :: r in rs ==> FromLine(r, x))
    requires FlushFull(Queue(d, rs, k), limit).Going?
    ensures var n := FlushFull(Queue(d, rs, k), limit).draft;
      && Provenance(d, n, x)
      && (|d.batch| + |rs| < FLUSH_AT ==> n.history == d.history && n.batch == d.batch + rs)
      && (|d.batch| + |rs| >= FLUSH_AT ==> n.batch == [] && n.drained == |n.history|)
  {
    hide FromLine;
    var q, n := Queue(d, rs, k), FlushFull(Queue(d, rs, k), limit).draft;
    assert d.batch + [] == d.batch;
    assert q.batch == d.batch + rs;
    if |q.batch| >= FLUSH_AT {
      assert n.history == d.history + Bare(q.batch);
      forall r
        ensures Since(d, n, r) <==> r in q.batch
      {
        if r in q.batch {
          var i :| 0 <= i < |q.batch| && q.batch[i] == r;
          assert n.history[|d.history| + i].record == r;
        }
      }
    }
  }

  lemma {:induction false} KeptFromLine(s: Snapshot, x: Line, clean: bool, ps: seq<(Text, ObjKey)>)
    requires x.Fact? && forall p :: p in ps ==> p in x.props
    ensures forall r :: r in KeptProps(s, x, clean, ps) ==> FromLine(r, x)
    decreases |ps|
  {
    hide PropHeld;
    if ps != [] {
      KeptFromLine(s, x, clean, ps[..|ps| - 1]);
      assert ps[|ps| - 1] in x.props;
    }
  }

  /** A line that goes on loses nothing that waited, and adds only records with its own source, key, content and label.
      The batch is flushed when it is full, and before a retraction; until then a fact or a close only waits. */
  lemma LineProvenance(d: Draft, x: Line, limit: nat, card: Key -> Cardinality, h: Hash)
    requires Room(d, Most(x)) && Take(d, x, limit, card, h).Going?
    ensures var n := Take(d, x, limit, card, h).draft;
      && Provenance(d, n, x)
      && (x.Fact? || x.Close? ==> |n.batch| < FLUSH_AT && (n.history == d.history || n.batch == []))
      && (x.Retract? ==> n.batch == [])
      && (x.NodeLine? ==> n.batch == d.batch)
  {
    TakeByKind(d, x, limit, card, h);
    hide Take, TakeClose, TakeNode, TakeRetract, Provenance;
    match x
    case Fact(_, _, _, _, _, _, _) => FactProvenance(d, x, limit, card, h);
    case Close(_, _, _, _, _) => CloseProvenance(d, x, limit, card, h);
    case Retract(_, _, _) => RetractProvenance(d, x, limit, card);
    case NodeLine(_, _, _) => NodeProvenance(d, x, limit);
  }

  lemma FactProvenance(d: Draft, x: Line, limit: nat, card: Key -> Cardinality, h: Hash)
    requires x.Fact? && Room(d, Most(x)) && Take(d, x, limit, card, h).Going?
    ensures var n := Take(d, x, limit, card, h).draft;
      Provenance(d, n, x) && |n.batch| < FLUSH_AT && (n.history == d.history || n.batch == [])
  {
    KeptFromLine(Observe(Drained(d), h), x, x.key !in d.dirty, x.props);
    hide FactSkipped, Observe, FoldOf, KeptProps, FlushFull, Queue, Provenance;
    QueueProvenance(d, KeptOf(d, x, card, h), x.key, limit, x);
  }

  lemma CloseProvenance(d: Draft, x: Line, limit: nat, card: Key -> Cardinality, h: Hash)
    requires x.Close? && Room(d, 1) && TakeClose(d, x, limit, card, h).Going?
    ensures var n := TakeClose(d, x, limit, card, h).draft;
      Provenance(d, n, x) && |n.batch| < FLUSH_AT && (n.history == d.history || n.batch == [])
  {
    hide Observe, FoldOf, ClosedAlready, FlushFull, Provenance;
    if x.key !in d.dirty && ClosedAlready(Observe(Drained(d), h), x) {
      assert Queue(d, [], x.key) == d;
      QueueProvenance(d, [], x.key, limit, x);
    } else {
      QueueProvenance(d, [CloseRecord(x)], x.key, limit, x);
    }
  }

  lemma RetractProvenance(d: Draft, x: Line, limit: nat, card: Key -> Cardinality)
    requires x.Retract? && Room(d, 1) && TakeRetract(d, x, limit, card).Going?
    ensures var n := TakeRetract(d, x, limit, card).draft; Provenance(d, n, x) && n.batch == []
  {
    hide LiveTags, FoldOf;
    var c, n := Flush(d, limit).draft, TakeRetract(d, x, limit, card).draft;
    var all := d.history + Bare(d.batch);
    assert Bare([]) == [] && d.history + [] == d.history;
    assert c.history == all && n.batch == [];
    assert n.history == all || (n.history == all + [n.history[|all|]] && FromLine(n.history[|all|].record, x));
    forall r | r in d.batch
      ensures Since(d, n, r)
    {
      var i :| 0 <= i < |d.batch| && d.batch[i] == r;
      assert n.history[|d.history| + i] == Bare(d.batch)[i];
    }
    forall r | Since(d, n, r)
      ensures r in d.batch || FromLine(r, x)
    {
      var i :| |d.history| <= i < |n.history| && n.history[i].record == r;
      if i < |all| {
        assert n.history[i] == Bare(d.batch)[i - |d.history|];
      }
    }
  }

  lemma NodeProvenance(d: Draft, x: Line, limit: nat)
    requires x.NodeLine? && d.drained <= |d.history| && TakeNode(d, x, limit).Going?
    ensures var n := TakeNode(d, x, limit).draft; Provenance(d, n, x) && n.batch == d.batch
  {
    var n := TakeNode(d, x, limit).draft;
    forall i | |d.history| <= i < |n.history|
      ensures FromLine(n.history[i].record, x)
    {
    }
  }

  // --- the other lines again -------------------------------------------------------------------

  /** Node attributes sent again are not written again. */
  lemma NodeTwice(d: Draft, x: Line, limit: nat)
    requires x.NodeLine? && d.drained <= |d.history| && TakeNode(d, x, limit).Going?
    ensures var n := TakeNode(d, x, limit).draft;
      && n.drained <= |n.history| && TakeNode(n, x, limit) == Going(n)
      && (x.ty.Some? ==> Get(n.types, x.node) == x.ty) && (x.access.Some? ==> Get(n.labels, x.node) == x.access)
  {
  }

  /** A retracted element has no live tag left, so that retracting it again writes nothing. */
  lemma RetractTwice(d: Draft, x: Line, limit: nat, card: Key -> Cardinality, h: Hash)
    requires x.Retract? && Orderly(d, card) && Room(d, 1) && Take(d, x, limit, card, h).Going?
    ensures var n := Take(d, x, limit, card, h).draft;
      && n.drained <= |n.history| <= U64_LIMIT && n.batch == []
      && LiveTags(FoldOf(Records(n.history)), x.key, x.obj) == []
      && TakeRetract(n, x, limit, card) == Going(n.(dirty := {}))
  {
    TakeOrderly(d, x, limit, card, h);
    TakeByKind(d, x, limit, card, h);
    RetractWaitsNot(d, x, limit, card);
    RetractStays(d, x, limit, card);
    var n := Take(d, x, limit, card, h).draft;
    TagsGone(d, n, x, limit, card);
    NothingToFlush(n, limit);
    hide Take, TakeRetract, FoldOf, LiveTags, Orderly;
    RetractNothing(n, x, limit, card);
  }

  lemma RetractStays(d: Draft, x: Line, limit: nat, card: Key -> Cardinality)
    requires x.Retract? && Room(d, 1) && TakeRetract(d, x, limit, card).Going?
    ensures var n := TakeRetract(d, x, limit, card).draft;
      n.drained <= |n.history| <= U64_LIMIT && card(x.key).Many?
  {
    hide FoldOf, LiveTags;
  }

  lemma RetractNothing(n: Draft, x: Line, limit: nat, card: Key -> Cardinality)
    requires x.Retract? && n.drained <= |n.history| <= U64_LIMIT && n.batch == [] && card(x.key).Many?
    requires Flush(n, limit) == Going(n) && LiveTags(FoldOf(Records(n.history)), x.key, x.obj) == []
    ensures TakeRetract(n, x, limit, card) == Going(n.(dirty := {}))
  {
    hide FoldOf, LiveTags;
  }

  lemma TagsGone(d: Draft, n: Draft, x: Line, limit: nat, card: Key -> Cardinality)
    requires x.Retract? && Room(d, 1) && TakeRetract(d, x, limit, card) == Going(n)
    requires Orderly(n, card) && |n.history| <= U64_LIMIT
    ensures LiveTags(FoldOf(Records(n.history)), x.key, x.obj) == []
  {
    hide FoldOf, LiveTags, Flush, Sound;
    FlushRoom(d, limit, 1);
    var c := Clear(Flush(d, limit)).draft;
    if n.history != c.history {
      var e := n.history[|c.history|];
      assert n.history == c.history + [e];
      NoTagsLeft(c.history, e, x.key, x.obj, card);
    }
  }

  lemma NothingToFlush(n: Draft, limit: nat)
    requires n.batch == [] && n.drained <= |n.history|
    ensures Flush(n, limit) == Going(n)
  {
  }

  lemma NoTagsLeft(es: seq<Entry>, e: Entry, k: Key, o: ObjKey, card: Key -> Cardinality)
    requires Sound(es + [e], card) && card(k).Many? && |es| < U64_LIMIT
    requires e.record.kind.RemoveMany? && e.record.kind.key == k && e.elem == o
    ensures LiveTags(FoldOf(Records(es + [e])), k, o) == []
  {
    assert (es + [e])[..|es|] == es;
    SoundLast(es + [e], card);
    hide Sound, FoldOf, LiveTags, TypedRecord;
    Removed(es, e, k, card);
    var f, g := FoldOf(Records(es)), FoldOf(Records(es + [e]));
    if LiveTags(g, k, o) != [] {
      var ok := LiveTags(g, k, o)[0];
      TagsAreAdds(g, k, o, ok);
      TagsAreAdds(f, k, o, ok);
    }
  }
}
