/**
  What the two widening passes promise (make_diagrams.py, `layout`): a drawn frame encloses the
  frames nested in it at any depth and everything drawn in it, exactly as far as these keep to
  the page's margins.
*/
module FrameEnclosure {
  import opened Optional
  import opened Diagram
  import opened DiagramLayout
  import opened FrameWidening
  import opened DiagramCheck

  // ---------------------------------------------------------------- one edge

  /** The edge of a frame that holds something reaching `lows[i]`, after both passes. */
  lemma EdgeHoldsExactly(margin: int, edge: real, lows: seq<real>, i: nat, nested: seq<real>)
    requires i < |lows|
    ensures
      var pulled := Pulled(margin as real, Rounded(Pulled(margin as real, edge, lows)) as real, nested);
      pulled <= lows[i] <==> margin as real <= lows[i]
  {
    var first := Pulled(margin as real, edge, lows);
    PulledIsLeast(margin as real, edge, lows);
    RoundingStaysWithin(first, margin);
    PulledIsLeast(margin as real, Rounded(first) as real, nested);
  }

  /** The edges of a frame and of one it nests in, both pulled from where the first pass put them. */
  lemma EdgesNestExactly(margin: real, outer: real, around: seq<real>, inner: real, within: seq<real>)
    requires inner in around && forall x :: x in within ==> x in around
    ensures Pulled(margin, outer, around) <= Pulled(margin, inner, within) <==> margin <= Pulled(margin, inner, within)
  {
    PulledIsLeast(margin, outer, around);
    PulledIsLeast(margin, inner, within);
    var i :| 0 <= i < |around| && around[i] == inner;
    if within != [] && Pulled(margin, inner, within) != Max(margin, inner) {
      var k :| 0 <= k < |within| && Pulled(margin, inner, within) == Max(margin, within[k] - PAD);
      assert within[k] in around;
    }
  }

  /** An edge leaves the page only where it was authored off it, and nothing pulled at it. */
  lemma EdgeOffExactly(margin: int, edge: real, lows: seq<real>, nested: seq<real>)
    ensures
      var pulled := Pulled(margin as real, Rounded(Pulled(margin as real, edge, lows)) as real, nested);
      pulled < margin as real - 2.0 <==> lows == [] && nested == [] && Rounded(edge) as real < margin as real - 2.0
  {
    var first := Pulled(margin as real, edge, lows);
    PulledIsLeast(margin as real, edge, lows);
    RoundingStaysWithin(first, margin);
    PulledIsLeast(margin as real, Rounded(first) as real, nested);
  }

  // ---------------------------------------------------------------- both edges

  lemma {:induction false} HeldExactly(f: FrameAt, placed: seq<Item>, n: nat)
    requires n <= |placed|
    ensures forall i :: 0 <= i < n && Holds(f, placed[i]) ==> Extent(placed[i]) in Held(f, placed, n)
    ensures Held(f, placed, n) == [] <==> forall i :: 0 <= i < n ==> !Holds(f, placed[i])
  {
    hide Holds, Extent;
    if n > 0 {
      HeldExactly(f, placed, n - 1);
    }
  }

  lemma {:induction false} NestedExactly(frames: seq<FrameAt>, spans: seq<Span>, o: nat, n: nat)
    requires o < |frames| == |spans| && n <= |frames|
    ensures forall i :: 0 <= i < n && Inside(frames[i], frames[o]) ==> spans[i] in Nested(frames, spans, o, n)
    ensures forall x :: x in Nested(frames, spans, o, n) ==>
              exists i :: 0 <= i < n && Inside(frames[i], frames[o]) && spans[i] == x
    ensures Nested(frames, spans, o, n) == [] <==> forall i :: 0 <= i < n ==> !Inside(frames[i], frames[o])
  {
    hide Inside;
    if n > 0 {
      NestedExactly(frames, spans, o, n - 1);
    }
  }

  lemma EndsOf(spans: seq<Span>, s: Span)
    requires s in spans
    ensures s.left in Lefts(spans) && -s.right in Rights(spans)
  {
    hide Lefts, Rights;
    var i :| 0 <= i < |spans| && spans[i] == s;
    assert Lefts(spans)[i] == s.left && Rights(spans)[i] == -s.right;
  }

  lemma EndsOfSome(spans: seq<Span>, more: seq<Span>)
    requires forall s :: s in spans ==> s in more
    ensures forall x :: x in Lefts(spans) ==> x in Lefts(more)
    ensures forall x :: x in Rights(spans) ==> x in Rights(more)
  {
    hide Lefts, Rights;
    forall x | x in Lefts(spans) ensures x in Lefts(more) {
      var i :| 0 <= i < |spans| && Lefts(spans)[i] == x;
      EndsOf(more, spans[i]);
    }
    forall x | x in Rights(spans) ensures x in Rights(more) {
      var i :| 0 <= i < |spans| && Rights(spans)[i] == x;
      EndsOf(more, spans[i]);
    }
  }

  /** A frame's final span, edge by edge: what the first pass leaves, pulled again by the second. */
  function LeftEnd(authored: Span, held: seq<Span>, nested: seq<Span>): real {
    Pulled(EDGE, Rounded(Pulled(EDGE, authored.left, Lefts(held))) as real, Lefts(nested))
  }

  function RightEnd(width: int, authored: Span, held: seq<Span>, nested: seq<Span>): real {
    -Pulled(Mirror(width), Rounded(Pulled(Mirror(width), -authored.right, Rights(held))) as real, Rights(nested))
  }

  lemma GrownTwice(width: int, authored: Span, held: seq<Span>, nested: seq<Span>)
    ensures Around(width, RoundedSpan(Around(width, authored, held)), nested) ==
            Span(LeftEnd(authored, held, nested), RightEnd(width, authored, held, nested))
  {
    hide Rounded, Pulled, Rights, Lefts, Mirror;
    var first := Pulled(Mirror(width), -authored.right, Rights(held));
    RoundingIsOdd(first);
    assert -RoundedSpan(Around(width, authored, held)).right == Rounded(first) as real;
  }

  lemma GrownEdges(width: int, placed: seq<Item>, frames: seq<FrameAt>, f: nat)
    requires f < |frames|
    ensures
      var spans := WidenedAll(width, placed, frames);
      var held, nested := Held(frames[f], placed, |placed|), Nested(frames, spans, f, |frames|);
      Grown(width, frames, spans, f) ==
      Span(LeftEnd(frames[f].span, held, nested), RightEnd(width, frames[f].span, held, nested))
  {
    hide RoundedSpan, Around, Held, Nested, LeftEnd, RightEnd, WidenedAll;
    var spans := WidenedAll(width, placed, frames);
    GrownTwice(width, frames[f].span, Held(frames[f], placed, |placed|), Nested(frames, spans, f, |frames|));
  }

  predicate Encloses(width: int, outer: Span, inner: Span) {
    && (outer.left <= inner.left <==> EDGE <= inner.left)
    && (inner.right <= outer.right <==> inner.right <= width as real - EDGE)
  }

  lemma EndsHoldExactly(width: int, authored: Span, held: seq<Span>, nested: seq<Span>, s: Span)
    requires s in held
    ensures Encloses(width, Span(LeftEnd(authored, held, nested), RightEnd(width, authored, held, nested)), s)
  {
    hide Pulled, Rounded, Lefts, Rights;
    var i :| 0 <= i < |held| && held[i] == s;
    EdgeHoldsExactly(10, authored.left, Lefts(held), i, Lefts(nested));
    EdgeHoldsExactly(10 - width, -authored.right, Rights(held), i, Rights(nested));
  }

  lemma HoldsItsItems(width: int, placed: seq<Item>, frames: seq<FrameAt>, f: nat, i: nat)
    requires f < |frames| && i < |placed| && Holds(frames[f], placed[i])
    ensures Encloses(width, Grown(width, frames, WidenedAll(width, placed, frames), f), Extent(placed[i]))
  {
    hide Grown, WidenedAll, Held, Nested, Extent, LeftEnd, RightEnd, Encloses;
    GrownEdges(width, placed, frames, f);
    HeldExactly(frames[f], placed, |placed|);
    EndsHoldExactly(width, frames[f].span, Held(frames[f], placed, |placed|),
                    Nested(frames, WidenedAll(width, placed, frames), f, |frames|), Extent(placed[i]));
  }

  lemma LeftsNestExactly(outer: Span, around: seq<Span>, inner: Span, within: seq<Span>)
    requires inner in around && forall s :: s in within ==> s in around
    ensures
      var left := Pulled(EDGE, inner.left, Lefts(within));
      Pulled(EDGE, outer.left, Lefts(around)) <= left <==> EDGE <= left
  {
    hide Pulled, Lefts, Rights;
    assert inner.left in Lefts(around) by { EndsOf(around, inner); }
    assert forall x :: x in Lefts(within) ==> x in Lefts(around) by { EndsOfSome(within, around); }
    EdgesNestExactly(EDGE, outer.left, Lefts(around), inner.left, Lefts(within));
  }

  lemma RightsNestExactly(width: int, outer: Span, around: seq<Span>, inner: Span, within: seq<Span>)
    requires inner in around && forall s :: s in within ==> s in around
    ensures
      var right := Pulled(Mirror(width), -inner.right, Rights(within));
      Pulled(Mirror(width), -outer.right, Rights(around)) <= right <==> Mirror(width) <= right
  {
    hide Pulled, Lefts, Rights, Mirror;
    assert -inner.right in Rights(around) by { EndsOf(around, inner); }
    assert forall x :: x in Rights(within) ==> x in Rights(around) by { EndsOfSome(within, around); }
    EdgesNestExactly(Mirror(width), -outer.right, Rights(around), -inner.right, Rights(within));
  }

  lemma EndsNestExactly(width: int, outer: Span, around: seq<Span>, inner: Span, within: seq<Span>)
    requires inner in around && forall s :: s in within ==> s in around
    ensures Encloses(width, Around(width, outer, around), Around(width, inner, within))
  {
    hide Pulled, Lefts, Rights;
    LeftsNestExactly(outer, around, inner, within);
    RightsNestExactly(width, outer, around, inner, within);
  }

  lemma HoldsItsFrames(width: int, frames: seq<FrameAt>, spans: seq<Span>, inner: nat, outer: nat)
    requires inner < |frames| == |spans| && outer < |frames| && Inside(frames[inner], frames[outer])
    ensures Encloses(width, Grown(width, frames, spans, outer), Grown(width, frames, spans, inner))
  {
    hide Nested, Around, Encloses;
    var around, within := Nested(frames, spans, outer, |frames|), Nested(frames, spans, inner, |frames|);
    NestedExactly(frames, spans, outer, |frames|);
    NestedExactly(frames, spans, inner, |frames|);
    forall x | x in within ensures x in around {
      var i :| 0 <= i < |frames| && Inside(frames[i], frames[inner]) && spans[i] == x;
      assert Inside(frames[i], frames[outer]);
    }
    EndsNestExactly(width, spans[outer], around, spans[inner], within);
  }

  // ---------------------------------------------------------------- over every table

  /** Any two frames of a diagram are one strictly inside the other or apart. */
  lemma FramesNestOrStandApart(t: Table, f: nat, g: nat)
    requires WellAuthored(t) && f < g < |Picture(t).frames|
    ensures Inside(Picture(t).frames[f], Picture(t).frames[g]) || Unrelated(Picture(t).frames[f], Picture(t).frames[g])
  {
    hide WellAuthored, Walk, FinalSheet, Picture, ItemsApart, OpenedClear, FramesClear, OpenedFamily, Grown;
    EverySheetIsTidy(t, |t.rows|);
    var frames := FinalSheet(t).frames;
    assert Inside(frames[f], frames[g]) || Unrelated(frames[f], frames[g]);
  }

  /** A drawn frame encloses what is drawn in it, exactly where that keeps to the margins. */
  lemma ItemsEnclosedExactly(t: Table, f: nat, i: nat)
    requires WellAuthored(t) && f < |Picture(t).frames| && i < |Picture(t).placed|
    requires Holds(Picture(t).frames[f], Picture(t).placed[i])
    ensures Encloses(t.width, Picture(t).frames[f].span, Extent(Picture(t).placed[i]))
  {
    hide WellAuthored, Walk, FinalSheet, Picture, Grown, WidenedAll, Encloses, Extent;
    var s := FinalSheet(t);
    HoldsItsItems(t.width, s.placed, s.frames, f, i);
  }

  /** Both ends of an arrow, or both sides of a box. */
  predicate IsEnd(item: Item, x: real) {
    if item.Arrow? then x == item.source || x == item.target else x == item.left || x == item.left + item.width
  }

  /** So of everything drawn between a frame's top and bottom: its ends are inside exactly as far as they keep to the margins. */
  lemma EndsEnclosedExactly(t: Table, f: nat, i: nat)
    requires WellAuthored(t) && f < |Picture(t).frames| && i < |Picture(t).placed|
    requires Picture(t).frames[f].top < Picture(t).placed[i].y < Picture(t).frames[f].bottom
    ensures
      var span, item := Picture(t).frames[f].span, Picture(t).placed[i];
      && ((forall x :: IsEnd(item, x) ==> span.left <= x) <==> (forall x :: IsEnd(item, x) ==> 10.0 <= x))
      && ((forall x :: IsEnd(item, x) ==> x <= span.right) <==> (forall x :: IsEnd(item, x) ==> x <= t.width as real - 10.0))
  {
    hide WellAuthored, Walk, FinalSheet, Picture;
    ItemsEnclosedExactly(t, f, i);
    if Picture(t).placed[i].Box? {
      BoxesAreClamped(t, |t.rows|, i);
    }
    ExtentIsOfEnds(Picture(t).placed[i]);
  }

  lemma ExtentIsOfEnds(item: Item)
    requires item.Box? ==> item.width >= 0.0
    ensures IsEnd(item, Extent(item).left) && IsEnd(item, Extent(item).right)
    ensures forall x :: IsEnd(item, x) ==> Extent(item).left <= x <= Extent(item).right
  {}

  /** Around what stands clear of the margins by the padding of 12, that is kept but for the rounding. */
  lemma EndsArePadded(t: Table, f: nat, i: nat, x: real)
    requires WellAuthored(t) && f < |Picture(t).frames| && i < |Picture(t).placed|
    requires Picture(t).frames[f].top < Picture(t).placed[i].y < Picture(t).frames[f].bottom
    requires IsEnd(Picture(t).placed[i], x)
    ensures 22.0 <= x ==> Picture(t).frames[f].span.left <= x - 11.5
    ensures x <= t.width as real - 22.0 ==> x + 11.5 <= Picture(t).frames[f].span.right
  {
    hide WellAuthored, Walk, FinalSheet, Picture, Grown, WidenedAll, Held, Nested, Extent, LeftEnd, RightEnd, IsEnd;
    var s := FinalSheet(t);
    var held := Held(s.frames[f], s.placed, |s.placed|);
    var nested := Nested(s.frames, WidenedAll(t.width, s.placed, s.frames), f, |s.frames|);
    GrownEdges(t.width, s.placed, s.frames, f);
    HeldExactly(s.frames[f], s.placed, |s.placed|);
    if s.placed[i].Box? {
      BoxesAreClamped(t, |t.rows|, i);
    }
    ExtentIsOfEnds(s.placed[i]);
    HeldIsPadded(t.width, s.frames[f].span, held, nested, Extent(s.placed[i]), x);
  }

  lemma HeldIsPadded(width: int, authored: Span, held: seq<Span>, nested: seq<Span>, s: Span, x: real)
    requires s in held && s.left <= x <= s.right
    ensures 22.0 <= x ==> LeftEnd(authored, held, nested) <= x - 11.5
    ensures x <= width as real - 22.0 ==> x + 11.5 <= RightEnd(width, authored, held, nested)
  {
    hide Pulled, Rounded, Lefts, Rights;
    var i :| 0 <= i < |held| && held[i] == s;
    EdgePads(10, authored.left, Lefts(held), i, Lefts(nested));
    EdgePads(10 - width, -authored.right, Rights(held), i, Rights(nested));
  }

  lemma EdgePads(margin: int, edge: real, lows: seq<real>, i: nat, nested: seq<real>)
    requires i < |lows|
    ensures
      var pulled := Pulled(margin as real, Rounded(Pulled(margin as real, edge, lows)) as real, nested);
      pulled <= Max(margin as real, lows[i] - 12.0) + 0.5
  {
    var first := Pulled(margin as real, edge, lows);
    PulledIsLeast(margin as real, edge, lows);
    PulledIsLeast(margin as real, Rounded(first) as real, nested);
  }

  /** A drawn frame encloses each frame nested in it at any depth, exactly where that keeps to them. */
  lemma FramesEnclosedExactly(t: Table, inner: nat, outer: nat)
    requires WellAuthored(t) && inner < |Picture(t).frames| && outer < |Picture(t).frames|
    requires Inside(Picture(t).frames[inner], Picture(t).frames[outer])
    ensures Encloses(t.width, Picture(t).frames[outer].span, Picture(t).frames[inner].span)
  {
    hide WellAuthored, Walk, FinalSheet, Picture, Grown, WidenedAll, Encloses;
    var s := FinalSheet(t);
    HoldsItsFrames(t.width, s.frames, WidenedAll(t.width, s.placed, s.frames), inner, outer);
  }

  predicate Empty(frames: seq<FrameAt>, placed: seq<Item>, f: nat)
    requires f < |frames|
  {
    && (forall i :: 0 <= i < |placed| ==> !Holds(frames[f], placed[i]))
    && (forall g :: 0 <= g < |frames| ==> !Inside(frames[g], frames[f]))
  }

  predicate OffCanvas(width: int, span: Span) {
    span.left < 8.0 || span.right > width as real - 8.0
  }

  lemma EndsOffExactly(width: int, authored: Span, held: seq<Span>, nested: seq<Span>)
    ensures OffCanvas(width, Span(LeftEnd(authored, held, nested), RightEnd(width, authored, held, nested))) <==>
            held == [] && nested == [] && OffCanvas(width, RoundedSpan(authored))
  {
    RoundingIsOdd(authored.right);
    hide Pulled, Rounded, Lefts, Rights;
    EdgeOffExactly(10, authored.left, Lefts(held), Lefts(nested));
    EdgeOffExactly(10 - width, -authored.right, Rights(held), Rights(nested));
    assert Lefts(held) == [] <==> held == [];
    assert Lefts(nested) == [] <==> nested == [];
    assert Rights(held) == [] <==> held == [];
    assert Rights(nested) == [] <==> nested == [];
  }

  lemma GrownOffExactly(width: int, placed: seq<Item>, frames: seq<FrameAt>, f: nat)
    requires f < |frames|
    ensures OffCanvas(width, Grown(width, frames, WidenedAll(width, placed, frames), f)) <==>
            Empty(frames, placed, f) && OffCanvas(width, RoundedSpan(frames[f].span))
  {
    var spans := WidenedAll(width, placed, frames);
    GrownEdges(width, placed, frames, f);
    HeldExactly(frames[f], placed, |placed|);
    NestedExactly(frames, spans, f, |frames|);
    hide Grown, WidenedAll, Held, Nested, LeftEnd, RightEnd, OffCanvas, RoundedSpan, Holds, Inside;
    EndsOffExactly(width, frames[f].span, Held(frames[f], placed, |placed|), Nested(frames, spans, f, |frames|));
  }

  /**
    The check's other canvas complaint is about the authored span of a frame that encloses
    nothing: a frame that had to grow stops at the margin instead of running off the canvas.
  */
  lemma FrameOffCanvasExactly(t: Table, f: nat)
    requires WellAuthored(t) && f < |Picture(t).frames|
    ensures IsFault(t.width, Picture(t).placed, Picture(t).frames, FrameOffCanvas(f)) <==>
            Empty(Picture(t).frames, Picture(t).placed, f) && OffCanvas(t.width, RoundedSpan(FinalSheet(t).frames[f].span))
  {
    hide WellAuthored, Walk, FinalSheet, Picture, Grown, WidenedAll, RoundedSpan;
    var s := FinalSheet(t);
    GrownOffExactly(t.width, s.placed, s.frames, f);
    SameEmpty(s.frames, Picture(t).frames, s.placed, f);
  }

  lemma SameEmpty(frames: seq<FrameAt>, drawn: seq<FrameAt>, placed: seq<Item>, f: nat)
    requires f < |frames| == |drawn|
    requires forall g :: 0 <= g < |frames| ==> drawn[g].top == frames[g].top && drawn[g].bottom == frames[g].bottom
    ensures Empty(frames, placed, f) <==> Empty(drawn, placed, f)
  {
    assert forall i :: 0 <= i < |placed| ==> (Holds(frames[f], placed[i]) <==> Holds(drawn[f], placed[i]));
    assert forall g :: 0 <= g < |frames| ==> (Inside(frames[g], frames[f]) <==> Inside(drawn[g], drawn[f]));
  }

  // ---------------------------------------------------------------- tables that keep to the margins

  predicate WithinPage(width: int, span: Span) {
    EDGE <= span.left && span.right <= width as real - EDGE
  }

  predicate RowWithinPage(t: Table, row: Row) {
    match row
    case Frame(_, own) => WithinPage(t.width, if own.Some? then own.value else t.frameSpan)
    case EndFrame => true
    case Msg(source, target, _, _) =>
      source in t.lanes && target in t.lanes
      && WithinPage(t.width, Span(t.lanes[source], t.lanes[source]))
      && WithinPage(t.width, Span(t.lanes[target], t.lanes[target]))
    case Note(_, lines) => lines != [] && MARGIN + BoxWidth(lines) + EDGE <= t.width as real
  }

  predicate SheetWithinPage(width: int, s: Sheet) {
    && (forall i :: 0 <= i < |s.placed| ==> WithinPage(width, Extent(s.placed[i])))
    && (forall o :: 0 <= o < |s.unclosed| ==> WithinPage(width, s.unclosed[o].span))
    && (forall f :: 0 <= f < |s.frames| ==> WithinPage(width, s.frames[f].span))
  }

  lemma PlacedWithinPage(t: Table, row: Row, y: int)
    requires RowWithinPage(t, row) && (row.Msg? || row.Note?) && Placing(t, row, y).Laid?
    ensures WithinPage(t.width, Extent(Placing(t, row, y).value))
  {
    hide Longest;
  }

  lemma {:induction false} WalkWithinPage(t: Table, n: nat)
    requires n <= |t.rows| && Walk(t, n).Laid?
    requires forall r :: 0 <= r < |t.rows| ==> RowWithinPage(t, t.rows[r])
    ensures SheetWithinPage(t.width, Walk(t, n).value)
  {
    hide Placing, WithinPage, Extent, BoxWidth;
    if n > 0 {
      WalkWithinPage(t, n - 1);
      var s, row := Walk(t, n - 1).value, t.rows[n - 1];
      assert RowWithinPage(t, row);
      if row.Msg? || row.Note? {
        PlacedWithinPage(t, row, s.y);
      }
    }
  }

  lemma EdgeStaysOnPage(margin: int, edge: real, lows: seq<real>, nested: seq<real>)
    requires margin as real <= edge
    ensures margin as real <= Pulled(margin as real, Rounded(Pulled(margin as real, edge, lows)) as real, nested)
  {
    var first := Pulled(margin as real, edge, lows);
    PulledIsLeast(margin as real, edge, lows);
    RoundingStaysWithin(first, margin);
    PulledIsLeast(margin as real, Rounded(first) as real, nested);
  }

  lemma GrownStaysOnPage(width: int, placed: seq<Item>, frames: seq<FrameAt>, f: nat)
    requires f < |frames| && WithinPage(width, frames[f].span)
    ensures WithinPage(width, Grown(width, frames, WidenedAll(width, placed, frames), f))
  {
    hide Pulled, Rounded, Held, Nested, Lefts, Rights, Grown, WidenedAll;
    var held := Held(frames[f], placed, |placed|);
    var nested := Nested(frames, WidenedAll(width, placed, frames), f, |frames|);
    GrownEdges(width, placed, frames, f);
    EdgeStaysOnPage(10, frames[f].span.left, Lefts(held), Lefts(nested));
    EdgeStaysOnPage(10 - width, -frames[f].span.right, Rights(held), Rights(nested));
  }

  predicate Within(inner: Span, outer: Span) {
    outer.left <= inner.left && inner.right <= outer.right
  }

  /** Where spans, lanes and boxes keep to the margins, every frame encloses all that is in it. */
  lemma EverythingIsEnclosed(t: Table)
    requires WellAuthored(t) && forall r :: 0 <= r < |t.rows| ==> RowWithinPage(t, t.rows[r])
    ensures
      var d := Picture(t);
      && (forall f: nat, i: nat :: f < |d.frames| && i < |d.placed| && Holds(d.frames[f], d.placed[i]) ==>
           Within(Extent(d.placed[i]), d.frames[f].span))
      && (forall f: nat, g: nat :: f < |d.frames| && g < |d.frames| && Inside(d.frames[g], d.frames[f]) ==>
           Within(d.frames[g].span, d.frames[f].span))
  {
    hide WellAuthored, Walk, FinalSheet, Picture, RowWithinPage, Extent, Grown, WidenedAll;
    var s, d := FinalSheet(t), Picture(t);
    WalkWithinPage(t, |t.rows|);
    forall f: nat, i: nat | f < |d.frames| && i < |d.placed| && Holds(d.frames[f], d.placed[i])
      ensures Within(Extent(d.placed[i]), d.frames[f].span)
    {
      ItemsEnclosedExactly(t, f, i);
    }
    forall f: nat, g: nat | f < |d.frames| && g < |d.frames| && Inside(d.frames[g], d.frames[f])
      ensures Within(d.frames[g].span, d.frames[f].span)
    {
      FramesEnclosedExactly(t, g, f);
      GrownStaysOnPage(t.width, s.placed, s.frames, g);
    }
  }

  // ---------------------------------------------------------------- the padding between frames

  /** What stands at `x` is not past an edge, nor within PAD of any of the edges it is pulled by. */
  predicate Reaches(x: real, edge: real, lows: seq<real>) {
    x <= edge && forall low :: low in lows ==> x + PAD <= low
  }

  lemma PulledReaches(margin: real, edge: real, lows: seq<real>, x: real)
    requires margin < x
    ensures x <= Pulled(margin, edge, lows) <==> Reaches(x, edge, lows)
  {
    PulledIsLeast(margin, edge, lows);
    if Reaches(x, edge, lows) && lows != [] && Pulled(margin, edge, lows) != Max(margin, edge) {
      var k :| 0 <= k < |lows| && Pulled(margin, edge, lows) == Max(margin, lows[k] - PAD);
      assert lows[k] in lows;
    }
    if x <= Pulled(margin, edge, lows) {
      forall low | low in lows ensures x + PAD <= low {
        var k :| 0 <= k < |lows| && lows[k] == low;
      }
    }
  }

  /**
    The edge of an inner frame is a whole PAD clear of the outer frame's exactly where the page has
    room and the outer one is pulled as far out by its own edge or by some frame's.
  */
  lemma EdgesPaddedExactly(margin: real, outer: real, around: seq<real>, inner: real, within: seq<real>)
    requires inner in around && forall x :: x in within ==> x in around
    ensures
      Pulled(margin, outer, around) + PAD <= Pulled(margin, inner, within) <==>
      && Reaches(margin + PAD, inner, within)
      && (Reaches(outer + PAD, inner, within) || exists k :: 0 <= k < |around| && Reaches(around[k], inner, within))
  {
    var i := Pulled(margin, inner, within);
    PulledIsLeast(margin, outer, around);
    PulledReaches(margin, inner, within, margin + PAD);
    if margin < outer + PAD {
      PulledReaches(margin, inner, within, outer + PAD);
    }
    forall k | 0 <= k < |around| && margin < around[k] ensures around[k] <= i <==> Reaches(around[k], inner, within) {
      PulledReaches(margin, inner, within, around[k]);
    }
    if Reaches(margin + PAD, inner, within) {
      assert forall x :: x <= margin + PAD ==> Reaches(x, inner, within);
    }
  }

  /** Of the first pass's spans: nothing in the frame, nor the frame itself, is further left than `x` allows. */
  predicate ClearOnLeft(frames: seq<FrameAt>, first: seq<Span>, inner: nat, x: real)
    requires |first| == |frames| && inner < |frames|
  {
    x <= first[inner].left && forall f :: 0 <= f < |frames| && Inside(frames[f], frames[inner]) ==> x + PAD <= first[f].left
  }

  predicate ClearOnRight(frames: seq<FrameAt>, first: seq<Span>, inner: nat, x: real)
    requires |first| == |frames| && inner < |frames|
  {
    first[inner].right <= x && forall f :: 0 <= f < |frames| && Inside(frames[f], frames[inner]) ==> first[f].right + PAD <= x
  }

  /** The left edge `i` of frame `inner` is a whole PAD inside the edge `o` of frame `outer`, exactly as `first` decides. */
  predicate LeftPadded(frames: seq<FrameAt>, first: seq<Span>, outer: nat, inner: nat, o: real, i: real)
    requires |first| == |frames| && outer < |frames| && inner < |frames|
  {
    o + PAD <= i <==>
    && ClearOnLeft(frames, first, inner, EDGE + PAD)
    && (ClearOnLeft(frames, first, inner, first[outer].left + PAD)
        || exists f :: 0 <= f < |frames| && Inside(frames[f], frames[outer]) && ClearOnLeft(frames, first, inner, first[f].left))
  }

  predicate RightPadded(width: int, frames: seq<FrameAt>, first: seq<Span>, outer: nat, inner: nat, o: real, i: real)
    requires |first| == |frames| && outer < |frames| && inner < |frames|
  {
    i + PAD <= o <==>
    && ClearOnRight(frames, first, inner, width as real - EDGE - PAD)
    && (ClearOnRight(frames, first, inner, first[outer].right - PAD)
        || exists f :: 0 <= f < |frames| && Inside(frames[f], frames[outer]) && ClearOnRight(frames, first, inner, first[f].right))
  }

  lemma LeftsPaddedExactly(outer: Span, around: seq<Span>, inner: Span, within: seq<Span>)
    requires inner in around && forall s :: s in within ==> s in around
    ensures
      Pulled(EDGE, outer.left, Lefts(around)) + PAD <= Pulled(EDGE, inner.left, Lefts(within)) <==>
      && Reaches(EDGE + PAD, inner.left, Lefts(within))
      && (Reaches(outer.left + PAD, inner.left, Lefts(within))
          || exists s :: s in around && Reaches(s.left, inner.left, Lefts(within)))
  {
    hide Pulled, Lefts, Rights, Reaches;
    assert inner.left in Lefts(around) by { EndsOf(around, inner); }
    assert forall x :: x in Lefts(within) ==> x in Lefts(around) by { EndsOfSome(within, around); }
    EdgesPaddedExactly(EDGE, outer.left, Lefts(around), inner.left, Lefts(within));
    assert forall k :: 0 <= k < |around| ==> around[k] in around && Lefts(around)[k] == around[k].left;
  }

  lemma RightsPaddedExactly(width: int, outer: Span, around: seq<Span>, inner: Span, within: seq<Span>)
    requires inner in around && forall s :: s in within ==> s in around
    ensures
      Pulled(Mirror(width), -outer.right, Rights(around)) + PAD <= Pulled(Mirror(width), -inner.right, Rights(within)) <==>
      && Reaches(Mirror(width) + PAD, -inner.right, Rights(within))
      && (Reaches(PAD - outer.right, -inner.right, Rights(within))
          || exists s :: s in around && Reaches(-s.right, -inner.right, Rights(within)))
  {
    hide Pulled, Lefts, Rights, Mirror, Reaches;
    assert -inner.right in Rights(around) by { EndsOf(around, inner); }
    assert forall x :: x in Rights(within) ==> x in Rights(around) by { EndsOfSome(within, around); }
    EdgesPaddedExactly(Mirror(width), -outer.right, Rights(around), -inner.right, Rights(within));
    assert -outer.right + PAD == PAD - outer.right;
    assert forall k :: 0 <= k < |around| ==> around[k] in around && Rights(around)[k] == -around[k].right;
  }

  lemma ReachesLefts(x: real, edge: real, spans: seq<Span>)
    ensures Reaches(x, edge, Lefts(spans)) <==> x <= edge && forall k :: 0 <= k < |spans| ==> x + PAD <= spans[k].left
  {
    hide Lefts;
    var lows := Lefts(spans);
    assert forall k :: 0 <= k < |spans| ==> lows[k] in lows && lows[k] == spans[k].left;
  }

  lemma ReachesRights(x: real, edge: real, spans: seq<Span>)
    ensures Reaches(-x, -edge, Rights(spans)) <==> edge <= x && forall k :: 0 <= k < |spans| ==> spans[k].right + PAD <= x
  {
    hide Rights;
    var lows := Rights(spans);
    assert forall k :: 0 <= k < |spans| ==> lows[k] in lows && lows[k] == -spans[k].right;
  }

  /** What reaches the frames nested in one, as spans in a list, is clear of them. */
  lemma ReachesLeftExactly(frames: seq<FrameAt>, first: seq<Span>, inner: nat, x: real)
    requires inner < |frames| == |first|
    ensures Reaches(x, first[inner].left, Lefts(Nested(frames, first, inner, |frames|))) <==>
            ClearOnLeft(frames, first, inner, x)
  {
    hide Nested, Lefts, Inside, Reaches;
    var within := Nested(frames, first, inner, |frames|);
    NestedExactly(frames, first, inner, |frames|);
    ReachesLefts(x, first[inner].left, within);
    if Reaches(x, first[inner].left, Lefts(within)) {
      forall f | 0 <= f < |frames| && Inside(frames[f], frames[inner]) ensures x + PAD <= first[f].left {
        var k :| 0 <= k < |within| && within[k] == first[f];
      }
    }
    if ClearOnLeft(frames, first, inner, x) {
      forall k | 0 <= k < |within| ensures x + PAD <= within[k].left {
        assert within[k] in within;
      }
    }
  }

  lemma ReachesRightExactly(frames: seq<FrameAt>, first: seq<Span>, inner: nat, x: real)
    requires inner < |frames| == |first|
    ensures Reaches(-x, -first[inner].right, Rights(Nested(frames, first, inner, |frames|))) <==>
            ClearOnRight(frames, first, inner, x)
  {
    hide Nested, Rights, Inside, Reaches;
    var within := Nested(frames, first, inner, |frames|);
    NestedExactly(frames, first, inner, |frames|);
    ReachesRights(x, first[inner].right, within);
    if Reaches(-x, -first[inner].right, Rights(within)) {
      forall f | 0 <= f < |frames| && Inside(frames[f], frames[inner]) ensures first[f].right + PAD <= x {
        var k :| 0 <= k < |within| && within[k] == first[f];
      }
    }
    if ClearOnRight(frames, first, inner, x) {
      forall k | 0 <= k < |within| ensures within[k].right + PAD <= x {
        assert within[k] in within;
      }
    }
  }

  lemma NestedWithin(frames: seq<FrameAt>, first: seq<Span>, outer: nat, inner: nat)
    requires outer < |frames| == |first| && inner < |frames| && Inside(frames[inner], frames[outer])
    ensures
      var around, within := Nested(frames, first, outer, |frames|), Nested(frames, first, inner, |frames|);
      first[inner] in around && forall s :: s in within ==> s in around
  {
    NestedExactly(frames, first, outer, |frames|);
    NestedExactly(frames, first, inner, |frames|);
    var around, within := Nested(frames, first, outer, |frames|), Nested(frames, first, inner, |frames|);
    forall x | x in within ensures x in around {
      var i :| 0 <= i < |frames| && Inside(frames[i], frames[inner]) && first[i] == x;
      assert Inside(frames[i], frames[outer]);
    }
  }

  lemma GrownLeftPadded(width: int, frames: seq<FrameAt>, first: seq<Span>, outer: nat, inner: nat)
    requires outer < |frames| == |first| && inner < |frames| && Inside(frames[inner], frames[outer])
    ensures LeftPadded(frames, first, outer, inner,
                       Grown(width, frames, first, outer).left, Grown(width, frames, first, inner).left)
  {
    hide Pulled, Lefts, Rights, Nested, Reaches, Inside, ClearOnLeft, ClearOnRight, Mirror;
    var around, within := Nested(frames, first, outer, |frames|), Nested(frames, first, inner, |frames|);
    NestedWithin(frames, first, outer, inner);
    NestedExactly(frames, first, outer, |frames|);
    LeftsPaddedExactly(first[outer], around, first[inner], within);
    ReachesLeftExactly(frames, first, inner, EDGE + PAD);
    ReachesLeftExactly(frames, first, inner, first[outer].left + PAD);
    forall s: Span ensures Reaches(s.left, first[inner].left, Lefts(within)) <==> ClearOnLeft(frames, first, inner, s.left) {
      ReachesLeftExactly(frames, first, inner, s.left);
    }
  }

  lemma GrownRightPadded(width: int, frames: seq<FrameAt>, first: seq<Span>, outer: nat, inner: nat)
    requires outer < |frames| == |first| && inner < |frames| && Inside(frames[inner], frames[outer])
    ensures RightPadded(width, frames, first, outer, inner,
                        Grown(width, frames, first, outer).right, Grown(width, frames, first, inner).right)
  {
    hide Pulled, Lefts, Rights, Nested, Reaches, Inside, ClearOnLeft, ClearOnRight;
    var around, within := Nested(frames, first, outer, |frames|), Nested(frames, first, inner, |frames|);
    NestedWithin(frames, first, outer, inner);
    NestedExactly(frames, first, outer, |frames|);
    RightsPaddedExactly(width, first[outer], around, first[inner], within);
    ReachesRightExactly(frames, first, inner, width as real - EDGE - PAD);
    ReachesRightExactly(frames, first, inner, first[outer].right - PAD);
    assert Mirror(width) + PAD == -(width as real - EDGE - PAD);
    assert PAD - first[outer].right == -(first[outer].right - PAD);
    forall s: Span ensures
      Reaches(-s.right, -first[inner].right, Rights(within)) <==> ClearOnRight(frames, first, inner, s.right)
    {
      ReachesRightExactly(frames, first, inner, s.right);
    }
  }

  /**
    Every table: a frame keeps the padding to one nested in it at any depth exactly where, by the
    spans the first pass leaves, the page has room for it and the frame, or some frame in it, is wide
    enough.
  */
  lemma PaddingIsKeptExactly(t: Table, outer: nat, inner: nat)
    requires WellAuthored(t) && outer < |Picture(t).frames| && inner < |Picture(t).frames|
    requires Inside(Picture(t).frames[inner], Picture(t).frames[outer])
    ensures
      var s, frames := FinalSheet(t), Picture(t).frames;
      var first := WidenedAll(t.width, s.placed, s.frames);
      && LeftPadded(s.frames, first, outer, inner, frames[outer].span.left, frames[inner].span.left)
      && RightPadded(t.width, s.frames, first, outer, inner, frames[outer].span.right, frames[inner].span.right)
  {
    hide WellAuthored, Walk, FinalSheet, Picture, WidenedAll, LeftPadded, RightPadded, Grown;
    var s := FinalSheet(t);
    GrownLeftPadded(t.width, s.frames, WidenedAll(t.width, s.placed, s.frames), outer, inner);
    GrownRightPadded(t.width, s.frames, WidenedAll(t.width, s.placed, s.frames), outer, inner);
  }

  /** Around a frame that holds no frame the padding is kept wherever the page has room for it. */
  lemma InnermostIsPadded(t: Table, outer: nat, inner: nat)
    requires WellAuthored(t) && outer < |Picture(t).frames| && inner < |Picture(t).frames|
    requires Inside(Picture(t).frames[inner], Picture(t).frames[outer])
    requires forall f :: 0 <= f < |Picture(t).frames| ==> !Inside(Picture(t).frames[f], Picture(t).frames[inner])
    ensures
      var o, i := Picture(t).frames[outer].span, Picture(t).frames[inner].span;
      && (o.left + 12.0 <= i.left <==> 22.0 <= i.left)
      && (i.right + 12.0 <= o.right <==> i.right <= t.width as real - 22.0)
  {
    hide WellAuthored, Walk, FinalSheet, Picture, Pulled, Lefts, Rights, Nested, Widened;
    var s := FinalSheet(t);
    var first := WidenedAll(t.width, s.placed, s.frames);
    PaddingIsKeptExactly(t, outer, inner);
    NestedExactly(s.frames, first, inner, |s.frames|);
    NothingAround(t.width, first[inner]);
    assert Inside(s.frames[inner], s.frames[outer]);
    assert ClearOnLeft(s.frames, first, inner, first[inner].left) && ClearOnRight(s.frames, first, inner, first[inner].right);
  }

  /** Three frames, one in the other, with nothing else in them and no spans of their own. */
  predicate ThreeAlike(t: Table) {
    && |t.rows| == 6 && t.rows[3] == t.rows[4] == t.rows[5] == EndFrame
    && forall r :: 0 <= r < 3 ==> t.rows[r].Frame? && t.rows[r].own == None
  }

  function ThreeFrames(t: Table): seq<FrameAt>
    requires ThreeAlike(t)
  {
    [FrameAt(302, 356, t.rows[2].title, t.frameSpan), FrameAt(246, 392, t.rows[1].title, t.frameSpan),
     FrameAt(190, 428, t.rows[0].title, t.frameSpan)]
  }

  function ThreeOpened(t: Table): seq<Opened>
    requires ThreeAlike(t)
  {
    [Opened(190, t.rows[0].title, t.frameSpan), Opened(246, t.rows[1].title, t.frameSpan),
     Opened(302, t.rows[2].title, t.frameSpan)]
  }

  lemma Walked(t: Table)
    ensures Walk(t, 0) == Laid(Sheet(180, [], [], []))
    ensures forall n :: 0 < n <= |t.rows| && Walk(t, n - 1).Laid? ==>
              Walk(t, n) == Step(t, Walk(t, n - 1).value, t.rows[n - 1])
  {
    NothingWalked(t);
    forall n | 0 < n <= |t.rows| && Walk(t, n - 1).Laid?
      ensures Walk(t, n) == Step(t, Walk(t, n - 1).value, t.rows[n - 1])
    {
      WalkOn(t, n);
    }
  }

  lemma ThreeAlikeOpen(t: Table)
    requires ThreeAlike(t)
    ensures Walk(t, 3) == Laid(Sheet(348, ThreeOpened(t), [], []))
  {
    Walked(t);
    hide Walk;
    var unclosed := ThreeOpened(t);
    assert [] + [unclosed[0]] == unclosed[..1] && unclosed[..1] + [unclosed[1]] == unclosed[..2];
    assert unclosed[..2] + [unclosed[2]] == unclosed;
    assert Walk(t, 1) == Laid(Sheet(236, unclosed[..1], [], []));
    assert Walk(t, 2) == Laid(Sheet(292, unclosed[..2], [], []));
  }

  lemma ThreeAlikeLaid(t: Table)
    requires ThreeAlike(t)
    ensures Walk(t, 6) == Laid(Sheet(456, [], ThreeFrames(t), [])) && WellAuthored(t)
  {
    WalksExactly(t, 6);
    ThreeAlikeOpen(t);
    Walked(t);
    hide Walk, NeverUnopened, ReadableTo;
    var unclosed, frames := ThreeOpened(t), ThreeFrames(t);
    assert unclosed[..2][..1] == unclosed[..1] && unclosed[..1][..0] == [];
    assert [] + [frames[0]] == frames[..1] && frames[..1] + [frames[1]] == frames[..2];
    assert frames[..2] + [frames[2]] == frames;
    assert Walk(t, 4) == Laid(Sheet(384, unclosed[..2], frames[..1], []));
    assert Walk(t, 5) == Laid(Sheet(420, unclosed[..1], frames[..2], []));
  }

  lemma NestedOnes(outer: FrameAt, middle: FrameAt, inner: FrameAt, span: Span)
    requires Inside(inner, middle) && Inside(middle, outer)
    ensures Nested([inner, middle, outer], [span, span, span], 1, 3) == [span]
    ensures Nested([inner, middle, outer], [span, span, span], 2, 3) == [span, span]
  {
    var frames, spans := [inner, middle, outer], [span, span, span];
    assert Nested(frames, spans, 1, 1) == [span] && Nested(frames, spans, 2, 1) == [span];
    assert Nested(frames, spans, 1, 2) == [span] && Nested(frames, spans, 2, 2) == [span, span];
  }

  lemma {:induction false} NestedNone(frames: seq<FrameAt>, span: Span)
    requires |frames| == 3 && Inside(frames[0], frames[1]) && Inside(frames[1], frames[2])
    ensures Nested(frames, [span, span, span], 0, 3) == []
  {
    NestedExactly(frames, [span, span, span], 0, 3);
  }

  lemma ThreeGrown(width: int, frames: seq<FrameAt>, span: Span)
    requires |frames| == 3 && Inside(frames[0], frames[1]) && Inside(frames[1], frames[2])
    ensures
      var spans, wider := [span, span, span], Span(Max(EDGE, span.left - PAD), Min(width as real - EDGE, span.right + PAD));
      Grown(width, frames, spans, 0) == span && Grown(width, frames, spans, 1) == Grown(width, frames, spans, 2) == wider
  {
    NestedOnes(frames[2], frames[1], frames[0], span);
    NestedNone(frames, span);
    assert frames == [frames[0], frames[1], frames[2]];
    hide Nested, Inside;
    NothingAround(width, span);
    AroundOneMore(width, span, [], span);
    AroundOneMore(width, span, [span], span);
    assert [] + [span] == [span] && [span] + [span] == [span, span];
  }

  /**
    So the padding is not kept at depth: of three nested frames authored alike, the outer two are
    drawn with the same edges, since both grow from the innermost one's first span.
  */
  lemma PaddingIsLostAtDepth(t: Table)
    requires ThreeAlike(t)
    ensures WellAuthored(t) && |Picture(t).frames| == 3
    ensures
      var frames := Picture(t).frames;
      && Inside(frames[0], frames[1]) && Inside(frames[1], frames[2])
      && frames[0].span == RoundedSpan(t.frameSpan)
      && frames[1].span == frames[2].span
      && frames[1].span == Span(Max(EDGE, frames[0].span.left - PAD),
                                Min(t.width as real - EDGE, frames[0].span.right + PAD))
  {
    ThreeAlikeLaid(t);
    hide Walk, WellAuthored, Picture, FinalSheet, Rounded;
    var frames, first := ThreeFrames(t), WidenedAll(t.width, [], ThreeFrames(t));
    assert Walk(t, |t.rows|) == Laid(FinalSheet(t));
    NothingAround(t.width, t.frameSpan);
    assert first == [RoundedSpan(t.frameSpan), RoundedSpan(t.frameSpan), RoundedSpan(t.frameSpan)];
    ThreeGrown(t.width, frames, RoundedSpan(t.frameSpan));
  }
}
