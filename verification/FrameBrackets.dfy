/**
  The grid follows the table (make_diagrams.py, the row loop of `layout`): a drawn frame holds
  exactly what was written between its `frame` row and its `endframe` row.
*/
module FrameBrackets {
  import opened Optional
  import opened Diagram
  import opened DiagramLayout
  import opened FrameWidening

  datatype Bracket = Bracket(start: nat, end: nat)

  /** The rows the placed items, the frames still open and the closed frames come from. */
  datatype Origin = Origin(items: seq<nat>, starts: seq<nat>, brackets: seq<Bracket>)

  function OriginStep(g: Origin, row: Row, r: nat): Origin {
    match row
    case Frame(_, _) => g.(starts := g.starts + [r])
    case EndFrame =>
      if g.starts == [] then g
      else
        var last := |g.starts| - 1;
        g.(starts := g.starts[..last], brackets := g.brackets + [Bracket(g.starts[last], r)])
    case _ => g.(items := g.items + [r])
  }

  /** Which `frame` row each `endframe` row closes, by bracket matching alone. */
  function OriginOf(rows: seq<Row>, n: nat): Origin
    requires n <= |rows|
  {
    if n == 0 then Origin([], [], []) else OriginStep(OriginOf(rows, n - 1), rows[n - 1], n - 1)
  }

  /** An item and a frame's top edge are in the order of the rows they come from. */
  predicate InOrder(y: int, edge: int, r: nat, start: nat) {
    (y < edge <==> r < start) && (edge < y <==> start < r)
  }

  predicate StartsFollow(placed: seq<Item>, items: seq<nat>, unclosed: seq<Opened>, starts: seq<nat>)
    requires |placed| == |items| && |unclosed| == |starts|
  {
    forall i, o :: 0 <= i < |placed| && 0 <= o < |unclosed| ==>
      InOrder(placed[i].y, unclosed[o].top, items[i], starts[o])
  }

  predicate BracketsFollow(placed: seq<Item>, items: seq<nat>, frames: seq<FrameAt>, brackets: seq<Bracket>)
    requires |placed| == |items| && |frames| == |brackets|
  {
    forall i, f :: 0 <= i < |placed| && 0 <= f < |frames| ==>
      && InOrder(placed[i].y, frames[f].top, items[i], brackets[f].start)
      && InOrder(placed[i].y, frames[f].bottom, items[i], brackets[f].end)
  }

  predicate Follows(s: Sheet, g: Origin, n: nat) {
    && |s.placed| == |g.items| && |s.unclosed| == |g.starts| && |s.frames| == |g.brackets|
    && (forall i :: 0 <= i < |g.items| ==> g.items[i] < n)
    && (forall o :: 0 <= o < |g.starts| ==> g.starts[o] < n)
    && (forall f :: 0 <= f < |g.brackets| ==> g.brackets[f].start < g.brackets[f].end < n)
    && StartsFollow(s.placed, g.items, s.unclosed, g.starts)
    && BracketsFollow(s.placed, g.items, s.frames, g.brackets)
  }

  lemma OpenFollows(s: Sheet, g: Origin, n: nat, row: Row, span: Span)
    requires Tidy(s) && Follows(s, g, n) && row.Frame?
    ensures Follows(Open(s, row.title, span), OriginStep(g, row, n), n + 1)
  {
    hide Family, OpenedFamily, FramesClear, OpenedClear, BracketsFollow;
  }

  lemma CloseFollows(s: Sheet, g: Origin, n: nat)
    requires Tidy(s) && Follows(s, g, n) && s.unclosed != []
    ensures Follows(Close(s), OriginStep(g, EndFrame, n), n + 1)
  {
    hide Family, OpenedFamily, FramesClear, OpenedClear;
  }

  lemma PlaceFollows(s: Sheet, g: Origin, n: nat, row: Row, item: Item)
    requires Tidy(s) && Follows(s, g, n) && (row.Msg? || row.Note?) && item.y == s.y
    ensures Follows(Place(s, item), OriginStep(g, row, n), n + 1)
  {
    hide Family, OpenedFamily, ItemsApart, TopClear, BottomClear;
    var after, origin := Place(s, item), OriginStep(g, row, n);
    assert StartsFollow(after.placed, origin.items, after.unclosed, origin.starts);
    assert BracketsFollow(after.placed, origin.items, after.frames, origin.brackets);
  }

  lemma {:induction false} EverySheetFollows(t: Table, n: nat)
    requires n <= |t.rows| && Walk(t, n).Laid?
    ensures Follows(Walk(t, n).value, OriginOf(t.rows, n), n)
  {
    hide Tidy, Follows, Open, Close, Place, OriginStep, Longest;
    if n == 0 {
      assert Follows(BLANK, Origin([], [], []), 0) by { BlankFollows(); }
    } else {
      EverySheetFollows(t, n - 1);
      EverySheetIsTidy(t, n - 1);
      var s, row, g := Walk(t, n - 1).value, t.rows[n - 1], OriginOf(t.rows, n - 1);
      match row
      case Frame(_, own) => OpenFollows(s, g, n - 1, row, if own.Some? then own.value else t.frameSpan);
      case EndFrame => CloseFollows(s, g, n - 1);
      case _ => PlaceFollows(s, g, n - 1, row, Placing(t, row, s.y).value);
    }
  }

  lemma BlankFollows()
    ensures Follows(BLANK, Origin([], [], []), 0)
  {}

  /** What a frame holds on the page is what its bracket holds in the table. */
  lemma FrameHoldsItsRows(t: Table, f: nat, i: nat)
    requires Walk(t, |t.rows|).Laid?
    requires f < |Walk(t, |t.rows|).value.frames| && i < |Walk(t, |t.rows|).value.placed|
    ensures
      var s, g := Walk(t, |t.rows|).value, OriginOf(t.rows, |t.rows|);
      && |g.brackets| == |s.frames| && |g.items| == |s.placed|
      && (Holds(s.frames[f], s.placed[i]) <==> g.brackets[f].start < g.items[i] < g.brackets[f].end)
  {
    hide Walk, OriginOf;
    EverySheetFollows(t, |t.rows|);
  }

  // ---------------------------------------------------------------- frames and frames

  predicate StartsOrdered(unclosed: seq<Opened>, starts: seq<nat>, frames: seq<FrameAt>, brackets: seq<Bracket>)
    requires |unclosed| == |starts| && |frames| == |brackets|
  {
    && (forall o, p :: 0 <= o < p < |starts| ==> starts[o] < starts[p])
    && (forall o, f :: 0 <= o < |starts| && 0 <= f < |frames| ==>
          InOrder(unclosed[o].top, frames[f].top, starts[o], brackets[f].start))
  }

  predicate BracketsOrdered(frames: seq<FrameAt>, brackets: seq<Bracket>)
    requires |frames| == |brackets|
  {
    && (forall f, g :: 0 <= f < |frames| && 0 <= g < |frames| ==>
          InOrder(frames[f].top, frames[g].top, brackets[f].start, brackets[g].start))
    && (forall f, g :: 0 <= f < g < |frames| ==>
          frames[f].bottom < frames[g].bottom && brackets[f].end < brackets[g].end)
  }

  predicate Ordered(s: Sheet, g: Origin, n: nat) {
    && |s.unclosed| == |g.starts| && |s.frames| == |g.brackets|
    && (forall o :: 0 <= o < |g.starts| ==> g.starts[o] < n)
    && (forall f :: 0 <= f < |g.brackets| ==> g.brackets[f].start < g.brackets[f].end < n)
    && StartsOrdered(s.unclosed, g.starts, s.frames, g.brackets)
    && BracketsOrdered(s.frames, g.brackets)
  }

  lemma OpenOrders(s: Sheet, g: Origin, n: nat, row: Row, span: Span)
    requires Tidy(s) && Ordered(s, g, n) && row.Frame?
    ensures Ordered(Open(s, row.title, span), OriginStep(g, row, n), n + 1)
  {
    hide Family, OpenedFamily, ItemsApart, TopClear, BottomClear, BracketsOrdered;
  }

  lemma CloseOrders(s: Sheet, g: Origin, n: nat)
    requires Tidy(s) && Ordered(s, g, n) && s.unclosed != []
    ensures Ordered(Close(s), OriginStep(g, EndFrame, n), n + 1)
  {
    hide Family, OpenedFamily, ItemsApart, TopClear, BottomClear;
  }

  lemma PlaceOrders(s: Sheet, g: Origin, n: nat, row: Row, item: Item)
    requires Ordered(s, g, n) && (row.Msg? || row.Note?)
    ensures Ordered(Place(s, item), OriginStep(g, row, n), n + 1)
  {
    hide InOrder;
  }

  lemma BlankOrders()
    ensures Ordered(BLANK, Origin([], [], []), 0)
  {}

  lemma {:induction false} EverySheetOrders(t: Table, n: nat)
    requires n <= |t.rows| && Walk(t, n).Laid?
    ensures Ordered(Walk(t, n).value, OriginOf(t.rows, n), n)
  {
    hide Tidy, Open, Close, Longest, Place, Ordered, OriginStep, BoxAt;
    if n == 0 {
      assert Ordered(BLANK, Origin([], [], []), 0) by { BlankOrders(); }
    } else {
      EverySheetOrders(t, n - 1);
      EverySheetIsTidy(t, n - 1);
      var s, row, g := Walk(t, n - 1).value, t.rows[n - 1], OriginOf(t.rows, n - 1);
      match row
      case Frame(_, own) => OpenOrders(s, g, n - 1, row, if own.Some? then own.value else t.frameSpan);
      case EndFrame => CloseOrders(s, g, n - 1);
      case _ => PlaceOrders(s, g, n - 1, row, Placing(t, row, s.y).value);
    }
  }

  predicate Surrounds(outer: Bracket, inner: Bracket) {
    outer.start < inner.start && inner.end < outer.end
  }

  /** One frame lies inside another on the page exactly when its bracket does in the table. */
  lemma FramesNestAsBracketed(t: Table, f: nat, g: nat)
    requires Walk(t, |t.rows|).Laid?
    requires f < |Walk(t, |t.rows|).value.frames| && g < |Walk(t, |t.rows|).value.frames|
    ensures
      var frames, brackets := Walk(t, |t.rows|).value.frames, OriginOf(t.rows, |t.rows|).brackets;
      && |brackets| == |frames|
      && (Inside(frames[f], frames[g]) <==> Surrounds(brackets[g], brackets[f]))
  {
    hide Walk, OriginOf;
    EverySheetOrders(t, |t.rows|);
  }
}
