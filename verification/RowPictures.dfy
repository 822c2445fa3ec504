/**
  What each row of a table becomes on the page (make_diagrams.py, the row loop of `layout`): which
  lanes an arrow joins, what a note's box holds and where, which frame carries which title, and the
  height everything is drawn at.
*/
module RowPictures {
  import opened Optional
  import opened Diagram
  import opened DiagramLayout
  import opened FrameBrackets
  import opened DiagramCheck

  // ---------------------------------------------------------------- items

  /** Where a box of this width stands: centred on its lane, or as far as the page's margins of 24 push it. */
  predicate StandsAt(page: real, lane: real, left: real, width: real) {
    && left >= 24.0
    && (lane - width / 2.0 >= 24.0 && lane + width / 2.0 <= page - 24.0 ==> left == lane - width / 2.0)
    && (lane + width / 2.0 > page - 24.0 && width + 48.0 <= page ==> left + width == page - 24.0)
    && (lane - width / 2.0 < 24.0 || width + 48.0 > page ==> left == 24.0)
  }

  /** As wide as its longest line and the padding on both sides. */
  predicate HoldsLines(lines: seq<string>, width: real) {
    && (exists k :: 0 <= k < |lines| && width == 22.0 + |lines[k]| as real * 11.0 * 0.605)
    && (forall k :: 0 <= k < |lines| ==> 22.0 + |lines[k]| as real * 11.0 * 0.605 <= width)
  }

  /** The item is what its row says: an arrow between its lanes, or a box of its lines on its lane. */
  predicate Shows(t: Table, row: Row, item: Item) {
    match row
    case Msg(source, target, _, text) =>
      && item.Arrow? && source in t.lanes && target in t.lanes
      && item.source == t.lanes[source] && item.target == t.lanes[target] && item.text == text
    case Note(over, lines) =>
      && item.Box? && over in t.lanes && HoldsLines(lines, item.width) && item.height == 22 + 15 * |lines|
      && StandsAt(t.width as real, t.lanes[over], item.left, item.width)
    case _ => false
  }

  lemma PlacingShows(t: Table, row: Row, y: int)
    requires (row.Msg? || row.Note?) && Placing(t, row, y).Laid?
    ensures Shows(t, row, Placing(t, row, y).value) && Placing(t, row, y).value.y == y
  {
    if row.Note? {
      BoxWidthHolds(row.lines);
      BoxStands(t, y, t.lanes[row.over], row.lines);
      hide BoxWidth, HoldsLines, StandsAt;
    }
  }

  lemma BoxWidthHolds(lines: seq<string>)
    requires lines != []
    ensures HoldsLines(lines, BoxWidth(lines))
  {
    var n := Longest(lines);
    forall k | 0 <= k < |lines| ensures |lines[k]| as real * 11.0 * 0.605 <= n as real * 11.0 * 0.605 {}
  }

  lemma BoxStands(t: Table, y: int, lane: real, lines: seq<string>)
    requires lines != []
    ensures
      var box := BoxAt(t, y, lane, lines);
      && box.Box? && box.y == y && box.width == BoxWidth(lines) && box.height == 22 + 15 * |lines|
      && StandsAt(t.width as real, lane, box.left, box.width)
  {
    hide BoxWidth;
  }

  predicate AllShown(t: Table, placed: seq<Item>, items: seq<nat>) {
    && |placed| == |items|
    && (forall i :: 0 <= i < |items| ==> items[i] < |t.rows| && Shows(t, t.rows[items[i]], placed[i]))
    && (forall i, j :: 0 <= i < j < |items| ==> items[i] < items[j])
  }

  // ---------------------------------------------------------------- frames

  /** The span a frame is authored with: its own, or the table's. */
  predicate AuthoredAs(t: Table, own: Option<Span>, span: Span) {
    (own.Some? ==> span == own.value) && (own.None? ==> span == t.frameSpan)
  }

  predicate Titles(t: Table, row: Row, title: string, span: Span) {
    row.Frame? && row.title == title && AuthoredAs(t, row.own, span)
  }

  predicate AllTitled(t: Table, frames: seq<FrameAt>, brackets: seq<Bracket>, unclosed: seq<Opened>, starts: seq<nat>) {
    && |frames| == |brackets| && |unclosed| == |starts|
    && (forall f :: 0 <= f < |brackets| ==>
          && brackets[f].start < brackets[f].end < |t.rows| && t.rows[brackets[f].end].EndFrame?
          && Titles(t, t.rows[brackets[f].start], frames[f].title, frames[f].span))
    && (forall o :: 0 <= o < |starts| ==>
          starts[o] < |t.rows| && Titles(t, t.rows[starts[o]], unclosed[o].title, unclosed[o].span))
  }

  // ---------------------------------------------------------------- heights

  /** How far down the page a row takes the cursor. */
  function Drop(row: Row): int {
    match row
    case Frame(_, _) => 56
    case EndFrame => 36
    case Msg(_, _, _, _) => 36
    case Note(_, lines) => 22 + 15 * |lines| + 34
  }

  /** The height row `r` is drawn at: below all that is before it. */
  function HeightOf(rows: seq<Row>, r: nat): int
    requires r <= |rows|
  {
    if r == 0 then 180 else HeightOf(rows, r - 1) + Drop(rows[r - 1])
  }

  predicate AllAt(rows: seq<Row>, s: Sheet, g: Origin) {
    && |s.placed| == |g.items| && |s.frames| == |g.brackets| && |s.unclosed| == |g.starts|
    && (forall i :: 0 <= i < |g.items| ==> g.items[i] <= |rows| && s.placed[i].y == HeightOf(rows, g.items[i]))
    && (forall o :: 0 <= o < |g.starts| ==> g.starts[o] <= |rows| && s.unclosed[o].top == HeightOf(rows, g.starts[o]) + 10)
    && (forall f :: 0 <= f < |g.brackets| ==>
          && g.brackets[f].start <= |rows| && g.brackets[f].end <= |rows|
          && s.frames[f].top == HeightOf(rows, g.brackets[f].start) + 10
          && s.frames[f].bottom == HeightOf(rows, g.brackets[f].end) + 8)
  }

  // ---------------------------------------------------------------- every table

  predicate ShownSoFar(t: Table, s: Sheet, g: Origin, n: nat)
    requires n <= |t.rows|
  {
    && (forall i :: 0 <= i < |g.items| ==> g.items[i] < n) && (forall o :: 0 <= o < |g.starts| ==> g.starts[o] < n)
    && AllShown(t, s.placed, g.items) && AllTitled(t, s.frames, g.brackets, s.unclosed, g.starts)
    && s.y == HeightOf(t.rows, n) && AllAt(t.rows, s, g)
  }

  lemma OpenShows(t: Table, s: Sheet, g: Origin, n: nat, span: Span)
    requires n < |t.rows| && t.rows[n].Frame? && ShownSoFar(t, s, g, n) && AuthoredAs(t, t.rows[n].own, span)
    ensures ShownSoFar(t, Open(s, t.rows[n].title, span), OriginStep(g, t.rows[n], n), n + 1)
  {
    hide AllShown, AuthoredAs;
  }

  lemma CloseShows(t: Table, s: Sheet, g: Origin, n: nat)
    requires n < |t.rows| && t.rows[n].EndFrame? && ShownSoFar(t, s, g, n) && s.unclosed != []
    ensures ShownSoFar(t, Close(s), OriginStep(g, EndFrame, n), n + 1)
  {
    hide AllShown, AuthoredAs;
  }

  lemma PlaceShows(t: Table, s: Sheet, g: Origin, n: nat, item: Item)
    requires n < |t.rows| && (t.rows[n].Msg? || t.rows[n].Note?) && ShownSoFar(t, s, g, n)
    requires Shows(t, t.rows[n], item) && item.y == s.y
    ensures ShownSoFar(t, Place(s, item), OriginStep(g, t.rows[n], n), n + 1)
  {
    assert item.Below() == item.y + Drop(t.rows[n]);
    hide Shows, AllTitled;
  }

  lemma {:induction false} EverySheetShows(t: Table, n: nat)
    requires n <= |t.rows| && Walk(t, n).Laid?
    ensures ShownSoFar(t, Walk(t, n).value, OriginOf(t.rows, n), n)
  {
    hide ShownSoFar, Open, Close, Place, OriginStep, Placing;
    if n == 0 {
      assert ShownSoFar(t, BLANK, Origin([], [], []), 0) by { BlankShows(t); }
    } else {
      EverySheetShows(t, n - 1);
      var s, row, g := Walk(t, n - 1).value, t.rows[n - 1], OriginOf(t.rows, n - 1);
      match row
      case Frame(_, own) => OpenShows(t, s, g, n - 1, if own.Some? then own.value else t.frameSpan);
      case EndFrame => CloseShows(t, s, g, n - 1);
      case _ =>
        PlacingShows(t, row, s.y);
        PlaceShows(t, s, g, n - 1, Placing(t, row, s.y).value);
    }
  }

  lemma BlankShows(t: Table)
    ensures ShownSoFar(t, BLANK, Origin([], [], []), 0)
  {}

  /** Each item on the page is the picture of the row it comes from, at that row's height. */
  lemma ItemsShowTheirRows(t: Table, i: nat)
    requires Walk(t, |t.rows|).Laid? && i < |Walk(t, |t.rows|).value.placed|
    ensures
      var item, items := Walk(t, |t.rows|).value.placed[i], OriginOf(t.rows, |t.rows|).items;
      && i < |items| && items[i] < |t.rows|
      && Shows(t, t.rows[items[i]], item) && item.y == HeightOf(t.rows, items[i])
  {
    hide Walk, OriginOf, Shows;
    EverySheetShows(t, |t.rows|);
  }

  /** And each frame is drawn from just below its `frame` row's height to just below its `endframe` row's. */
  lemma FramesShowTheirRows(t: Table, f: nat)
    requires Walk(t, |t.rows|).Laid? && f < |Walk(t, |t.rows|).value.frames|
    ensures
      var frame, brackets := Walk(t, |t.rows|).value.frames[f], OriginOf(t.rows, |t.rows|).brackets;
      && f < |brackets| && brackets[f].start < brackets[f].end < |t.rows|
      && t.rows[brackets[f].end].EndFrame? && Titles(t, t.rows[brackets[f].start], frame.title, frame.span)
      && frame.top == HeightOf(t.rows, brackets[f].start) + 10
      && frame.bottom == HeightOf(t.rows, brackets[f].end) + 8
  {
    hide Walk, OriginOf, Titles;
    EverySheetShows(t, |t.rows|);
  }

  /** No row is left out: each message and each note has its item, and each `endframe` row its frame. */
  lemma {:induction false} EveryRowIsShown(rows: seq<Row>, n: nat, r: nat)
    requires r < n <= |rows|
    ensures rows[r].Msg? || rows[r].Note? ==> r in OriginOf(rows, n).items
    ensures rows[r].EndFrame? && OriginOf(rows, r).starts != [] ==>
              exists b :: b in OriginOf(rows, n).brackets && b.end == r
  {
    if r < n - 1 {
      EveryRowIsShown(rows, n - 1, r);
    } else if rows[r].EndFrame? && OriginOf(rows, r).starts != [] {
      var g := OriginOf(rows, r);
      assert Bracket(g.starts[|g.starts| - 1], r) in OriginOf(rows, n).brackets;
    }
  }

  // ---------------------------------------------------------------- what is raised

  /** Row `r` is the first that cannot be laid out, and this is what it raises. */
  predicate RaisedAt(t: Table, r: nat, raised: Raised)
    requires r < |t.rows| && Walk(t, r).Laid?
  {
    match t.rows[r]
    case Frame(_, _) => false
    case EndFrame => raised == PopFromEmpty && Walk(t, r).value.unclosed == []
    case Msg(source, target, _, _) => raised == UnknownLane && (source !in t.lanes || target !in t.lanes)
    case Note(over, lines) =>
      (raised == NoLines && lines == []) || (raised == UnknownLane && lines != [] && over !in t.lanes)
  }

  /** Whatever is raised is raised by the first row that cannot be laid out, or by a frame never closed. */
  lemma {:induction false} FailureHasItsRow(t: Table, n: nat)
    requires n <= |t.rows| && Walk(t, n).Failed?
    ensures exists r: nat :: r < n && Walk(t, r).Laid? && RaisedAt(t, r, Walk(t, n).raised)
  {
    hide BoxAt;
    if Walk(t, n - 1).Failed? {
      FailureHasItsRow(t, n - 1);
    } else {
      assert RaisedAt(t, n - 1, Walk(t, n).raised);
    }
  }

  lemma FinishRaises(t: Table)
    ensures Finished(t).Failed? ==>
              if Walk(t, |t.rows|).Failed? then Finished(t).raised == Walk(t, |t.rows|).raised
              else Finished(t).raised == NeverClosed && Walk(t, |t.rows|).value.unclosed != []
  {
    hide Walk;
  }

  // ---------------------------------------------------------------- the drawing

  /** The drawing of a table: its items as their rows say, its frames with their rows' titles, down to its foot. */
  lemma PictureShowsItsRows(t: Table)
    requires WellAuthored(t)
    ensures
      var d, g := Picture(t), OriginOf(t.rows, |t.rows|);
      && |d.placed| == |g.items| && |d.frames| == |g.brackets| && d.bottom == HeightOf(t.rows, |t.rows|) + 6
      && (forall i :: 0 <= i < |d.placed| ==>
            && g.items[i] < |t.rows| && Shows(t, t.rows[g.items[i]], d.placed[i])
            && d.placed[i].y == HeightOf(t.rows, g.items[i]))
      && (forall f :: 0 <= f < |d.frames| ==>
            && g.brackets[f].start < g.brackets[f].end < |t.rows|
            && t.rows[g.brackets[f].start].Frame? && t.rows[g.brackets[f].start].title == d.frames[f].title
            && d.frames[f].top == HeightOf(t.rows, g.brackets[f].start) + 10
            && d.frames[f].bottom == HeightOf(t.rows, g.brackets[f].end) + 8)
  {
    hide Walk, OriginOf, Shows, WellAuthored, FinalSheet, Picture, AuthoredAs;
    var s := FinalSheet(t);
    EverySheetShows(t, |t.rows|);
  }
}
