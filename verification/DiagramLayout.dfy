/**
  The vertical grid of a diagram (make_diagrams.py, the row loop of `layout`): a cursor moves down
  the page, a stack holds the frames still open, and each row leaves something on the sheet.
*/
module DiagramLayout {
  import opened Optional
  import opened Diagram

  const TOP := 152
  const MSG_H := 36
  const NOTE_LINE := 15
  const NOTE_PAD := 11
  const GAP := 34
  const MARGIN := 24.0
  const NOTE_FS := 11.0
  const ADVANCE := 0.605

  datatype Item =
    | Arrow(y: int, source: real, target: real, text: string)
    | Box(y: int, left: real, width: real, height: int)
  {
    /** Where the cursor stands once this has been placed. */
    function Below(): int { if Arrow? then y + MSG_H else y + height + GAP }
  }

  datatype FrameAt = FrameAt(top: int, bottom: int, title: string, span: Span)

  datatype Opened = Opened(top: int, title: string, span: Span)

  datatype Sheet = Sheet(y: int, unclosed: seq<Opened>, frames: seq<FrameAt>, placed: seq<Item>)

  /** What the script raises. */
  datatype Raised = UnknownLane | NoLines | PopFromEmpty | NeverClosed

  datatype Laid<+T> = Laid(value: T) | Failed(raised: Raised)

  const BLANK: Sheet := Sheet(TOP + 28, [], [], [])

  function Max(a: real, b: real): real { if a < b then b else a }

  function Min(a: real, b: real): real { if b < a then b else a }

  /** The longest line. */
  function Longest(lines: seq<string>): (n: nat)
    requires lines != []
    ensures forall i :: 0 <= i < |lines| ==> |lines[i]| <= n
    ensures exists i :: 0 <= i < |lines| && |lines[i]| == n
  {
    var last := |lines[|lines| - 1]|;
    if |lines| == 1 then last
    else
      var before := Longest(lines[..|lines| - 1]);
      if before < last then last else before
  }

  function BoxWidth(lines: seq<string>): (width: real)
    requires lines != []
    ensures width >= 22.0
  {
    2.0 * NOTE_PAD as real + Longest(lines) as real * NOTE_FS * ADVANCE
  }

  function BoxAt(t: Table, y: int, lane: real, lines: seq<string>): Item
    requires lines != []
  {
    var width := BoxWidth(lines);
    Box(y, Max(MARGIN, Min(lane - width / 2.0, t.width as real - width - MARGIN)), width,
        2 * NOTE_PAD + NOTE_LINE * |lines|)
  }

  function Placing(t: Table, row: Row, y: int): Laid<Item>
    requires row.Msg? || row.Note?
  {
    if row.Msg? then
      if row.source in t.lanes && row.target in t.lanes then
        Laid(Arrow(y, t.lanes[row.source], t.lanes[row.target], row.text))
      else Failed(UnknownLane)
    else if row.lines == [] then Failed(NoLines)
    else if row.over !in t.lanes then Failed(UnknownLane)
    else Laid(BoxAt(t, y, t.lanes[row.over], row.lines))
  }

  // ---------------------------------------------------------------- one row

  function Open(s: Sheet, title: string, span: Span): Sheet {
    s.(y := s.y + 56, unclosed := s.unclosed + [Opened(s.y + 10, title, span)])
  }

  function Close(s: Sheet): Sheet
    requires s.unclosed != []
  {
    var last := |s.unclosed| - 1;
    var o := s.unclosed[last];
    Sheet(s.y + 36, s.unclosed[..last], s.frames + [FrameAt(o.top, s.y + 8, o.title, o.span)], s.placed)
  }

  function Place(s: Sheet, item: Item): Sheet {
    s.(y := item.Below(), placed := s.placed + [item])
  }

  function Step(t: Table, s: Sheet, row: Row): Laid<Sheet> {
    match row
    case Frame(title, own) => Laid(Open(s, title, if own.Some? then own.value else t.frameSpan))
    case EndFrame => if s.unclosed == [] then Failed(PopFromEmpty) else Laid(Close(s))
    case _ =>
      var item := Placing(t, row, s.y);
      if item.Failed? then Failed(item.raised) else Laid(Place(s, item.value))
  }

  /** The sheet after the first `n` rows. */
  function Walk(t: Table, n: nat): Laid<Sheet>
    requires n <= |t.rows|
  {
    if n == 0 then Laid(BLANK)
    else
      var s := Walk(t, n - 1);
      if s.Failed? then s else Step(t, s.value, t.rows[n - 1])
  }

  // ---------------------------------------------------------------- which tables are laid out

  /** How many frames are open after `n` rows. */
  function Depth(rows: seq<Row>, n: nat): int
    requires n <= |rows|
  {
    if n == 0 then 0
    else Depth(rows, n - 1) + Nesting(rows[n - 1])
  }

  function Nesting(row: Row): int {
    if row.Frame? then 1 else if row.EndFrame? then -1 else 0
  }

  predicate NeverUnopened(rows: seq<Row>, n: nat)
    requires n <= |rows|
  {
    forall m :: 0 <= m <= n ==> Depth(rows, m) >= 0
  }

  predicate Balanced(rows: seq<Row>) {
    NeverUnopened(rows, |rows|) && Depth(rows, |rows|) == 0
  }

  predicate Readable(t: Table, row: Row) {
    && (row.Msg? ==> row.source in t.lanes && row.target in t.lanes)
    && (row.Note? ==> row.lines != [] && row.over in t.lanes)
  }

  predicate ReadableTo(t: Table, n: nat)
    requires n <= |t.rows|
  {
    forall r :: 0 <= r < n ==> Readable(t, t.rows[r])
  }

  predicate WellAuthored(t: Table) {
    Balanced(t.rows) && ReadableTo(t, |t.rows|)
  }

  lemma StepsExactly(t: Table, s: Sheet, row: Row)
    ensures Step(t, s, row).Laid? <==> Readable(t, row) && |s.unclosed| + Nesting(row) >= 0
    ensures Step(t, s, row).Laid? ==> |Step(t, s, row).value.unclosed| == |s.unclosed| + Nesting(row)
  {}

  lemma WalkOn(t: Table, n: nat)
    requires 0 < n <= |t.rows| && Walk(t, n - 1).Laid?
    ensures Walk(t, n) == Step(t, Walk(t, n - 1).value, t.rows[n - 1])
  {}

  lemma DepthOn(rows: seq<Row>, n: nat)
    requires 0 < n <= |rows|
    ensures Depth(rows, n) == Depth(rows, n - 1) + Nesting(rows[n - 1])
  {}

  lemma {:induction false} WalksExactly(t: Table, n: nat)
    requires n <= |t.rows|
    ensures Walk(t, n).Laid? <==> NeverUnopened(t.rows, n) && ReadableTo(t, n)
    ensures Walk(t, n).Laid? ==> |Walk(t, n).value.unclosed| == Depth(t.rows, n)
  {
    hide BoxAt;
    if n > 0 {
      WalksExactly(t, n - 1);
      var s, row := Walk(t, n - 1), t.rows[n - 1];
      if s.Laid? {
        hide Walk, Depth, Readable;
        StepsExactly(t, s.value, row);
        assert Walk(t, n) == Step(t, s.value, row) by { WalkOn(t, n); }
        assert Depth(t.rows, n) == Depth(t.rows, n - 1) + Nesting(row) by { DepthOn(t.rows, n); }
      }
    }
  }

  // ---------------------------------------------------------------- what the grid keeps

  predicate ItemsApart(placed: seq<Item>, y: int) {
    && (forall i :: 0 <= i < |placed| ==> placed[i].y + MSG_H <= placed[i].Below() <= y)
    && (forall i, j :: 0 <= i < j < |placed| ==> placed[i].Below() <= placed[j].y)
  }

  /** A frame's top edge and its tab are clear of everything placed. */
  predicate TopClear(placed: seq<Item>, top: int) {
    forall i :: 0 <= i < |placed| ==> placed[i].Below() + 10 <= top || top + 46 <= placed[i].y
  }

  predicate BottomClear(placed: seq<Item>, bottom: int) {
    forall i :: 0 <= i < |placed| ==> placed[i].Below() + 8 <= bottom || bottom + 28 <= placed[i].y
  }

  predicate OpenedClear(placed: seq<Item>, unclosed: seq<Opened>, y: int) {
    && (forall o :: 0 <= o < |unclosed| ==> unclosed[o].top + 46 <= y && TopClear(placed, unclosed[o].top))
    && (forall o, p :: 0 <= o < p < |unclosed| ==> unclosed[o].top < unclosed[p].top)
  }

  predicate FramesClear(placed: seq<Item>, frames: seq<FrameAt>, y: int) {
    forall f :: 0 <= f < |frames| ==>
      && frames[f].top + 54 <= frames[f].bottom && frames[f].bottom + 28 <= y
      && TopClear(placed, frames[f].top) && BottomClear(placed, frames[f].bottom)
  }

  predicate Inside(inner: FrameAt, outer: FrameAt) {
    outer.top < inner.top && inner.bottom < outer.bottom
  }

  predicate Unrelated(f: FrameAt, g: FrameAt) {
    f.bottom < g.top || g.bottom < f.top
  }

  predicate Family(frames: seq<FrameAt>) {
    forall f, g :: 0 <= f < g < |frames| ==> Inside(frames[f], frames[g]) || Unrelated(frames[f], frames[g])
  }

  /** A closed frame lies wholly above an open one's top edge or wholly below it. */
  predicate OpenedFamily(unclosed: seq<Opened>, frames: seq<FrameAt>) {
    forall o, f :: 0 <= o < |unclosed| && 0 <= f < |frames| ==>
      frames[f].bottom < unclosed[o].top || unclosed[o].top < frames[f].top
  }

  predicate Tidy(s: Sheet) {
    && ItemsApart(s.placed, s.y) && OpenedClear(s.placed, s.unclosed, s.y) && FramesClear(s.placed, s.frames, s.y)
    && Family(s.frames) && OpenedFamily(s.unclosed, s.frames)
  }

  lemma OpenKeeps(s: Sheet, title: string, span: Span)
    requires Tidy(s)
    ensures Tidy(Open(s, title, span))
  {
    hide Family, BottomClear;
    var o := Opened(s.y + 10, title, span);
    assert TopClear(s.placed, o.top);
    hide TopClear;
  }

  lemma CloseKeeps(s: Sheet)
    requires Tidy(s) && s.unclosed != []
    ensures Tidy(Close(s))
  {
    var o := s.unclosed[|s.unclosed| - 1];
    var f := FrameAt(o.top, s.y + 8, o.title, o.span);
    assert BottomClear(s.placed, f.bottom);
    hide TopClear, BottomClear;
    var after := Close(s);
    forall g | 0 <= g < |s.frames| ensures Inside(s.frames[g], f) || Unrelated(s.frames[g], f) {
      assert s.frames[g].bottom < o.top || o.top < s.frames[g].top;
    }
    assert Family(after.frames);
    assert OpenedFamily(after.unclosed, after.frames);
  }

  lemma PlaceKeeps(s: Sheet, item: Item)
    requires Tidy(s) && item.y == s.y && s.y + MSG_H <= item.Below()
    ensures Tidy(Place(s, item))
  {
    hide Family, OpenedFamily;
    assert forall top :: TopClear(s.placed, top) && top + 46 <= s.y ==> TopClear(s.placed + [item], top);
    assert forall b :: BottomClear(s.placed, b) && b + 28 <= s.y ==> BottomClear(s.placed + [item], b);
    hide TopClear, BottomClear;
  }

  lemma {:induction false} EverySheetIsTidy(t: Table, n: nat)
    requires n <= |t.rows| && Walk(t, n).Laid?
    ensures Tidy(Walk(t, n).value)
  {
    hide Tidy, Open, Close, Place, Longest;
    if n == 0 {
      assert Tidy(BLANK) by { BlankIsTidy(); }
    } else {
      EverySheetIsTidy(t, n - 1);
      var s, row := Walk(t, n - 1).value, t.rows[n - 1];
      match row
      case Frame(title, own) => OpenKeeps(s, title, if own.Some? then own.value else t.frameSpan);
      case EndFrame => CloseKeeps(s);
      case _ => PlaceKeeps(s, Placing(t, row, s.y).value);
    }
  }

  lemma BlankIsTidy()
    ensures Tidy(BLANK)
  {}

  // ---------------------------------------------------------------- the loop

  /** What the row loop leaves, or what it raises: the first row that raises decides. */
  function Finished(t: Table): Laid<Sheet> {
    var s := Walk(t, |t.rows|);
    if s.Laid? && s.value.unclosed != [] then Failed(NeverClosed) else s
  }

  lemma {:induction false} FailureStays(t: Table, n: nat, m: nat)
    requires n <= m <= |t.rows|
    ensures Walk(t, n).Failed? ==> Walk(t, m) == Walk(t, n)
    decreases m
  {
    if n < m {
      FailureStays(t, n, m - 1);
    }
  }

  lemma NothingWalked(t: Table)
    ensures Walk(t, 0) == Laid(BLANK)
  {}

  lemma AllWalked(t: Table)
    ensures
      var s := Walk(t, |t.rows|);
      Finished(t) == if s.Laid? && s.value.unclosed != [] then Failed(NeverClosed) else s
  {}

  lemma FailureDecides(t: Table, n: nat)
    requires n <= |t.rows|
    ensures Walk(t, n).Failed? ==> Finished(t) == Walk(t, n)
  {
    FailureStays(t, n, |t.rows|);
  }

  /** The row loop of `layout`, up to the assertion that follows it. */
  method LayRows(t: Table) returns (r: Laid<Sheet>)
    ensures r == Finished(t)
  {
    hide Longest, Walk, Finished;
    var y := TOP + 28;
    assert Walk(t, 0) == Laid(BLANK) by { NothingWalked(t); }
    var unclosed: seq<Opened>, frames: seq<FrameAt>, placed: seq<Item> := [], [], [];
    for n := 0 to |t.rows|
      invariant Walk(t, n) == Laid(Sheet(y, unclosed, frames, placed))
    {
      WalkOn(t, n + 1);
      FailureDecides(t, n + 1);
      match t.rows[n] {
        case Frame(title, own) =>
          var span := if own.Some? then own.value else t.frameSpan;
          y := y + 10;
          unclosed := unclosed + [Opened(y, title, span)];
          y := y + 46;
        case EndFrame =>
          if unclosed == [] {
            return Failed(PopFromEmpty);
          }
          var o := unclosed[|unclosed| - 1];
          unclosed := unclosed[..|unclosed| - 1];
          frames := frames + [FrameAt(o.top, y + 8, o.title, o.span)];
          y := y + 36;
        case Msg(source, target, _, text) =>
          if source !in t.lanes || target !in t.lanes {
            return Failed(UnknownLane);
          }
          placed := placed + [Arrow(y, t.lanes[source], t.lanes[target], text)];
          y := y + MSG_H;
        case Note(over, lines) =>
          if lines == [] {
            return Failed(NoLines);
          }
          var width := 2.0 * NOTE_PAD as real + Longest(lines) as real * NOTE_FS * ADVANCE;
          var height := 2 * NOTE_PAD + NOTE_LINE * |lines|;
          if over !in t.lanes {
            return Failed(UnknownLane);
          }
          var left := Max(MARGIN, Min(t.lanes[over] - width / 2.0, t.width as real - width - MARGIN));
          placed := placed + [Box(y, left, width, height)];
          y := y + height + GAP;
      }
    }
    AllWalked(t);
    if unclosed != [] {
      return Failed(NeverClosed);
    }
    return Laid(Sheet(y, unclosed, frames, placed));
  }

  /** What can be laid out: every row readable, and every frame closed after it was opened. */
  lemma LaidOutExactly(t: Table)
    ensures Finished(t).Laid? <==> WellAuthored(t)
    ensures Finished(t).Laid? ==> Walk(t, |t.rows|) == Finished(t)
  {
    hide NeverUnopened, ReadableTo, Walk;
    WalksExactly(t, |t.rows|);
    var s := Walk(t, |t.rows|);
    assert s.Laid? ==> (s.value.unclosed == [] <==> |s.value.unclosed| == 0);
  }
}
