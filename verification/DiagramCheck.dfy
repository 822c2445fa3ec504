/**
  The whole layout and its geometry check (make_diagrams.py, `layout` and `check`): which of the
  check's complaints the layout can still draw, and what its frames enclose.
*/
module DiagramCheck {
  import opened Diagram
  import opened DiagramLayout
  import opened FrameWidening

  datatype Drawing = Drawing(placed: seq<Item>, frames: seq<FrameAt>, bottom: int)

  /** The frames with the spans the two passes give them. */
  function Outlined(width: int, placed: seq<Item>, frames: seq<FrameAt>): (drawn: seq<FrameAt>)
    ensures |drawn| == |frames|
    ensures forall f :: 0 <= f < |frames| ==>
      && drawn[f].top == frames[f].top && drawn[f].bottom == frames[f].bottom && drawn[f].title == frames[f].title
      && drawn[f].span == Grown(width, frames, WidenedAll(width, placed, frames), f)
  {
    seq(|frames|, f requires 0 <= f < |frames| =>
      frames[f].(span := Grown(width, frames, WidenedAll(width, placed, frames), f)))
  }

  function Drawn(t: Table): Laid<Drawing> {
    var s := Finished(t);
    if s.Failed? then Failed(s.raised)
    else Laid(Drawing(s.value.placed, Outlined(t.width, s.value.placed, s.value.frames), s.value.y + 6))
  }

  /** What the row loop leaves of a table that can be laid out. */
  function FinalSheet(t: Table): (s: Sheet)
    requires WellAuthored(t)
    ensures Walk(t, |t.rows|) == Laid(s)
  {
    LaidOutExactly(t);
    Finished(t).value
  }

  /** The drawing of a table that can be laid out. */
  function Picture(t: Table): (d: Drawing)
    requires WellAuthored(t)
    ensures
      var s := FinalSheet(t);
      Drawn(t) == Laid(d) && d == Drawing(s.placed, Outlined(t.width, s.placed, s.frames), s.y + 6)
  {
    LaidOutExactly(t);
    Drawn(t).value
  }

  method Layout(t: Table) returns (r: Laid<Drawing>)
    ensures r == Drawn(t)
  {
    hide Finished, Grown, WidenedAll;
    var laid := LayRows(t);
    if laid.Failed? {
      return Failed(laid.raised);
    }
    var Sheet(y, _, frames, placed) := laid.value;
    var spans := FirstPass(t.width, placed, frames);
    SecondPass(t.width, frames, spans);
    var drawn := seq(|frames|, f requires 0 <= f < |frames| reads spans => frames[f].(span := spans[f]));
    assert drawn == Outlined(t.width, placed, frames);
    return Laid(Drawing(placed, drawn, y + 6));
  }

  // ---------------------------------------------------------------- the check's complaints

  datatype Fault =
    | BoxOffCanvas(item: nat)
    | BoxCrowds(item: nat)
    | ArrowsOverlap(arrow: nat)
    | FrameOffCanvas(frame: nat)
    | LabelOnEdge(frame: nat, item: nat)
    | TabHit(frame: nat, item: nat)

  /** The arrows drawn, top to bottom. */
  function Arrows(placed: seq<Item>): seq<Item> {
    if placed == [] then []
    else
      var before, last := Arrows(placed[..|placed| - 1]), placed[|placed| - 1];
      if last.Arrow? then before + [last] else before
  }

  /** The dashed edge at height `edge` strikes an arrow's label. */
  predicate Strikes(edge: int, arrow: Item) {
    (arrow.y - 19) - 4 <= edge <= (arrow.y - 6) + 4
  }

  predicate IsFault(width: int, placed: seq<Item>, frames: seq<FrameAt>, fault: Fault) {
    match fault
    case BoxOffCanvas(i) =>
      i < |placed| && placed[i].Box?
      && (placed[i].left < 8.0 || placed[i].left + placed[i].width > width as real - 8.0)
    case BoxCrowds(i) =>
      i + 1 < |placed| && placed[i].Box? && placed[i + 1].Arrow?
      && placed[i + 1].y - 19 < placed[i].y + placed[i].height + 3
    case ArrowsOverlap(k) =>
      k + 1 < |Arrows(placed)| && 0 < Arrows(placed)[k + 1].y - Arrows(placed)[k].y < 26
    case FrameOffCanvas(f) =>
      f < |frames| && (frames[f].span.left < 8.0 || frames[f].span.right > width as real - 8.0)
    case LabelOnEdge(f, i) =>
      f < |frames| && i < |placed| && placed[i].Arrow?
      && (Strikes(frames[f].top, placed[i]) || Strikes(frames[f].bottom, placed[i]))
    case TabHit(f, i) =>
      f < |frames| && i < |placed| && placed[i].Arrow? && frames[f].top - 14 < placed[i].y < frames[f].top + 22
  }

  /** A label stands from 19 to 6 pixels above its arrow, and is struck by what comes within four of it. */
  lemma StrikesExactly(edge: int, arrow: Item)
    ensures Strikes(edge, arrow) <==> arrow.y - 23 <= edge <= arrow.y - 2
  {}

  /** The arrows of a page are those of its parts in turn: every arrow, and nothing else. */
  lemma {:induction false} ArrowsInOrder(first: seq<Item>, others: seq<Item>)
    ensures Arrows(first + others) == Arrows(first) + Arrows(others)
    ensures |first| == 1 ==> Arrows(first) == if first[0].Arrow? then first else []
    decreases |others|
  {
    if others == [] {
      assert first + others == first;
    } else {
      var n := |others| - 1;
      ArrowsInOrder(first, others[..n]);
      assert (first + others)[..|first| + n] == first + others[..n];
    }
    if |first| == 1 {
      assert first[..0] == [] && first == [first[0]];
    }
  }

  method CheckBoxes(width: int, placed: seq<Item>, frames: seq<FrameAt>) returns (faults: seq<Fault>)
    ensures forall x :: x in faults <==> (x.BoxOffCanvas? || x.BoxCrowds?) && IsFault(width, placed, frames, x)
  {
    faults := [];
    for n := 0 to |placed|
      invariant forall x :: x in faults <==>
                  (x.BoxOffCanvas? || x.BoxCrowds?) && x.item < n && IsFault(width, placed, frames, x)
    {
      if placed[n].Box? {
        var box := placed[n];
        if box.left < 8.0 || box.left + box.width > width as real - 8.0 {
          faults := faults + [BoxOffCanvas(n)];
        }
        if n + 1 < |placed| && placed[n + 1].Arrow? && placed[n + 1].y - 19 < box.y + box.height + 3 {
          faults := faults + [BoxCrowds(n)];
        }
      }
    }
  }

  method CheckArrows(width: int, placed: seq<Item>, frames: seq<FrameAt>) returns (faults: seq<Fault>)
    ensures forall x :: x in faults <==> x.ArrowsOverlap? && IsFault(width, placed, frames, x)
  {
    var messages := Arrows(placed);
    hide Arrows;
    faults := [];
    for n := 0 to |messages|
      invariant forall x :: x in faults <==> x.ArrowsOverlap? && x.arrow + 1 < n && IsFault(width, placed, frames, x)
    {
      if n > 0 && 0 < messages[n].y - messages[n - 1].y < 26 {
        faults := faults + [ArrowsOverlap(n - 1)];
      }
    }
  }

  /** The complaints about one frame; a label struck by both edges is complained of twice. */
  method CheckFrame(width: int, placed: seq<Item>, frames: seq<FrameAt>, f: nat) returns (faults: seq<Fault>)
    requires f < |frames|
    ensures forall x :: x in faults <==>
              (x.FrameOffCanvas? || x.LabelOnEdge? || x.TabHit?) && x.frame == f && IsFault(width, placed, frames, x)
  {
    var FrameAt(top, bottom, _, span) := frames[f];
    faults := [];
    if span.left < 8.0 || span.right > width as real - 8.0 {
      faults := [FrameOffCanvas(f)];
    }
    for n := 0 to |placed|
      invariant forall x :: x in faults <==>
                  (x.FrameOffCanvas? || ((x.LabelOnEdge? || x.TabHit?) && x.item < n))
                  && x.frame == f && IsFault(width, placed, frames, x)
    {
      if placed[n].Arrow? {
        if Strikes(top, placed[n]) {
          faults := faults + [LabelOnEdge(f, n)];
        }
        if Strikes(bottom, placed[n]) {
          faults := faults + [LabelOnEdge(f, n)];
        }
        if top - 14 < placed[n].y < top + 22 {
          faults := faults + [TabHit(f, n)];
        }
      }
    }
  }

  method CheckGeometry(width: int, placed: seq<Item>, frames: seq<FrameAt>) returns (faults: seq<Fault>)
    ensures forall x :: x in faults <==> IsFault(width, placed, frames, x)
  {
    FaultsAreOfFrames(width, placed, frames);
    hide IsFault;
    faults := CheckBoxes(width, placed, frames);
    var more := CheckArrows(width, placed, frames);
    faults := faults + more;
    for n := 0 to |frames|
      invariant forall x :: x in faults <==> (x.FrameOffCanvas? || x.LabelOnEdge? || x.TabHit? ==> x.frame < n)
                                             && IsFault(width, placed, frames, x)
    {
      more := CheckFrame(width, placed, frames, n);
      faults := faults + more;
    }
  }

  lemma FaultsAreOfFrames(width: int, placed: seq<Item>, frames: seq<FrameAt>)
    ensures forall x :: IsFault(width, placed, frames, x) && (x.FrameOffCanvas? || x.LabelOnEdge? || x.TabHit?) ==>
              x.frame < |frames|
  {}

  // ---------------------------------------------------------------- what cannot be complained of

  /** Two arrows next to each other are drawn one above the other, a whole row apart. */
  lemma {:induction false} ArrowsAreRowsApart(placed: seq<Item>, y: int)
    requires ItemsApart(placed, y)
    ensures forall k :: 0 <= k < |Arrows(placed)| ==> Arrows(placed)[k].y + MSG_H <= y
    ensures forall k :: 0 < k < |Arrows(placed)| ==> Arrows(placed)[k - 1].y + MSG_H <= Arrows(placed)[k].y
  {
    if placed != [] {
      var before, last := placed[..|placed| - 1], placed[|placed| - 1];
      assert ItemsApart(before, last.y);
      ArrowsAreRowsApart(before, last.y);
    }
  }

  /** Whatever the table, its rows never crowd, overlap, sit on a frame's edge or hit its tab. */
  lemma OnlyTheCanvasIsLeft(t: Table, fault: Fault)
    requires WellAuthored(t)
    requires IsFault(t.width, Picture(t).placed, Picture(t).frames, fault)
    ensures fault.BoxOffCanvas? || fault.FrameOffCanvas?
  {
    hide WellAuthored, Walk, FinalSheet, Picture;
    var s := FinalSheet(t);
    EverySheetIsTidy(t, |t.rows|);
    TidyIsClear(t.width, s, Picture(t).frames, fault);
  }

  lemma TidyIsClear(width: int, s: Sheet, frames: seq<FrameAt>, fault: Fault)
    requires Tidy(s) && |frames| == |s.frames|
    requires forall f :: 0 <= f < |frames| ==> frames[f].top == s.frames[f].top && frames[f].bottom == s.frames[f].bottom
    requires IsFault(width, s.placed, frames, fault)
    ensures fault.BoxOffCanvas? || fault.FrameOffCanvas?
  {
    ArrowsAreRowsApart(s.placed, s.y);
    hide Arrows, Family, OpenedFamily, OpenedClear;
  }

  /** A note's complaint is about its text alone: its box is too wide for the canvas. */
  lemma BoxOffCanvasExactly(t: Table, i: nat)
    requires WellAuthored(t) && i < |Picture(t).placed| && Picture(t).placed[i].Box?
    ensures
      var d := Picture(t);
      IsFault(t.width, d.placed, d.frames, BoxOffCanvas(i)) <==> t.width as real < d.placed[i].width + 32.0
  {
    hide WellAuthored, Walk, FinalSheet, Picture;
    BoxesAreClamped(t, |t.rows|, i);
  }

  /** Pushed back inside the margins where it fits between them, and to the left one where not. */
  predicate Clamped(width: int, box: Item)
    requires box.Box?
  {
    && MARGIN <= box.left
    && if box.width + 2.0 * MARGIN <= width as real then box.left + box.width <= width as real - MARGIN
       else box.left == MARGIN
  }

  lemma {:induction false} BoxesAreClamped(t: Table, n: nat, i: nat)
    requires n <= |t.rows| && Walk(t, n).Laid?
    requires i < |Walk(t, n).value.placed| && Walk(t, n).value.placed[i].Box?
    ensures Clamped(t.width, Walk(t, n).value.placed[i]) && Walk(t, n).value.placed[i].width >= 22.0
  {
    hide BoxWidth;
    if n > 0 && i < |Walk(t, n - 1).value.placed| {
      BoxesAreClamped(t, n - 1, i);
    }
  }
}
