/**
  The two widening passes of `layout` (make_diagrams.py): each frame grows to hold what is drawn
  inside it, then, tallest first, to hold the frames nested in it.
*/
module FrameWidening {
  import opened Diagram
  import opened DiagramLayout

  const PAD := 12.0
  const EDGE := 10.0

  // ---------------------------------------------------------------- rounding

  /** Python's `round`: to the nearest whole number, halves to the even one. */
  function Rounded(x: real): (n: int)
    ensures x - 0.5 <= n as real <= x + 0.5
    ensures n as real == x - 0.5 || n as real == x + 0.5 ==> n % 2 == 0
  {
    var f := x.Floor;
    var part := x - f as real;
    if part < 0.5 || (part == 0.5 && f % 2 == 0) then f else f + 1
  }

  lemma RoundingStaysWithin(x: real, k: int)
    ensures k as real <= x ==> k <= Rounded(x)
    ensures x <= k as real ==> Rounded(x) <= k
  {}

  lemma RoundingIsOdd(x: real)
    ensures Rounded(-x) == -Rounded(x)
  {}

  // ---------------------------------------------------------------- one edge

  /** A left edge pulled out, in order, to clear each of `lows` by PAD without passing `floor`. */
  function Pulled(floor: real, edge: real, lows: seq<real>): real {
    if lows == [] then edge
    else Max(floor, Min(Pulled(floor, edge, lows[..|lows| - 1]), lows[|lows| - 1] - PAD))
  }

  /** Where a pulled edge ends up does not depend on the order: the least of what it must clear. */
  lemma {:induction false} PulledIsLeast(floor: real, edge: real, lows: seq<real>)
    ensures lows != [] ==> floor <= Pulled(floor, edge, lows) <= Max(floor, edge)
    ensures forall k :: 0 <= k < |lows| ==> Pulled(floor, edge, lows) <= Max(floor, lows[k] - PAD)
    ensures lows == [] || Pulled(floor, edge, lows) == Max(floor, edge)
            || exists k :: 0 <= k < |lows| && Pulled(floor, edge, lows) == Max(floor, lows[k] - PAD)
  {
    if lows != [] {
      var before, last := lows[..|lows| - 1], lows[|lows| - 1];
      PulledIsLeast(floor, edge, before);
      if Pulled(floor, edge, before) != Max(floor, edge) && before != [] {
        var k :| 0 <= k < |before| && Pulled(floor, edge, before) == Max(floor, before[k] - PAD);
        assert lows[k] == before[k];
      }
    }
  }

  // ---------------------------------------------------------------- what a frame must hold

  /** A drawn thing's extent. */
  function Extent(item: Item): Span {
    if item.Arrow? then Span(Min(item.source, item.target), Max(item.source, item.target))
    else Span(item.left, item.left + item.width)
  }

  predicate Holds(f: FrameAt, item: Item) {
    f.top < item.y < f.bottom
  }

  /** The extents of the first `n` things drawn that the frame holds. */
  function Held(f: FrameAt, placed: seq<Item>, n: nat): seq<Span>
    requires n <= |placed|
  {
    if n == 0 then []
    else
      var before := Held(f, placed, n - 1);
      if Holds(f, placed[n - 1]) then before + [Extent(placed[n - 1])] else before
  }

  /** The spans of the first `n` frames, as `spans` has them, that are nested in frame `o`. */
  function Nested(frames: seq<FrameAt>, spans: seq<Span>, o: nat, n: nat): seq<Span>
    requires o < |frames| == |spans| && n <= |frames|
  {
    if n == 0 then []
    else
      var before := Nested(frames, spans, o, n - 1);
      if Inside(frames[n - 1], frames[o]) then before + [spans[n - 1]] else before
  }

  function Lefts(spans: seq<Span>): (r: seq<real>)
    ensures |r| == |spans| && forall i :: 0 <= i < |r| ==> r[i] == spans[i].left
  {
    if spans == [] then [] else Lefts(spans[..|spans| - 1]) + [spans[|spans| - 1].left]
  }

  function Rights(spans: seq<Span>): (r: seq<real>)
    ensures |r| == |spans| && forall i :: 0 <= i < |r| ==> r[i] == -spans[i].right
  {
    if spans == [] then [] else Rights(spans[..|spans| - 1]) + [-spans[|spans| - 1].right]
  }

  /** The right margin, on the mirrored page. */
  function Mirror(width: int): real { (10 - width) as real }

  /** Both edges: the right one is the left one of the mirrored page. */
  function Around(width: int, span: Span, held: seq<Span>): Span {
    Span(Pulled(EDGE, span.left, Lefts(held)), -Pulled(Mirror(width), -span.right, Rights(held)))
  }

  lemma AroundOneMore(width: int, span: Span, held: seq<Span>, more: Span)
    ensures
      var before := Around(width, span, held);
      Around(width, span, held + [more]) ==
      Span(Max(EDGE, Min(before.left, more.left - PAD)),
           Min(width as real - EDGE, Max(before.right, more.right + PAD)))
  {
    var longer := held + [more];
    assert longer[..|longer| - 1] == held;
    assert Lefts(longer) == Lefts(held) + [more.left];
    assert Rights(longer) == Rights(held) + [-more.right];
    PulledOneMore(EDGE, span.left, Lefts(held), more.left);
    PulledOneMore(Mirror(width), -span.right, Rights(held), -more.right);
  }

  lemma PulledOneMore(floor: real, edge: real, lows: seq<real>, low: real)
    ensures Pulled(floor, edge, lows + [low]) == Max(floor, Min(Pulled(floor, edge, lows), low - PAD))
  {
    var longer := lows + [low];
    assert longer[..|longer| - 1] == lows;
  }

  // ---------------------------------------------------------------- the first pass

  function RoundedSpan(span: Span): Span {
    Span(Rounded(span.left) as real, Rounded(span.right) as real)
  }

  /** A frame's span grown to what is drawn inside it, and rounded to whole pixels. */
  function Widened(width: int, placed: seq<Item>, f: FrameAt): Span {
    RoundedSpan(Around(width, f.span, Held(f, placed, |placed|)))
  }

  function WidenedAll(width: int, placed: seq<Item>, frames: seq<FrameAt>): (spans: seq<Span>)
    ensures |spans| == |frames|
    ensures forall i :: 0 <= i < |spans| ==> spans[i] == Widened(width, placed, frames[i])
  {
    seq(|frames|, i requires 0 <= i < |frames| => Widened(width, placed, frames[i]))
  }

  method WidenOne(width: int, placed: seq<Item>, f: FrameAt) returns (span: Span)
    ensures span == Widened(width, placed, f)
  {
    hide Rounded, Around;
    var left, right := f.span.left, f.span.right;
    assert Span(left, right) == Around(width, f.span, []) by { NothingAround(width, f.span); }
    for n := 0 to |placed|
      invariant Span(left, right) == Around(width, f.span, Held(f, placed, n))
    {
      var item := placed[n];
      if !(f.top < item.y < f.bottom) {
        continue;
      }
      var low, high;
      if item.Box? {
        low, high := item.left, item.left + item.width;
      } else {
        low, high := Min(item.source, item.target), Max(item.source, item.target);
      }
      AroundOneMore(width, f.span, Held(f, placed, n), Span(low, high));
      left := Max(EDGE, Min(left, low - PAD));
      right := Min(width as real - EDGE, Max(right, high + PAD));
    }
    span := Span(Rounded(left) as real, Rounded(right) as real);
  }

  lemma NothingAround(width: int, span: Span)
    ensures Around(width, span, []) == span
  {}

  method FirstPass(width: int, placed: seq<Item>, frames: seq<FrameAt>) returns (widened: array<Span>)
    ensures fresh(widened) && widened[..] == WidenedAll(width, placed, frames)
  {
    hide Widened;
    widened := new Span[|frames|](_ => Span(0.0, 0.0));
    for n := 0 to |frames|
      invariant forall i :: 0 <= i < n ==> widened[i] == Widened(width, placed, frames[i])
    {
      widened[n] := WidenOne(width, placed, frames[n]);
    }
  }

  // ---------------------------------------------------------------- tallest first

  function Height(f: FrameAt): int { f.bottom - f.top }

  predicate Descending(frames: seq<FrameAt>, order: seq<nat>) {
    && (forall i :: 0 <= i < |order| ==> order[i] < |frames|)
    && (forall i, j :: 0 <= i < j < |order| ==> Height(frames[order[i]]) >= Height(frames[order[j]]))
  }

  ghost predicate EachOnce(order: seq<nat>, n: nat) {
    && (forall k: nat :: k < n <==> k in order)
    && Distinct(order)
  }

  predicate Distinct(order: seq<nat>) {
    forall i, j :: 0 <= i < j < |order| ==> order[i] != order[j]
  }

  /** `order` with frame `k` put after every frame at least as tall: a stable insertion. */
  function Inserted(frames: seq<FrameAt>, order: seq<nat>, k: nat): (r: seq<nat>)
    requires k < |frames| && Descending(frames, order)
    ensures Descending(frames, r)
    ensures forall j :: j in r <==> j in order || j == k
  {
    if order == [] || Height(frames[order[|order| - 1]]) >= Height(frames[k]) then order + [k]
    else
      var less, last := order[..|order| - 1], order[|order| - 1];
      var front := Inserted(frames, less, k);
      FrontIsTaller(frames, less, last, front, k);
      front + [last]
  }

  lemma FrontIsTaller(frames: seq<FrameAt>, less: seq<nat>, last: nat, front: seq<nat>, k: nat)
    requires k < |frames| && last < |frames| && Descending(frames, less) && Descending(frames, front)
    requires forall j :: 0 <= j < |less| ==> Height(frames[less[j]]) >= Height(frames[last])
    requires Height(frames[last]) < Height(frames[k]) && forall j :: j in front ==> j in less || j == k
    ensures Descending(frames, front + [last])
  {
    hide Height;
    forall i | 0 <= i < |front| ensures Height(frames[front[i]]) >= Height(frames[last]) {
      assert front[i] in front;
    }
  }

  /** The first `n` frames by height, tallest first, equals in their own order. */
  function TallestFirst(frames: seq<FrameAt>, n: nat): (order: seq<nat>)
    requires n <= |frames|
    ensures Descending(frames, order)
  {
    if n == 0 then [] else Inserted(frames, TallestFirst(frames, n - 1), n - 1)
  }

  lemma DistinctOneMore(order: seq<nat>, k: nat)
    ensures Distinct(order + [k]) <==> Distinct(order) && k !in order
  {
    var more := order + [k];
    assert forall i :: 0 <= i < |order| ==> more[i] == order[i] && order[i] in order;
    assert more[|order|] == k;
  }

  lemma DescendingFront(frames: seq<FrameAt>, order: seq<nat>)
    requires Descending(frames, order) && order != []
    ensures Descending(frames, order[..|order| - 1])
  {}

  lemma {:induction false} InsertedOnce(frames: seq<FrameAt>, order: seq<nat>, k: nat)
    requires Descending(frames, order) && k < |frames| && k !in order && Distinct(order)
    ensures Distinct(Inserted(frames, order, k))
  {
    DistinctOneMore(order, k);
    if order != [] {
      var less, last := order[..|order| - 1], order[|order| - 1];
      DescendingFront(frames, order);
      hide Descending, Distinct, Height;
      assert order == less + [last];
      DistinctOneMore(less, last);
      InsertedOnce(frames, less, k);
      DistinctOneMore(Inserted(frames, less, k), last);
    }
  }

  lemma {:induction false} TallestFirstIsAll(frames: seq<FrameAt>, n: nat)
    requires n <= |frames|
    ensures EachOnce(TallestFirst(frames, n), n)
  {
    if n > 0 {
      TallestFirstIsAll(frames, n - 1);
      InsertedOnce(frames, TallestFirst(frames, n - 1), n - 1);
    }
  }

  // ---------------------------------------------------------------- the second pass

  /** A frame's span grown to the spans of the frames nested in it, as the first pass left them. */
  function Grown(width: int, frames: seq<FrameAt>, spans: seq<Span>, o: nat): Span
    requires o < |frames| == |spans|
  {
    Around(width, spans[o], Nested(frames, spans, o, |frames|))
  }

  /** One frame of the second pass; the frames nested in it still have their first spans. */
  method GrowOne(width: int, frames: seq<FrameAt>, widened: array<Span>, ghost spans: seq<Span>, o: nat)
      returns (span: Span)
    requires o < |frames| == |spans| == widened.Length && widened[o] == spans[o]
    requires forall i :: 0 <= i < |frames| && Inside(frames[i], frames[o]) ==> widened[i] == spans[i]
    ensures span == Grown(width, frames, spans, o)
  {
    hide Around;
    span := widened[o];
    assert span == Around(width, spans[o], []) by { NothingAround(width, spans[o]); }
    for n := 0 to |frames|
      invariant span == Around(width, spans[o], Nested(frames, spans, o, n))
    {
      var f := frames[n];
      if n != o && frames[o].top < f.top && frames[o].bottom > f.bottom {
        AroundOneMore(width, spans[o], Nested(frames, spans, o, n), spans[n]);
        span := Span(Max(EDGE, Min(span.left, widened[n].left - PAD)),
                     Min(width as real - EDGE, Max(span.right, widened[n].right + PAD)));
      }
    }
  }

  /** In place, tallest first: every frame ends as if each had grown from the first pass's spans. */
  method SecondPass(width: int, frames: seq<FrameAt>, widened: array<Span>)
    requires widened.Length == |frames|
    modifies widened
    ensures forall o :: 0 <= o < |frames| ==> widened[o] == Grown(width, frames, old(widened[..]), o)
  {
    hide Grown;
    ghost var spans := widened[..];
    var order := TallestFirst(frames, |frames|);
    TallestFirstIsAll(frames, |frames|);
    hide TallestFirst, Inserted;
    for n := 0 to |order|
      invariant forall i :: 0 <= i < n ==> widened[order[i]] == Grown(width, frames, spans, order[i])
      invariant forall i :: n <= i < |order| ==> widened[order[i]] == spans[order[i]]
    {
      var outer := order[n];
      forall i: nat | i < |frames| && Inside(frames[i], frames[outer]) ensures widened[i] == spans[i] {
        NestedComesLater(frames, order, n, i);
      }
      widened[outer] := GrowOne(width, frames, widened, spans, outer);
    }
    forall o: nat | o < |frames| ensures widened[o] == Grown(width, frames, spans, o) {
      assert o in order;
    }
  }

  lemma NestedComesLater(frames: seq<FrameAt>, order: seq<nat>, n: nat, inner: nat)
    requires Descending(frames, order) && EachOnce(order, |frames|) && n < |order|
    requires inner < |frames| && Inside(frames[inner], frames[order[n]])
    ensures exists i :: n < i < |order| && order[i] == inner
  {
    assert inner in order;
    var i :| 0 <= i < |order| && order[i] == inner;
    assert Height(frames[inner]) < Height(frames[order[n]]);
  }
}
