/** The frame side of `run_session_once` (rdp.rs): dirty-rectangle coalescing, visibility and
    pacing, against the framebuffer that the emitted updates are applied to. */
module SessionLoop {
  import opened Results
  import opened Bytes
  import opened Frames

  const FRAME_INTERVAL := 16

  /** The loop variables. Times are milliseconds of a clock that never runs back. */
  datatype Loop = Loop(dirty: Option<Rect>, visible: bool, justBecameVisible: bool, lastFrame: int)

  datatype Update = Update(x: nat, y: nat, width: nat, height: nat, pixels: bytes)

  /** Just before the first turn, at time `now`. */
  function Start(now: nat): Loop {
    Loop(None, true, false, now - FRAME_INTERVAL)
  }

  function SetVisible(l: Loop, nowVisible: bool): Loop
  {
    l.(justBecameVisible := l.justBecameVisible || (nowVisible && !l.visible), visible := nowVisible)
  }

  /** `GraphicsUpdate(rect)` from the active stage. */
  function Report(l: Loop, rect: Rect): Loop
  {
    l.(dirty := Some(match l.dirty case Some(current) => Union(current, rect) case None => rect))
  }

  function ReportAll(l: Loop, rects: seq<Rect>): Loop
  {
    if rects == [] then l else Report(ReportAll(l, rects[..|rects| - 1]), rects[|rects| - 1])
  }

  function Whole(s: Size): Rect
    requires s.width > 0 && s.height > 0
  {
    Rect(0, 0, s.width - 1, s.height - 1)
  }

  ghost predicate DirtyFits(s: Size, l: Loop)
  {
    l.dirty.Some? ==> Fits(s, l.dirty.value)
  }

  function Cut(s: Size, image: bytes, r: Rect): Update
    requires |image| == ByteCount(s) && Fits(s, r)
  {
    Update(r.left, r.top, RectWidth(r), RectHeight(r), PackRect(s, image, r))
  }

  /** Step 3 of a turn: the clock reads `now` at the pacing test and `stamp` when the frame time is
      taken. */
  function Emit(s: Size, l: Loop, image: bytes, now: int, stamp: int): (Loop, Option<Update>)
    requires s.width > 0 && s.height > 0 && |image| == ByteCount(s) && DirtyFits(s, l)
  {
    if l.justBecameVisible then
      (l.(justBecameVisible := false, dirty := None, lastFrame := stamp),
       if l.visible then Some(Cut(s, image, Whole(s))) else None)
    else if l.visible && l.dirty.Some? && now - l.lastFrame >= FRAME_INTERVAL then
      (l.(dirty := None, lastFrame := stamp), Some(Cut(s, image, l.dirty.value)))
    else (l, None)
  }

  // ----- the loop and the client's framebuffer -----

  datatype Desktop = Desktop(size: Size, image: bytes, loop: Loop, mirror: bytes)

  datatype Event =
    | Visibility(on: bool)
    | Painted(image: bytes, rects: seq<Rect>)
    | Tick(now: int, stamp: int)

  /** The active stage changes only pixels inside the rectangles it reports, and these lie on the
      desktop. */
  ghost predicate Honest(d: Desktop, e: Event)
    requires d.size.width > 0
  {
    match e
    case Painted(image, rects) =>
      && |image| == |d.image|
      && (forall j :: 0 <= j < |rects| ==> Fits(d.size, rects[j]))
      && (forall k :: 0 <= k < |image| && image[k] != d.image[k] ==>
            exists j :: 0 <= j < |rects| && Inside(d.size, rects[j], k))
    case _ => true
  }

  ghost predicate Sized(d: Desktop)
  {
    && d.size.width > 0 && d.size.height > 0
    && |d.image| == |d.mirror| == ByteCount(d.size)
    && DirtyFits(d.size, d.loop)
  }

  function Show(d: Desktop, u: Option<Update>): bytes
    requires |d.mirror| == ByteCount(d.size)
  {
    match u
    case None => d.mirror
    case Some(u) => Apply(d.size, d.mirror, u.x, u.y, u.width, u.height, u.pixels)
  }

  function Step(d: Desktop, e: Event): Desktop
    requires Sized(d)
  {
    match e
    case Visibility(on) => d.(loop := SetVisible(d.loop, on))
    case Painted(image, rects) => d.(image := image, loop := ReportAll(d.loop, rects))
    case Tick(now, stamp) =>
      var (loop, u) := Emit(d.size, d.loop, d.image, now, stamp);
      d.(loop := loop, mirror := Show(d, u))
  }

  /** While the session is visible and owes no full frame, every byte where the framebuffer differs
      from the image lies inside the dirty rectangle. */
  ghost predicate Covered(d: Desktop)
    requires Sized(d)
  {
    d.loop.visible && !d.loop.justBecameVisible ==>
      forall k :: 0 <= k < |d.image| && d.mirror[k] != d.image[k] ==>
        d.loop.dirty.Some? && Inside(d.size, d.loop.dirty.value, k)
  }

  ghost predicate Good(d: Desktop)
  {
    Sized(d) && Covered(d)
  }

  // ----- one step -----

  lemma UnionHolds(s: Size, a: Rect, b: Rect, k: nat)
    requires s.width > 0
    ensures Inside(s, a, k) || Inside(s, b, k) ==> Inside(s, Union(a, b), k)
    ensures Fits(s, a) && Fits(s, b) ==> Fits(s, Union(a, b))
  {
    hide RowOf, ColOf;
  }

  lemma {:induction false} ReportsHold(s: Size, l: Loop, rects: seq<Rect>, k: nat)
    requires s.width > 0 && DirtyFits(s, l)
    requires forall j :: 0 <= j < |rects| ==> Fits(s, rects[j])
    ensures var m := ReportAll(l, rects);
            && DirtyFits(s, m)
            && m.visible == l.visible && m.justBecameVisible == l.justBecameVisible && m.lastFrame == l.lastFrame
            && ((l.dirty.Some? && Inside(s, l.dirty.value, k))
                || (exists j :: 0 <= j < |rects| && Inside(s, rects[j], k)) ==>
                  m.dirty.Some? && Inside(s, m.dirty.value, k))
  {
    hide Inside, Union;
    if rects != [] {
      var n := |rects| - 1;
      ReportsHold(s, l, rects[..n], k);
      var m := ReportAll(l, rects[..n]);
      if m.dirty.Some? {
        UnionHolds(s, m.dirty.value, rects[n], k);
      }
      forall j | 0 <= j < |rects| && Inside(s, rects[j], k)
        ensures ReportAll(l, rects).dirty.Some? && Inside(s, ReportAll(l, rects).dirty.value, k)
      {
        assert j < n ==> rects[..n][j] == rects[j];
      }
    }
  }

  lemma PaintedKeepsGood(d: Desktop, image: bytes, rects: seq<Rect>)
    requires Good(d) && Honest(d, Painted(image, rects))
    ensures Good(Step(d, Painted(image, rects)))
  {
    hide Inside, Fits, Union;
    ReportsHold(d.size, d.loop, rects, 0);
    var e := Step(d, Painted(image, rects));
    assert Sized(e);
    forall k | 0 <= k < |image| && d.loop.visible && !d.loop.justBecameVisible && d.mirror[k] != image[k]
      ensures e.loop.dirty.Some? && Inside(d.size, e.loop.dirty.value, k)
    {
      ReportsHold(d.size, d.loop, rects, k);
    }
  }

  /** An update of a rectangle that covers every difference makes the framebuffer equal to the image. */
  lemma {:induction false} UpdateCloses(d: Desktop, r: Rect)
    requires Sized(d) && Fits(d.size, r)
    requires forall k :: 0 <= k < |d.image| && d.mirror[k] != d.image[k] ==> Inside(d.size, r, k)
    ensures Show(d, Some(Cut(d.size, d.image, r))) == d.image
  {
    hide Inside, Apply, PackRect;
    var shown := Show(d, Some(Cut(d.size, d.image, r)));
    forall k | 0 <= k < |d.image| ensures shown[k] == d.image[k] {
      UpdateArrives(d.size, d.image, d.mirror, r, k);
    }
    assert shown == d.image;
  }

  lemma QuotientBound(k: nat, h: nat, d: nat)
    requires d > 0 && k < h * d
    ensures k / d < h
  {
    var q := k / d;
    assert d * (q - h) == d * q - h * d;
    AtLeastOnce(d, q - h);
    assert k == d * q + k % d;
  }

  lemma ColumnBound(off: nat, w: nat)
    requires off < 4 * w
    ensures off / 4 < w
  {
  }

  lemma Remainder(k: nat, d: nat)
    requires d > 0
    ensures 0 <= k % d < d
  {
  }

  lemma Cell(k: nat, w: nat, h: nat, d: nat)
    requires w > 0 && d == 4 * w && k < h * d
    ensures 0 <= k / d < h && 0 <= (k % d) / 4 < w
  {
    QuotientBound(k, h, d);
    Remainder(k, d);
    ColumnBound(k % d, w);
    Quotient(k, d);
  }

  lemma Quotient(k: nat, d: nat)
    requires d > 0
    ensures 0 <= k / d
  {
  }

  lemma Sizes(s: Size)
    ensures ByteCount(s) == s.height * Stride(s) && Stride(s) == 4 * s.width
  {
  }

  lemma {:induction false} CellBounds(s: Size, k: nat)
    requires s.width > 0 && k < ByteCount(s)
    ensures 0 <= RowOf(s, k) < s.height && 0 <= ColOf(s, k) < s.width
  {
    hide Stride, ByteCount;
    Sizes(s);
    Cell(k, s.width, s.height, Stride(s));
  }

  lemma {:induction false} WholeHoldsAll(s: Size, k: nat)
    requires s.width > 0 && s.height > 0 && k < ByteCount(s)
    ensures Inside(s, Whole(s), k) && Fits(s, Whole(s))
  {
    hide RowOf, ColOf, ByteCount, Stride;
    CellBounds(s, k);
  }

  /** After any emitted update, whether a full frame or a dirty rectangle, the framebuffer is the
      image. */
  lemma EmittedMirrors(d: Desktop, now: int, stamp: int)
    requires Good(d)
    requires Emit(d.size, d.loop, d.image, now, stamp).1.Some?
    ensures Step(d, Tick(now, stamp)).mirror == d.image
  {
    hide Inside, Apply, PackRect, ByteCount;
    if d.loop.justBecameVisible {
      assert Fits(d.size, Whole(d.size));
      forall k | 0 <= k < |d.image| ensures Inside(d.size, Whole(d.size), k) {
        WholeHoldsAll(d.size, k);
      }
      UpdateCloses(d, Whole(d.size));
    } else {
      UpdateCloses(d, d.loop.dirty.value);
    }
  }

  lemma StepKeepsGood(d: Desktop, e: Event)
    requires Good(d) && Honest(d, e)
    ensures Good(Step(d, e))
  {
    hide Inside, Apply, PackRect, ByteCount, Union;
    match e
    case Visibility(on) =>
    case Painted(image, rects) => PaintedKeepsGood(d, image, rects);
    case Tick(now, stamp) =>
      if Emit(d.size, d.loop, d.image, now, stamp).1.Some? {
        EmittedMirrors(d, now, stamp);
      }
  }

  // ----- runs -----

  /** A session at its start: the framebuffer is as blank as the image. */
  function Connected(s: Size, now: nat): Desktop
  {
    var blank: bytes := seq(ByteCount(s), _ => 0);
    Desktop(s, blank, Start(now), blank)
  }

  /** A run, as far as its events are honest. */
  ghost function Run(d: Desktop, events: seq<Event>): Desktop
    decreases |events|
  {
    if events == [] || !Sized(d) || !Honest(d, events[0]) then d else Run(Step(d, events[0]), events[1..])
  }

  lemma ConnectedIsGood(s: Size, now: nat)
    requires s.width > 0 && s.height > 0
    ensures Good(Connected(s, now))
  {
    hide ByteCount, Inside;
  }

  lemma {:induction false} RunKeepsGood(d: Desktop, events: seq<Event>)
    requires Good(d)
    ensures Good(Run(d, events))
    decreases |events|
  {
    hide Covered, Step;
    if events != [] && Honest(d, events[0]) {
      StepKeepsGood(d, events[0]);
      RunKeepsGood(Step(d, events[0]), events[1..]);
    }
  }

  /** In every run from the connection on, under any order of visibility changes, paints and
      ticks: the differences stay inside the dirty rectangle, and right after an emitted update
      there are none. */
  lemma RunMirrors(s: Size, start: nat, events: seq<Event>, now: int, stamp: int)
    requires s.width > 0 && s.height > 0
    ensures var d := Run(Connected(s, start), events);
            && Good(d)
            && (Emit(d.size, d.loop, d.image, now, stamp).1.Some? ==> Step(d, Tick(now, stamp)).mirror == d.image)
  {
    hide Covered, Step, Run, Emit, Connected;
    ConnectedIsGood(s, start);
    RunKeepsGood(Connected(s, start), events);
    var d := Run(Connected(s, start), events);
    if Emit(d.size, d.loop, d.image, now, stamp).1.Some? {
      EmittedMirrors(d, now, stamp);
    }
  }

  // ----- when updates are emitted -----

  /** A tick emits exactly when the session is visible and owes a full frame, or has something
      dirty and the frame interval has passed. */
  lemma EmitsExactly(d: Desktop, now: int, stamp: int)
    requires Good(d)
    ensures Emit(d.size, d.loop, d.image, now, stamp).1.Some?
            <==> d.loop.visible && (d.loop.justBecameVisible
                                    || (d.loop.dirty.Some? && now - d.loop.lastFrame >= FRAME_INTERVAL))
  {
    hide Cut, Covered;
  }

  /** A visible session is up to date after the first tick that finds the interval elapsed. */
  lemma {:induction false} VisibleTickSynchronises(d: Desktop, now: int, stamp: int)
    requires Good(d) && d.loop.visible && now - d.loop.lastFrame >= FRAME_INTERVAL
    ensures Step(d, Tick(now, stamp)).mirror == d.image
  {
    hide Inside, Cut, Show, ByteCount;
    EmitsExactly(d, now, stamp);
    if Emit(d.size, d.loop, d.image, now, stamp).1.Some? {
      EmittedMirrors(d, now, stamp);
    } else {
      assert d.mirror == d.image;
      ShowNothing(d);
    }
  }

  lemma ShowNothing(d: Desktop)
    requires |d.mirror| == ByteCount(d.size)
    ensures Show(d, None) == d.mirror
  {
  }

  /** Hiding a session and showing it again, even with nothing in between, makes the next tick
      send the whole desktop. */
  lemma HideShowResends(d: Desktop, now: int, stamp: int)
    requires Good(d)
    ensures var e := Step(Step(d, Visibility(false)), Visibility(true));
            && Good(e)
            && Emit(e.size, e.loop, e.image, now, stamp).1 == Some(Cut(d.size, d.image, Whole(d.size)))
            && Step(e, Tick(now, stamp)).mirror == d.image
  {
    hide Inside, Cut, Show, ByteCount;
    StepKeepsGood(d, Visibility(false));
    StepKeepsGood(Step(d, Visibility(false)), Visibility(true));
    EmittedMirrors(Step(Step(d, Visibility(false)), Visibility(true)), now, stamp);
  }

  // ----- the loop variables as they are assigned -----

  class Frame {
    const size: Size
    var dirty: Option<Rect>
    var visible: bool
    var justBecameVisible: bool
    var lastFrame: int

    ghost function Contents(): Loop
      reads this
    {
      Loop(dirty, visible, justBecameVisible, lastFrame)
    }

    constructor (size: Size, now: nat)
      ensures this.size == size && Contents() == Start(now)
    {
      this.size := size;
      dirty, visible, justBecameVisible, lastFrame := None, true, false, now - FRAME_INTERVAL;
    }

    method Visibility(nowVisible: bool)
      modifies this
      ensures Contents() == SetVisible(old(Contents()), nowVisible)
    {
      if nowVisible && !visible {
        justBecameVisible := true;
      }
      visible := nowVisible;
    }

    method GraphicsUpdates(rects: seq<Rect>)
      modifies this
      ensures Contents() == ReportAll(old(Contents()), rects)
    {
      ghost var l := Contents();
      assert rects[..0] == [];
      for j := 0 to |rects|
        invariant Contents() == ReportAll(l, rects[..j])
      {
        assert rects[..j + 1][..j] == rects[..j];
        dirty := Some(match dirty case Some(current) => Union(current, rects[j]) case None => rects[j]);
      }
      assert rects[..|rects|] == rects;
    }

    method EmitFrame(image: array<byte>, now: int, stamp: int) returns (u: Option<Update>)
      requires size.width > 0 && size.height > 0 && image.Length == ByteCount(size)
      requires DirtyFits(size, Contents())
      modifies this
      ensures (Contents(), u) == Emit(size, old(Contents()), image[..], now, stamp)
    {
      hide PackRect, ByteCount;
      u := None;
      if justBecameVisible {
        justBecameVisible := false;
        dirty := None;
        lastFrame := stamp;
        if visible {
          u := CutOut(image, Whole(size));
        }
      } else if visible {
        match dirty
        case None =>
        case Some(rect) =>
          if now - lastFrame >= FRAME_INTERVAL {
            u := CutOut(image, rect);
            dirty := None;
            lastFrame := stamp;
          }
      }
    }

    method CutOut(image: array<byte>, r: Rect) returns (u: Option<Update>)
      requires image.Length == ByteCount(size) && Fits(size, r)
      ensures u == Some(Cut(size, image[..], r))
    {
      var pixels := PackRectangle(size, image, r);
      u := Some(Update(r.left, r.top, RectWidth(r), RectHeight(r), pixels));
    }
  }
}
