/** Button masks to press and release events (the `Command::Pointer` arm of `run_session_once`),
    against a server that tracks the buttons from those events. */
module PointerInput {
  import opened Bytes

  const CHUNK := 128

  datatype Mouse = Mouse(x: nat, y: nat, left: bool, right: bool, middle: bool, down: bool, move: bool, wheel: bool, rotation: int)

  datatype Command = Pointer(x: nat, y: nat, buttons: byte, wheel: int)

  /** `a & !b` of two `k`-bit words. */
  function AndNotBits(a: nat, b: nat, k: nat): nat
  {
    if k == 0 then 0
    else (if a % 2 == 1 && b % 2 == 0 then 1 else 0) + 2 * AndNotBits(a / 2, b / 2, k - 1)
  }

  function AndNot(a: byte, b: byte): nat {
    AndNotBits(a, b, 8)
  }

  lemma {:induction false} AndNotZero(a: nat, b: nat, k: nat)
    requires a < Pow2(k) && b < Pow2(k)
    ensures AndNotBits(a, b, k) == 0 && AndNotBits(b, a, k) == 0 <==> a == b
  {
    if k > 0 {
      AndNotZero(a / 2, b / 2, k - 1);
    }
  }

  lemma {:induction false} AndNotOfThree(a: nat, b: nat, k: nat)
    requires k >= 3
    ensures HasBit(AndNotBits(a, b, k), 1) <==> HasBit(a, 1) && !HasBit(b, 1)
    ensures HasBit(AndNotBits(a, b, k), 2) <==> HasBit(a, 2) && !HasBit(b, 2)
    ensures HasBit(AndNotBits(a, b, k), 4) <==> HasBit(a, 4) && !HasBit(b, 4)
  {
    var r1 := AndNotBits(a / 2, b / 2, k - 1);
    var r2 := AndNotBits(a / 2 / 2, b / 2 / 2, k - 2);
    var r3 := AndNotBits(a / 2 / 2 / 2, b / 2 / 2 / 2, k - 3);
    Halves(a);
    Halves(b);
    ThreeBits(AndNotBits(a, b, k), r1, r2, r3,
              a % 2 == 1 && b % 2 == 0, (a / 2) % 2 == 1 && (b / 2) % 2 == 0, (a / 2 / 2) % 2 == 1 && (b / 2 / 2) % 2 == 0);
  }

  lemma Halves(a: nat)
    ensures a / 2 / 2 == a / 4
  {
  }

  lemma LowBit(n: nat, r: nat, b: bool)
    requires n == (if b then 1 else 0) + 2 * r
    ensures n / 2 == r && (n % 2 == 1 <==> b)
  {
  }

  lemma ThreeBits(n: nat, r1: nat, r2: nat, r3: nat, b0: bool, b1: bool, b2: bool)
    requires n == (if b0 then 1 else 0) + 2 * r1
    requires r1 == (if b1 then 1 else 0) + 2 * r2
    requires r2 == (if b2 then 1 else 0) + 2 * r3
    ensures HasBit(n, 1) == b0 && HasBit(n, 2) == b1 && HasBit(n, 4) == b2
  {
    LowBit(n, r1, b0);
    LowBit(r1, r2, b1);
    LowBit(r2, r3, b2);
    Halves(n);
  }

  // ----- the events of one command -----

  function Button(c: Command, left: bool, right: bool, middle: bool, down: bool): Mouse
  {
    Mouse(c.x, c.y, left, right, middle, down, false, false, 0)
  }

  function Opt(b: bool, m: Mouse): seq<Mouse> {
    if b then [m] else []
  }

  /** The button with the given mask: press when newly down, release when newly up. */
  function Change(c: Command, last: byte, mask: nat, left: bool, right: bool, middle: bool): seq<Mouse>
    requires mask > 0
  {
    Opt(HasBit(AndNot(c.buttons, last), mask), Button(c, left, right, middle, true))
    + Opt(HasBit(AndNot(last, c.buttons), mask), Button(c, left, right, middle, false))
  }

  function ButtonEvents(c: Command, last: byte): seq<Mouse>
  {
    Change(c, last, 1, true, false, false) + Change(c, last, 2, false, true, false) + Change(c, last, 4, false, false, true)
  }

  function MotionEvents(c: Command, last: byte): seq<Mouse>
  {
    if c.wheel != 0 then [Mouse(c.x, c.y, false, false, false, false, false, true, c.wheel)]
    else if AndNot(c.buttons, last) == 0 && AndNot(last, c.buttons) == 0 then
      [Mouse(c.x, c.y, false, false, false, false, true, false, 0)]
    else []
  }

  function Events(c: Command, last: byte): seq<Mouse>
  {
    ButtonEvents(c, last) + MotionEvents(c, last)
  }

  // ----- the server's side -----

  datatype Held = Held(left: bool, right: bool, middle: bool)

  function HeldBy(mask: byte): Held {
    Held(HasBit(mask, 1), HasBit(mask, 2), HasBit(mask, 4))
  }

  /** A button flag presses with DOWN and releases without it. */
  function Track(h: Held, m: Mouse): Held
  {
    Held(if m.left then m.down else h.left,
         if m.right then m.down else h.right,
         if m.middle then m.down else h.middle)
  }

  function Replay(h: Held, events: seq<Mouse>): Held
    decreases |events|
  {
    if events == [] then h else Replay(Track(h, events[0]), events[1..])
  }

  lemma {:induction false} ReplayConcat(h: Held, a: seq<Mouse>, b: seq<Mouse>)
    ensures Replay(h, a + b) == Replay(Replay(h, a), b)
    decreases |a|
  {
    if a == [] {
      assert a + b == b;
    } else {
      assert (a + b)[1..] == a[1..] + b;
      ReplayConcat(Track(h, a[0]), a[1..], b);
    }
  }

  lemma ReplayOpt(h: Held, b: bool, m: Mouse)
    ensures Replay(h, Opt(b, m)) == if b then Track(h, m) else h
  {
    assert b ==> Opt(b, m)[1..] == [];
  }

  lemma ReplayChange(h: Held, c: Command, last: byte, mask: nat, left: bool, right: bool, middle: bool)
    requires mask > 0
    ensures var press, release := HasBit(AndNot(c.buttons, last), mask), HasBit(AndNot(last, c.buttons), mask);
            var mid := if press then Track(h, Button(c, left, right, middle, true)) else h;
            Replay(h, Change(c, last, mask, left, right, middle))
            == if release then Track(mid, Button(c, left, right, middle, false)) else mid
  {
    hide Opt, AndNot, HasBit, Replay;
    var press, release := HasBit(AndNot(c.buttons, last), mask), HasBit(AndNot(last, c.buttons), mask);
    var p, r := Button(c, left, right, middle, true), Button(c, left, right, middle, false);
    ReplayConcat(h, Opt(press, p), Opt(release, r));
    ReplayOpt(h, press, p);
    ReplayOpt(Replay(h, Opt(press, p)), release, r);
  }

  lemma ReplayButtons(c: Command, last: byte)
    ensures Replay(HeldBy(last), ButtonEvents(c, last)) == HeldBy(c.buttons)
  {
    hide AndNot, HasBit, Change, Replay;
    BitsOfChange(c.buttons, last);
    var l, r, m := Change(c, last, 1, true, false, false), Change(c, last, 2, false, true, false), Change(c, last, 4, false, false, true);
    var h := HeldBy(last);
    ReplayConcat(h, l, r);
    ReplayConcat(h, l + r, m);
    ReplayChange(h, c, last, 1, true, false, false);
    ReplayChange(Replay(h, l), c, last, 2, false, true, false);
    ReplayChange(Replay(h, l + r), c, last, 4, false, false, true);
  }

  lemma BitsOfChange(buttons: byte, last: byte)
    ensures HasBit(AndNot(buttons, last), 1) <==> HasBit(buttons, 1) && !HasBit(last, 1)
    ensures HasBit(AndNot(buttons, last), 2) <==> HasBit(buttons, 2) && !HasBit(last, 2)
    ensures HasBit(AndNot(buttons, last), 4) <==> HasBit(buttons, 4) && !HasBit(last, 4)
    ensures HasBit(AndNot(last, buttons), 1) <==> HasBit(last, 1) && !HasBit(buttons, 1)
    ensures HasBit(AndNot(last, buttons), 2) <==> HasBit(last, 2) && !HasBit(buttons, 2)
    ensures HasBit(AndNot(last, buttons), 4) <==> HasBit(last, 4) && !HasBit(buttons, 4)
    ensures AndNot(buttons, last) == 0 && AndNot(last, buttons) == 0 <==> buttons == last
  {
    Pow2Of8();
    hide AndNotBits, HasBit, Pow2;
    AndNotOfThree(buttons, last, 8);
    AndNotOfThree(last, buttons, 8);
    AndNotZero(buttons, last, 8);
  }

  /** From the buttons of the last mask the server comes to hold exactly those of the new one. */
  lemma EventsReplay(c: Command, last: byte)
    ensures Replay(HeldBy(last), Events(c, last)) == HeldBy(c.buttons)
  {
    ReplayConcat(HeldBy(last), ButtonEvents(c, last), MotionEvents(c, last));
    ReplayButtons(c, last);
    var m := MotionEvents(c, last);
    assert m != [] ==> m[1..] == [];
  }

  lemma OptAt(b: bool, m: Mouse, c: Command)
    requires m.x == c.x && m.y == c.y && !m.wheel
    ensures |Opt(b, m)| == if b then 1 else 0
    ensures Still(Opt(b, m), c)
  {
  }

  /** Button events: all at the pointer, none of them a wheel event. */
  ghost predicate Still(events: seq<Mouse>, c: Command)
  {
    forall k :: 0 <= k < |events| ==> events[k].x == c.x && events[k].y == c.y && !events[k].wheel
  }

  lemma StillConcat(a: seq<Mouse>, b: seq<Mouse>, c: Command)
    requires Still(a, c) && Still(b, c)
    ensures Still(a + b, c)
  {
  }

  lemma ChangeCount(c: Command, last: byte, mask: nat, left: bool, right: bool, middle: bool)
    requires mask > 0
    ensures |Change(c, last, mask, left, right, middle)|
            == (if HasBit(AndNot(c.buttons, last), mask) then 1 else 0) + (if HasBit(AndNot(last, c.buttons), mask) then 1 else 0)
    ensures Still(Change(c, last, mask, left, right, middle), c)
  {
    hide Opt, Still, HasBit, AndNot;
    var press, release := HasBit(AndNot(c.buttons, last), mask), HasBit(AndNot(last, c.buttons), mask);
    var p, r := Button(c, left, right, middle, true), Button(c, left, right, middle, false);
    OptAt(press, p, c);
    OptAt(release, r, c);
    StillConcat(Opt(press, p), Opt(release, r), c);
  }

  /** One event for each of the three buttons that changed. */
  lemma {:induction false} ButtonEventsCount(c: Command, last: byte)
    ensures var a, b := HeldBy(c.buttons), HeldBy(last);
            |ButtonEvents(c, last)|
            == (if a.left != b.left then 1 else 0) + (if a.right != b.right then 1 else 0)
               + (if a.middle != b.middle then 1 else 0)
    ensures Still(ButtonEvents(c, last), c)
  {
    BitsOfChange(c.buttons, last);
    hide AndNot, HasBit, Change, Still;
    var l, r, m := Change(c, last, 1, true, false, false), Change(c, last, 2, false, true, false), Change(c, last, 4, false, false, true);
    ChangeCount(c, last, 1, true, false, false);
    ChangeCount(c, last, 2, false, true, false);
    ChangeCount(c, last, 4, false, false, true);
    StillConcat(l, r, c);
    StillConcat(l + r, m, c);
  }

  /** At most four events, all where the pointer is; and none at all exactly when only buttons the
      protocol has no flag for have changed. */
  lemma {:induction false} EventsCount(c: Command, last: byte)
    ensures |Events(c, last)| <= 4
    ensures forall k :: 0 <= k < |Events(c, last)| ==> Events(c, last)[k].x == c.x && Events(c, last)[k].y == c.y
    ensures Events(c, last) == [] <==> c.wheel == 0 && c.buttons != last && HeldBy(c.buttons) == HeldBy(last)
    ensures c.buttons < 8 && last < 8 ==> |Events(c, last)| >= 1
  {
    hide HeldBy, AndNot, ButtonEvents;
    BitsOfChange(c.buttons, last);
    ButtonEventsCount(c, last);
    if c.buttons < 8 && last < 8 {
      LowBitsDecide(c.buttons, last);
    }
  }

  lemma LowBitsDecide(a: byte, b: byte)
    requires a < 8 && b < 8
    ensures HeldBy(a) == HeldBy(b) <==> a == b
  {
    hide HasBit;
    ThreeBitNumber(a);
    ThreeBitNumber(b);
  }

  lemma ThreeBitNumber(a: byte)
    requires a < 8
    ensures a == (if HasBit(a, 4) then 4 else 0) + (if HasBit(a, 2) then 2 else 0) + (if HasBit(a, 1) then 1 else 0)
  {
    Halves(a);
  }

  // ----- runs -----

  function Wheel(events: seq<Mouse>): int
  {
    if events == [] then 0 else Wheel(events[..|events| - 1]) + (if events[|events| - 1].wheel then events[|events| - 1].rotation else 0)
  }

  lemma {:induction false} WheelConcat(a: seq<Mouse>, b: seq<Mouse>)
    ensures Wheel(a + b) == Wheel(a) + Wheel(b)
  {
    if b == [] {
      assert a + b == a;
    } else {
      var n := |b| - 1;
      assert (a + b)[..|a + b| - 1] == a + b[..n];
      WheelConcat(a, b[..n]);
    }
  }

  lemma {:induction false} NoWheel(events: seq<Mouse>)
    requires forall k :: 0 <= k < |events| ==> !events[k].wheel
    ensures Wheel(events) == 0
  {
    if events != [] {
      NoWheel(events[..|events| - 1]);
    }
  }

  lemma WheelOfEvents(c: Command, last: byte)
    ensures Wheel(Events(c, last)) == c.wheel
  {
    hide AndNot, ButtonEvents;
    WheelConcat(ButtonEvents(c, last), MotionEvents(c, last));
    ButtonEventsCount(c, last);
    NoWheel(ButtonEvents(c, last));
    var m := MotionEvents(c, last);
    assert m != [] ==> m[..|m| - 1] == [];
  }

  function LastButtons(commands: seq<Command>, last: byte): byte
  {
    if commands == [] then last else commands[|commands| - 1].buttons
  }

  function WheelSum(commands: seq<Command>): int
  {
    if commands == [] then 0 else WheelSum(commands[..|commands| - 1]) + commands[|commands| - 1].wheel
  }

  /** The events of a drained queue of pointer commands. */
  function AllEvents(commands: seq<Command>, last: byte): seq<Mouse>
  {
    if commands == [] then []
    else
      var n := |commands| - 1;
      AllEvents(commands[..n], last) + Events(commands[n], LastButtons(commands[..n], last))
  }

  /** For every sequence of commands the server ends up holding the last mask's buttons, and no
      wheel motion is lost or made up. */
  lemma {:induction false} ReplayAll(commands: seq<Command>, last: byte)
    ensures Replay(HeldBy(last), AllEvents(commands, last)) == HeldBy(LastButtons(commands, last))
    ensures Wheel(AllEvents(commands, last)) == WheelSum(commands)
  {
    hide Events, HeldBy;
    if commands != [] {
      var n := |commands| - 1;
      var before := LastButtons(commands[..n], last);
      ReplayAll(commands[..n], last);
      ReplayConcat(HeldBy(last), AllEvents(commands[..n], last), Events(commands[n], before));
      EventsReplay(commands[n], before);
      WheelConcat(AllEvents(commands[..n], last), Events(commands[n], before));
      WheelOfEvents(commands[n], before);
    }
  }

  // ----- the loop variable and the batches -----

  class Translator {
    var lastButtons: byte
    var events: seq<Mouse>

    constructor ()
      ensures lastButtons == 0 && events == []
    {
      lastButtons, events := 0, [];
    }

    method Push(on: bool, m: Mouse)
      modifies this`events
      ensures events == old(events) + Opt(on, m)
    {
      if on {
        events := events + [m];
      }
    }

    /** The events of one button. */
    method PushChange(c: Command, pressed: nat, released: nat, mask: nat, left: bool, right: bool, middle: bool)
      requires pressed == AndNot(c.buttons, lastButtons) && released == AndNot(lastButtons, c.buttons) && mask > 0
      modifies this`events
      ensures events == old(events) + Change(c, lastButtons, mask, left, right, middle)
    {
      hide Opt, AndNot, HasBit;
      Push(HasBit(pressed, mask), Button(c, left, right, middle, true));
      Push(HasBit(released, mask), Button(c, left, right, middle, false));
    }

    method PushButtons(c: Command, pressed: nat, released: nat)
      requires pressed == AndNot(c.buttons, lastButtons) && released == AndNot(lastButtons, c.buttons)
      modifies this`events
      ensures events == old(events) + ButtonEvents(c, lastButtons)
    {
      hide AndNot, Change;
      PushChange(c, pressed, released, 1, true, false, false);
      PushChange(c, pressed, released, 2, false, true, false);
      PushChange(c, pressed, released, 4, false, false, true);
    }

    method Handle(c: Command)
      modifies this
      ensures events == old(events) + Events(c, old(lastButtons))
      ensures lastButtons == c.buttons
    {
      hide AndNot, ButtonEvents;
      var pressed, released := AndNot(c.buttons, lastButtons), AndNot(lastButtons, c.buttons);
      PushButtons(c, pressed, released);
      if c.wheel != 0 {
        events := events + [Mouse(c.x, c.y, false, false, false, false, false, true, c.wheel)];
      } else if pressed == 0 && released == 0 {
        events := events + [Mouse(c.x, c.y, false, false, false, false, true, false, 0)];
      }
      assert events == old(events) + (ButtonEvents(c, lastButtons) + MotionEvents(c, lastButtons));
      lastButtons := c.buttons;
    }

    method Drain(commands: seq<Command>)
      requires events == []
      modifies this
      ensures events == AllEvents(commands, old(lastButtons))
      ensures lastButtons == LastButtons(commands, old(lastButtons))
    {
      hide Events;
      ghost var last := lastButtons;
      for n := 0 to |commands|
        invariant events == AllEvents(commands[..n], last)
        invariant lastButtons == LastButtons(commands[..n], last)
      {
        assert commands[..n + 1][..n] == commands[..n];
        Handle(commands[n]);
      }
      assert commands[..|commands|] == commands;
    }
  }

  function Join(chunks: seq<seq<Mouse>>): seq<Mouse>
  {
    if chunks == [] then [] else Join(chunks[..|chunks| - 1]) + chunks[|chunks| - 1]
  }

  /** `events.chunks(128)`: full batches and one shorter last one, nothing lost or reordered. */
  method Chunks(events: seq<Mouse>) returns (chunks: seq<seq<Mouse>>)
    ensures Join(chunks) == events
    ensures forall k :: 0 <= k < |chunks| ==> 0 < |chunks[k]| <= CHUNK
    ensures forall k :: 0 <= k < |chunks| - 1 ==> |chunks[k]| == CHUNK
  {
    chunks := [];
    var at := 0;
    while at < |events|
      invariant 0 <= at <= |events|
      invariant Join(chunks) == events[..at]
      invariant forall k :: 0 <= k < |chunks| ==> 0 < |chunks[k]| <= CHUNK
      invariant forall k :: 0 <= k < |chunks| - 1 ==> |chunks[k]| == CHUNK
      invariant at < |events| ==> forall k :: 0 <= k < |chunks| ==> |chunks[k]| == CHUNK
    {
      var end := if at + CHUNK <= |events| then at + CHUNK else |events|;
      var more := chunks + [events[at..end]];
      assert more[..|more| - 1] == chunks;
      chunks, at := more, end;
    }
  }
}
