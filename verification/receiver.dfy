/** One pass of the receive loop in `main` of usb.py (the branch taken when
    the raw hex dump is off). The loop state is the receive buffer `rx` and
    the running cursor position `(x, y)`; each pass appends the line the
    serial port returned, decodes at most one packet, and clears the buffer
    after a decode or once it holds 20 bytes. */
module Receiver {
  import opened Bytes
  import Keyboard
  import Mouse

  /** Which decoder the loop runs (`hid_keyboard`, `hid_mouse`); both are
      fixed before the loop starts. */
  datatype Config = Config(keyboard: bool, mouse: bool)

  datatype State = State(rx: seq<Byte>, x: int, y: int)

  /** What a pass reports. `Keys` stands for a keyboard decode and holds the
      names it printed (possibly none); `Motion` stands for a mouse decode and
      holds the buttons, the wheel and the new unscaled position it printed. */
  datatype Event =
    | Keys(names: seq<string>)
    | Motion(buttons: Byte, wheel: int, x: int, y: int)

  datatype Outcome = Outcome(state: State, events: seq<Event>)

  /** The buffer is dropped once it holds this many bytes. */
  const Overflow := 20

  /** The keyboard branch decodes once the buffer holds a keyboard packet's
      length or more and starts with the keyboard signature. */
  predicate KeyboardFires(cfg: Config, rx: seq<Byte>)
  {
    cfg.keyboard && |rx| >= Keyboard.KeyboardPacketLength && StartsWith(rx, Keyboard.KeyboardSignature)
  }

  /** The mouse branch decodes once the buffer holds 16 bytes or more and
      starts with either mouse signature. */
  predicate MouseFires(cfg: Config, rx: seq<Byte>)
  {
    cfg.mouse && |rx| >= 16 && Mouse.HasMouseSignature(rx)
  }

  function KeyboardStage(cfg: Config, s: State): (o: Outcome)
  {
    if KeyboardFires(cfg, s.rx) then
      Outcome(s.(rx := []), [Keys(Keyboard.KeyboardFilter(s.rx))])
    else
      Outcome(s, [])
  }

  function MouseStage(cfg: Config, s: State): (o: Outcome)
  {
    if MouseFires(cfg, s.rx) then
      var r := Mouse.MouseFilter(s.rx);
      var x := s.x + r.horizontal;
      var y := s.y + r.vertical;
      Outcome(State([], x, y), [Motion(r.buttons, r.wheel, x, y)])
    else
      Outcome(s, [])
  }

  function OverflowStage(s: State): (s': State)
  {
    if |s.rx| >= Overflow then s.(rx := []) else s
  }

  /** One pass of the loop: append, run the keyboard branch, then the mouse
      branch on what is left, then the overflow guard. */
  function Step(cfg: Config, s: State, chunk: seq<Byte>): (o: Outcome)
    ensures |o.state.rx| < Overflow
    ensures |o.events| <= 1
    ensures o.events == [] ==> o.state.x == s.x && o.state.y == s.y
  {
    var k := KeyboardStage(cfg, s.(rx := s.rx + chunk));
    var m := MouseStage(cfg, k.state);
    Outcome(OverflowStage(m.state), k.events + m.events)
  }

  /** What a pass does, stated case by case on the buffer after the append:
      a keyboard decode, else a mouse decode, each emptying the buffer
      whether or not the filter accepted the packet; otherwise no event, the
      position kept, and the buffer kept unless it reached 20 bytes. */
  lemma StepCases(cfg: Config, s: State, chunk: seq<Byte>)
    ensures var rx := s.rx + chunk;
      var o := Step(cfg, s, chunk);
      if KeyboardFires(cfg, rx) then
        o == Outcome(State([], s.x, s.y), [Keys(Keyboard.KeyboardFilter(rx))])
      else if MouseFires(cfg, rx) then
        var r := Mouse.MouseFilter(rx);
        o == Outcome(State([], s.x + r.horizontal, s.y + r.vertical),
                     [Motion(r.buttons, r.wheel, s.x + r.horizontal, s.y + r.vertical)])
      else if |rx| >= Overflow then
        o == Outcome(State([], s.x, s.y), [])
      else
        o == Outcome(State(rx, s.x, s.y), [])
  {
  }

  /** The buffer is either kept whole or dropped whole: it is emptied exactly
      when a branch decoded (accepted or not) or it reached 20 bytes. */
  lemma StepClears(cfg: Config, s: State, chunk: seq<Byte>)
    ensures var rx := s.rx + chunk;
      Step(cfg, s, chunk).state.rx == [] <==>
        KeyboardFires(cfg, rx) || MouseFires(cfg, rx) || |rx| >= Overflow || rx == []
    ensures Step(cfg, s, chunk).state.rx == [] || Step(cfg, s, chunk).state.rx == s.rx + chunk
  {
  }

  /** The position moves by exactly the decoded motion; a packet the mouse
      filter rejects (a length other than 16 or 18) leaves it where it was. */
  lemma StepPosition(cfg: Config, s: State, chunk: seq<Byte>)
    ensures var rx := s.rx + chunk;
      var dx := if !KeyboardFires(cfg, rx) && MouseFires(cfg, rx) then Mouse.MouseFilter(rx).horizontal else 0;
      var dy := if !KeyboardFires(cfg, rx) && MouseFires(cfg, rx) then Mouse.MouseFilter(rx).vertical else 0;
      Step(cfg, s, chunk).state.x == s.x + dx && Step(cfg, s, chunk).state.y == s.y + dy
    ensures !Mouse.IsMousePacket(s.rx + chunk) ==>
      Step(cfg, s, chunk).state.x == s.x && Step(cfg, s, chunk).state.y == s.y
  {
  }

  /** A buffer that starts with no enabled signature is never decoded: the
      pass emits nothing and at most clears the buffer. */
  lemma NoSignatureNoEvent(cfg: Config, s: State, chunk: seq<Byte>)
    requires !(cfg.keyboard && StartsWith(s.rx + chunk, Keyboard.KeyboardSignature))
    requires !(cfg.mouse && Mouse.HasMouseSignature(s.rx + chunk))
    ensures Step(cfg, s, chunk).events == []
    ensures Step(cfg, s, chunk).state.rx == (if |s.rx + chunk| >= Overflow then [] else s.rx + chunk)
  {
  }

  /** A packet split across two reads decodes as if it had come in one read
      whenever the first read triggers neither branch nor the overflow
      guard: the first pass then only appends. */
  lemma SplitBeforeDecode(cfg: Config, s: State, a: seq<Byte>, b: seq<Byte>)
    requires !KeyboardFires(cfg, s.rx + a) && !MouseFires(cfg, s.rx + a) && |s.rx + a| < Overflow
    ensures Step(cfg, s, a) == Outcome(State(s.rx + a, s.x, s.y), [])
    ensures Step(cfg, Step(cfg, s, a).state, b) == Step(cfg, s, a + b)
  {
    assert (s.rx + a) + b == s.rx + (a + b);
  }

  /** In particular a first read that leaves fewer than 16 bytes is always
      safe, whatever the configuration and the bytes. */
  lemma SplitBelowThreshold(cfg: Config, s: State, a: seq<Byte>, b: seq<Byte>)
    requires |s.rx + a| < 16
    ensures Step(cfg, s, a) == Outcome(State(s.rx + a, s.x, s.y), [])
    ensures Step(cfg, Step(cfg, s, a).state, b) == Step(cfg, s, a + b)
  {
    SplitBeforeDecode(cfg, s, a, b);
  }

  /** Successive passes over a sequence of reads. */
  function Run(cfg: Config, s: State, chunks: seq<seq<Byte>>): (o: Outcome)
    ensures |o.events| <= |chunks|
    ensures |s.rx| < Overflow ==> |o.state.rx| < Overflow
    decreases |chunks|
  {
    if chunks == [] then Outcome(s, [])
    else
      var first := Step(cfg, s, chunks[0]);
      var rest := Run(cfg, first.state, chunks[1..]);
      Outcome(rest.state, first.events + rest.events)
  }

  /** Running two batches of reads one after the other is running their
      concatenation. */
  lemma {:induction false} RunAppend(cfg: Config, s: State, a: seq<seq<Byte>>, b: seq<seq<Byte>>)
    ensures Run(cfg, s, a + b).state == Run(cfg, Run(cfg, s, a).state, b).state
    ensures Run(cfg, s, a + b).events == Run(cfg, s, a).events + Run(cfg, Run(cfg, s, a).state, b).events
    decreases |a|
  {
    if a == [] {
      assert a + b == b;
    } else {
      var first := Step(cfg, s, a[0]);
      assert (a + b)[0] == a[0];
      assert (a + b)[1..] == a[1..] + b;
      RunAppend(cfg, first.state, a[1..], b);
      var mid := Run(cfg, first.state, a[1..]);
      assert Run(cfg, s, a).state == mid.state;
      assert Run(cfg, s, a).events == first.events + mid.events;
      assert Run(cfg, s, a + b).events
          == first.events + (mid.events + Run(cfg, mid.state, b).events);
    }
  }
}
