/** The sample packets written in the comments of usb.py, and a few reads
    that show how the receive loop treats them. */
module Samples {
  import opened Bytes
  import opened Mouse
  import opened Keyboard
  import opened Receiver

  /** A left-button press from a simple wheel mouse (18 bytes). */
  const LeftButtonPacket: seq<Byte> :=
    [0xfe, 0x06, 0x00, 0x04, 0x02, 0x00, 0x01, 0x6d, 0x04, 0x69, 0xc0, 0x01, 0x00, 0x00, 0x00, 0x00, 0x00, 0x0a]

  /** Three packets of a mouse with side buttons (16 bytes). */
  const SideButtonPackets: seq<seq<Byte>> := [
    [0xfe, 0x04, 0x00, 0x04, 0x02, 0x00, 0x01, 0x5e, 0x04, 0xcb, 0x00, 0x01, 0x00, 0x00, 0x00, 0x0a],
    [0xfe, 0x04, 0x00, 0x04, 0x02, 0x00, 0x01, 0xef, 0x17, 0x19, 0xe0, 0x01, 0x00, 0x00, 0x00, 0x0a],
    [0xfe, 0x04, 0x00, 0x04, 0x02, 0x00, 0x01, 0x5e, 0x04, 0x83, 0x00, 0x01, 0x00, 0x00, 0x00, 0x0a]
  ]

  /** The keyboard packet with usage ID 0x06 in the first slot. */
  const KeyCPacket: seq<Byte> :=
    [0xfe, 0x08, 0x00, 0x04, 0x06, 0x00, 0x05, 0xf2, 0x04, 0xe9, 0x14, 0x02, 0x00, 0x06, 0x00, 0x00, 0x00, 0x00, 0x00, 0x0a]

  const MouseOnly := Config(false, true)
  const KeyboardOnly := Config(true, false)

  /** Every sample mouse packet reads as button 1 held, no motion, no wheel. */
  lemma MouseSamplesDecode()
    ensures MouseFilter(LeftButtonPacket) == MouseReport(1, 0, 0, 0)
    ensures forall i | 0 <= i < |SideButtonPackets| :: MouseFilter(SideButtonPackets[i]) == MouseReport(1, 0, 0, 0)
  {
    assert StartsWith(LeftButtonPacket, StandardSignature);
    assert StartsWith(SideButtonPackets[0], ExtendedSignature);
    assert StartsWith(SideButtonPackets[1], ExtendedSignature);
    assert StartsWith(SideButtonPackets[2], ExtendedSignature);
  }

  /** The sample keyboard packet prints exactly `K_c`. */
  lemma KeyboardSampleDecodes()
    ensures KeyboardFilter(KeyCPacket) == ["K_c"]
  {
    assert StartsWith(KeyCPacket, KeyboardSignature);
    var slots := Slots(KeyCPacket);
    assert slots == [0x06, 0, 0, 0, 0, 0];
    assert 0x06 !in ScanCodes.KeyLut && ScanCodes.IsLetterCode(0x06);
    assert ScanCodes.KeyName(0x06) == "K_c";
    EmptySlotsPrintNothing(slots[1..]);
  }

  /** Read in one piece by the loop, the mouse sample gives one motion event
      and leaves the buffer empty. */
  lemma MouseSampleThroughTheLoop()
    ensures Step(MouseOnly, State([], 0, 0), LeftButtonPacket) == Outcome(State([], 0, 0), [Motion(1, 0, 0, 0)])
  {
    MouseSamplesDecode();
    assert [] + LeftButtonPacket == LeftButtonPacket;
    assert StartsWith(LeftButtonPacket, StandardSignature);
    assert MouseFires(MouseOnly, LeftButtonPacket);
    StepCases(MouseOnly, State([], 0, 0), LeftButtonPacket);
  }

  /** Read in one piece by the loop, the keyboard sample gives one `K_c`
      event and leaves the buffer empty. */
  lemma KeyboardSampleThroughTheLoop()
    ensures Step(KeyboardOnly, State([], 0, 0), KeyCPacket) == Outcome(State([], 0, 0), [Keys(["K_c"])])
  {
    KeyboardSampleDecodes();
    assert [] + KeyCPacket == KeyCPacket;
    assert StartsWith(KeyCPacket, KeyboardSignature);
    assert KeyboardFires(KeyboardOnly, KeyCPacket);
    StepCases(KeyboardOnly, State([], 0, 0), KeyCPacket);
  }

  /** 21 bytes with no signature, in one read: no event, buffer dropped. */
  lemma NoiseIsDropped()
    ensures Step(MouseOnly, State([], 0, 0), seq(21, _ => 0x00)) == Outcome(State([], 0, 0), [])
  {
    var noise: seq<Byte> := seq(21, _ => 0x00);
    assert ([] + noise)[..5][0] == 0x00;
    NoSignatureNoEvent(MouseOnly, State([], 0, 0), noise);
  }

  /** A 17-byte line with the standard signature (four bytes, then thirteen)
      reaches the mouse branch on the second read; the filter rejects the
      length, the buffer is dropped anyway and the position stays put, though
      a motion line is still printed. */
  lemma SeventeenBytesRejected()
    ensures var first := Step(MouseOnly, State([], 0, 0), [0xfe, 0x06, 0x00, 0x04]);
      var second := Step(MouseOnly, first.state,
        [0x02, 0x00, 0x01, 0x00, 0x00, 0x00, 0x00, 0x00, 0x00, 0x00, 0x00, 0x00, 0x0a]);
      first.events == [] && second == Outcome(State([], 0, 0), [Motion(0, 0, 0, 0)])
  {
    var a: seq<Byte> := [0xfe, 0x06, 0x00, 0x04];
    var b: seq<Byte> := [0x02, 0x00, 0x01, 0x00, 0x00, 0x00, 0x00, 0x00, 0x00, 0x00, 0x00, 0x00, 0x0a];
    SplitBelowThreshold(MouseOnly, State([], 0, 0), a, b);
    assert StartsWith([] + (a + b), StandardSignature);
  }

  /** An 18-byte standard packet whose wheel byte is 0x0a ends a serial line
      after 16 bytes. The loop decodes those 16 bytes at once (reading the
      wheel correctly, as +10), keeps the two trailing bytes, and the next
      packet behind them overflows the buffer and is lost. */
  lemma WheelLineFeedLosesNextPacket()
    ensures var head: seq<Byte> := [0xfe, 0x06, 0x00, 0x04, 0x02, 0x00, 0x01, 0x6d, 0x04, 0x69, 0xc0, 0x01, 0x00, 0x00, 0x00, 0x0a];
      var tail: seq<Byte> := [0x00, 0x0a];
      Run(MouseOnly, State([], 0, 0), [head, tail, LeftButtonPacket])
        == Outcome(State([], 0, 0), [Motion(1, 10, 0, 0)])
  {
    var head: seq<Byte> := [0xfe, 0x06, 0x00, 0x04, 0x02, 0x00, 0x01, 0x6d, 0x04, 0x69, 0xc0, 0x01, 0x00, 0x00, 0x00, 0x0a];
    var tail: seq<Byte> := [0x00, 0x0a];
    var s0 := State([], 0, 0);
    assert StartsWith([] + head, StandardSignature);
    var s1 := Step(MouseOnly, s0, head);
    assert s1 == Outcome(State([], 0, 0), [Motion(1, 10, 0, 0)]);
    var s2 := Step(MouseOnly, s1.state, tail);
    assert s2 == Outcome(State(tail, 0, 0), []);
    var s3 := Step(MouseOnly, s2.state, LeftButtonPacket);
    assert (tail + LeftButtonPacket)[..5][0] == 0x00;
    assert s3 == Outcome(State([], 0, 0), []);
    var chunks: seq<seq<Byte>> := [head, tail, LeftButtonPacket];
    assert chunks[1..] == [tail, LeftButtonPacket] && chunks[1..][1..] == [LeftButtonPacket];
    assert |chunks[1..][1..][1..]| == 0;
    assert Run(MouseOnly, s2.state, chunks[1..][1..]) == Outcome(State([], 0, 0), []);
    assert Run(MouseOnly, s1.state, chunks[1..]) == Outcome(State([], 0, 0), []);
  }
}
