/** `hid_keyboard_filter` of usb.py: a 20-byte keyboard packet from the CH559
    bridge carries six keypress slots at bytes 13..18; every non-zero slot is
    resolved to a key name. The names, in slot order, are what the source
    prints, one per line. */
module Keyboard {
  import opened Wrappers
  import opened Bytes
  import opened ScanCodes

  const KeyboardSignature: seq<Byte> := [0xfe, 0x08, 0x00, 0x04, 0x06]

  /** 19 bytes of packet plus the line feed that ends the bridge's line. */
  const KeyboardPacketLength := 20

  /** The eight-byte boot report starts at byte 11: modifiers, reserved, then
      the keypress slots. The modifier byte is carried but never decoded. */
  const ReportOffset := 11
  const FirstSlot := 13
  const SlotCount := 6

  predicate IsKeyboardPacket(packet: seq<Byte>)
  {
    |packet| == KeyboardPacketLength && StartsWith(packet, KeyboardSignature)
  }

  /** The keypress slots of a keyboard packet (`packet[11:19][2:]`). */
  function Slots(packet: seq<Byte>): (slots: seq<Byte>)
    requires IsKeyboardPacket(packet)
    ensures |slots| == SlotCount
    ensures forall i | 0 <= i < SlotCount :: slots[i] == packet[FirstSlot + i]
  {
    packet[ReportOffset..ReportOffset + 8][2..]
  }

  /** The loop over the slots: a slot holding 0x00 prints nothing, any other
      slot prints its resolved name. So the loop prints exactly one name per
      pressed code, in slot order, and that name is the code's resolution. */
  function SlotNames(slots: seq<Byte>): (names: seq<string>)
    ensures |names| == |PressedCodes(slots)|
    ensures forall i | 0 <= i < |names| :: names[i] == KeyName(PressedCodes(slots)[i])
  {
    if slots == [] then []
    else (if slots[0] != 0 then [KeyName(slots[0])] else []) + SlotNames(slots[1..])
  }

  /** The names printed for one packet: nothing unless the packet is exactly
      20 bytes with the keyboard signature. */
  function KeyboardFilter(packet: seq<Byte>): (names: seq<string>)
    ensures !IsKeyboardPacket(packet) ==> names == []
    ensures |names| <= SlotCount
  {
    if IsKeyboardPacket(packet) then SlotNames(Slots(packet)) else []
  }

  /** Slots that all hold 0x00 print nothing. */
  lemma {:induction false} EmptySlotsPrintNothing(slots: seq<Byte>)
    requires forall i | 0 <= i < |slots| :: slots[i] == 0
    ensures SlotNames(slots) == []
  {
    if slots != [] {
      EmptySlotsPrintNothing(slots[1..]);
    }
  }

  /** The usage IDs held in a run of slots: the non-zero ones, each as often
      as it occurs. */
  function PressedCodes(slots: seq<Byte>): (codes: seq<Byte>)
    ensures forall i | 0 <= i < |codes| :: codes[i] != 0
    ensures forall c: Byte | c != 0 :: multiset(codes)[c] == multiset(slots)[c]
    ensures |codes| <= |slots|
  {
    if slots == [] then []
    else
      assert slots == [slots[0]] + slots[1..];
      (if slots[0] != 0 then [slots[0]] else []) + PressedCodes(slots[1..])
  }

  /** Pressed codes keep slot order: those of a prefix come before those of
      the rest. */
  lemma {:induction false} PressedCodesAppend(a: seq<Byte>, b: seq<Byte>)
    ensures PressedCodes(a + b) == PressedCodes(a) + PressedCodes(b)
  {
    if a == [] {
      assert a + b == b;
    } else {
      assert (a + b)[1..] == a[1..] + b;
      PressedCodesAppend(a[1..], b);
    }
  }

  /** For an accepted packet the printed names are the resolutions of the
      non-zero slot codes, in slot order, duplicates kept; reading them back
      gives those codes. */
  lemma KeyboardRoundTrip(packet: seq<Byte>)
    requires IsKeyboardPacket(packet)
    ensures |KeyboardFilter(packet)| == |PressedCodes(packet[FirstSlot..FirstSlot + SlotCount])|
    ensures forall i | 0 <= i < |KeyboardFilter(packet)| ::
      KeyboardFilter(packet)[i] == KeyName(PressedCodes(packet[FirstSlot..FirstSlot + SlotCount])[i])
    ensures forall i | 0 <= i < |KeyboardFilter(packet)| ::
      ParseKeyName(KeyboardFilter(packet)[i]) == Some(PressedCodes(packet[FirstSlot..FirstSlot + SlotCount])[i])
  {
    var slots := Slots(packet);
    assert slots == packet[FirstSlot..FirstSlot + SlotCount];
    forall i | 0 <= i < |KeyboardFilter(packet)|
      ensures ParseKeyName(KeyboardFilter(packet)[i]) == Some(PressedCodes(slots)[i])
    {
      KeyNameRoundTrip(PressedCodes(slots)[i]);
    }
  }
}
