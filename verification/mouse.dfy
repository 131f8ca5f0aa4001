/** `hid_mouse_filter` of usb.py: a 16- or 18-byte mouse packet from the CH559
    bridge carries buttons, horizontal and vertical motion at bytes 11..13 and
    a wheel byte whose position the signature decides. */
module Mouse {
  import opened Bytes

  /** The signature of the 18-byte packets of simple wheel mice. */
  const StandardSignature: seq<Byte> := [0xfe, 0x06, 0x00, 0x04, 0x02]
  /** The signature of the 16-byte packets of mice with side buttons. */
  const ExtendedSignature: seq<Byte> := [0xfe, 0x04, 0x00, 0x04, 0x02]

  const ReportOffset := 11

  /** The tuple `(buttons, wheel, horizontal, vertical)` the filter returns. */
  datatype MouseReport = MouseReport(buttons: Byte, wheel: int, horizontal: int, vertical: int)

  /** What the filter returns for a packet it does not accept. */
  const NoReport := MouseReport(0, 0, 0, 0)

  predicate HasMouseSignature(packet: seq<Byte>)
  {
    StartsWith(packet, StandardSignature) || StartsWith(packet, ExtendedSignature)
  }

  /** The filter accepts either length with either signature. */
  predicate IsMousePacket(packet: seq<Byte>)
  {
    (|packet| == 18 || |packet| == 16) && HasMouseSignature(packet)
  }

  /** A report whose signed fields are all values of one byte. */
  predicate InByteRange(r: MouseReport)
  {
    -0x80 <= r.wheel < 0x80 && -0x80 <= r.horizontal < 0x80 && -0x80 <= r.vertical < 0x80
  }

  /** Where the wheel byte sits: the signature alone decides it, whatever the
      length, so a 16-byte packet with the standard signature reads its last
      byte as the wheel. */
  function WheelOffset(packet: seq<Byte>): (k: nat)
    requires IsMousePacket(packet)
    ensures ReportOffset + 3 <= k < |packet|
  {
    if StartsWith(packet, StandardSignature) then 15 else 14
  }

  function MouseFilter(packet: seq<Byte>): (r: MouseReport)
    ensures InByteRange(r)
    ensures !IsMousePacket(packet) ==> r == NoReport
  {
    if IsMousePacket(packet) then
      var keys := packet[ReportOffset..ReportOffset + 5];
      MouseReport(keys[0], ToSigned8(packet[WheelOffset(packet)]), ToSigned8(keys[1]), ToSigned8(keys[2]))
    else
      NoReport
  }

  /** The field layout of an accepted packet: buttons unchanged from byte 11,
      horizontal and vertical from bytes 12 and 13, and the wheel from byte 15
      under the standard signature and byte 14 under the extended one, at
      either length; each signed field is the value its byte encodes. */
  lemma MouseLayout(packet: seq<Byte>)
    requires IsMousePacket(packet)
    ensures MouseFilter(packet).buttons == packet[11]
    ensures ToUnsigned8(MouseFilter(packet).horizontal) == packet[12]
    ensures ToUnsigned8(MouseFilter(packet).vertical) == packet[13]
    ensures StartsWith(packet, StandardSignature) ==> ToUnsigned8(MouseFilter(packet).wheel) == packet[15]
    ensures StartsWith(packet, ExtendedSignature) ==> ToUnsigned8(MouseFilter(packet).wheel) == packet[14]
    ensures |packet| == 16 && StartsWith(packet, StandardSignature) ==>
      ToUnsigned8(MouseFilter(packet).wheel) == packet[|packet| - 1]
  {
  }

  /** Whether each signed field is negative is decided by its byte's top bit. */
  lemma MouseSigns(packet: seq<Byte>)
    requires IsMousePacket(packet)
    ensures MouseFilter(packet).horizontal < 0 <==> packet[12] >= 0x80
    ensures MouseFilter(packet).vertical < 0 <==> packet[13] >= 0x80
    ensures MouseFilter(packet).wheel < 0 <==> packet[WheelOffset(packet)] >= 0x80
  {
  }

  /** Only bytes 11..13 and the wheel byte matter: two accepted packets with
      the same signature that agree there give the same report. */
  lemma MouseReadsOnlyItsFields(p: seq<Byte>, q: seq<Byte>)
    requires IsMousePacket(p) && IsMousePacket(q)
    requires p[..5] == q[..5]
    requires p[11..14] == q[11..14] && p[WheelOffset(p)] == q[WheelOffset(q)]
    ensures MouseFilter(p) == MouseFilter(q)
  {
    assert p[11] == p[11..14][0] && p[12] == p[11..14][1] && p[13] == p[11..14][2];
    assert q[11] == q[11..14][0] && q[12] == q[11..14][1] && q[13] == q[11..14][2];
  }

  datatype MouseVariant = Standard | Extended

  /** A packet as the bridge would send it: signature, `filler` for the vendor
      bytes and every unused byte, then the report. */
  function EncodeMouse(variant: MouseVariant, length: nat, r: MouseReport, filler: Byte): (packet: seq<Byte>)
    requires length == 16 || length == 18
    requires InByteRange(r)
    ensures |packet| == length
  {
    var sig := if variant == Standard then StandardSignature else ExtendedSignature;
    var tail := if variant == Standard then [filler, ToUnsigned8(r.wheel)] else [ToUnsigned8(r.wheel), filler];
    sig + seq(6, _ => filler) + [r.buttons, ToUnsigned8(r.horizontal), ToUnsigned8(r.vertical)]
      + tail + seq(length - 16, _ => filler)
  }

  /** Decoding an encoded packet gives the report back, for either variant
      and either length. */
  lemma MouseRoundTrip(variant: MouseVariant, length: nat, r: MouseReport, filler: Byte)
    requires length == 16 || length == 18
    requires InByteRange(r)
    ensures IsMousePacket(EncodeMouse(variant, length, r, filler))
    ensures MouseFilter(EncodeMouse(variant, length, r, filler)) == r
  {
    var p := EncodeMouse(variant, length, r, filler);
    assert p[..5] == (if variant == Standard then StandardSignature else ExtendedSignature);
    SignedRoundTrip(r.wheel);
    SignedRoundTrip(r.horizontal);
    SignedRoundTrip(r.vertical);
  }
}
