# CH559 USB-HID-to-UART decoder, modelled in Dafny

`usb.py` listens to the serial line of a CH559 bridge that turns a USB
keyboard or mouse into lines of bytes. Its decoding core is modelled here as
pure functions over byte sequences:

- `Bytes`: the byte type, the signature test (`s[0:5] == sig`) and the
  two's-complement reading of motion and wheel bytes.
- `Text`: the `%d` and `%02x` formats the keyboard decoder prints, with
  parsers that invert them.
- `ScanCodes`: `key_lut` and the resolution chain from a usage ID of the
  Keyboard/Keypad page of the HID Usage Tables 1.12 (section 10) to a key
  name: the table, then letters, digits, function keys, then hex.
- `Keyboard`: `hid_keyboard_filter`, with the printed names returned as a
  sequence.
- `Mouse`: `hid_mouse_filter`, returning `(buttons, wheel, horizontal, vertical)`.
- `Receiver`: one pass of the receive loop in `main` as a function on the
  state `(rx, x, y)`. The device switches are a fixed `Config`, and the line
  the serial port returned is a parameter.
- `Samples`: the sample packets in the source's comments, plus some reads
  that show how the loop handles them.

Several behaviours of the code are easy to misread. The model follows the
code as written:

- The mouse filter accepts 16 and 18 bytes with either mouse signature. The
  wheel offset depends on the signature, not the length. So a 16-byte packet
  with the `FE 06` signature reads its last byte (the line feed on the wire)
  as the wheel.
- Each pass decodes at most one packet. A decode empties the whole buffer,
  even when the filter then rejects the length. The code never keeps
  trailing bytes for the next packet.
- A buffer shorter than five bytes just fails the signature test. There is
  no separate "wait for more bytes" outcome.
- A line split in two reads with four bytes, then thirteen, has 17 bytes in
  all. The mouse filter rejects that length. The mouse branch still empties
  the buffer and reports a zero motion (`Samples.SeventeenBytesRejected`).
- Splitting a packet across reads changes nothing whenever the first
  read triggers neither decoder branch nor the 20-byte guard
  (`Receiver.SplitBeforeDecode`). A first read that leaves fewer than 16
  bytes is therefore always safe (`Receiver.SplitBelowThreshold`). An 18-byte
  packet whose wheel byte is `0x0a` ends a serial line after 16 bytes. The
  code decodes it at once, and the packet behind it is lost
  (`Samples.WheelLineFeedLosesNextPacket`).

## Model

| member | source | states |
|---|---|---|
| `Bytes.ToSigned8` | usb.py:171-176 | the converted value lies in [-128, 127], is negative exactly when the byte is 0x80 or more, and stores back as the same byte |
| `Bytes.SignedRoundTrip` | usb.py:171-176 | every value of [-128, 127] is read back from its byte unchanged |
| `Text.Decimal` | usb.py:251 | `%d` gives a non-empty string of decimal digits with no leading zero |
| `Text.DecimalRoundTrip` | usb.py:251 | the decimal parser reads `%d` back to the number |
| `Text.Hex2` | usb.py:253 | `%02x` gives exactly two lower-case hex digits, and the hex parser reads them back to the byte |
| `ScanCodes.TableInjective` | usb.py:205-236 | no two usage IDs in `key_lut` share a name |
| `ScanCodes.TableNamesShaped` | usb.py:205-236 | every table name starts with `K_`, and none starts with `K_F` |
| `ScanCodes.TableDisjointFromRanges` | usb.py:205-250 | no table entry is 0x00 or lies in the letter, digit or function-key range |
| `ScanCodes.KeyName` | usb.py:244-253 | a table hit wins over every range, and the name is at least three characters exactly when the code is in the table or one of the three ranges |
| `ScanCodes.KeyNameRoundTrip` | usb.py:244-253 | an independent name parser reads every printed name back to its usage ID |
| `ScanCodes.KeyNameInjective` | usb.py:244-253 | distinct usage IDs never print the same name |
| `ScanCodes.KeyNameLetters` | usb.py:246-247 | usage IDs 0x04..0x1D print as `K_a`..`K_z`, in the order of the alphabet |
| `ScanCodes.KeyNameDigits` | usb.py:206-249 | usage IDs 0x1E..0x27 print as `K_1`..`K_9` and then `K_0`, the last through the table |
| `ScanCodes.KeyNameFunctionKeys` | usb.py:250-251 | usage IDs 0x3A..0x45 print as `K_F1`..`K_F12` |
| `ScanCodes.KeyNameUnnamed` | usb.py:252-253 | every other code outside the table prints as two characters that the hex parser reads back to the usage ID |
| `Keyboard.Slots` | usb.py:240-242 | the keypress slots are the six bytes 13..18 of the packet |
| `Keyboard.KeyboardFilter` | usb.py:238-256 | a packet that is not exactly 20 bytes with signature `FE 08 00 04 06` prints nothing, and no packet prints more than six names |
| `Keyboard.EmptySlotsPrintNothing` | usb.py:254-255 | slots that hold only 0x00 print no name |
| `Keyboard.PressedCodes` | usb.py:242-254 | the pressed codes are non-zero and are the slots' non-zero codes with their multiplicities |
| `Keyboard.PressedCodesAppend` | usb.py:242-254 | pressed codes keep slot order |
| `Keyboard.SlotNames` | usb.py:242-255 | the slot loop prints exactly one name per pressed code, in slot order, and each name is that code's resolution |
| `Keyboard.KeyboardRoundTrip` | usb.py:238-256 | for an accepted packet, the printed names are the resolutions of the non-zero codes of bytes 13..18 in slot order, with duplicates, and parsing them gives those codes back |
| `Mouse.WheelOffset` | usb.py:167-170 | the wheel byte lies after the vertical byte and inside the packet |
| `Mouse.MouseFilter` | usb.py:157-180 | wheel and motion lie in [-128, 127], and a packet whose length is not 16 or 18, or whose first five bytes are neither mouse signature, gives `(0,0,0,0)` |
| `Mouse.MouseLayout` | usb.py:163-176 | buttons is byte 11 unchanged, horizontal and vertical are the values bytes 12 and 13 encode, and the wheel is byte 15 for `FE 06` and byte 14 for `FE 04`, at either length, so a 16-byte `FE 06` packet reads its last byte as the wheel |
| `Mouse.MouseSigns` | usb.py:171-176 | each signed field is negative exactly when its byte's top bit is set |
| `Mouse.MouseReadsOnlyItsFields` | usb.py:163-170 | two accepted packets with the same signature that agree on bytes 11..13 and the wheel byte decode alike |
| `Mouse.MouseRoundTrip` | usb.py:157-180 | a packet built from any in-range report, with either signature and either length, is accepted and decodes to that report |
| `Receiver.Step` | usb.py:103-142 | after a pass the buffer holds fewer than 20 bytes, at most one packet was decoded, and a pass with no decode leaves the position unchanged |
| `Receiver.StepCases` | usb.py:124-142 | the keyboard branch decodes when it is enabled, the buffer holds 20 bytes or more and the keyboard signature matches. Otherwise the mouse branch decodes when it is enabled, the buffer holds 16 bytes or more and a mouse signature matches. Each decode empties the buffer, accepted or not. Otherwise nothing is emitted and the buffer is kept, unless it reached 20 bytes |
| `Receiver.StepClears` | usb.py:124-142 | the buffer is emptied exactly when a branch decoded or the buffer reached 20 bytes; otherwise it is kept whole |
| `Receiver.StepPosition` | usb.py:134-137 | the position moves by exactly the decoded horizontal and vertical motion, so a packet the mouse filter rejects leaves it unchanged |
| `Receiver.NoSignatureNoEvent` | usb.py:124-142 | a buffer that starts with no enabled signature is never decoded; it is kept, or dropped at 20 bytes |
| `Receiver.SplitBeforeDecode` | usb.py:104-142 | two reads give the same result as their concatenation read at once, when the first read triggers neither decoder branch nor the overflow guard |
| `Receiver.SplitBelowThreshold` | usb.py:104-142 | in particular, a first read that leaves fewer than 16 bytes never changes the result |
| `Receiver.Run` | usb.py:103-142 | over any sequence of reads there is at most one event per read, and the buffer stays below 20 bytes |
| `Receiver.RunAppend` | usb.py:103-104 | running two batches of reads in turn is running their concatenation |
| `Samples.MouseSamplesDecode` | usb.py:149-152 | the four sample mouse packets decode to button 1 held, with no motion and no wheel |
| `Samples.KeyboardSampleDecodes` | usb.py:183 | the sample keyboard packet prints exactly `K_c` |
| `Samples.MouseSampleThroughTheLoop` | usb.py:130-138 | read at once in mouse mode, the mouse sample gives one motion event with button 1 and leaves the buffer empty |
| `Samples.KeyboardSampleThroughTheLoop` | usb.py:124-128 | read at once in keyboard mode, the keyboard sample gives one `K_c` event and leaves the buffer empty |
| `Samples.NoiseIsDropped` | usb.py:141-142 | 21 bytes with no signature give no event and an empty buffer |
| `Samples.SeventeenBytesRejected` | usb.py:130-137 | a 17-byte mouse line in two reads is taken by the mouse branch on the second read. The filter rejects it and the buffer is emptied, with a zero motion and the position unchanged |
| `Samples.WheelLineFeedLosesNextPacket` | usb.py:130-142 | a packet cut after 16 bytes by a `0x0a` wheel byte decodes early, and its two leftover bytes make the next packet overflow the buffer unread |

## Left out

- The `UART` class: serial-port I/O. Each line it returns is a parameter of `Receiver.Step`.
- Loading and creating the INI file, the log file, and clearing the screen in `main`: file and OS I/O.
- The hex-dump branch of the loop (`hid_unknown`) and `list2file`: they only log and write files.
- The `print` calls: the keyboard names are returned, and the mouse line is a `Motion` event. That event holds the unscaled position. The `x // 10` display scaling is left out.
- A keyboard decode of a buffer that is not exactly 20 bytes, or whose slots are all zero, gives a `Keys([])` event. The source prints nothing then. The empty event marks that the keyboard branch ran and emptied the buffer.
- The keyboard modifier byte (byte 11): the code never decodes it.
- The outer `while run` loop: it never ends. `Receiver.Run` models any finite prefix of its passes.
