/** Resolution of a keyboard usage ID (USB HID Usage Tables 1.12, section 10,
    Keyboard/Keypad page) to the symbolic name the decoder prints. */
module ScanCodes {
  import opened Wrappers
  import opened Bytes
  import opened Text

  /** `key_lut` of usb.py: the explicitly named keys, by usage ID. */
  const KeyLut: map<Byte, string> := map[
    0x27 := "K_0",
    0x29 := "K_ESCAPE",
    0x35 := "K_BACKQUOTE",
    0x2d := "K_MINUS",
    0x2e := "K_PLUS",
    0x2a := "K_BACKSPACE",
    0x49 := "K_INSERT",
    0x4a := "K_HOME",
    0x4b := "K_PAGEUP",
    0x46 := "K_PRINT",
    0x47 := "K_SCROLLOCK",
    0x48 := "K_PAUSE",
    0x2b := "K_TAB",
    0x2f := "K_LEFTBRACKET",
    0x30 := "K_RIGHTBRACKET",
    0x31 := "K_BACKSLASH",
    0x4c := "K_DELETE",
    0x4d := "K_END",
    0x4e := "K_PAGEDOWN",
    0x39 := "K_CAPSLOCK",
    0x33 := "K_SEMICOLON",
    0x34 := "K_QUOTE",
    0x28 := "K_ENTER",
    0x36 := "K_COMMA",
    0x37 := "K_PERIOD",
    0x38 := "K_SLASH",
    0x50 := "K_LEFT",
    0x51 := "K_DOWN",
    0x4f := "K_RIGHT",
    0x52 := "K_UP"
  ]

  /** Usage IDs 0x04..0x1D: keyboard a..z. */
  predicate IsLetterCode(c: Byte)
  {
    0x04 <= c <= 0x1d
  }

  /** Usage IDs 0x1E..0x26: keyboard 1..9 (0x27, keyboard 0, is not in the range). */
  predicate IsDigitCode(c: Byte)
  {
    0x1e <= c <= 0x26
  }

  /** Usage IDs 0x3A..0x45: F1..F12. */
  predicate IsFunctionCode(c: Byte)
  {
    0x3a <= c <= 0x45
  }

  /** The shape of every name in the explicit table: `K_` followed by at
      least one character, and never `K_F` (which the function keys own). */
  predicate IsTableName(s: string)
  {
    3 <= |s| && s[..2] == "K_" && (s == "K_0" || (4 <= |s| && s[2] != 'F'))
  }

  /** No two usage IDs of the table share a name. */
  lemma TableInjective()
    ensures forall a, b | a in KeyLut && b in KeyLut && KeyLut[a] == KeyLut[b] :: a == b
  {
  }

  /** Every name of the table has the table shape. */
  lemma TableNamesShaped()
    ensures forall c | c in KeyLut :: IsTableName(KeyLut[c])
  {
  }

  /** No entry of the table lies in one of the three computed ranges, so the
      order in which the decoder tries the table and the ranges decides no
      code's name. */
  lemma TableDisjointFromRanges()
    ensures forall c | c in KeyLut :: c != 0 && !IsLetterCode(c) && !IsDigitCode(c) && !IsFunctionCode(c)
  {
  }

  /** A table read backwards: the smallest usage ID, at or above `from`,
      that `t` names `name`. */
  function FindCode(t: map<Byte, string>, name: string, from: nat): (r: Option<Byte>)
    ensures r.Some? ==> from <= r.value && r.value in t && t[r.value] == name
    decreases 0x100 - from
  {
    if from >= 0x100 then None
    else
      var c: Byte := from;
      if c in t && t[c] == name then Some(c) else FindCode(t, name, from + 1)
  }

  /** The backward read finds the one usage ID that carries a name. */
  lemma {:induction false} FindCodeFinds(t: map<Byte, string>, name: string, from: nat, c: Byte)
    requires from <= c && c in t && t[c] == name
    requires forall a | a in t && t[a] == name :: a == c
    ensures FindCode(t, name, from) == Some(c)
    decreases c - from
  {
    if from < c {
      FindCodeFinds(t, name, from + 1, c);
    }
  }

  /** The backward read finds nothing for a name the table does not hold. */
  lemma {:induction false} FindCodeMisses(t: map<Byte, string>, name: string, from: nat)
    requires forall c | c in t :: t[c] != name
    ensures FindCode(t, name, from) == None
    decreases 0x100 - from
  {
    if from < 0x100 {
      FindCodeMisses(t, name, from + 1);
    }
  }

  /** The resolution chain of `hid_keyboard_filter`: the table, then the
      letter range, the digit range, the function-key range, and finally the
      code in lower-case hex. */
  function KeyName(code: Byte): (name: string)
    ensures code in KeyLut ==> name == KeyLut[code]
    ensures 3 <= |name| <==> code in KeyLut || IsLetterCode(code) || IsDigitCode(code) || IsFunctionCode(code)
  {
    if code in KeyLut then KeyLut[code]
    else if IsLetterCode(code) then "K_" + [(97 - 0x04 + code) as char]
    else if IsDigitCode(code) then "K_" + [(49 - 0x1e + code) as char]
    else if IsFunctionCode(code) then "K_F" + Decimal(code - 0x3a + 1)
    else Hex2(code)
  }

  /** An independent reader of the names `KeyName` prints: each name form
      is recognised by its shape and mapped back to its usage ID. */
  function ParseKeyName(name: string): (code: Option<Byte>)
  {
    if FindCode(KeyLut, name, 0).Some? then FindCode(KeyLut, name, 0)
    else if |name| == 3 && name[..2] == "K_" && 'a' <= name[2] <= 'z' then
      Some(name[2] as int - 'a' as int + 0x04)
    else if |name| == 3 && name[..2] == "K_" && '1' <= name[2] <= '9' then
      Some(name[2] as int - '1' as int + 0x1e)
    else if 4 <= |name| && name[..3] == "K_F" && ParseDecimal(name[3..]).Some?
            && 1 <= ParseDecimal(name[3..]).value <= 12 then
      Some(ParseDecimal(name[3..]).value - 1 + 0x3a)
    else ParseHex2(name)
  }

  /** Every name the decoder can print identifies its usage ID: reading it
      back gives the code. */
  lemma KeyNameRoundTrip(code: Byte)
    ensures ParseKeyName(KeyName(code)) == Some(code)
  {
    TableNamesShaped();
    var name := KeyName(code);
    if code in KeyLut {
      TableInjective();
      FindCodeFinds(KeyLut, name, 0, code);
    } else if IsLetterCode(code) || IsDigitCode(code) {
      assert name[..2] == "K_" && |name| == 3 && name[2] != '0';
      FindCodeMisses(KeyLut, name, 0);
    } else if IsFunctionCode(code) {
      assert name[..3] == "K_F" && name[3..] == Decimal(code - 0x3a + 1);
      assert name[2] == 'F' && name != "K_0";
      FindCodeMisses(KeyLut, name, 0);
      DecimalRoundTrip(code - 0x3a + 1);
    } else {
      FindCodeMisses(KeyLut, name, 0);
    }
  }

  /** Distinct usage IDs resolve to distinct names. */
  lemma KeyNameInjective(a: Byte, b: Byte)
    requires KeyName(a) == KeyName(b)
    ensures a == b
  {
    KeyNameRoundTrip(a);
    KeyNameRoundTrip(b);
  }

  const Alphabet := "abcdefghijklmnopqrstuvwxyz"
  const DigitRow := "1234567890"

  lemma AlphabetInOrder()
    ensures |Alphabet| == 26
    ensures forall i | 0 <= i < 26 :: Alphabet[i] as int == 'a' as int + i
  {
  }

  lemma DigitRowInOrder()
    ensures |DigitRow| == 10
    ensures forall i | 0 <= i < 9 :: DigitRow[i] as int == '1' as int + i
    ensures DigitRow[9] == '0'
  {
  }

  /** Usage IDs 0x04..0x1D print as the letters a..z, in order. */
  lemma KeyNameLetters(code: Byte)
    requires 0x04 <= code <= 0x1d
    ensures KeyName(code) == "K_" + [Alphabet[code - 0x04]]
  {
    TableDisjointFromRanges();
    AlphabetInOrder();
    assert code !in KeyLut;
  }

  /** Usage IDs 0x1E..0x27 print as the digits 1..9 and then 0; the last one
      comes from the table, not from the digit range. */
  lemma KeyNameDigits(code: Byte)
    requires 0x1e <= code <= 0x27
    ensures KeyName(code) == "K_" + [DigitRow[code - 0x1e]]
  {
    DigitRowInOrder();
    if code == 0x27 {
      assert KeyName(code) == "K_0";
    } else {
      TableDisjointFromRanges();
      assert code !in KeyLut;
    }
  }

  /** Usage IDs 0x3A..0x45 print as F1..F12. */
  lemma KeyNameFunctionKeys(code: Byte)
    requires 0x3a <= code <= 0x45
    ensures code <= 0x42 ==> KeyName(code) == "K_F" + [DigitRow[code - 0x3a]]
    ensures 0x43 <= code ==> KeyName(code) == "K_F1" + ["012"[code - 0x43]]
  {
    TableDisjointFromRanges();
    DigitRowInOrder();
    assert code !in KeyLut;
    var n := code - 0x3a + 1;
    assert KeyName(code) == "K_F" + Decimal(n);
    if n >= 10 {
      assert Decimal(n) == Decimal(1) + [DigitChar(n % 10)];
      assert "012"[code - 0x43] as int == '0' as int + n % 10;
    }
  }

  /** Every other code outside the table prints as its usage ID in hex. */
  lemma KeyNameUnnamed(code: Byte)
    requires code !in KeyLut && !IsLetterCode(code) && !IsDigitCode(code) && !IsFunctionCode(code)
    ensures ParseHex2(KeyName(code)) == Some(code)
    ensures |KeyName(code)| == 2
  {
  }
}
