/** `P1Telegram._validate_checksum`: where a framed telegram carries its
    checksum, and what the CRC-16 of the bytes before it must be. */
module Checksum {
  import opened Text
  import opened Crc16

  const Slash: byte := 47
  const Bang: byte := 33
  const CR: byte := 13
  const LF: byte := 10

  /** `b"!18c0\n\r"`: the buffer `from_objects` passes, a bare checksum
      line whose checksum is that of `!`. */
  function Dummy(): bytes { [33, 49, 56, 99, 48, 10, 13] }

  /** The ASCII code of a hex digit. */
  predicate IsHexByte(b: byte) { 48 <= b <= 57 || 97 <= b <= 102 || 65 <= b <= 70 }

  lemma HexByteChar(b: byte)
    ensures IsHexByte(b) <==> IsHexDigit(b as char)
  {
  }

  // ---------------------------------------------------------------------
  // The checksum

  /** `int(slot.decode("ascii"), 16)` compared with the CRC of `data`; a
      slot that is not ASCII or not a number is a ValueError, and so is a
      mismatch. */
  function SlotCheck(data: bytes, slot: bytes): (r: Result<()>)
    ensures r.Ok? ==> IsAscii(slot) && ParseInt(AsciiText(slot), 16) == Some(CrcValue(data))
    ensures r.Err? ==> r.error == ValueError
  {
    if !IsAscii(slot) then Err(ValueError)
    else match ParseInt(AsciiText(slot), 16)
      case None => Err(ValueError)
      case Some(v) => if v == CrcValue(data) then Ok(()) else Err(ValueError)
  }

  /** The bytes the CRC is taken over and the bytes holding its hex
      digits. */
  datatype Slots = Slots(data: bytes, digits: bytes)

  /** Where `_validate_checksum` looks, as written: the digits are
      `buf[-6:-2]` and the CRC is taken over `buf[:-6]`, which assumes two
      bytes after the four hex digits. */
  function SlotsAsWritten(buf: bytes): Slots
  {
    Slots(PySlice(buf, 0, -6), PySlice(buf, -6, -2))
  }

  function ValidateAsWritten(buf: bytes): (r: Result<()>)
    ensures r.Ok? ==> IsAscii(PySlice(buf, -6, -2))
    ensures r.Ok? ==> ParseInt(AsciiText(PySlice(buf, -6, -2)), 16) == Some(CrcValue(PySlice(buf, 0, -6)))
    ensures r.Err? ==> r.error == ValueError
  {
    var s := SlotsAsWritten(buf);
    SlotCheck(s.data, s.digits)
  }

  /** Where the digits are by the docstring of `_validate_checksum`: the
      four bytes after the last `!`, with the CRC taken over everything up
      to and including that `!`. A buffer without `!` has none. */
  function SlotsAfterBang(buf: bytes): (r: Option<Slots>)
    ensures r.None? <==> Bang !in buf
  {
    match LastIndexOf(buf, Bang)
    case None => None
    case Some(i) => Some(Slots(buf[..i + 1], PySlice(buf, i + 1, i + 5)))
  }

  /** The checksum check, reading the digits after the last `!`; a buffer
      without `!` is a ValueError (`rindex`). */
  function Validate(buf: bytes): (r: Result<()>)
    ensures Bang !in buf ==> r == Err(ValueError)
  {
    match SlotsAfterBang(buf)
    case None => Err(ValueError)
    case Some(s) => SlotCheck(s.data, s.digits)
  }

  /** The four hex digits a meter writes for a 16-bit value, as bytes. */
  function HexBytes(v: nat): (b: bytes)
    requires v < 0x10000
    ensures |b| == 4 && IsAscii(b) && AsciiText(b) == Hex4(v)
    ensures forall k | 0 <= k < 4 :: IsHexByte(b[k])
    ensures QuadValue(b) == v
  {
    Hex4Digits(v);
    AsciiBytes(Hex4(v))
  }

  /** The number four hex-digit bytes spell in base 16. */
  function QuadValue(slot: bytes): nat
    requires |slot| == 4 && forall k | 0 <= k < 4 :: IsHexByte(slot[k])
  {
    HexSlotText(slot);
    QuadHex(AsciiText(slot))
  }

  /** Four hex-digit bytes are ASCII text of four hex digits. */
  lemma HexSlotText(slot: bytes)
    requires |slot| == 4 && forall k | 0 <= k < 4 :: IsHexByte(slot[k])
    ensures IsAscii(slot) && forall k | 0 <= k < 4 :: IsHexDigit(AsciiText(slot)[k])
  {
    forall k | 0 <= k < 4 ensures slot[k] < 128 {
      assert IsHexByte(slot[k]);
    }
    forall k | 0 <= k < 4 ensures IsHexDigit(AsciiText(slot)[k]) {
      HexByteChar(slot[k]);
      assert AsciiText(slot)[k] == slot[k] as char;
    }
  }

  /** A slot of four hex digits passes exactly when it spells the CRC. */
  lemma SlotOfDigits(data: bytes, slot: bytes)
    requires |slot| == 4 && forall k | 0 <= k < 4 :: IsHexByte(slot[k])
    ensures SlotCheck(data, slot) == if QuadValue(slot) == CrcValue(data) then Ok(()) else Err(ValueError)
  {
    HexSlotText(slot);
    FourHexDigits(AsciiText(slot));
  }

  /** A frame closed by `!` and the checksum of everything up to it is
      accepted, whatever follows that has no `!` in it. */
  lemma FrameAccepted(data: bytes, trailer: bytes)
    requires |data| > 0 && data[|data| - 1] == Bang && Bang !in trailer
    ensures Validate(data + HexBytes(CrcValue(data)) + trailer) == Ok(())
  {
    var hex := HexBytes(CrcValue(data));
    assert Bang !in hex + trailer;
    FrameSlots(data, hex, trailer);
    SlotOfDigits(data, hex);
  }

  /** A frame closed by `!`, four digits and a trailer without `!` has its
      digits right after that `!`. */
  lemma FrameSlots(data: bytes, digits: bytes, trailer: bytes)
    requires |data| > 0 && data[|data| - 1] == Bang && Bang !in digits + trailer && |digits| == 4
    ensures SlotsAfterBang(data + digits + trailer) == Some(Slots(data, digits))
  {
    var buf := data + digits + trailer;
    var i := |data| - 1;
    assert buf == data[..i] + ([Bang] + (digits + trailer));
    LastIndexAt(data[..i], Bang, digits + trailer);
    assert buf[..i + 1] == data;
    assert PySlice(buf, i + 1, i + 5) == digits;
  }

  /** Changing any one byte before the closing `!` of an accepted frame
      makes it fail. */
  lemma CorruptionDetected(data: bytes, trailer: bytes, j: nat, b: byte)
    requires |data| > 0 && data[|data| - 1] == Bang && Bang !in trailer
    requires j < |data| - 1 && b != data[j]
    ensures Validate(data[j := b] + HexBytes(CrcValue(data)) + trailer) == Err(ValueError)
  {
    var bad := data[j := b];
    var hex := HexBytes(CrcValue(data));
    assert Bang !in hex + trailer;
    FrameSlots(bad, hex, trailer);
    SingleByteChangeChangesValue(data, bad, j);
    SlotOfDigits(bad, hex);
  }

  /** As written, the slot `buf[-6:-2]` of a buffer that ends in `\r\n!`
      and four hex digits holds `\n!` and two of the digits, which
      `int(.., 16)` refuses. */
  lemma CandidateRejectedAsWritten(body: bytes, hex: bytes)
    requires |hex| == 4 && forall k | 0 <= k < 4 :: IsHexByte(hex[k])
    ensures ValidateAsWritten(body + [CR, LF, Bang] + hex) == Err(ValueError)
  {
    var buf := body + [CR, LF, Bang] + hex;
    assert SlotsAsWritten(buf).digits == [LF, Bang, hex[0], hex[1]];
    BangDigitsRefused(hex[0], hex[1]);
  }

  /** `int("\n!" + two digits, 16)` is a ValueError: after the line feed
      is stripped, `!` is neither a sign nor a digit. */
  lemma BangDigitsRefused(a: byte, b: byte)
    requires IsHexByte(a) && IsHexByte(b)
    ensures IsAscii([LF, Bang, a, b]) && ParseInt(AsciiText([LF, Bang, a, b]), 16) == None
  {
    var text := AsciiText([LF, Bang, a, b]);
    assert text[0] == '\n' && text[1] == '!' && IsHexDigit(text[2]) && IsHexDigit(text[3]);
    BangFirst(text);
  }

  /** After the line feed, `!` is left at the front. */
  lemma BangFirst(t: string)
    requires |t| == 4 && t[0] == '\n' && t[1] == '!' && IsHexDigit(t[2]) && IsHexDigit(t[3])
    ensures ParseInt(t, 16) == None
  {
    ParseIntBadStart(t, 16, 1);
  }

  /** The dummy buffer passes the checksum both as written and as
      described. */
  lemma DummyValidate()
    ensures ValidateAsWritten(Dummy()) == Ok(())
    ensures Validate(Dummy()) == Ok(())
  {
    var d := Dummy();
    var digits: bytes := [49, 56, 99, 48];
    var trailer: bytes := [10, 13];
    assert d[1..5] == digits && d[..1] == [Bang];
    assert SlotsAsWritten(d) == Slots([Bang], digits);
    assert d == [Bang] + digits + trailer;
    assert Bang !in digits + trailer;
    FrameSlots([Bang], digits, trailer);
    DummyDigits(digits);
    BangCrc();
    SlotOfDigits([Bang], digits);
  }

  /** `"18c0"` spells the CRC of `!`. */
  lemma DummyDigits(digits: bytes)
    requires digits == [49, 56, 99, 48]
    ensures forall k | 0 <= k < 4 :: IsHexByte(digits[k])
    ensures QuadValue(digits) == 0x18c0
  {
    assert AsciiText(digits) == "18c0";
    assert DigitValue('1') == 1 && DigitValue('8') == 8;
    assert DigitValue('c') == 12 && DigitValue('0') == 0;
  }
}
