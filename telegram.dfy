/** `P1Telegram`: a framed telegram's lines and objects, and the
    per-telegram views built on them (time stamp, device id, channel, the
    split by channel and the output dictionary). */
module Telegram {
  import opened Text
  import opened Crc16
  import opened Checksum
  import opened P1Object
  import opened Objects

  /** A telegram once built: the bytes it was parsed from, the text after
      the `/` of its identification line, its objects in line order and the
      number of lines that could not be decoded. Nothing changes it after
      construction, so it is a value. */
  datatype Telegram = Telegram(buffer: bytes, meterId: string, objects: seq<Obj>, unparseable: nat)

  /** Objects as the decoders build them. */
  predicate AllWellFormed(objs: seq<Obj>)
  {
    forall i | 0 <= i < |objs| :: WellFormed(objs[i])
  }

  // ---------------------------------------------------------------------
  // _parse_objects

  /** What `_parse_objects` has gathered from the lines seen so far. */
  datatype Parsed = Parsed(meterId: string, objects: seq<Obj>, unparseable: nat)

  /** Lines that carry no object: the identification line, the checksum
      line and empty lines. */
  predicate IsSkipped(line: string)
  {
    line == [] || line[0] == '/' || line[0] == '!'
  }

  /** One line: `/` sets the meter id, `!` and empty lines are ignored, any
      other line is one object or, when decoding it is a ValueError, one
      more unparseable line; any other error ends the construction. */
  function LineStep(parse: string -> Result<Obj>, p: Parsed, line: string): Result<Parsed>
  {
    if |line| > 0 && line[0] == '/' then Ok(p.(meterId := line[1..]))
    else if |line| > 0 && line[0] == '!' then Ok(p)
    else if line == [] then Ok(p)
    else match parse(line)
      case Ok(o) => Ok(p.(objects := p.objects + [o]))
      case Err(e) => if e == ValueError then Ok(p.(unparseable := p.unparseable + 1)) else Err(e)
  }

  /** The lines taken in order, from an empty start. */
  function ParseLines(parse: string -> Result<Obj>, lines: seq<string>): Result<Parsed>
  {
    if lines == [] then Ok(Parsed([], [], 0))
    else match ParseLines(parse, lines[..|lines| - 1])
      case Err(e) => Err(e)
      case Ok(p) => LineStep(parse, p, lines[|lines| - 1])
  }

  /** `_parse_objects`: the loop over the lines. */
  method ParseObjects(parse: string -> Result<Obj>, lines: seq<string>) returns (r: Result<Parsed>)
    ensures r == ParseLines(parse, lines)
  {
    var meterId: string := [];
    var objects: seq<Obj> := [];
    var unparseable: nat := 0;
    for i := 0 to |lines|
      invariant ParseLines(parse, lines[..i]) == Ok(Parsed(meterId, objects, unparseable))
    {
      var line := lines[i];
      assert lines[..i + 1][..i] == lines[..i];
      if |line| > 0 && line[0] == '/' {
        meterId := line[1..];
        continue;
      }
      if |line| > 0 && line[0] == '!' {
        continue;
      }
      if line == [] {
        continue;
      }
      var o := parse(line);
      if o.Ok? {
        objects := objects + [o.value];
      } else if o.error == ValueError {
        unparseable := unparseable + 1;
      } else {
        ErrorStops(parse, lines, i + 1);
        return Err(o.error);
      }
    }
    assert lines[..|lines|] == lines;
    r := Ok(Parsed(meterId, objects, unparseable));
  }

  /** An error on one line is the error of the whole. */
  lemma {:induction false} ErrorStops(parse: string -> Result<Obj>, lines: seq<string>, n: nat)
    requires n <= |lines| && ParseLines(parse, lines[..n]).Err?
    ensures ParseLines(parse, lines) == ParseLines(parse, lines[..n])
    decreases |lines| - n
  {
    if n < |lines| {
      assert lines[..n + 1][..n] == lines[..n];
      ErrorStops(parse, lines, n + 1);
    } else {
      assert lines[..n] == lines;
    }
  }

  // Reference definitions of what the lines yield.

  /** The lines that carry an object. */
  function ObjectLines(lines: seq<string>): (r: seq<string>)
    ensures |r| <= |lines|
  {
    if lines == [] then []
    else ObjectLines(lines[..|lines| - 1]) + (if IsSkipped(lines[|lines| - 1]) then [] else [lines[|lines| - 1]])
  }

  /** The objects decoded from `lines`, in order. */
  function Decoded(parse: string -> Result<Obj>, lines: seq<string>): seq<Obj>
  {
    if lines == [] then []
    else
      var last := match parse(lines[|lines| - 1]) case Ok(o) => [o] case Err(_) => [];
      Decoded(parse, lines[..|lines| - 1]) + last
  }

  /** How many of `lines` decoding refuses with a ValueError. */
  function Refused(parse: string -> Result<Obj>, lines: seq<string>): nat
  {
    if lines == [] then 0
    else Refused(parse, lines[..|lines| - 1]) + (if parse(lines[|lines| - 1]) == Err(ValueError) then 1 else 0)
  }

  /** An object line whose decoding fails with something other than a
      ValueError, which `_parse_objects` does not catch. */
  predicate Escapes(parse: string -> Result<Obj>, line: string)
  {
    !IsSkipped(line) && parse(line).Err? && parse(line).error != ValueError
  }

  /** The text after the `/` of the last identification line, or nothing. */
  function LastMeterId(lines: seq<string>): string
  {
    if lines == [] then []
    else if |lines[|lines| - 1]| > 0 && lines[|lines| - 1][0] == '/' then lines[|lines| - 1][1..]
    else LastMeterId(lines[..|lines| - 1])
  }

  /** The lines succeed exactly when no object line escapes; then the meter
      id is that of the last `/` line, the objects are those decoded from
      the object lines in order, and the rest of the object lines are
      counted as unparseable. */
  lemma ParseLinesMeaning(parse: string -> Result<Obj>, lines: seq<string>)
    ensures ParseLines(parse, lines).Ok? <==> forall i | 0 <= i < |lines| :: !Escapes(parse, lines[i])
    ensures ParseLines(parse, lines).Ok? ==>
      ParseLines(parse, lines).value
        == Parsed(LastMeterId(lines), Decoded(parse, ObjectLines(lines)), Refused(parse, ObjectLines(lines)))
  {
    ParseLinesOk(parse, lines);
    if ParseLines(parse, lines).Ok? {
      ParseLinesValue(parse, lines);
    }
  }

  /** The lines fail exactly when some object line escapes. */
  lemma {:induction false} ParseLinesOk(parse: string -> Result<Obj>, lines: seq<string>)
    ensures ParseLines(parse, lines).Ok? <==> forall i | 0 <= i < |lines| :: !Escapes(parse, lines[i])
  {
    if lines != [] {
      var init, last := lines[..|lines| - 1], lines[|lines| - 1];
      ParseLinesOk(parse, init);
      assert forall i | 0 <= i < |init| :: init[i] == lines[i];
      if ParseLines(parse, init).Ok? {
        LineStepOk(parse, ParseLines(parse, init).value, last);
      }
    }
  }

  /** One line fails exactly when it escapes. */
  lemma LineStepOk(parse: string -> Result<Obj>, p: Parsed, line: string)
    ensures LineStep(parse, p, line).Ok? <==> !Escapes(parse, line)
  {
  }

  /** The result of the lines, when they succeed. */
  lemma {:induction false} ParseLinesValue(parse: string -> Result<Obj>, lines: seq<string>)
    requires ParseLines(parse, lines).Ok?
    ensures ParseLines(parse, lines).value
         == Parsed(LastMeterId(lines), Decoded(parse, ObjectLines(lines)), Refused(parse, ObjectLines(lines)))
  {
    if lines != [] {
      var init, last := lines[..|lines| - 1], lines[|lines| - 1];
      assert ParseLines(parse, init).Ok?;
      ParseLinesValue(parse, init);
      var ol := ObjectLines(init);
      if !IsSkipped(last) {
        assert ObjectLines(lines) == ol + [last];
        ObjectLineAdded(parse, ol, last);
      } else {
        assert ObjectLines(lines) == ol;
      }
    }
  }

  /** One more object line adds its object, or one more refusal. */
  lemma ObjectLineAdded(parse: string -> Result<Obj>, ol: seq<string>, line: string)
    ensures Decoded(parse, ol + [line]) == Decoded(parse, ol) + (match parse(line) case Ok(o) => [o] case Err(_) => [])
    ensures Refused(parse, ol + [line]) == Refused(parse, ol) + (if parse(line) == Err(ValueError) then 1 else 0)
  {
    assert (ol + [line])[..|ol|] == ol;
  }

  /** When nothing escapes, every object line is either an object or an
      unparseable line. */
  lemma {:induction false} EveryObjectLineCounted(parse: string -> Result<Obj>, lines: seq<string>)
    requires forall i | 0 <= i < |lines| :: !parse(lines[i]).Err? || parse(lines[i]).error == ValueError
    ensures |Decoded(parse, lines)| + Refused(parse, lines) == |lines|
  {
    if lines != [] {
      var init := lines[..|lines| - 1];
      assert forall i | 0 <= i < |init| :: init[i] == lines[i];
      EveryObjectLineCounted(parse, init);
    }
  }

  /** Object lines do not escape. */
  lemma {:induction false} ObjectLinesCaught(parse: string -> Result<Obj>, lines: seq<string>)
    requires forall i | 0 <= i < |lines| :: !Escapes(parse, lines[i])
    ensures forall i | 0 <= i < |ObjectLines(lines)| ::
      !parse(ObjectLines(lines)[i]).Err? || parse(ObjectLines(lines)[i]).error == ValueError
  {
    if lines != [] {
      var init := lines[..|lines| - 1];
      assert forall i | 0 <= i < |init| :: init[i] == lines[i];
      ObjectLinesCaught(parse, init);
    }
  }

  /** A decoder whose objects are well formed. */
  ghost predicate Sound(parse: string -> Result<Obj>)
  {
    forall line :: parse(line).Ok? ==> WellFormed(parse(line).value)
  }

  /** Each decoded object is a decoder's result. */
  lemma {:induction false} DecodedAllWellFormed(parse: string -> Result<Obj>, lines: seq<string>)
    requires Sound(parse)
    ensures AllWellFormed(Decoded(parse, lines))
  {
    if lines != [] {
      DecodedAllWellFormed(parse, lines[..|lines| - 1]);
    }
  }

  /** `parse_p1_object` builds well-formed objects. */
  lemma ParseObjectSound()
    ensures Sound(ParseObject)
  {
    forall line | ParseObject(line).Ok? ensures WellFormed(ParseObject(line).value) {
      Objects.DecodedWellFormed(Classify(line).value, line);
    }
  }

  // ---------------------------------------------------------------------
  // Construction: __init__, _validate_checksum, from_objects, __len__

  /** What `__init__` makes of `buf` once the checksum check has given
      `check`, decoding object lines with `parse`: the text must be ASCII
      (`decode` raises a ValueError otherwise), and then the lines are
      parsed. */
  function Built(buf: bytes, check: Result<()>, parse: string -> Result<Obj>): (r: Result<Telegram>)
    ensures r.Ok? ==> r.value.buffer == buf
  {
    if check.Err? then Err(check.error)
    else if !IsAscii(buf) then Err(ValueError)
    else match ParseLines(parse, SplitLines(AsciiText(buf)))
      case Err(e) => Err(e)
      case Ok(p) => Ok(Telegram(buf, p.meterId, p.objects, p.unparseable))
  }

  /** `P1Telegram(buf)` as written: the checksum digits are read from
      `buf[-6:-2]`. */
  function FromBytesAsWritten(buf: bytes): Result<Telegram>
  {
    Built(buf, ValidateAsWritten(buf), ParseObject)
  }

  /** `P1Telegram(buf)` with the checksum digits read after the last `!`,
      where the parser's candidates have them. */
  function FromBytes(buf: bytes): Result<Telegram>
  {
    Built(buf, Validate(buf), ParseObject)
  }

  /** One checksum slot: `int(digits, 16)` against the CRC loop. */
  method CheckSlot(data: bytes, digits: bytes) returns (r: Result<()>)
    ensures r == SlotCheck(data, digits)
  {
    if !IsAscii(digits) {
      return Err(ValueError);
    }
    var msgsum := ParseInt(AsciiText(digits), 16);
    if msgsum.None? {
      return Err(ValueError);
    }
    var remainder := ComputeCrc(data);
    if RegValue(remainder) != msgsum.value {
      return Err(ValueError);
    }
    r := Ok(());
  }

  /** `_validate_checksum` as written. */
  method ValidateChecksumAsWritten(buf: bytes) returns (r: Result<()>)
    ensures r == ValidateAsWritten(buf)
  {
    var slots := SlotsAsWritten(buf);
    r := CheckSlot(slots.data, slots.digits);
  }

  /** `_validate_checksum` reading the digits after the last `!`. */
  method ValidateChecksum(buf: bytes) returns (r: Result<()>)
    ensures r == Validate(buf)
  {
    var slots := SlotsAfterBang(buf);
    if slots.None? {
      return Err(ValueError);
    }
    r := CheckSlot(slots.value.data, slots.value.digits);
  }

  /** The rest of `__init__` once the checksum is checked. */
  method Finish(buf: bytes, check: Result<()>, parse: string -> Result<Obj>) returns (r: Result<Telegram>)
    ensures r == Built(buf, check, parse)
  {
    if check.Err? {
      return Err(check.error);
    }
    if !IsAscii(buf) {
      return Err(ValueError);
    }
    var parsed := ParseObjects(parse, SplitLines(AsciiText(buf)));
    if parsed.Err? {
      return Err(parsed.error);
    }
    r := Ok(Telegram(buf, parsed.value.meterId, parsed.value.objects, parsed.value.unparseable));
  }

  /** `P1Telegram.__init__` as written. */
  method NewAsWritten(buf: bytes) returns (r: Result<Telegram>)
    ensures r == FromBytesAsWritten(buf)
  {
    var check := ValidateChecksumAsWritten(buf);
    r := Finish(buf, check, ParseObject);
  }

  /** `P1Telegram.__init__` with the corrected checksum slot. */
  method New(buf: bytes) returns (r: Result<Telegram>)
    ensures r == FromBytes(buf)
  {
    var check := ValidateChecksum(buf);
    r := Finish(buf, check, ParseObject);
  }

  /** A built telegram holds the bytes it came from, its objects are the
      decoded object lines in order and well formed, and every object line
      is an object or an unparseable line. */
  lemma BuiltMeaning(buf: bytes, check: Result<()>, parse: string -> Result<Obj>)
    requires Sound(parse) && Built(buf, check, parse).Ok?
    ensures check.Ok? && IsAscii(buf)
    ensures var lines := SplitLines(AsciiText(buf));
      var t := Built(buf, check, parse).value;
      && t.buffer == buf
      && t.meterId == LastMeterId(lines)
      && t.objects == Decoded(parse, ObjectLines(lines))
      && |t.objects| + t.unparseable == |ObjectLines(lines)|
      && AllWellFormed(t.objects)
  {
    var lines := SplitLines(AsciiText(buf));
    ParseLinesMeaning(parse, lines);
    ObjectLinesCaught(parse, lines);
    EveryObjectLineCounted(parse, ObjectLines(lines));
    DecodedAllWellFormed(parse, ObjectLines(lines));
  }

  /** Any telegram built from bytes has well-formed objects. */
  lemma FromBytesWellFormed(buf: bytes)
    requires FromBytes(buf).Ok?
    ensures AllWellFormed(FromBytes(buf).value.objects)
  {
    ParseObjectSound();
    BuiltMeaning(buf, Validate(buf), ParseObject);
  }

  /** A frame that closes with `!` and the CRC of everything up to it
      passes the check, and is then built whenever its lines are. */
  lemma FrameBuilt(data: bytes, trailer: bytes)
    requires |data| > 0 && data[|data| - 1] == Bang && Bang !in trailer
    ensures var buf := data + HexBytes(CrcValue(data)) + trailer;
      FromBytes(buf) == Built(buf, Ok(()), ParseObject)
  {
    FrameAccepted(data, trailer);
  }

  /** Changing one byte before the closing `!` makes construction fail
      with a ValueError. */
  lemma CorruptFrameRefused(data: bytes, trailer: bytes, j: nat, b: byte)
    requires |data| > 0 && data[|data| - 1] == Bang && Bang !in trailer
    requires j < |data| - 1 && b != data[j]
    ensures FromBytes(data[j := b] + HexBytes(CrcValue(data)) + trailer) == Err(ValueError)
  {
    CorruptionDetected(data, trailer, j, b);
  }

  /** As written, a buffer ending in `\r\n!` and four hex digits, which is
      what the parser hands over, is always refused. */
  lemma CandidateRefusedAsWritten(body: bytes, hex: bytes)
    requires |hex| == 4 && forall k | 0 <= k < 4 :: IsHexByte(hex[k])
    ensures FromBytesAsWritten(body + [CR, LF, Bang] + hex) == Err(ValueError)
  {
    CandidateRejectedAsWritten(body, hex);
  }

  /** `from_objects`: a telegram over the bare checksum buffer, holding the
      given objects. */
  function FromObjects(objects: seq<Obj>): (t: Telegram)
    ensures t.objects == objects && t.buffer == Dummy()
  {
    Telegram(Dummy(), [], objects, 0)
  }

  /** `__len__`: 0 for the bare checksum buffer of `from_objects`, the byte
      length otherwise. */
  function Len(t: Telegram): (n: nat)
    ensures n <= |t.buffer|
    ensures n == 0 ==> t.buffer == Dummy() || t.buffer == []
  {
    if t.buffer == Dummy() then 0 else |t.buffer|
  }

  /** The bare checksum buffer builds, both as written and corrected, into
      the empty telegram that `from_objects` starts from, whose length is
      0. */
  lemma DummyBuilds()
    ensures FromBytesAsWritten(Dummy()) == Ok(FromObjects([]))
    ensures FromBytes(Dummy()) == Ok(FromObjects([]))
    ensures Len(FromObjects([])) == 0
  {
    DummyValidate();
    BuiltDummy(Dummy(), ParseObject);
  }

  lemma BuiltDummy(d: bytes, parse: string -> Result<Obj>)
    requires d == Dummy()
    ensures Built(d, Ok(()), parse) == Ok(FromObjects([]))
  {
    DummyText(d);
    var s := AsciiText(d);
    SplitAtLineFeed("!18c0", ['\r']);
    SplitLoneBreak('\r');
    var lines: seq<string> := ["!18c0", []];
    assert SplitLines(s) == lines;
    NothingParsed(parse, lines);
  }

  lemma DummyText(d: bytes)
    requires d == Dummy()
    ensures IsAscii(d) && AsciiText(d) == "!18c0" + ['\n'] + ['\r']
  {
  }

  /** Lines that are all checksum or empty lines give nothing. */
  lemma {:induction false} NothingParsed(parse: string -> Result<Obj>, lines: seq<string>)
    requires forall i | 0 <= i < |lines| :: lines[i] == [] || lines[i][0] == '!'
    ensures ParseLines(parse, lines) == Ok(Parsed([], [], 0))
  {
    if lines != [] {
      NothingParsed(parse, lines[..|lines| - 1]);
    }
  }

  /** A line feed closes the line before it. */
  lemma SplitAtLineFeed(l: string, rest: string)
    requires forall i | 0 <= i < |l| :: !IsLineBreak(l[i])
    ensures SplitLines(l + ['\n'] + rest) == [l] + SplitLines(rest)
  {
    var s := l + ['\n'] + rest;
    BreakAt(s, |l|);
    assert s[..|l|] == l && s[|l| + 1..] == rest;
  }

  /** A lone break is one empty line. */
  lemma SplitLoneBreak(c: char)
    requires IsLineBreak(c)
    ensures SplitLines([c]) == [[]]
  {
    assert [c][1..] == [];
  }

  /** A telegram built from bytes other than the bare checksum buffer has
      their length. */
  lemma LenOfBuilt(buf: bytes)
    requires FromBytes(buf).Ok? && buf != Dummy()
    ensures Len(FromBytes(buf).value) == |buf|
  {
  }

  // ---------------------------------------------------------------------
  // The candidate properties: timestamp and device_id

  /** The elements of `s` that satisfy `keep`, in order. */
  function Filter<T>(s: seq<T>, keep: T -> bool): (r: seq<T>)
    ensures |r| <= |s|
    ensures forall x | x in r :: x in s && keep(x)
  {
    if s == [] then []
    else Filter(s[..|s| - 1], keep) + (if keep(s[|s| - 1]) then [s[|s| - 1]] else [])
  }

  /** Exactly one element is kept when exactly one position satisfies
      `keep`; it is the element at that position. */
  lemma FilterSingle<T>(s: seq<T>, keep: T -> bool)
    ensures |Filter(s, keep)| == 1 <==>
      exists i | 0 <= i < |s| :: keep(s[i]) && forall j | 0 <= j < |s| && j != i :: !keep(s[j])
    ensures forall i | 0 <= i < |s| && keep(s[i]) && (forall j | 0 <= j < |s| && j != i :: !keep(s[j])) ::
      Filter(s, keep) == [s[i]]
  {
    forall i | 0 <= i < |s| && keep(s[i]) && (forall j | 0 <= j < |s| && j != i :: !keep(s[j]))
      ensures Filter(s, keep) == [s[i]]
    {
      FilterOne(s, keep, i);
    }
    if |Filter(s, keep)| == 1 {
      FilterOneOnly(s, keep);
    }
  }

  lemma {:induction false} FilterOne<T>(s: seq<T>, keep: T -> bool, i: nat)
    requires i < |s| && keep(s[i]) && forall j | 0 <= j < |s| && j != i :: !keep(s[j])
    ensures Filter(s, keep) == [s[i]]
  {
    var init := s[..|s| - 1];
    assert forall j | 0 <= j < |init| :: init[j] == s[j];
    if i == |s| - 1 {
      FilterEmpty(init, keep);
    } else {
      FilterOne(init, keep, i);
    }
  }

  lemma {:induction false} FilterOneOnly<T>(s: seq<T>, keep: T -> bool)
    requires |Filter(s, keep)| == 1
    ensures exists i | 0 <= i < |s| :: keep(s[i]) && forall j | 0 <= j < |s| && j != i :: !keep(s[j])
  {
    var init := s[..|s| - 1];
    assert forall j | 0 <= j < |init| :: init[j] == s[j];
    if keep(s[|s| - 1]) {
      FilterEmpty(init, keep);
      assert forall j | 0 <= j < |s| && j != |s| - 1 :: !keep(s[j]);
    } else {
      FilterOneOnly(init, keep);
      var i :| 0 <= i < |init| && keep(init[i]) && forall j | 0 <= j < |init| && j != i :: !keep(init[j]);
      assert forall j | 0 <= j < |s| && j != i :: !keep(s[j]);
    }
  }

  /** Nothing is kept exactly when no element satisfies `keep`. */
  lemma {:induction false} FilterEmpty<T>(s: seq<T>, keep: T -> bool)
    ensures Filter(s, keep) == [] <==> forall i | 0 <= i < |s| :: !keep(s[i])
  {
    if s != [] {
      var init := s[..|s| - 1];
      FilterEmpty(init, keep);
      assert forall i | 0 <= i < |init| :: init[i] == s[i];
    }
  }

  predicate TimestampCandidate(o: Obj) { IsTimestamp(o.kind) }

  predicate DeviceIdCandidate(o: Obj) { IsDeviceId(o.kind) }

  /** `timestamp`: the Unix time of the only time stamp candidate, and none
      when there are no candidates or several. */
  function Timestamp(objs: seq<Obj>): (r: Option<int>)
    requires AllWellFormed(objs)
    ensures r.Some? ==> exists i | 0 <= i < |objs| :: IsTimestamp(objs[i].kind) && ObjTimestamp(objs[i]) == r.value
  {
    var candidates := Filter(objs, TimestampCandidate);
    if |candidates| == 1 then
      assert candidates[0] in objs;
      Some(ObjTimestamp(candidates[0]))
    else None
  }

  /** A time stamp exists exactly when one object is a candidate, and it is
      that object's time. */
  lemma TimestampUnique(objs: seq<Obj>, v: int)
    requires AllWellFormed(objs)
    ensures Timestamp(objs) == Some(v) <==>
      exists i | 0 <= i < |objs| :: && IsTimestamp(objs[i].kind) && ObjTimestamp(objs[i]) == v
                                    && forall j | 0 <= j < |objs| && j != i :: !IsTimestamp(objs[j].kind)
  {
    FilterSingle(objs, TimestampCandidate);
  }

  /** Two candidates, such as the telegram's own time stamp and a gas
      reading's, leave the telegram without one. */
  lemma TwoTimestampsNone(objs: seq<Obj>, i: nat, j: nat)
    requires AllWellFormed(objs)
    requires i < |objs| && j < |objs| && i != j
    requires IsTimestamp(objs[i].kind) && IsTimestamp(objs[j].kind)
    ensures Timestamp(objs) == None
  {
    FilterSingle(objs, TimestampCandidate);
    assert TimestampCandidate(objs[i]) && TimestampCandidate(objs[j]);
  }

  /** `device_id`, corrected: the identifier of the only device id
      candidate as text, none when there are no candidates or several, and
      a ValueError when the identifier is not ASCII. */
  function DeviceId(objs: seq<Obj>): (r: Result<Option<string>>)
    requires AllWellFormed(objs)
    ensures r.Ok? && r.value.Some? ==>
      exists i | 0 <= i < |objs| :: IsDeviceId(objs[i].kind) && DeviceIdText(objs[i]) == Ok(r.value.value)
    ensures r.Err? ==> r.error == ValueError
  {
    var candidates := Filter(objs, DeviceIdCandidate);
    if |candidates| == 1 then
      assert candidates[0] in objs;
      match DeviceIdText(candidates[0])
      case Ok(text) => Ok(Some(text))
      case Err(e) => Err(e)
    else Ok(None)
  }

  /** A device id exists exactly when one object is a candidate, and it is
      that object's identifier. */
  lemma DeviceIdUnique(objs: seq<Obj>, id: string)
    requires AllWellFormed(objs)
    ensures DeviceId(objs) == Ok(Some(id)) <==>
      exists i | 0 <= i < |objs| :: && IsDeviceId(objs[i].kind) && DeviceIdText(objs[i]) == Ok(id)
                                    && forall j | 0 <= j < |objs| && j != i :: !IsDeviceId(objs[j].kind)
    ensures DeviceId(objs) == Ok(None) <==> |Filter(objs, DeviceIdCandidate)| != 1
  {
    FilterSingle(objs, DeviceIdCandidate);
  }

  /** `device_id` as written: the generator reads `is_device_id`, which only
      the identifier classes set, so the first other object raises an
      AttributeError; a single candidate is called, but its `device_id`
      is the None set by `P1Object.__init__`, so that is a TypeError. */
  function DeviceIdAsWritten(objs: seq<Obj>): (r: Result<Option<string>>)
    ensures r.Ok? ==> r.value.None?
    ensures r.Err? ==> r.error == AttributeError || r.error == TypeError
  {
    if exists i | 0 <= i < |objs| :: !IsDeviceId(objs[i].kind) then Err(AttributeError)
    else if |objs| == 1 then Err(TypeError)
    else Ok(None)
  }

  /** As written, `device_id` never yields an id, and it fails on every
      telegram that holds anything but identifiers, for instance one with
      just the telegram time stamp. */
  lemma DeviceIdNeverFound(objs: seq<Obj>, o: Obj)
    ensures DeviceIdAsWritten(objs).Ok? ==> DeviceIdAsWritten(objs).value == None
    ensures o.kind == P1Timestamp ==> DeviceIdAsWritten([o]) == Err(AttributeError)
    ensures IsDeviceId(o.kind) ==> DeviceIdAsWritten([o]) == Err(TypeError)
  {
    if o.kind == P1Timestamp {
      assert !IsDeviceId([o][0].kind);
    }
  }

  // ---------------------------------------------------------------------
  // channel

  function ChannelOf(o: Obj): int { o.header.channel }

  /** The channels the objects come from. */
  function ChannelSet(objs: seq<Obj>): set<int>
  {
    set i | 0 <= i < |objs| :: ChannelOf(objs[i])
  }

  /** `channel`: the channel when all objects share one, otherwise none. */
  function Channel(objs: seq<Obj>): (r: Option<int>)
    ensures objs == [] ==> r.None?
    ensures r.Some? ==> |objs| > 0 && r.value == ChannelOf(objs[0]) && r.value in ChannelSet(objs)
  {
    var channels := ChannelSet(objs);
    if |objs| > 0 && |channels| == 1 then Some(ChannelOf(objs[0])) else None
  }

  /** A channel exists exactly when there are objects and all share it. */
  lemma ChannelShared(objs: seq<Obj>, c: int)
    ensures Channel(objs) == Some(c) <==> |objs| > 0 && forall i | 0 <= i < |objs| :: ChannelOf(objs[i]) == c
  {
    var channels := ChannelSet(objs);
    if |objs| > 0 && forall i | 0 <= i < |objs| :: ChannelOf(objs[i]) == c {
      assert channels == {c} by {
        assert ChannelOf(objs[0]) in channels;
      }
    }
    if Channel(objs) == Some(c) {
      assert c in channels by {
        assert ChannelOf(objs[0]) in channels;
      }
      forall i | 0 <= i < |objs| ensures ChannelOf(objs[i]) == c {
        var d := ChannelOf(objs[i]);
        assert d in channels;
        if d != c {
          assert {c, d} <= channels;
          SubsetSize({c, d}, channels);
        }
      }
    }
  }

  lemma SubsetSize(a: set<int>, b: set<int>)
    requires a <= b
    ensures |a| <= |b|
  {
    assert b == a + (b - a);
  }

  // ---------------------------------------------------------------------
  // split_by_channel

  /** Channel 3 only carries the version line; the split drops it. */
  const IgnoredChannel := 3

  /** The channels the split keeps, in the order in which each first
      appears among the objects: the order of the groups in the
      insertion-ordered dictionary. */
  function Channels(objs: seq<Obj>): (cs: seq<int>)
    ensures IgnoredChannel !in cs
    ensures forall i, j | 0 <= i < j < |cs| :: cs[i] != cs[j]
  {
    if objs == [] then []
    else
      var cs := Channels(objs[..|objs| - 1]);
      var c := ChannelOf(objs[|objs| - 1]);
      if c == IgnoredChannel || c in cs then cs else cs + [c]
  }

  /** The objects of one channel, in their order in the telegram. */
  function OnChannel(objs: seq<Obj>, c: int): seq<Obj>
  {
    if objs == [] then []
    else
      var last := objs[|objs| - 1];
      OnChannel(objs[..|objs| - 1], c) + (if ChannelOf(last) == c then [last] else [])
  }

  /** A channel is kept exactly when it is not channel 3 and some object
      comes from it. */
  lemma {:induction false} ChannelsComplete(objs: seq<Obj>, c: int)
    ensures c in Channels(objs) <==> c != IgnoredChannel && exists i | 0 <= i < |objs| :: ChannelOf(objs[i]) == c
  {
    if objs != [] {
      var init := objs[..|objs| - 1];
      ChannelsComplete(init, c);
      if c != IgnoredChannel && c !in Channels(init) && c in Channels(objs) {
        assert ChannelOf(objs[|objs| - 1]) == c;
      }
      if exists i | 0 <= i < |init| :: ChannelOf(init[i]) == c {
        var i :| 0 <= i < |init| && ChannelOf(init[i]) == c;
        assert objs[i] == init[i];
      }
      if c != IgnoredChannel && exists i | 0 <= i < |objs| :: ChannelOf(objs[i]) == c {
        var i :| 0 <= i < |objs| && ChannelOf(objs[i]) == c;
        if i < |init| {
          assert init[i] == objs[i];
        }
      }
    }
  }

  /** An object is in its channel's group exactly when it is one of the
      telegram's objects; each group keeps the objects' order. */
  lemma {:induction false} OnChannelMembers(objs: seq<Obj>, c: int, o: Obj)
    ensures o in OnChannel(objs, c) <==> o in objs && ChannelOf(o) == c
  {
    if objs != [] {
      var init := objs[..|objs| - 1];
      OnChannelMembers(init, c, o);
      assert objs == init + [objs[|objs| - 1]];
    }
  }

  /** A group is empty exactly when no object comes from its channel. */
  lemma {:induction false} OnChannelEmpty(objs: seq<Obj>, c: int)
    ensures OnChannel(objs, c) == [] <==> forall i | 0 <= i < |objs| :: ChannelOf(objs[i]) != c
  {
    if objs != [] {
      var init := objs[..|objs| - 1];
      OnChannelEmpty(init, c);
      if OnChannel(objs, c) == [] {
        forall i | 0 <= i < |objs| ensures ChannelOf(objs[i]) != c {
          if i < |init| {
            assert objs[i] == init[i];
          }
        }
      }
    }
  }

  /** The groups the split builds, one per kept channel. */
  function Groups(objs: seq<Obj>): (gs: seq<seq<Obj>>)
    ensures |gs| == |Channels(objs)|
  {
    seq(|Channels(objs)|, i requires 0 <= i < |Channels(objs)| => OnChannel(objs, Channels(objs)[i]))
  }

  /** The grouping loop of `split_by_channel`: the dictionary from channel
      to its objects, and the order in which its keys were inserted. */
  method GroupByChannel(objs: seq<Obj>) returns (groups: map<int, seq<Obj>>, order: seq<int>)
    ensures order == Channels(objs)
    ensures forall c :: c in groups <==> c in order
    ensures forall c | c in groups :: groups[c] == OnChannel(objs, c)
  {
    groups := map[];
    order := [];
    for i := 0 to |objs|
      invariant order == Channels(objs[..i])
      invariant forall c :: c in groups <==> c in order
      invariant forall c | c in groups :: groups[c] == OnChannel(objs[..i], c)
    {
      var o := objs[i];
      var c := o.header.channel;
      assert objs[..i + 1][..i] == objs[..i];
      if c != IgnoredChannel {
        if c in groups {
          groups := groups[c := groups[c] + [o]];
        } else {
          OnChannelEmpty(objs[..i], c);
          ChannelsComplete(objs[..i], c);
          groups := groups[c := [o]];
          order := order + [c];
        }
      }
    }
    assert objs[..|objs|] == objs;
  }

  /** `split_by_channel`: one telegram (without bytes) per kept channel,
      in the order in which the channels first appear. */
  method SplitByChannel(t: Telegram) returns (parts: seq<Telegram>)
    ensures |parts| == |Groups(t.objects)|
    ensures forall i | 0 <= i < |parts| :: parts[i] == FromObjects(Groups(t.objects)[i])
  {
    var groups, order := GroupByChannel(t.objects);
    parts := [];
    for j := 0 to |order|
      invariant |parts| == j
      invariant forall k | 0 <= k < j :: parts[k] == FromObjects(Groups(t.objects)[k])
    {
      var c := order[j];
      assert c in order;
      assert c in groups;
      assert groups[c] == Groups(t.objects)[j];
      parts := parts + [FromObjects(groups[c])];
    }
  }

  /** Every group is non-empty, and all of its objects share the group's
      channel, so the part's own `channel` is that channel. */
  lemma GroupChannel(objs: seq<Obj>, i: nat)
    requires i < |Channels(objs)|
    ensures Groups(objs)[i] != []
    ensures Channel(Groups(objs)[i]) == Some(Channels(objs)[i])
  {
    var c := Channels(objs)[i];
    var g := OnChannel(objs, c);
    ChannelsComplete(objs, c);
    OnChannelEmpty(objs, c);
    forall j | 0 <= j < |g| ensures ChannelOf(g[j]) == c {
      OnChannelMembers(objs, c, g[j]);
    }
    ChannelShared(g, c);
  }

  /** Every object off channel 3 lands in exactly one part, and objects of
      channel 3 in none. */
  lemma SplitCovers(objs: seq<Obj>, o: Obj)
    ensures o in objs && ChannelOf(o) != IgnoredChannel ==>
      exists i | 0 <= i < |Groups(objs)| :: o in Groups(objs)[i]
    ensures forall i, j | 0 <= i < |Groups(objs)| && 0 <= j < |Groups(objs)| && o in Groups(objs)[i] && o in Groups(objs)[j] ::
      i == j
    ensures forall i | 0 <= i < |Groups(objs)| && o in Groups(objs)[i] :: o in objs && ChannelOf(o) != IgnoredChannel
  {
    var cs := Channels(objs);
    forall i | 0 <= i < |cs| ensures o in Groups(objs)[i] <==> o in objs && ChannelOf(o) == cs[i] {
      OnChannelMembers(objs, cs[i], o);
    }
    if o in objs && ChannelOf(o) != IgnoredChannel {
      var k :| 0 <= k < |objs| && objs[k] == o;
      ChannelsComplete(objs, ChannelOf(o));
      var i :| 0 <= i < |cs| && cs[i] == ChannelOf(o);
      assert o in Groups(objs)[i];
    }
  }

  /** The parts have no bytes of their own, so their length is 0. */
  lemma SplitPartsEmpty(objs: seq<Obj>, i: nat)
    requires i < |Groups(objs)|
    ensures Len(FromObjects(Groups(objs)[i])) == 0 && FromObjects(Groups(objs)[i]).objects == Groups(objs)[i]
  {
  }

  // ---------------------------------------------------------------------
  // to_mqtt

  /** The dictionary after `update`-ing an empty one with each map in
      turn. */
  function MergeAll<K, V>(ms: seq<map<K, V>>): map<K, V>
  {
    if ms == [] then map[] else MergeAll(ms[..|ms| - 1]) + ms[|ms| - 1]
  }

  /** A key is in the merged dictionary exactly when one of the maps has
      it. */
  lemma {:induction false} MergeAllKeys<K, V>(ms: seq<map<K, V>>, k: K)
    ensures k in MergeAll(ms) <==> exists i | 0 <= i < |ms| :: k in ms[i]
  {
    if ms != [] {
      var init := ms[..|ms| - 1];
      MergeAllKeys(init, k);
      assert forall i | 0 <= i < |init| :: init[i] == ms[i];
    }
  }

  /** A key holds the value of the last map that has it: later objects'
      keys overwrite earlier ones. */
  lemma {:induction false} MergeAllLast<K, V>(ms: seq<map<K, V>>, k: K, i: nat)
    requires i < |ms| && k in ms[i] && forall j | i < j < |ms| :: k !in ms[j]
    ensures k in MergeAll(ms) && MergeAll(ms)[k] == ms[i][k]
  {
    if i < |ms| - 1 {
      var init := ms[..|ms| - 1];
      assert forall j | 0 <= j < |init| :: init[j] == ms[j];
      MergeAllLast(init, k, i);
    }
  }

  /** Each object's `to_mqtt`, in order. */
  function Outputs(objs: seq<Obj>): (ms: seq<map<string, OutValue>>)
    requires AllWellFormed(objs)
    ensures |ms| == |objs|
  {
    seq(|objs|, i requires 0 <= i < |objs| => ObjOutput(objs[i]))
  }

  const TimestampKey := "p1mqtt_telegram_timestamp"
  const DeviceIdKey := "p1mqtt_device_id"
  const ChannelKey := "p1mqtt_channel"
  const CollectorKey := "p1mqtt_collector_timestamp"

  /** `P1Telegram.to_mqtt`, with `time.time()` given as `now`: the objects'
      outputs merged in order, then the telegram's time stamp, device id
      and channel when it has them, and the collector's time. A device id
      that fails to decode fails the whole. */
  function Output(objs: seq<Obj>, now: Decimal): (r: Result<map<string, OutValue>>)
    requires AllWellFormed(objs)
    ensures r.Err? <==> DeviceId(objs).Err?
    ensures r.Ok? ==> CollectorKey in r.value && r.value[CollectorKey] == DecVal(now)
  {
    Completed(MergeAll(Outputs(objs)), Timestamp(objs), DeviceId(objs), Channel(objs), now)
  }

  /** The telegram's own keys added to the merged object outputs. */
  function Completed(merged: map<string, OutValue>, stamp: Option<int>, id: Result<Option<string>>,
                     channel: Option<int>, now: Decimal): Result<map<string, OutValue>>
  {
    var stamped := match stamp case Some(v) => merged[TimestampKey := IntVal(v)] case None => merged;
    match id
    case Err(e) => Err(e)
    case Ok(id) =>
      var identified := if id.Some? then stamped[DeviceIdKey := TextVal(id.value)] else stamped;
      var channelled := match channel case Some(c) => identified[ChannelKey := IntVal(c)] case None => identified;
      Ok(channelled[CollectorKey := DecVal(now)])
  }

  /** When no object key can be one of the telegram's keys, each of those
      is there exactly when the telegram has that property, and the other
      keys are the objects'. */
  lemma CompletedMeaning(merged: map<string, OutValue>, stamp: Option<int>, id: Result<Option<string>>,
                         channel: Option<int>, now: Decimal)
    requires forall k | k in merged :: |k| >= 3 && k[2] == '_'
    ensures Completed(merged, stamp, id, channel, now).Err? <==> id.Err?
    ensures Completed(merged, stamp, id, channel, now).Ok? ==>
      var out := Completed(merged, stamp, id, channel, now).value;
      && out[CollectorKey] == DecVal(now)
      && (TimestampKey in out <==> stamp.Some?)
      && (stamp.Some? ==> out[TimestampKey] == IntVal(stamp.value))
      && (DeviceIdKey in out <==> id.value.Some?)
      && (id.value.Some? ==> out[DeviceIdKey] == TextVal(id.value.value))
      && (ChannelKey in out <==> channel.Some?)
      && (channel.Some? ==> out[ChannelKey] == IntVal(channel.value))
      && forall k | |k| >= 3 && k[2] == '_' :: (k in out <==> k in merged) && (k in out ==> out[k] == merged[k])
  {
    assert TimestampKey[2] != '_' && DeviceIdKey[2] != '_' && ChannelKey[2] != '_' && CollectorKey[2] != '_';
  }

  /** `to_mqtt` over the telegram's objects. */
  method ToMqtt(t: Telegram, now: Decimal) returns (r: Result<map<string, OutValue>>)
    requires AllWellFormed(t.objects)
    ensures r == Output(t.objects, now)
  {
    var output: map<string, OutValue> := map[];
    for i := 0 to |t.objects|
      invariant output == MergeAll(Outputs(t.objects)[..i])
    {
      var part := ObjectToMqtt(t.objects[i]);
      assert Outputs(t.objects)[i] == part;
      assert Outputs(t.objects)[..i + 1][..i] == Outputs(t.objects)[..i];
      output := output + part;
    }
    assert Outputs(t.objects)[..|t.objects|] == Outputs(t.objects);
    var stamp := Timestamp(t.objects);
    if stamp.Some? {
      output := output[TimestampKey := IntVal(stamp.value)];
    }
    var id := DeviceId(t.objects);
    if id.Err? {
      return Err(id.error);
    }
    if id.value.Some? {
      output := output[DeviceIdKey := TextVal(id.value.value)];
    }
    var channel := Channel(t.objects);
    if channel.Some? {
      output := output[ChannelKey := IntVal(channel.value)];
    }
    output := output[CollectorKey := DecVal(now)];
    r := Ok(output);
  }

  /** One object's `to_mqtt`, by the loop of `P1Object.to_mqtt`. */
  method ObjectToMqtt(o: Obj) returns (output: map<string, OutValue>)
    requires WellFormed(o)
    ensures output == ObjOutput(o)
  {
    output := P1Object.ToMqtt(ClassName(o.kind), Fields(o.payload));
  }

  /** Object keys are snake-cased class names, which all start `p1_`; the
      telegram's own keys start `p1m`, so they never clash. */
  lemma ObjectKeyShape(o: Obj, key: string)
    requires WellFormed(o) && key in ObjOutput(o)
    ensures |key| >= 3 && key[2] == '_'
  {
    var name := ClassName(o.kind);
    var fields := Fields(o.payload);
    ClassNameShape(o.kind);
    SnakeNameShape(name);
    ObjectOutputShape(name, fields);
    if |fields| > 1 {
      var i :| 0 <= i < |fields| && key == SnakeName(name) + "_" + fields[i].0;
      assert key[..|SnakeName(name)|] == SnakeName(name);
    }
  }

  /** Every class name is `P1` followed by a capitalised word. */
  lemma ClassNameShape(k: Kind)
    ensures |ClassName(k)| >= 3 && ClassName(k)[1] == '1' && IsUpper(ClassName(k)[2])
  {
    if k == P1Version || k == P1Timestamp || k == P1EquipmentIdentfier ||
          k == P1EnergyConsumedTariff1 || k == P1EnergyConsumedTariff2 ||
          k == P1EnergyProducedTariff1 || k == P1EnergyProducedTariff2 || k == P1EnergyTariff ||
          k == P1ActualPowerConsuming {
      ClassNameShape1(k);
    } else if k == P1ActualPowerProducing || k == P1PowerFailureCount ||
                 k == P1LongPowerFailureCount || k == P1LongFailureLog || k == P1VoltageSagL1Count ||
                 k == P1VoltageSagL2Count || k == P1VoltageSagL3Count ||
                 k == P1VoltageSwellL1Count || k == P1VoltageSwellL2Count {
      ClassNameShape2(k);
    } else if k == P1VoltageSwellL3Count || k == P1UserMessageNumeric || k == P1UserMessageText ||
                 k == P1CurrentL1 || k == P1CurrentL2 || k == P1CurrentL3 || k == P1VoltageL1 ||
                 k == P1VoltageL2 || k == P1VoltageL3 {
      ClassNameShape3(k);
    } else {
      ClassNameShape4(k);
    }
  }

  lemma ClassNameShape1(k: Kind)
    requires k == P1Version
      || k == P1Timestamp
      || k == P1EquipmentIdentfier
      || k == P1EnergyConsumedTariff1
      || k == P1EnergyConsumedTariff2
      || k == P1EnergyProducedTariff1
      || k == P1EnergyProducedTariff2
      || k == P1EnergyTariff
      || k == P1ActualPowerConsuming
    ensures |ClassName(k)| >= 3 && ClassName(k)[1] == '1' && IsUpper(ClassName(k)[2])
  {
  }

  lemma ClassNameShape2(k: Kind)
    requires k == P1ActualPowerProducing
      || k == P1PowerFailureCount
      || k == P1LongPowerFailureCount
      || k == P1LongFailureLog
      || k == P1VoltageSagL1Count
      || k == P1VoltageSagL2Count
      || k == P1VoltageSagL3Count
      || k == P1VoltageSwellL1Count
      || k == P1VoltageSwellL2Count
    ensures |ClassName(k)| >= 3 && ClassName(k)[1] == '1' && IsUpper(ClassName(k)[2])
  {
  }

  lemma ClassNameShape3(k: Kind)
    requires k == P1VoltageSwellL3Count
      || k == P1UserMessageNumeric
      || k == P1UserMessageText
      || k == P1CurrentL1
      || k == P1CurrentL2
      || k == P1CurrentL3
      || k == P1VoltageL1
      || k == P1VoltageL2
      || k == P1VoltageL3
    ensures |ClassName(k)| >= 3 && ClassName(k)[1] == '1' && IsUpper(ClassName(k)[2])
  {
  }

  lemma ClassNameShape4(k: Kind)
    requires k == P1ActualPowerConsumingL1
      || k == P1ActualPowerConsumingL2
      || k == P1ActualPowerConsumingL3
      || k == P1ActualPowerProducingL1
      || k == P1ActualPowerProducingL2
      || k == P1ActualPowerProducingL3
      || k == P1DeviceType
      || k == P1GasEquipmentIdentfier
      || k == P1GasConsumed
    ensures |ClassName(k)| >= 3 && ClassName(k)[1] == '1' && IsUpper(ClassName(k)[2])
  {
  }

  lemma SnakeNameShape(name: string)
    requires |name| >= 3 && name[1] == '1' && IsUpper(name[2])
    ensures |SnakeName(name)| >= 3 && SnakeName(name)[2] == '_'
  {
    var t := name[1..];
    assert t[1..][0] == name[2];
    assert SnakeTail(t) == ['1'] + SnakeTail(t[1..]);
    assert SnakeTail(t[1..])[0] == '_';
  }

  /** Every key an object publishes has the shape of object keys. */
  lemma OutputsKeyShape(objs: seq<Obj>)
    requires AllWellFormed(objs)
    ensures forall k | k in MergeAll(Outputs(objs)) :: |k| >= 3 && k[2] == '_'
  {
    var ms := Outputs(objs);
    forall k | k in MergeAll(ms) ensures |k| >= 3 && k[2] == '_' {
      MergeAllKeys(ms, k);
      var j :| 0 <= j < |ms| && k in ms[j];
      assert ms[j] == ObjOutput(objs[j]);
      ObjectKeyShape(objs[j], k);
    }
  }

  /** What `to_mqtt` publishes: it fails exactly when the device id does;
      otherwise the collector's time is always there, and each of the
      telegram's keys is there exactly when the telegram has that
      property. */
  lemma OutputTelegramKeys(objs: seq<Obj>, now: Decimal)
    requires AllWellFormed(objs)
    ensures Output(objs, now).Err? <==> DeviceId(objs).Err?
    ensures Output(objs, now).Ok? ==>
      var out := Output(objs, now).value;
      && out[CollectorKey] == DecVal(now)
      && (TimestampKey in out <==> Timestamp(objs).Some?)
      && (Timestamp(objs).Some? ==> out[TimestampKey] == IntVal(Timestamp(objs).value))
      && (DeviceIdKey in out <==> DeviceId(objs).value.Some?)
      && (DeviceId(objs).value.Some? ==> out[DeviceIdKey] == TextVal(DeviceId(objs).value.value))
      && (ChannelKey in out <==> Channel(objs).Some?)
      && (Channel(objs).Some? ==> out[ChannelKey] == IntVal(Channel(objs).value))
  {
    OutputsKeyShape(objs);
    CompletedMeaning(MergeAll(Outputs(objs)), Timestamp(objs), DeviceId(objs), Channel(objs), now);
  }

  /** Besides the telegram's keys, `to_mqtt` publishes exactly the keys
      the objects publish, each with the value from the last object that
      publishes it. */
  lemma OutputObjectKeys(objs: seq<Obj>, now: Decimal, key: string)
    requires AllWellFormed(objs) && Output(objs, now).Ok?
    requires |key| >= 3 && key[2] == '_'
    ensures key in Output(objs, now).value <==> exists j | 0 <= j < |objs| :: key in Outputs(objs)[j]
    ensures key in Output(objs, now).value ==>
      key in MergeAll(Outputs(objs)) && Output(objs, now).value[key] == MergeAll(Outputs(objs))[key]
  {
    OutputsKeyShape(objs);
    CompletedMeaning(MergeAll(Outputs(objs)), Timestamp(objs), DeviceId(objs), Channel(objs), now);
    MergeAllKeys(Outputs(objs), key);
  }

  /** Later objects' keys overwrite earlier ones. */
  lemma OutputLastWins(objs: seq<Obj>, now: Decimal, key: string, i: nat)
    requires AllWellFormed(objs) && Output(objs, now).Ok?
    requires i < |objs| && key in Outputs(objs)[i] && forall j | i < j < |objs| :: key !in Outputs(objs)[j]
    ensures key in Output(objs, now).value && Output(objs, now).value[key] == Outputs(objs)[i][key]
  {
    assert Outputs(objs)[i] == ObjOutput(objs[i]);
    ObjectKeyShape(objs[i], key);
    MergeAllLast(Outputs(objs), key, i);
    OutputObjectKeys(objs, now, key);
  }
}
