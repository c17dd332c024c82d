/** The field base shared by every P1 object: splitting a line into its
    OBIS reference, channel and bracketed values, the decoders for octet
    strings, time stamps (TST) and floats with a unit, the conversion of
    time stamps to Unix time, and the rule that turns an object's fields
    into output keys. */
module P1Object {
  import opened Text

  // ---------------------------------------------------------------------
  // Octet strings: bytearray.fromhex

  /** How many ASCII whitespace characters `s` holds; fromhex skips them. */
  function SpaceCount(s: string): (n: nat)
    ensures n <= |s|
  {
    if s == [] then 0 else (if IsAsciiSpace(s[0]) then 1 else 0) + SpaceCount(s[1..])
  }

  /** `bytearray.fromhex(s)`: pairs of hex digits become bytes; whitespace
      between pairs is skipped; anything else, or a pair cut short, is a
      ValueError. Every character is either skipped or half of a byte. */
  function DecodeOctetString(s: string): (r: Result<bytes>)
    ensures r.Ok? ==> 2 * |r.value| + SpaceCount(s) == |s|
  {
    if s == [] then Ok([])
    else if IsAsciiSpace(s[0]) then DecodeOctetString(s[1..])
    else if |s| >= 2 && IsHexDigit(s[0]) && IsHexDigit(s[1]) then
      match DecodeOctetString(s[2..])
      case Ok(rest) =>
        assert s[1..][1..] == s[2..];
        Ok([DigitValue(s[0]) * 16 + DigitValue(s[1])] + rest)
      case Err(e) => Err(e)
    else Err(ValueError)
  }

  /** Two upper-case hex digits per byte, the way meters send octet strings. */
  function HexText(b: bytes): (s: string)
    ensures |s| == 2 * |b|
  {
    if b == [] then [] else [HexChar(b[0] / 16), HexChar(b[0] % 16)] + HexText(b[1..])
  }

  lemma {:induction false} OctetStringRoundTrip(b: bytes)
    ensures DecodeOctetString(HexText(b)) == Ok(b)
  {
    if b != [] {
      OctetStringRoundTrip(b[1..]);
      var s := HexText(b);
      assert s[2..] == HexText(b[1..]);
      assert b == [b[0]] + b[1..];
    }
  }

  /** A string of 2k hex digits (and nothing else) decodes to k bytes; an
      odd number of hex digits is rejected. */
  lemma {:induction false} OctetStringLength(s: string)
    requires forall i | 0 <= i < |s| :: IsHexDigit(s[i])
    ensures DecodeOctetString(s).Ok? <==> |s| % 2 == 0
    ensures DecodeOctetString(s).Ok? ==> |DecodeOctetString(s).value| == |s| / 2
  {
    if |s| >= 2 {
      OctetStringLength(s[2..]);
    }
  }

  // ---------------------------------------------------------------------
  // Time stamps: strptime(s, "%y%m%d%H%M%S") with a fixed zone

  /** A wall-clock reading with its offset from UTC in hours. */
  datatype LocalTime = LocalTime(year: int, month: int, day: int,
                                 hour: int, minute: int, second: int, offset: int)

  /** One character position of a strptime directive's regular expression. */
  datatype CharSet = Between(lo: char, hi: char) | Blank

  predicate InSet(cs: CharSet, c: char)
  {
    match cs
    case Between(lo, hi) => lo <= c <= hi
    case Blank => c == ' '
  }

  const D: CharSet := Between('0', '9')

  /** The alternatives of each directive's regular expression in Python's
      `_strptime`, in the order the regular expression engine tries them:
      %y, %m, %d, %H, %M, %S. */
  const TstFormat: seq<seq<seq<CharSet>>> := [
    [[D, D]],
    [[Between('1', '1'), Between('0', '2')], [Between('0', '0'), Between('1', '9')], [Between('1', '9')]],
    [[Between('3', '3'), Between('0', '1')], [Between('1', '2'), D], [Between('0', '0'), Between('1', '9')],
     [Between('1', '9')], [Blank, Between('1', '9')]],
    [[Between('2', '2'), Between('0', '3')], [Between('0', '1'), D], [D]],
    [[Between('0', '5'), D], [D]],
    [[Between('6', '6'), Between('0', '1')], [Between('0', '5'), D], [D]]
  ]

  predicate AltAt(alt: seq<CharSet>, s: string, pos: nat)
  {
    pos + |alt| <= |s| && forall k | 0 <= k < |alt| :: InSet(alt[k], s[pos + k])
  }

  /** The text of each directive and the end position, as the first match
      a backtracking regular expression engine finds from `pos`. */
  datatype FieldMatch = FieldMatch(texts: seq<string>, end: nat)

  function MatchFields(fields: seq<seq<seq<CharSet>>>, s: string, pos: nat): (r: Option<FieldMatch>)
    requires pos <= |s|
    ensures r.Some? ==> |r.value.texts| == |fields| && pos <= r.value.end <= |s|
    decreases |fields|, 1, 0
  {
    if fields == [] then Some(FieldMatch([], pos)) else MatchAlts(fields[0], fields[1..], s, pos)
  }

  function MatchAlts(alts: seq<seq<CharSet>>, rest: seq<seq<seq<CharSet>>>, s: string, pos: nat): (r: Option<FieldMatch>)
    requires pos <= |s|
    ensures r.Some? ==> |r.value.texts| == |rest| + 1 && pos <= r.value.end <= |s|
    decreases |rest| + 1, 0, |alts|
  {
    if alts == [] then None
    else if AltAt(alts[0], s, pos) && MatchFields(rest, s, pos + |alts[0]|).Some? then
      var m := MatchFields(rest, s, pos + |alts[0]|).value;
      Some(FieldMatch([s[pos..pos + |alts[0]|]] + m.texts, m.end))
    else MatchAlts(alts[1..], rest, s, pos)
  }

  /** `int()` of a directive's text: its digits, a leading blank ignored. */
  function NumValue(t: string): nat
  {
    if t == [] then 0
    else NumValue(t[..|t| - 1]) * 10 + (if IsDigit(t[|t| - 1]) then DigitValue(t[|t| - 1]) else 0)
  }

  predicate IsLeap(y: int) { y % 4 == 0 && (y % 100 != 0 || y % 400 == 0) }

  function DaysInMonth(y: int, m: int): int
  {
    if m == 2 then (if IsLeap(y) then 29 else 28)
    else if m == 4 || m == 6 || m == 9 || m == 11 then 30
    else 31
  }

  /** The calendar fields datetime accepts. */
  predicate ValidTime(t: LocalTime)
  {
    && 1 <= t.month <= 12 && 1 <= t.day <= DaysInMonth(t.year, t.month)
    && 0 <= t.hour < 24 && 0 <= t.minute < 60 && 0 <= t.second < 60
  }

  /** `_decode_p1_tst`: the last character picks the zone (S is UTC+2, W is
      UTC+1, anything else a ValueError), the rest goes through strptime:
      the directives must cover the whole text, a two-digit year below 69
      lies in the 2000s, and the date must exist. */
  function DecodeTst(s: string): (r: Result<LocalTime>)
    ensures !EndsWith(s, "S") && !EndsWith(s, "W") ==> r == Err(ValueError)
    ensures r.Ok? ==> ValidTime(r.value) && r.value.year >= 1900
    ensures r.Ok? ==> r.value.offset == (if s[|s| - 1] == 'S' then 2 else 1)
  {
    if !EndsWith(s, "S") && !EndsWith(s, "W") then Err(ValueError)
    else
      var offset := if s[|s| - 1] == 'S' then 2 else 1;
      var body := s[..|s| - 1];
      match MatchFields(TstFormat, body, 0)
      case None => Err(ValueError)
      case Some(m) =>
        if m.end != |body| then Err(ValueError)
        else
          var yy := NumValue(m.texts[0]);
          var t := LocalTime(if yy <= 68 then 2000 + yy else 1900 + yy,
                             NumValue(m.texts[1]), NumValue(m.texts[2]), NumValue(m.texts[3]),
                             NumValue(m.texts[4]), NumValue(m.texts[5]), offset);
          if ValidTime(t) then Ok(t) else Err(ValueError)
  }

  /** Days from 1970-01-01 to the given date of the proleptic Gregorian
      calendar. */
  function EpochDays(y: int, m: int, d: int): int
    requires y >= 1
  {
    var p := y - 1;
    365 * p + p / 4 - p / 100 + p / 400 + DaysBeforeMonth(y, m) + d - 1 - 719162
  }

  function DaysBeforeMonth(y: int, m: int): int
  {
    if m <= 1 then 0 else DaysBeforeMonth(y, m - 1) + DaysInMonth(y, m - 1)
  }

  /** `_utc_unixtime`: seconds since the epoch of the UTC instant, which is
      the wall-clock reading minus the zone offset. */
  function UnixTime(t: LocalTime): (r: int)
    requires t.year >= 1
    ensures ValidTime(t) ==> 0 <= r + t.offset * 3600 - EpochDays(t.year, t.month, t.day) * 86400 < 86400
  {
    EpochDays(t.year, t.month, t.day) * 86400 + t.hour * 3600 + t.minute * 60 + t.second - t.offset * 3600
  }

  /** A winter (W) reading is one hour later in UTC than the same summer (S)
      reading. */
  lemma ZoneOffsets(t: LocalTime)
    requires t.year >= 1 && t.offset == 2
    ensures UnixTime(t.(offset := 1)) == UnixTime(t) + 3600
  {
  }

  /** The wall-clock reading one day later, at the same time of day: the
      day, then the month, then the year roll over. */
  function NextDay(t: LocalTime): (u: LocalTime)
    requires ValidTime(t)
    ensures ValidTime(u) && u.offset == t.offset
  {
    if t.day < DaysInMonth(t.year, t.month) then t.(day := t.day + 1)
    else if t.month < 12 then t.(month := t.month + 1, day := 1)
    else t.(year := t.year + 1, month := 1, day := 1)
  }

  /** The wall-clock reading one second later. */
  function NextSecond(t: LocalTime): (u: LocalTime)
    requires ValidTime(t)
    ensures ValidTime(u) && u.offset == t.offset
  {
    if t.second < 59 then t.(second := t.second + 1)
    else if t.minute < 59 then t.(minute := t.minute + 1, second := 0)
    else if t.hour < 23 then t.(hour := t.hour + 1, minute := 0, second := 0)
    else NextDay(t).(hour := 0, minute := 0, second := 0)
  }

  /** Midnight of 1970-01-01 in UTC is Unix time 0. */
  lemma EpochStart()
    ensures UnixTime(LocalTime(1970, 1, 1, 0, 0, 0, 0)) == 0
  {
  }

  /** The next day is 86400 seconds later, across month and year ends and
      leap days alike. */
  lemma NextDayTime(t: LocalTime)
    requires t.year >= 1 && ValidTime(t)
    ensures UnixTime(NextDay(t)) == UnixTime(t) + 86400
  {
    if t.day == DaysInMonth(t.year, t.month) && t.month == 12 {
      DaysBeforeDecember(t.year);
      YearLength(t.year);
    }
  }

  /** The next second is one second later: `_utc_unixtime` counts every
      second of the calendar exactly once. */
  lemma NextSecondTime(t: LocalTime)
    requires t.year >= 1 && ValidTime(t)
    ensures UnixTime(NextSecond(t)) == UnixTime(t) + 1
  {
    if t.second == 59 && t.minute == 59 && t.hour == 23 {
      NextDayTime(t);
    }
  }

  lemma DaysBeforeDecember(y: int)
    ensures DaysBeforeMonth(y, 12) == 334 + (if IsLeap(y) then 1 else 0)
  {
    var leap := if IsLeap(y) then 1 else 0;
    assert DaysBeforeMonth(y, 1) == 0;
    assert DaysBeforeMonth(y, 2) == 31;
    assert DaysBeforeMonth(y, 3) == 59 + leap;
    assert DaysBeforeMonth(y, 4) == 90 + leap;
    assert DaysBeforeMonth(y, 5) == 120 + leap;
    assert DaysBeforeMonth(y, 6) == 151 + leap;
    assert DaysBeforeMonth(y, 7) == 181 + leap;
    assert DaysBeforeMonth(y, 8) == 212 + leap;
    assert DaysBeforeMonth(y, 9) == 243 + leap;
    assert DaysBeforeMonth(y, 10) == 273 + leap;
    assert DaysBeforeMonth(y, 11) == 304 + leap;
  }

  /** The days before year `y + 1` exceed those before year `y` by the
      length of year `y`. */
  lemma YearLength(y: int)
    requires y >= 1
    ensures EpochDays(y + 1, 1, 1) == EpochDays(y, 1, 1) + 365 + (if IsLeap(y) then 1 else 0)
  {
    DivStep4(y);
    DivStep100(y);
    DivStep400(y);
  }

  lemma DivStep4(y: int)
    ensures y / 4 - (y - 1) / 4 == if y % 4 == 0 then 1 else 0
  {
  }

  lemma DivStep100(y: int)
    ensures y / 100 - (y - 1) / 100 == if y % 100 == 0 then 1 else 0
  {
  }

  lemma DivStep400(y: int)
    ensures y / 400 - (y - 1) / 400 == if y % 400 == 0 then 1 else 0
    ensures y % 400 == 0 ==> y % 100 == 0 && y % 4 == 0
    ensures y % 100 == 0 ==> y % 4 == 0
  {
  }

  function Digits2(v: nat): (s: string)
    requires v < 100
    ensures |s| == 2 && IsDigit(s[0]) && IsDigit(s[1])
  {
    [HexChar(v / 10), HexChar(v % 10)]
  }

  /** The TST text a meter writes for `t`. */
  function RenderTst(t: LocalTime): (s: string)
    requires 1969 <= t.year <= 2068 && ValidTime(t) && (t.offset == 1 || t.offset == 2)
    ensures |s| == 13
  {
    Digits2(t.year % 100) + Digits2(t.month) + Digits2(t.day) + Digits2(t.hour)
      + Digits2(t.minute) + Digits2(t.second) + (if t.offset == 2 then "S" else "W")
  }

  /** The first `k` alternatives do not match at `pos` and alternative `k`
      does, so the engine takes alternative `k`. */
  lemma {:induction false} PicksAlternative(alts: seq<seq<CharSet>>, rest: seq<seq<seq<CharSet>>>, s: string, pos: nat, k: nat)
    requires pos <= |s| && k < |alts|
    requires forall j | 0 <= j < k :: !AltAt(alts[j], s, pos)
    requires AltAt(alts[k], s, pos) && MatchFields(rest, s, pos + |alts[k]|).Some?
    ensures MatchAlts(alts, rest, s, pos)
         == Some(FieldMatch([s[pos..pos + |alts[k]|]] + MatchFields(rest, s, pos + |alts[k]|).value.texts,
                            MatchFields(rest, s, pos + |alts[k]|).value.end))
  {
    if k > 0 {
      PicksAlternative(alts[1..], rest, s, pos, k - 1);
    }
  }

  lemma NumValue2(v: nat)
    requires v < 100
    ensures NumValue(Digits2(v)) == v
  {
    var s := Digits2(v);
    assert s[0] == HexChar(v / 10) && s[1] == HexChar(v % 10);
    assert s[..1][..0] == [] && s[..|s| - 1] == s[..1];
    assert NumValue(s[..1]) == v / 10;
  }

  /** Whether an alternative of at most two characters matches at `pos`
      depends only on the two characters there. */
  lemma AltAtPair(alt: seq<CharSet>, s: string, pos: nat, hi: char, lo: char)
    requires 1 <= |alt| <= 2 && pos + 2 <= |s| && s[pos..pos + 2] == [hi, lo]
    ensures AltAt(alt, s, pos) <==> InSet(alt[0], hi) && (|alt| == 2 ==> InSet(alt[1], lo))
  {
    assert s[pos] == hi && s[pos + 1] == lo;
  }

  /** Each two-digit field of a rendered time stamp is taken whole by its
      directive: the first alternative that matches is a two-character one. */
  lemma TwoDigitAlternative(f: nat, v: nat, s: string, pos: nat) returns (k: nat)
    requires f < 6 && v < 100 && pos + 2 <= |s| && s[pos..pos + 2] == Digits2(v)
    requires f == 1 ==> 1 <= v <= 12
    requires f == 2 ==> 1 <= v <= 31
    requires f == 3 ==> v < 24
    requires f == 4 || f == 5 ==> v < 60
    ensures k < |TstFormat[f]| && |TstFormat[f][k]| == 2
    ensures AltAt(TstFormat[f][k], s, pos)
    ensures forall j | 0 <= j < k :: !AltAt(TstFormat[f][j], s, pos)
  {
    var hi, lo := HexChar(v / 10), HexChar(v % 10);
    assert hi as int - '0' as int == v / 10 && lo as int - '0' as int == v % 10;
    var alts := TstFormat[f];
    AltAtPair(alts[0], s, pos, hi, lo);
    if f == 0 || f == 4 || (f == 1 && v >= 10) || (f == 2 && v >= 30) || (f == 3 && v >= 20) {
      k := 0;
    } else {
      AltAtPair(alts[1], s, pos, hi, lo);
      if f == 2 && v < 10 {
        AltAtPair(alts[2], s, pos, hi, lo);
        k := 2;
      } else {
        k := 1;
      }
    }
  }

  /** The engine takes two characters for a directive at `pos`: the first
      alternative that matches there is two characters long. */
  predicate TakesTwo(alts: seq<seq<CharSet>>, s: string, pos: nat)
  {
    exists k | 0 <= k < |alts| :: |alts[k]| == 2 && AltAt(alts[k], s, pos) && forall j | 0 <= j < k :: !AltAt(alts[j], s, pos)
  }

  /** When every directive takes two characters, the match covers two
      characters per directive. */
  lemma {:induction false} TwoPerField(fields: seq<seq<seq<CharSet>>>, s: string, pos: nat)
    requires pos + 2 * |fields| <= |s|
    requires forall f | 0 <= f < |fields| :: TakesTwo(fields[f], s, pos + 2 * f)
    ensures var r := MatchFields(fields, s, pos);
      && r.Some? && r.value.end == pos + 2 * |fields|
      && forall i | 0 <= i < |fields| :: r.value.texts[i] == s[pos + 2 * i..pos + 2 * i + 2]
  {
    if fields != [] {
      forall f | 0 <= f < |fields| - 1 ensures TakesTwo(fields[1..][f], s, pos + 2 + 2 * f) {
        assert fields[1..][f] == fields[f + 1];
      }
      TwoPerField(fields[1..], s, pos + 2);
      assert TakesTwo(fields[0], s, pos);
      var k :| 0 <= k < |fields[0]| && |fields[0][k]| == 2 && AltAt(fields[0][k], s, pos)
        && forall j | 0 <= j < k :: !AltAt(fields[0][j], s, pos);
      PicksAlternative(fields[0], fields[1..], s, pos, k);
      PairsPrepended(MatchFields(fields[1..], s, pos + 2).value.texts, s, pos);
    }
  }

  /** The pair at `pos` in front of the pairs from `pos + 2` on. */
  lemma PairsPrepended(texts: seq<string>, s: string, pos: nat)
    requires pos + 2 + 2 * |texts| <= |s|
    requires forall i | 0 <= i < |texts| :: texts[i] == s[pos + 2 + 2 * i..pos + 2 + 2 * i + 2]
    ensures forall i | 0 <= i < |texts| + 1 :: ([s[pos..pos + 2]] + texts)[i] == s[pos + 2 * i..pos + 2 * i + 2]
  {
    forall i | 0 <= i < |texts| + 1 ensures ([s[pos..pos + 2]] + texts)[i] == s[pos + 2 * i..pos + 2 * i + 2] {
      if i > 0 {
        assert ([s[pos..pos + 2]] + texts)[i] == texts[i - 1];
      }
    }
  }

  /** The twelve digits of a rendered time stamp are taken two by two. */
  lemma RenderedMatch(t: LocalTime, vals: seq<nat>)
    requires 1969 <= t.year <= 2068 && ValidTime(t) && (t.offset == 1 || t.offset == 2)
    requires vals == [t.year % 100, t.month, t.day, t.hour, t.minute, t.second]
    ensures var r := MatchFields(TstFormat, RenderTst(t)[..12], 0);
      && r.Some? && r.value.end == 12
      && forall f | 0 <= f < 6 :: NumValue(r.value.texts[f]) == vals[f]
  {
    var body := RenderTst(t)[..12];
    forall f | 0 <= f < 6 ensures TakesTwo(TstFormat[f], body, 2 * f) && NumValue(body[2 * f..2 * f + 2]) == vals[f] {
      assert body[2 * f..2 * f + 2] == Digits2(vals[f]);
      var k := TwoDigitAlternative(f, vals[f], body, 2 * f);
      NumValue2(vals[f]);
    }
    TwoPerField(TstFormat, body, 0);
  }

  /** `_decode_p1_tst` reads back every time stamp a meter can write. */
  lemma TstRoundTrip(t: LocalTime)
    requires 1969 <= t.year <= 2068 && ValidTime(t) && (t.offset == 1 || t.offset == 2)
    ensures DecodeTst(RenderTst(t)) == Ok(t)
  {
    var s := RenderTst(t);
    var vals: seq<nat> := [t.year % 100, t.month, t.day, t.hour, t.minute, t.second];
    RenderedMatch(t, vals);
    RenderedZone(t);
    var m := MatchFields(TstFormat, s[..12], 0).value;
    assert NumValue(m.texts[0]) == vals[0];
    YearWindow(t.year);
  }

  /** The zone letter ends a rendered time stamp. */
  lemma RenderedZone(t: LocalTime)
    requires 1969 <= t.year <= 2068 && ValidTime(t) && (t.offset == 1 || t.offset == 2)
    ensures var s := RenderTst(t);
      && s[12] == (if t.offset == 2 then 'S' else 'W')
      && (EndsWith(s, "S") || EndsWith(s, "W"))
  {
  }

  /** Two-digit years below 69 lie in the 2000s, the rest in the 1900s. */
  lemma YearWindow(year: int)
    requires 1969 <= year <= 2068
    ensures var yy := year % 100; (if yy <= 68 then 2000 + yy else 1900 + yy) == year
  {
  }

  /** The year of a decoded time stamp is read from its first two digits
      through the `%y` window: below 69 in the 2000s, otherwise in the
      1900s, so always from 1969 to 2068. */
  lemma DecodedYear(s: string)
    requires DecodeTst(s).Ok?
    ensures |s| >= 3 && IsDigit(s[0]) && IsDigit(s[1])
    ensures var yy := DigitValue(s[0]) * 10 + DigitValue(s[1]);
      DecodeTst(s).value.year == if yy <= 68 then 2000 + yy else 1900 + yy
    ensures 1969 <= DecodeTst(s).value.year <= 2068
  {
    assert EndsWith(s, "S") || EndsWith(s, "W");
    var body := s[..|s| - 1];
    assert MatchFields(TstFormat, body, 0).Some?;
    var m := MatchFields(TstFormat, body, 0).value;
    var alts := TstFormat[0];
    assert alts == [[D, D]] && alts[1..] == [];
    assert MatchAlts(alts, TstFormat[1..], body, 0) == MatchFields(TstFormat, body, 0);
    assert MatchAlts(alts[1..], TstFormat[1..], body, 0) == None;
    assert AltAt(alts[0], body, 0) && |alts[0]| == 2;
    assert InSet(alts[0][0], body[0]) && InSet(alts[0][1], body[1]);
    var yt := body[0..2];
    assert m.texts[0] == yt;
    assert yt[0] == s[0] && yt[1] == s[1];
    assert yt[..1][..0] == [] && yt[..|yt| - 1] == yt[..1];
    assert NumValue(yt[..1]) == DigitValue(s[0]);
    assert NumValue(yt) == DigitValue(s[0]) * 10 + DigitValue(s[1]);
  }

  /** The gas reading of the first example telegram, 2017-11-05 20:10:00
      winter time, is 19:10:00 UTC. */
  lemma GasReadingExample()
    ensures DecodeTst("171105201000W") == Ok(LocalTime(2017, 11, 5, 20, 10, 0, 1))
    ensures UnixTime(LocalTime(2017, 11, 5, 20, 10, 0, 1)) == 1509909000
  {
    var t := LocalTime(2017, 11, 5, 20, 10, 0, 1);
    TstRoundTrip(t);
    GasReadingText();
  }

  lemma GasReadingText()
    ensures RenderTst(LocalTime(2017, 11, 5, 20, 10, 0, 1)) == "171105201000W"
  {
    assert Digits2(17) == "17" && Digits2(11) == "11" && Digits2(5) == "05";
    assert Digits2(20) == "20" && Digits2(10) == "10" && Digits2(0) == "00";
  }

  // ---------------------------------------------------------------------
  // Floats with a unit

  /** `_decode_p1_unitfloat`: the text splits at `*` into exactly two parts,
      a number and a unit; any other number of parts is a ValueError, and so
      is a number part float() rejects. */
  function DecodeUnitFloat(s: string): (r: Result<(Decimal, string)>)
    ensures Count(s, '*') != 1 ==> r == Err(ValueError)
    ensures r.Ok? ==> '*' !in r.value.1
  {
    var parts := Split(s, '*');
    if |parts| != 2 then Err(ValueError)
    else match ParseFloat(parts[0])
      case None => Err(ValueError)
      case Some(f) => Ok((f, parts[1]))
  }

  /** A number and a unit joined by `*` come apart again. */
  lemma UnitFloatParts(number: string, unit: string)
    requires '*' !in number && '*' !in unit
    ensures DecodeUnitFloat(number + "*" + unit)
         == (match ParseFloat(number) case Some(f) => Ok((f, unit)) case None => Err(ValueError))
  {
    var s := number + "*" + unit;
    assert s[..|number|] == number && s[|number| + 1..] == unit;
    assert IndexOf(s, '*') == Some(|number|) by {
      assert s[|number|] == '*' && s[..|number|] == number;
    }
    assert IndexOf(unit, '*') == None;
    assert s[|number| + 1..] == unit;
    assert Split(s, '*') == [number] + Split(unit, '*') == [number, unit];
  }

  // ---------------------------------------------------------------------
  // P1Object.__init__: reference, channel and values of a line

  datatype Header = Header(reference: string, channel: int, values: seq<string>)

  /** The contents of each `(...)` pair, leftmost first, as
      `re.findall(r"\((.*?)\)", s)` finds them: the shortest run up to a
      `)`, which may not cross a line feed. */
  function FindValues(s: string): (vs: seq<string>)
    ensures forall i | 0 <= i < |vs| :: ')' !in vs[i] && '\n' !in vs[i]
    ensures '(' !in s ==> vs == []
    decreases |s|
  {
    if s == [] then []
    else if s[0] == '(' then
      match IndexOf(s[1..], ')')
      case Some(k) =>
        if '\n' !in s[1..1 + k] then [s[1..1 + k]] + FindValues(s[2 + k..]) else FindValues(s[1..])
      case None => FindValues(s[1..])
    else FindValues(s[1..])
  }

  /** The bracketed form in which a line carries its values. */
  function Bracketed(vs: seq<string>): string
  {
    if vs == [] then [] else "(" + vs[0] + ")" + Bracketed(vs[1..])
  }

  lemma {:induction false} ValuesRoundTrip(vs: seq<string>)
    requires forall i | 0 <= i < |vs| :: ')' !in vs[i] && '\n' !in vs[i]
    ensures FindValues(Bracketed(vs)) == vs
  {
    if vs != [] {
      FirstValue(vs[0], Bracketed(vs[1..]));
      ValuesRoundTrip(vs[1..]);
    }
  }

  /** A leading `(v)` yields `v` and the search goes on after it. */
  lemma FirstValue(v: string, rest: string)
    requires ')' !in v && '\n' !in v
    ensures FindValues("(" + v + ")" + rest) == [v] + FindValues(rest)
  {
    var s := "(" + v + ")" + rest;
    assert s[1..] == v + ")" + rest;
    assert s[1..][|v|] == ')' && s[1..][..|v|] == v;
    assert IndexOf(s[1..], ')') == Some(|v|);
    assert s[1..1 + |v|] == v;
    assert s[2 + |v|..] == rest;
  }

  /** `P1Object.__init__`: the reference is everything before the first
      `(`, the channel is the digit after the first `-` of the reference,
      the values are the bracketed contents of the rest. A line without `(`
      is a ValueError; a reference without a `-`, or ending in it, an
      IndexError; a non-digit there a ValueError. */
  function ParseHeader(line: string): (r: Result<Header>)
    ensures '(' !in line ==> r == Err(ValueError)
    ensures r.Ok? ==> && '(' !in r.value.reference
                      && |r.value.reference| < |line|
                      && line[..|r.value.reference|] == r.value.reference
                      && line[|r.value.reference|] == '('
                      && 0 <= r.value.channel <= 9
  {
    match IndexOf(line, '(')
    case None => Err(ValueError)
    case Some(i) =>
      var reference := line[..i];
      var parts := Split(reference, '-');
      if |parts| < 2 || parts[1] == [] then Err(IndexError)
      else match ParseInt([parts[1][0]], 10)
        case None => Err(ValueError)
        case Some(channel) =>
          ParseDigit(parts[1][0]);
          Ok(Header(reference, channel, FindValues(line[i..])))
  }

  /** `int()` of one character accepts exactly the ASCII digits here. */
  lemma ParseDigit(c: char)
    ensures ParseInt([c], 10) == if IsDigit(c) then Some(DigitValue(c)) else None
  {
    var s := [c];
    if IsPySpace(c) {
      assert StripLeft(s) == StripLeft([]) == [] by { assert s[1..] == []; }
      StripNothing([]);
    } else {
      StripNothing(s);
      if IsDigit(c) {
        assert GroupValue(s, 10) == DigitValue(c) by {
          assert s[..0] == [];
        }
        ParseIntPlain(s, 10);
      } else {
        ParseIntSingleNonDigit(c);
      }
    }
  }

  /** The part after the first `-` starts with the character that follows
      that `-`. */
  lemma SecondPart(before: string, d: char, after: string)
    requires '-' !in before && d != '-'
    ensures var parts := Split(before + "-" + [d] + after, '-');
      |parts| >= 2 && parts[1] != [] && parts[1][0] == d
  {
    var reference := before + "-" + [d] + after;
    assert reference[|before|] == '-' && reference[..|before|] == before;
    assert IndexOf(reference, '-') == Some(|before|);
    assert reference[|before| + 1..] == [d] + after;
  }

  lemma FirstBracket(reference: string, vs: seq<string>)
    requires '(' !in reference && vs != []
    ensures var line := reference + Bracketed(vs);
      && IndexOf(line, '(') == Some(|reference|)
      && line[..|reference|] == reference && line[|reference|..] == Bracketed(vs)
  {
    var line := reference + Bracketed(vs);
    assert line[|reference|] == '(' && line[..|reference|] == reference;
  }

  /** A well-formed line `<reference>(<v1>)...(<vn>)` gives back its
      reference, the digit after its first `-` and its values. */
  lemma HeaderRoundTrip(before: string, d: char, after: string, vs: seq<string>)
    requires '(' !in before && '(' !in after && '-' !in before && IsDigit(d)
    requires vs != []
    requires forall i | 0 <= i < |vs| :: ')' !in vs[i] && '\n' !in vs[i]
    ensures ParseHeader(before + "-" + [d] + after + Bracketed(vs))
         == Ok(Header(before + "-" + [d] + after, DigitValue(d), vs))
  {
    var reference := before + "-" + [d] + after;
    SecondPart(before, d, after);
    ParseDigit(d);
    ValuesRoundTrip(vs);
    FirstBracket(reference, vs);
  }

  // ---------------------------------------------------------------------
  // Output keys: _mqtt_name and to_mqtt

  function UpperCount(s: string): (n: nat)
  {
    if s == [] then 0 else (if IsUpper(s[0]) then 1 else 0) + UpperCount(s[1..])
  }

  function SnakeTail(t: string): (r: string)
    ensures |r| == |t| + UpperCount(t)
    ensures forall i | 0 <= i < |r| :: !IsUpper(r[i])
  {
    if t == [] then [] else (if IsUpper(t[0]) then ['_', Lower(t[0])] else [Lower(t[0])]) + SnakeTail(t[1..])
  }

  /** `_mqtt_name`: an underscore goes in front of every upper-case letter
      except the first character, and then everything is lower-cased. */
  function SnakeName(name: string): (r: string)
    ensures |name| > 0 ==> |r| == |name| + UpperCount(name[1..])
    ensures forall i | 0 <= i < |r| :: !IsUpper(r[i])
  {
    if name == [] then [] else [Lower(name[0])] + SnakeTail(name[1..])
  }

  function Without(s: string, c: char): string
  {
    if s == [] then [] else (if s[0] == c then [] else [s[0]]) + Without(s[1..], c)
  }

  function LowerAll(s: string): string
  {
    if s == [] then [] else [Lower(s[0])] + LowerAll(s[1..])
  }

  lemma {:induction false} SnakeTailUndo(t: string)
    requires '_' !in t
    ensures Without(SnakeTail(t), '_') == LowerAll(t)
  {
    if t != [] {
      SnakeTailUndo(t[1..]);
      var head := if IsUpper(t[0]) then ['_', Lower(t[0])] else [Lower(t[0])];
      WithoutAppend(head, SnakeTail(t[1..]), '_');
    }
  }

  lemma {:induction false} WithoutAppend(a: string, b: string, c: char)
    ensures Without(a + b, c) == Without(a, c) + Without(b, c)
  {
    if a == [] {
      assert a + b == b;
    } else {
      assert (a + b)[0] == a[0] && (a + b)[1..] == a[1..] + b;
      WithoutAppend(a[1..], b, c);
    }
  }

  /** Dropping the inserted underscores gives back the lower-cased class
      name: the snake-casing loses nothing but case. */
  lemma SnakeNameUndo(name: string)
    requires '_' !in name
    ensures Without(SnakeName(name), '_') == LowerAll(name)
  {
    if name != [] {
      SnakeTailUndo(name[1..]);
      WithoutAppend([Lower(name[0])], SnakeTail(name[1..]), '_');
    }
  }

  /** Snake-casing works word by word. */
  lemma {:induction false} SnakeTailAppend(a: string, b: string)
    ensures SnakeTail(a + b) == SnakeTail(a) + SnakeTail(b)
  {
    if a == [] {
      assert a + b == b;
    } else {
      assert (a + b)[0] == a[0] && (a + b)[1..] == a[1..] + b;
      SnakeTailAppend(a[1..], b);
    }
  }

  /** Text without capitals is kept as it is. */
  lemma {:induction false} SnakeTailLower(t: string)
    requires forall i | 0 <= i < |t| :: !IsUpper(t[i])
    ensures SnakeTail(t) == t
  {
    if t != [] {
      SnakeTailLower(t[1..]);
    }
  }

  /** A capitalised word becomes an underscore and the word in lower case. */
  lemma SnakeWord(c: char, rest: string)
    requires IsUpper(c) && forall i | 0 <= i < |rest| :: !IsUpper(rest[i])
    ensures SnakeTail([c] + rest) == ['_', Lower(c)] + rest
  {
    SnakeTailLower(rest);
    assert ([c] + rest)[1..] == rest;
  }

  /** The value of one output field. */
  datatype OutValue = IntVal(i: int) | DecVal(d: Decimal) | TextVal(s: string)

  /** One key per field: the bare name for a single field, `name_field`
      otherwise; a later field of the same name overwrites an earlier one. */
  function FieldKey(name: string, fields: seq<(string, OutValue)>, i: nat): string
    requires i < |fields|
  {
    if |fields| == 1 then SnakeName(name) else SnakeName(name) + "_" + fields[i].0
  }

  function FieldKeys(name: string, fields: seq<(string, OutValue)>): (keys: seq<string>)
    ensures |keys| == |fields|
    ensures |fields| == 1 ==> keys == [SnakeName(name)]
    ensures |fields| != 1 ==> forall i | 0 <= i < |fields| :: keys[i] == SnakeName(name) + "_" + fields[i].0
  {
    seq(|fields|, i requires 0 <= i < |fields| => FieldKey(name, fields, i))
  }

  function FieldValues(fields: seq<(string, OutValue)>): (vals: seq<OutValue>)
    ensures |vals| == |fields|
    ensures forall i | 0 <= i < |fields| :: vals[i] == fields[i].1
  {
    seq(|fields|, i requires 0 <= i < |fields| => fields[i].1)
  }

  /** The dictionary after `d[keys[i]] = vals[i]` for each `i < n` in turn,
      starting from an empty one. */
  function Assigned<K(==), V>(keys: seq<K>, vals: seq<V>, n: nat): map<K, V>
    requires n <= |keys| && n <= |vals|
  {
    if n == 0 then map[] else Assigned(keys, vals, n - 1)[keys[n - 1] := vals[n - 1]]
  }

  /** The dictionary `to_mqtt` builds for an object of class `name` whose
      `_mqtt_fields` and values are `fields`. */
  function ObjectOutput(name: string, fields: seq<(string, OutValue)>): map<string, OutValue>
  {
    Assigned(FieldKeys(name, fields), FieldValues(fields), |fields|)
  }

  /** The keys of the dictionary are exactly the keys assigned. */
  lemma {:induction false} AssignedKeys<K, V>(keys: seq<K>, vals: seq<V>, n: nat)
    requires n <= |keys| && n <= |vals|
    ensures forall k :: k in Assigned(keys, vals, n) <==> k in keys[..n]
  {
    if n > 0 {
      AssignedKeys(keys, vals, n - 1);
      assert keys[..n] == keys[..n - 1] + [keys[n - 1]];
    }
  }

  /** Each key holds the value of its last assignment. */
  lemma {:induction false} AssignedValues<K, V>(keys: seq<K>, vals: seq<V>, n: nat, i: nat)
    requires i < n <= |keys| && n <= |vals|
    requires forall j | i < j < n :: keys[j] != keys[i]
    ensures keys[i] in Assigned(keys, vals, n)
    ensures Assigned(keys, vals, n)[keys[i]] == vals[i]
  {
    if i < n - 1 {
      AssignedValues(keys, vals, n - 1, i);
    }
  }

  /** No fields give an empty dictionary, one field a single key that is
      the snake-cased class name, more fields one key `name_field` each. */
  lemma ObjectOutputShape(name: string, fields: seq<(string, OutValue)>)
    ensures |fields| == 0 ==> ObjectOutput(name, fields) == map[]
    ensures |fields| == 1 ==> ObjectOutput(name, fields) == map[SnakeName(name) := fields[0].1]
    ensures |fields| > 1 ==> forall k :: k in ObjectOutput(name, fields) <==>
                               exists i | 0 <= i < |fields| :: k == SnakeName(name) + "_" + fields[i].0
  {
    var keys, vals := FieldKeys(name, fields), FieldValues(fields);
    AssignedKeys(keys, vals, |fields|);
    assert keys[..|fields|] == keys;
    if |fields| == 1 {
      assert Assigned(keys, vals, 1) == map[][keys[0] := vals[0]];
    } else if |fields| > 1 {
      forall k ensures k in keys <==> exists i | 0 <= i < |fields| :: k == SnakeName(name) + "_" + fields[i].0 {
        if k in keys {
          var i :| 0 <= i < |keys| && keys[i] == k;
          assert k == SnakeName(name) + "_" + fields[i].0;
        }
        if exists i | 0 <= i < |fields| :: k == SnakeName(name) + "_" + fields[i].0 {
          var i :| 0 <= i < |fields| && k == SnakeName(name) + "_" + fields[i].0;
          assert keys[i] == k;
        }
      }
    }
  }

  /** `P1Object.to_mqtt`. */
  method ToMqtt(name: string, fields: seq<(string, OutValue)>) returns (output: map<string, OutValue>)
    ensures output == ObjectOutput(name, fields)
  {
    output := map[];
    if |fields| == 0 {
      return;
    }
    var suffix := |fields| != 1;
    for i := 0 to |fields|
      invariant output == Assigned(FieldKeys(name, fields), FieldValues(fields), i)
    {
      var fieldname := if suffix then SnakeName(name) + "_" + fields[i].0 else SnakeName(name);
      assert fieldname == FieldKeys(name, fields)[i];
      output := output[fieldname := fields[i].1];
    }
  }
}
