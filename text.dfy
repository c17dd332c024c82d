/** Byte strings, ASCII text and the parts of Python's `int()`, `float()` and
    `str` behaviour that the P1 decoder relies on. */
module Text {

  type byte = b: int | 0 <= b < 256
  type bytes = seq<byte>

  datatype Option<T> = None | Some(value: T)

  /** The Python exception classes the decoder distinguishes: `P1Telegram`
      catches only `ValueError` around one line, everything else escapes. */
  datatype Error = ValueError | IndexError | KeyError | TypeError | AttributeError | RuntimeError

  datatype Result<T> = Ok(value: T) | Err(error: Error)

  // ---------------------------------------------------------------------
  // Characters

  predicate IsDigit(c: char) { '0' <= c <= '9' }

  predicate IsHexDigit(c: char) { '0' <= c <= '9' || 'a' <= c <= 'f' || 'A' <= c <= 'F' }

  predicate IsUpper(c: char) { 'A' <= c <= 'Z' }

  predicate IsAsciiSpace(c: char) { c == ' ' || 9 <= c as int <= 13 }

  function Lower(c: char): (r: char)
    ensures !IsUpper(r)
    ensures IsUpper(c) ==> r as int == c as int + 32
    ensures !IsUpper(c) ==> r == c
  {
    if IsUpper(c) then (c as int + 32) as char else c
  }

  function DigitValue(c: char): (v: nat)
    requires IsHexDigit(c)
    ensures v < 16
    ensures IsDigit(c) ==> v < 10
  {
    if IsDigit(c) then c as int - '0' as int
    else if 'a' <= c <= 'f' then c as int - 'a' as int + 10
    else c as int - 'A' as int + 10
  }

  /** The characters Python's `int()` and `float()` strip from both ends
      (ASCII whitespace and the four ASCII separators \x1c to \x1f). */
  predicate IsPySpace(c: char)
  {
    c == ' ' || 9 <= c as int <= 13 || 0x1c <= c as int <= 0x1f
  }

  function StripLeft(s: string): (r: string)
    ensures |r| <= |s| && r == s[|s| - |r|..]
    ensures r == [] || !IsPySpace(r[0])
  {
    if s != [] && IsPySpace(s[0]) then StripLeft(s[1..]) else s
  }

  function StripRight(s: string): (r: string)
    ensures |r| <= |s| && r == s[..|r|]
    ensures r == [] || !IsPySpace(r[|r| - 1])
  {
    if s != [] && IsPySpace(s[|s| - 1]) then StripRight(s[..|s| - 1]) else s
  }

  function Strip(s: string): string
  {
    StripRight(StripLeft(s))
  }

  /** The upper-case hex digit of value `d`. */
  function HexChar(d: nat): (c: char)
    requires d < 16
    ensures IsHexDigit(c) && DigitValue(c) == d
    ensures d < 10 ==> IsDigit(c)
  {
    if d < 10 then ('0' as int + d) as char else ('A' as int + d - 10) as char
  }

  // ---------------------------------------------------------------------
  // Searching and slicing

  function IndexOf<T(==)>(s: seq<T>, x: T): (r: Option<nat>)
    ensures r.None? <==> x !in s
    ensures r.Some? ==> r.value < |s| && s[r.value] == x && x !in s[..r.value]
  {
    if s == [] then None
    else if s[0] == x then Some(0)
    else match IndexOf(s[1..], x)
      case None => None
      case Some(i) => Some(i + 1)
  }

  /** The first separator is the one right after a separator-free prefix. */
  lemma IndexAfter<T>(x: seq<T>, sep: T, r: seq<T>)
    requires sep !in x
    ensures IndexOf(x + ([sep] + r), sep) == Some(|x|)
  {
    var s := x + ([sep] + r);
    assert s[|x|] == sep;
    assert s[..|x|] == x;
  }

  function LastIndexOf<T(==)>(s: seq<T>, x: T): (r: Option<nat>)
    ensures r.None? <==> x !in s
    ensures r.Some? ==> r.value < |s| && s[r.value] == x && x !in s[r.value + 1..]
  {
    if s == [] then None
    else if s[|s| - 1] == x then Some(|s| - 1)
    else LastIndexOf(s[..|s| - 1], x)
  }

  /** The last occurrence is the one followed by no other. */
  lemma {:induction false} LastIndexAt<T>(x: seq<T>, sep: T, r: seq<T>)
    requires sep !in r
    ensures LastIndexOf(x + ([sep] + r), sep) == Some(|x|)
  {
    var s := x + ([sep] + r);
    if r != [] {
      var r' := r[..|r| - 1];
      assert s[|s| - 1] == r[|r| - 1];
      assert s[..|s| - 1] == x + ([sep] + r');
      LastIndexAt(x, sep, r');
    }
  }

  function Count<T(==)>(s: seq<T>, x: T): (n: nat)
    ensures n <= |s|
    ensures n == 0 <==> x !in s
  {
    if s == [] then 0 else (if s[0] == x then 1 else 0) + Count(s[1..], x)
  }

  /** Counting distributes over concatenation. */
  lemma {:induction false} CountAppend<T>(a: seq<T>, b: seq<T>, x: T)
    ensures Count(a + b, x) == Count(a, x) + Count(b, x)
  {
    if a != [] {
      assert (a + b)[1..] == a[1..] + b;
      CountAppend(a[1..], b, x);
    } else {
      assert a + b == b;
    }
  }

  predicate StartsWith<T(==)>(s: seq<T>, p: seq<T>) { |p| <= |s| && s[..|p|] == p }

  predicate EndsWith<T(==)>(s: seq<T>, p: seq<T>) { |p| <= |s| && s[|s| - |p|..] == p }

  /** Python's `s.split(sep)` for a one-character separator. */
  function Split<T(==)>(s: seq<T>, sep: T): (parts: seq<seq<T>>)
    ensures |parts| == Count(s, sep) + 1
    ensures forall k | 0 <= k < |parts| :: sep !in parts[k]
    ensures |parts[0]| <= |s| && parts[0] == s[..|parts[0]|]
    ensures s != [] && s[0] != sep ==> parts[0] != []
  {
    match IndexOf(s, sep)
    case None => [s]
    case Some(i) =>
      CountSplit(s, sep, i);
      [s[..i]] + Split(s[i + 1..], sep)
  }

  lemma {:induction false} CountSplit<T>(s: seq<T>, x: T, i: nat)
    requires i < |s| && s[i] == x && x !in s[..i]
    ensures Count(s, x) == 1 + Count(s[i + 1..], x)
  {
    if i > 0 {
      assert s[1..][..i - 1] == s[..i][1..];
      CountSplit(s[1..], x, i - 1);
      assert s[1..][i..] == s[i + 1..];
    }
  }

  /** The inverse of Split: the parts with the separator between them. */
  function Join<T>(parts: seq<seq<T>>, sep: T): seq<T>
    requires |parts| > 0
  {
    if |parts| == 1 then parts[0] else parts[0] + [sep] + Join(parts[1..], sep)
  }

  lemma {:induction false} JoinSplit<T>(s: seq<T>, sep: T)
    ensures Join(Split(s, sep), sep) == s
  {
    match IndexOf(s, sep)
    case None =>
    case Some(i) =>
      var rest := Split(s[i + 1..], sep);
      assert Split(s, sep) == [s[..i]] + rest;
      assert Join([s[..i]] + rest, sep) == s[..i] + [sep] + Join(rest, sep);
      JoinSplit(s[i + 1..], sep);
      assert s == s[..i] + [sep] + s[i + 1..];
  }

  /** A Python slice bound: negative values count from the end, and the
      result is clamped to the sequence. */
  function SliceBound(i: int, n: nat): (r: nat)
    ensures r <= n
  {
    if i < 0 then (if n + i < 0 then 0 else n + i) else if i > n then n else i
  }

  /** Python's `s[lo:hi]`. */
  function PySlice<T>(s: seq<T>, lo: int, hi: int): (r: seq<T>)
    ensures |r| <= |s|
    ensures 0 <= lo <= hi <= |s| ==> r == s[lo..hi]
    ensures |s| <= lo || hi <= -|s| ==> r == []
  {
    var a, b := SliceBound(lo, |s|), SliceBound(hi, |s|);
    if a < b then s[a..b] else []
  }

  /** A negative bound counts from the end: it is the same slice as the
      bound plus the length. */
  lemma PySliceFromEnd<T>(s: seq<T>, lo: int, hi: int)
    ensures -|s| <= lo < 0 ==> PySlice(s, lo, hi) == PySlice(s, |s| + lo, hi)
    ensures -|s| <= hi < 0 ==> PySlice(s, lo, hi) == PySlice(s, lo, |s| + hi)
  {
  }

  // ---------------------------------------------------------------------
  // ASCII

  predicate IsAscii(b: bytes) { forall i | 0 <= i < |b| :: b[i] < 128 }

  /** `bytes.decode("ascii")`, defined on ASCII input. */
  function AsciiText(b: bytes): (s: string)
    requires IsAscii(b)
    ensures |s| == |b| && forall i | 0 <= i < |b| :: s[i] as int == b[i]
  {
    seq(|b|, i requires 0 <= i < |b| => b[i] as char)
  }

  predicate IsAsciiText(s: string) { forall i | 0 <= i < |s| :: s[i] as int < 128 }

  /** `str.encode("ascii")`, the inverse of AsciiText. */
  function AsciiBytes(s: string): (b: bytes)
    requires IsAsciiText(s)
    ensures IsAscii(b) && AsciiText(b) == s
  {
    seq(|s|, i requires 0 <= i < |s| => s[i] as int)
  }

  // ---------------------------------------------------------------------
  // Python int(s, base) for base 10 and base 16

  predicate IsDigitIn(c: char, base: nat)
  {
    if base == 16 then IsHexDigit(c) else IsDigit(c)
  }

  /** Digits of the base, with single underscores allowed between digits. */
  predicate IsDigitGroup(s: string, base: nat)
  {
    && |s| > 0
    && IsDigitIn(s[0], base) && IsDigitIn(s[|s| - 1], base)
    && (forall i | 0 <= i < |s| :: IsDigitIn(s[i], base) || s[i] == '_')
    && (forall i, j | 0 <= i < |s| && 0 <= j < |s| && j == i + 1 :: !(s[i] == '_' && s[j] == '_'))
  }

  /** Value of a run of digits and underscores; underscores are skipped
      (any other character, which a digit group never holds, counts 0). */
  function GroupValue(s: string, base: nat): nat
  {
    if s == [] then 0
    else if s[|s| - 1] == '_' then GroupValue(s[..|s| - 1], base)
    else GroupValue(s[..|s| - 1], base) * base + DigitOf(s[|s| - 1], base)
  }

  function DigitOf(c: char, base: nat): nat
  {
    if IsDigitIn(c, base) && IsHexDigit(c) then DigitValue(c) else 0
  }

  /** Python's `int(s, base)`: surrounding whitespace, an optional sign and,
      in base 16, an optional `0x` prefix are accepted; None is the
      ValueError. */
  function ParseInt(s: string, base: nat): (r: Option<int>)
    requires base == 10 || base == 16
    ensures r.Some? ==> Strip(s) != [] && (Strip(s)[0] == '+' || Strip(s)[0] == '-' || IsDigitIn(Strip(s)[0], base))
    ensures r.Some? && r.value < 0 ==> Strip(s)[0] == '-'
  {
    var t := Strip(s);
    var w := Unprefixed(Unsigned(t), base);
    if IsDigitGroup(w, base) then
      var v: int := GroupValue(w, base);
      Some(if |t| > 0 && t[0] == '-' then -v else v)
    else None
  }

  /** The text after an optional leading sign. */
  function Unsigned(t: string): (u: string)
    ensures u == t || (t != [] && u == t[1..])
  {
    if |t| > 0 && (t[0] == '+' || t[0] == '-') then t[1..] else t
  }

  /** In base 16, the text after an optional `0x` prefix (which may be
      followed by one underscore). */
  function Unprefixed(u: string, base: nat): string
  {
    if base == 16 && |u| >= 2 && u[0] == '0' && (u[1] == 'x' || u[1] == 'X')
    then (if |u| >= 3 && u[2] == '_' then u[3..] else u[2..])
    else u
  }

  /** A string with no surrounding whitespace is left alone by strip(). */
  lemma StripNothing(s: string)
    requires s == [] || (!IsPySpace(s[0]) && !IsPySpace(s[|s| - 1]))
    ensures Strip(s) == s
  {
  }

  /** `int()` of a plain group of digits is its value. */
  lemma ParseIntPlain(s: string, base: nat)
    requires base == 10 || base == 16
    requires IsDigitGroup(s, base)
    requires base == 16 ==> !(s[0] == '0' && |s| >= 2 && (s[1] == 'x' || s[1] == 'X'))
    ensures ParseInt(s, base) == Some(GroupValue(s, base))
  {
    PlainUnchanged(s, base);
  }

  /** Stripping, the sign and the prefix leave a plain digit group alone. */
  lemma PlainUnchanged(s: string, base: nat)
    requires IsDigitGroup(s, base)
    requires base == 16 ==> !(s[0] == '0' && |s| >= 2 && (s[1] == 'x' || s[1] == 'X'))
    ensures Unprefixed(Unsigned(Strip(s)), base) == s
  {
    assert IsDigitIn(s[0], base) && IsDigitIn(s[|s| - 1], base);
    StripNothing(s);
  }

  /** The base-16 value of four hex digits. */
  function QuadHex(s: string): nat
    requires |s| == 4 && forall k | 0 <= k < 4 :: IsHexDigit(s[k])
  {
    ((DigitValue(s[0]) * 16 + DigitValue(s[1])) * 16 + DigitValue(s[2])) * 16 + DigitValue(s[3])
  }

  /** `int(s, 16)` of four hex digits is their base-16 value. */
  lemma FourHexDigits(s: string)
    requires |s| == 4 && forall k | 0 <= k < 4 :: IsHexDigit(s[k])
    ensures ParseInt(s, 16) == Some(QuadHex(s))
  {
    FourHexGroup(s);
    ParseIntPlain(s, 16);
  }

  lemma FourHexGroup(s: string)
    requires |s| == 4 && forall k | 0 <= k < 4 :: IsHexDigit(s[k])
    ensures IsDigitGroup(s, 16)
    ensures GroupValue(s, 16) == QuadHex(s)
  {
    assert s[..3][..2] == s[..2] && s[..2][..1] == s[..1] && s[..1][..0] == [];
    assert GroupValue(s[..1], 16) == DigitValue(s[0]);
    assert GroupValue(s[..2], 16) == DigitValue(s[0]) * 16 + DigitValue(s[1]);
    assert GroupValue(s[..3], 16) == (DigitValue(s[0]) * 16 + DigitValue(s[1])) * 16 + DigitValue(s[2]);
  }

  /** `int()` is a ValueError when the first character after the leading
      whitespace is neither a sign nor a digit of the base. */
  lemma ParseIntBadStart(s: string, base: nat, i: nat)
    requires base == 10 || base == 16
    requires i < |s| && (forall k | 0 <= k < i :: IsPySpace(s[k]))
    requires !IsPySpace(s[i]) && s[i] != '+' && s[i] != '-' && !IsDigitIn(s[i], base)
    ensures ParseInt(s, base) == None
  {
    StripLeftAt(s, i);
    StripRightKeepsFirst(s[i..]);
    var t := Strip(s);
    assert Unprefixed(Unsigned(t), base) == t;
  }

  /** `int()` of text that is all whitespace (the empty text included) is a
      ValueError. */
  lemma ParseIntBlank(s: string, base: nat)
    requires base == 10 || base == 16
    requires forall k | 0 <= k < |s| :: IsPySpace(s[k])
    ensures ParseInt(s, base) == None
  {
    StripLeftAt(s, |s|);
    assert Strip(s) == [];
  }

  /** Leading whitespace up to position `i` is what StripLeft removes. */
  lemma {:induction false} StripLeftAt(s: string, i: nat)
    requires i <= |s| && (forall k | 0 <= k < i :: IsPySpace(s[k]))
    requires i < |s| ==> !IsPySpace(s[i])
    ensures StripLeft(s) == s[i..]
  {
    if i > 0 {
      assert s[1..][i - 1..] == s[i..];
      StripLeftAt(s[1..], i - 1);
    }
  }

  /** StripRight keeps a first character that is not whitespace. */
  lemma {:induction false} StripRightKeepsFirst(s: string)
    requires s != [] && !IsPySpace(s[0])
    ensures StripRight(s) != [] && StripRight(s)[0] == s[0]
  {
    if |s| > 1 && IsPySpace(s[|s| - 1]) {
      StripRightKeepsFirst(s[..|s| - 1]);
    }
  }

  /** `int()` of a single character that is neither a digit nor
      whitespace is a ValueError. */
  lemma ParseIntSingleNonDigit(c: char)
    requires !IsPySpace(c) && !IsDigit(c)
    ensures ParseInt([c], 10) == None
  {
    SingleNonDigitRest(c);
  }

  lemma SingleNonDigitRest(c: char)
    requires !IsPySpace(c) && !IsDigit(c)
    ensures !IsDigitGroup(Unprefixed(Unsigned(Strip([c])), 10), 10)
  {
    SingleUnchanged(c);
    SingleUnsigned(c);
  }

  lemma SingleUnchanged(c: char)
    requires !IsPySpace(c)
    ensures Unprefixed(Unsigned(Strip([c])), 10) == Unsigned([c])
  {
    StripNothing([c]);
  }

  lemma SingleUnsigned(c: char)
    requires !IsDigit(c)
    ensures !IsDigitGroup(Unsigned([c]), 10)
  {
    var u := Unsigned([c]);
    assert u == [] || u == [c];
    NoDigitGroup(u, 10);
  }

  lemma NoDigitGroup(s: string, base: nat)
    requires |s| <= 1 && base == 10
    requires s == [] || !IsDigit(s[0])
    ensures !IsDigitGroup(s, base)
  {
  }

  // ---------------------------------------------------------------------
  // Python float(s), restricted to plain decimal notation

  /** A decimal number `mantissa / 10^scale`; floats are kept exact. */
  datatype Decimal = Decimal(mantissa: int, scale: nat)

  function Pow10(n: nat): (p: nat)
    ensures p >= 1
  {
    if n == 0 then 1 else 10 * Pow10(n - 1)
  }

  function ToReal(d: Decimal): real
  {
    d.mantissa as real / Pow10(d.scale) as real
  }

  predicate AllDigits(s: string) { forall i | 0 <= i < |s| :: IsDigit(s[i]) }

  /** Decimal value of a run of digits (a non-digit, which callers rule
      out, counts 0). */
  function DigitsValue(s: string): nat
  {
    if s == [] then 0 else DigitsValue(s[..|s| - 1]) * 10 + DigitOf(s[|s| - 1], 10)
  }

  /** Python's `float(s)` on `[sign] digits [. digits]` (at least one digit),
      with surrounding whitespace; None is the ValueError. */
  function ParseFloat(s: string): (r: Option<Decimal>)
    ensures r.Some? ==> Strip(s) != [] && r.value.scale < |Strip(s)|
    ensures r.Some? && r.value.mantissa < 0 ==> Strip(s)[0] == '-'
  {
    FloatText(Strip(s))
  }

  /** `float()` of text without surrounding whitespace. */
  function FloatText(t: string): (r: Option<Decimal>)
    ensures r.Some? ==> t != [] && r.value.scale < |t|
    ensures r.Some? && r.value.mantissa < 0 ==> t[0] == '-'
  {
    var neg := |t| > 0 && t[0] == '-';
    var u := if |t| > 0 && (t[0] == '+' || t[0] == '-') then t[1..] else t;
    match IndexOf(u, '.')
    case Some(i) => FloatParts(u[..i], u[i + 1..], neg)
    case None => FloatParts(u, [], neg)
  }

  /** The value of a whole part and a fraction, at least one of them
      non-empty and both made of digits. */
  function FloatParts(whole: string, frac: string, neg: bool): (r: Option<Decimal>)
    ensures r.Some? ==> r.value.scale == |frac| && |whole| + |frac| > 0
    ensures r.Some? && r.value.mantissa < 0 ==> neg
  {
    if AllDigits(whole) && AllDigits(frac) && |whole| + |frac| > 0 then
      var m: int := DigitsValue(whole + frac);
      Some(Decimal(if neg then -m else m, |frac|))
    else None
  }

  /** `float()` of `digits` or `digits.digits` is their decimal value:
      the digits read as one number, scaled down by the fraction's length,
      that number being the whole part shifted past the fraction. */
  lemma ParseFloatDecimal(whole: string, frac: string)
    requires whole != [] && AllDigits(whole) && AllDigits(frac)
    ensures ParseFloat(whole) == Some(Decimal(DigitsValue(whole), 0))
    ensures ParseFloat(whole + "." + frac) == Some(Decimal(DigitsValue(whole + frac), |frac|))
    ensures DigitsValue(whole + frac) == DigitsValue(whole) * Pow10(|frac|) + DigitsValue(frac)
  {
    ParseFloatWhole(whole);
    ParseFloatDotted(whole, frac);
    DigitsValueAppend(whole, frac);
  }

  lemma ParseFloatWhole(whole: string)
    requires whole != [] && AllDigits(whole)
    ensures ParseFloat(whole) == Some(Decimal(DigitsValue(whole), 0))
  {
    assert IsDigit(whole[0]) && IsDigit(whole[|whole| - 1]);
    StripNothing(whole);
    NoDot(whole);
    assert whole + [] == whole;
  }

  lemma ParseFloatDotted(whole: string, frac: string)
    requires whole != [] && AllDigits(whole) && AllDigits(frac)
    ensures ParseFloat(whole + "." + frac) == Some(Decimal(DigitsValue(whole + frac), |frac|))
  {
    var s := whole + "." + frac;
    DottedEnds(whole, frac, s);
    StripNothing(s);
    DotAt(whole, frac);
    FloatTextAt(s, |whole|);
  }

  /** `float()` of unsigned text whose first point is at `i`. */
  lemma FloatTextAt(s: string, i: nat)
    requires s != [] && s[0] != '+' && s[0] != '-'
    requires IndexOf(s, '.') == Some(i)
    requires AllDigits(s[..i]) && AllDigits(s[i + 1..]) && |s| > 1
    ensures FloatText(s) == Some(Decimal(DigitsValue(s[..i] + s[i + 1..]), |s| - i - 1))
  {
  }

  /** Text of the form `digits.digits` starts with a digit and ends with a
      digit or the point. */
  lemma DottedEnds(whole: string, frac: string, s: string)
    requires whole != [] && AllDigits(whole) && AllDigits(frac) && s == whole + "." + frac
    ensures IsDigit(s[0]) && (IsDigit(s[|s| - 1]) || s[|s| - 1] == '.')
  {
    assert s[0] == whole[0];
    if frac != [] {
      assert s[|s| - 1] == frac[|frac| - 1];
    }
  }

  lemma NoDot(s: string)
    requires AllDigits(s)
    ensures IndexOf(s, '.') == None
  {
  }

  lemma DotAt(whole: string, frac: string)
    requires AllDigits(whole)
    ensures IndexOf(whole + "." + frac, '.') == Some(|whole|)
    ensures (whole + "." + frac)[..|whole|] == whole && (whole + "." + frac)[|whole| + 1..] == frac
  {
    NoDot(whole);
    IndexAfter(whole, '.', frac);
    assert whole + "." + frac == whole + (['.'] + frac);
  }

  /** The value of two runs of digits written one after the other. */
  lemma {:induction false} DigitsValueAppend(a: string, b: string)
    ensures DigitsValue(a + b) == DigitsValue(a) * Pow10(|b|) + DigitsValue(b)
  {
    if b == [] {
      assert a + b == a;
    } else {
      var b', c := b[..|b| - 1], b[|b| - 1];
      assert a + b == (a + b') + [c] && b == b' + [c];
      DigitsValueSnoc(a + b', c);
      DigitsValueSnoc(b', c);
      DigitsValueAppend(a, b');
      ShiftDigit(DigitsValue(a), Pow10(|b'|), DigitsValue(b'), DigitOf(c, 10));
    }
  }

  lemma DigitsValueSnoc(s: string, c: char)
    ensures DigitsValue(s + [c]) == DigitsValue(s) * 10 + DigitOf(c, 10)
  {
    assert (s + [c])[..|s|] == s;
  }

  lemma ShiftDigit(x: int, p: int, y: int, d: int)
    ensures (x * p + y) * 10 + d == x * (10 * p) + (y * 10 + d)
  {
  }

  // ---------------------------------------------------------------------
  // Python str.splitlines

  /** The characters at which Python's `str.splitlines` ends a line. */
  predicate IsLineBreak(c: char)
  {
    c == '\n' || c == '\r' || c as int in {0x0b, 0x0c, 0x1c, 0x1d, 0x1e, 0x85, 0x2028, 0x2029}
  }

  function FirstBreak(s: string): (r: Option<nat>)
    ensures r.None? <==> forall i | 0 <= i < |s| :: !IsLineBreak(s[i])
    ensures r.Some? ==> r.value < |s| && IsLineBreak(s[r.value])
    ensures r.Some? ==> forall i | 0 <= i < r.value :: !IsLineBreak(s[i])
  {
    if s == [] then None
    else if IsLineBreak(s[0]) then Some(0)
    else match FirstBreak(s[1..])
      case None => None
      case Some(i) => Some(i + 1)
  }

  /** `str.splitlines()`: `\r\n` is one break, a final break opens no
      empty last line, and no line holds a break. */
  function SplitLines(s: string): (lines: seq<string>)
    ensures forall k | 0 <= k < |lines| :: forall i | 0 <= i < |lines[k]| :: !IsLineBreak(lines[k][i])
    decreases |s|
  {
    if s == [] then []
    else match FirstBreak(s)
      case None => [s]
      case Some(i) =>
        var width := if s[i] == '\r' && i + 1 < |s| && s[i + 1] == '\n' then 2 else 1;
        [s[..i]] + SplitLines(s[i + width..])
  }

  /** Lines each closed by `\r\n`, as a meter sends them. */
  function CrLfLines(lines: seq<string>): string
  {
    if lines == [] then [] else lines[0] + "\r\n" + CrLfLines(lines[1..])
  }

  /** Splitting lines closed by `\r\n` gives the lines back. */
  lemma {:induction false} SplitLinesRoundTrip(lines: seq<string>)
    requires forall k | 0 <= k < |lines| :: forall i | 0 <= i < |lines[k]| :: !IsLineBreak(lines[k][i])
    ensures SplitLines(CrLfLines(lines)) == lines
  {
    if lines != [] {
      var l := lines[0];
      var rest := CrLfLines(lines[1..]);
      var s := l + "\r\n" + rest;
      assert s[|l|] == '\r' && s[|l| + 1] == '\n';
      assert forall i | 0 <= i < |l| :: s[i] == l[i];
      BreakAt(s, |l|);
      assert s[..|l|] == l;
      assert s[|l| + 2..] == rest;
      SplitLinesRoundTrip(lines[1..]);
    }
  }

  lemma BreakAt(s: string, n: nat)
    requires n < |s| && IsLineBreak(s[n]) && forall i | 0 <= i < n :: !IsLineBreak(s[i])
    ensures FirstBreak(s) == Some(n)
  {
  }
}
