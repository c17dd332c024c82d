/** The registry of P1 object kinds: 36 classes, each registered under a
    pattern for its OBIS reference, in a fixed order. A line is given to the
    first kind whose pattern matches at its start and is followed by `(`;
    the kind's family decides how its bracketed values are decoded and
    which output fields it has. */
module Objects {
  import opened Text
  import opened P1Object

  // ---------------------------------------------------------------------
  // The kinds and their registrations

  /** One constructor per registered class, named as the class is (the
      spelling `Identfier` included). */
  datatype Kind =
    | P1Version | P1Timestamp | P1EquipmentIdentfier
    | P1EnergyConsumedTariff1 | P1EnergyConsumedTariff2
    | P1EnergyProducedTariff1 | P1EnergyProducedTariff2
    | P1EnergyTariff | P1ActualPowerConsuming | P1ActualPowerProducing
    | P1PowerFailureCount | P1LongPowerFailureCount | P1LongFailureLog
    | P1VoltageSagL1Count | P1VoltageSagL2Count | P1VoltageSagL3Count
    | P1VoltageSwellL1Count | P1VoltageSwellL2Count | P1VoltageSwellL3Count
    | P1UserMessageNumeric | P1UserMessageText
    | P1CurrentL1 | P1CurrentL2 | P1CurrentL3
    | P1VoltageL1 | P1VoltageL2 | P1VoltageL3
    | P1ActualPowerConsumingL1 | P1ActualPowerConsumingL2 | P1ActualPowerConsumingL3
    | P1ActualPowerProducingL1 | P1ActualPowerProducingL2 | P1ActualPowerProducingL3
    | P1DeviceType | P1GasEquipmentIdentfier | P1GasConsumed

  /** The helper class a kind derives from, which fixes its decoding. */
  datatype Family = OctetString | Tst | Float | UnitFloat | FailureLog | GasConsumed

  /** The helper class each class derives from. */
  function FamilyOf(k: Kind): Family
  {
    match k
    case P1Version => OctetString
    case P1Timestamp => Tst
    case P1EquipmentIdentfier => OctetString
    case P1EnergyConsumedTariff1 => UnitFloat
    case P1EnergyConsumedTariff2 => UnitFloat
    case P1EnergyProducedTariff1 => UnitFloat
    case P1EnergyProducedTariff2 => UnitFloat
    case P1EnergyTariff => OctetString
    case P1ActualPowerConsuming => UnitFloat
    case P1ActualPowerProducing => UnitFloat
    case P1PowerFailureCount => Float
    case P1LongPowerFailureCount => Float
    case P1LongFailureLog => FailureLog
    case P1VoltageSagL1Count => Float
    case P1VoltageSagL2Count => Float
    case P1VoltageSagL3Count => Float
    case P1VoltageSwellL1Count => Float
    case P1VoltageSwellL2Count => Float
    case P1VoltageSwellL3Count => Float
    case P1UserMessageNumeric => OctetString
    case P1UserMessageText => OctetString
    case P1CurrentL1 => UnitFloat
    case P1CurrentL2 => UnitFloat
    case P1CurrentL3 => UnitFloat
    case P1VoltageL1 => UnitFloat
    case P1VoltageL2 => UnitFloat
    case P1VoltageL3 => UnitFloat
    case P1ActualPowerConsumingL1 => UnitFloat
    case P1ActualPowerConsumingL2 => UnitFloat
    case P1ActualPowerConsumingL3 => UnitFloat
    case P1ActualPowerProducingL1 => UnitFloat
    case P1ActualPowerProducingL2 => UnitFloat
    case P1ActualPowerProducingL3 => UnitFloat
    case P1DeviceType => Float
    case P1GasEquipmentIdentfier => OctetString
    case P1GasConsumed => GasConsumed
  }

  /** The class name, from which the output key is derived. */
  function ClassName(k: Kind): string
  {
    match k
    case P1Version => "P1Version"
    case P1Timestamp => "P1Timestamp"
    case P1EquipmentIdentfier => "P1EquipmentIdentfier"
    case P1EnergyConsumedTariff1 => "P1EnergyConsumedTariff1"
    case P1EnergyConsumedTariff2 => "P1EnergyConsumedTariff2"
    case P1EnergyProducedTariff1 => "P1EnergyProducedTariff1"
    case P1EnergyProducedTariff2 => "P1EnergyProducedTariff2"
    case P1EnergyTariff => "P1EnergyTariff"
    case P1ActualPowerConsuming => "P1ActualPowerConsuming"
    case P1ActualPowerProducing => "P1ActualPowerProducing"
    case P1PowerFailureCount => "P1PowerFailureCount"
    case P1LongPowerFailureCount => "P1LongPowerFailureCount"
    case P1LongFailureLog => "P1LongFailureLog"
    case P1VoltageSagL1Count => "P1VoltageSagL1Count"
    case P1VoltageSagL2Count => "P1VoltageSagL2Count"
    case P1VoltageSagL3Count => "P1VoltageSagL3Count"
    case P1VoltageSwellL1Count => "P1VoltageSwellL1Count"
    case P1VoltageSwellL2Count => "P1VoltageSwellL2Count"
    case P1VoltageSwellL3Count => "P1VoltageSwellL3Count"
    case P1UserMessageNumeric => "P1UserMessageNumeric"
    case P1UserMessageText => "P1UserMessageText"
    case P1CurrentL1 => "P1CurrentL1"
    case P1CurrentL2 => "P1CurrentL2"
    case P1CurrentL3 => "P1CurrentL3"
    case P1VoltageL1 => "P1VoltageL1"
    case P1VoltageL2 => "P1VoltageL2"
    case P1VoltageL3 => "P1VoltageL3"
    case P1ActualPowerConsumingL1 => "P1ActualPowerConsumingL1"
    case P1ActualPowerConsumingL2 => "P1ActualPowerConsumingL2"
    case P1ActualPowerConsumingL3 => "P1ActualPowerConsumingL3"
    case P1ActualPowerProducingL1 => "P1ActualPowerProducingL1"
    case P1ActualPowerProducingL2 => "P1ActualPowerProducingL2"
    case P1ActualPowerProducingL3 => "P1ActualPowerProducingL3"
    case P1DeviceType => "P1DeviceType"
    case P1GasEquipmentIdentfier => "P1GasEquipmentIdentfier"
    case P1GasConsumed => "P1GasConsumed"
  }

  /** Classes that set `is_timestamp`: those built on P1TST and the gas
      reading. */
  predicate IsTimestamp(k: Kind)
  {
    FamilyOf(k) == Tst || FamilyOf(k) == GasConsumed
  }

  /** Classes that set `is_device_id`: the two equipment identifiers. */
  predicate IsDeviceId(k: Kind)
  {
    k == P1EquipmentIdentfier || k == P1GasEquipmentIdentfier
  }

  /** The i-th registration, in the order the module registers them. */
  function KindAt(i: nat): Kind
    requires i < 36
  {
    match i
    case 0 => P1Version
    case 1 => P1Timestamp
    case 2 => P1EquipmentIdentfier
    case 3 => P1EnergyConsumedTariff1
    case 4 => P1EnergyConsumedTariff2
    case 5 => P1EnergyProducedTariff1
    case 6 => P1EnergyProducedTariff2
    case 7 => P1EnergyTariff
    case 8 => P1ActualPowerConsuming
    case 9 => P1ActualPowerProducing
    case 10 => P1PowerFailureCount
    case 11 => P1LongPowerFailureCount
    case 12 => P1LongFailureLog
    case 13 => P1VoltageSagL1Count
    case 14 => P1VoltageSagL2Count
    case 15 => P1VoltageSagL3Count
    case 16 => P1VoltageSwellL1Count
    case 17 => P1VoltageSwellL2Count
    case 18 => P1VoltageSwellL3Count
    case 19 => P1UserMessageNumeric
    case 20 => P1UserMessageText
    case 21 => P1CurrentL1
    case 22 => P1CurrentL2
    case 23 => P1CurrentL3
    case 24 => P1VoltageL1
    case 25 => P1VoltageL2
    case 26 => P1VoltageL3
    case 27 => P1ActualPowerConsumingL1
    case 28 => P1ActualPowerConsumingL2
    case 29 => P1ActualPowerConsumingL3
    case 30 => P1ActualPowerProducingL1
    case 31 => P1ActualPowerProducingL2
    case 32 => P1ActualPowerProducingL3
    case 33 => P1DeviceType
    case 34 => P1GasEquipmentIdentfier
    case _ => P1GasConsumed
  }

  /** The position of a kind in the registration order. */
  function KindIndex(k: Kind): (i: nat)
    ensures i < 36 && KindAt(i) == k
  {
    match k
    case P1Version => 0
    case P1Timestamp => 1
    case P1EquipmentIdentfier => 2
    case P1EnergyConsumedTariff1 => 3
    case P1EnergyConsumedTariff2 => 4
    case P1EnergyProducedTariff1 => 5
    case P1EnergyProducedTariff2 => 6
    case P1EnergyTariff => 7
    case P1ActualPowerConsuming => 8
    case P1ActualPowerProducing => 9
    case P1PowerFailureCount => 10
    case P1LongPowerFailureCount => 11
    case P1LongFailureLog => 12
    case P1VoltageSagL1Count => 13
    case P1VoltageSagL2Count => 14
    case P1VoltageSagL3Count => 15
    case P1VoltageSwellL1Count => 16
    case P1VoltageSwellL2Count => 17
    case P1VoltageSwellL3Count => 18
    case P1UserMessageNumeric => 19
    case P1UserMessageText => 20
    case P1CurrentL1 => 21
    case P1CurrentL2 => 22
    case P1CurrentL3 => 23
    case P1VoltageL1 => 24
    case P1VoltageL2 => 25
    case P1VoltageL3 => 26
    case P1ActualPowerConsumingL1 => 27
    case P1ActualPowerConsumingL2 => 28
    case P1ActualPowerConsumingL3 => 29
    case P1ActualPowerProducingL1 => 30
    case P1ActualPowerProducingL2 => 31
    case P1ActualPowerProducingL3 => 32
    case P1DeviceType => 33
    case P1GasEquipmentIdentfier => 34
    case P1GasConsumed => 35
  }

  /** No kind is registered twice: the registration at position i has
      index i. */
  lemma RegisteredOnce(i: nat)
    requires i < 36
    ensures KindIndex(KindAt(i)) == i
  {
  }

  // ---------------------------------------------------------------------
  // Reference patterns: OBIS codes A-B:C.D.E with `\d` for any channel

  /** Value group B of a registered reference: a fixed channel digit, or
      `\d` for any channel. */
  datatype Channel = Fixed(n: nat) | Any

  /** The value groups of a reference pattern. */
  datatype Obis = Obis(a: nat, b: Channel, c: nat, d: nat, e: nat)

  /** The reference each class is registered under. */
  function ObisOf(k: Kind): Obis
  {
    match k
    case P1Version => Obis(1, Fixed(3), 0, 2, 8)
    case P1Timestamp => Obis(0, Fixed(0), 1, 0, 0)
    case P1EquipmentIdentfier => Obis(0, Fixed(0), 96, 1, 1)
    case P1EnergyConsumedTariff1 => Obis(1, Fixed(0), 1, 8, 1)
    case P1EnergyConsumedTariff2 => Obis(1, Fixed(0), 1, 8, 2)
    case P1EnergyProducedTariff1 => Obis(1, Fixed(0), 2, 8, 1)
    case P1EnergyProducedTariff2 => Obis(1, Fixed(0), 2, 8, 2)
    case P1EnergyTariff => Obis(0, Fixed(0), 96, 14, 0)
    case P1ActualPowerConsuming => Obis(1, Fixed(0), 1, 7, 0)
    case P1ActualPowerProducing => Obis(1, Fixed(0), 2, 7, 0)
    case P1PowerFailureCount => Obis(0, Fixed(0), 96, 7, 21)
    case P1LongPowerFailureCount => Obis(0, Fixed(0), 96, 7, 9)
    case P1LongFailureLog => Obis(1, Fixed(0), 99, 97, 0)
    case P1VoltageSagL1Count => Obis(1, Fixed(0), 32, 32, 0)
    case P1VoltageSagL2Count => Obis(1, Fixed(0), 52, 32, 0)
    case P1VoltageSagL3Count => Obis(1, Fixed(0), 72, 32, 0)
    case P1VoltageSwellL1Count => Obis(1, Fixed(0), 32, 36, 0)
    case P1VoltageSwellL2Count => Obis(1, Fixed(0), 52, 36, 0)
    case P1VoltageSwellL3Count => Obis(1, Fixed(0), 72, 36, 0)
    case P1UserMessageNumeric => Obis(0, Fixed(0), 96, 13, 1)
    case P1UserMessageText => Obis(0, Fixed(0), 96, 13, 0)
    case P1CurrentL1 => Obis(1, Fixed(0), 31, 7, 0)
    case P1CurrentL2 => Obis(1, Fixed(0), 51, 7, 0)
    case P1CurrentL3 => Obis(1, Fixed(0), 71, 7, 0)
    case P1VoltageL1 => Obis(1, Fixed(0), 32, 7, 0)
    case P1VoltageL2 => Obis(1, Fixed(0), 52, 7, 0)
    case P1VoltageL3 => Obis(1, Fixed(0), 72, 7, 0)
    case P1ActualPowerConsumingL1 => Obis(1, Fixed(0), 21, 7, 0)
    case P1ActualPowerConsumingL2 => Obis(1, Fixed(0), 41, 7, 0)
    case P1ActualPowerConsumingL3 => Obis(1, Fixed(0), 61, 7, 0)
    case P1ActualPowerProducingL1 => Obis(1, Fixed(0), 22, 7, 0)
    case P1ActualPowerProducingL2 => Obis(1, Fixed(0), 42, 7, 0)
    case P1ActualPowerProducingL3 => Obis(1, Fixed(0), 62, 7, 0)
    case P1DeviceType => Obis(0, Any, 24, 1, 0)
    case P1GasEquipmentIdentfier => Obis(0, Any, 96, 1, 0)
    case P1GasConsumed => Obis(0, Any, 24, 2, 1)
  }

  /** Which kind is registered under a reference, if any. */
  function ObisKind(o: Obis): Option<Kind>
  {
    match o
    case Obis(1, Fixed(3), 0, 2, 8) => Some(P1Version)
    case Obis(0, Fixed(0), 1, 0, 0) => Some(P1Timestamp)
    case Obis(0, Fixed(0), 96, 1, 1) => Some(P1EquipmentIdentfier)
    case Obis(1, Fixed(0), 1, 8, 1) => Some(P1EnergyConsumedTariff1)
    case Obis(1, Fixed(0), 1, 8, 2) => Some(P1EnergyConsumedTariff2)
    case Obis(1, Fixed(0), 2, 8, 1) => Some(P1EnergyProducedTariff1)
    case Obis(1, Fixed(0), 2, 8, 2) => Some(P1EnergyProducedTariff2)
    case Obis(0, Fixed(0), 96, 14, 0) => Some(P1EnergyTariff)
    case Obis(1, Fixed(0), 1, 7, 0) => Some(P1ActualPowerConsuming)
    case Obis(1, Fixed(0), 2, 7, 0) => Some(P1ActualPowerProducing)
    case Obis(0, Fixed(0), 96, 7, 21) => Some(P1PowerFailureCount)
    case Obis(0, Fixed(0), 96, 7, 9) => Some(P1LongPowerFailureCount)
    case Obis(1, Fixed(0), 99, 97, 0) => Some(P1LongFailureLog)
    case Obis(1, Fixed(0), 32, 32, 0) => Some(P1VoltageSagL1Count)
    case Obis(1, Fixed(0), 52, 32, 0) => Some(P1VoltageSagL2Count)
    case Obis(1, Fixed(0), 72, 32, 0) => Some(P1VoltageSagL3Count)
    case Obis(1, Fixed(0), 32, 36, 0) => Some(P1VoltageSwellL1Count)
    case Obis(1, Fixed(0), 52, 36, 0) => Some(P1VoltageSwellL2Count)
    case Obis(1, Fixed(0), 72, 36, 0) => Some(P1VoltageSwellL3Count)
    case Obis(0, Fixed(0), 96, 13, 1) => Some(P1UserMessageNumeric)
    case Obis(0, Fixed(0), 96, 13, 0) => Some(P1UserMessageText)
    case Obis(1, Fixed(0), 31, 7, 0) => Some(P1CurrentL1)
    case Obis(1, Fixed(0), 51, 7, 0) => Some(P1CurrentL2)
    case Obis(1, Fixed(0), 71, 7, 0) => Some(P1CurrentL3)
    case Obis(1, Fixed(0), 32, 7, 0) => Some(P1VoltageL1)
    case Obis(1, Fixed(0), 52, 7, 0) => Some(P1VoltageL2)
    case Obis(1, Fixed(0), 72, 7, 0) => Some(P1VoltageL3)
    case Obis(1, Fixed(0), 21, 7, 0) => Some(P1ActualPowerConsumingL1)
    case Obis(1, Fixed(0), 41, 7, 0) => Some(P1ActualPowerConsumingL2)
    case Obis(1, Fixed(0), 61, 7, 0) => Some(P1ActualPowerConsumingL3)
    case Obis(1, Fixed(0), 22, 7, 0) => Some(P1ActualPowerProducingL1)
    case Obis(1, Fixed(0), 42, 7, 0) => Some(P1ActualPowerProducingL2)
    case Obis(1, Fixed(0), 62, 7, 0) => Some(P1ActualPowerProducingL3)
    case Obis(0, Any, 24, 1, 0) => Some(P1DeviceType)
    case Obis(0, Any, 96, 1, 0) => Some(P1GasEquipmentIdentfier)
    case Obis(0, Any, 24, 2, 1) => Some(P1GasConsumed)
    case _ => None
  }

  /** Distinct classes are registered under distinct references. */
  lemma ObisKindInverse(k: Kind)
    ensures ObisKind(ObisOf(k)) == Some(k)
  {
  }

  /** Decimal digits of `n`, without leading zeros. */
  function NatText(n: nat): (s: string)
    ensures |s| >= 1 && AllDigits(s)
    ensures n < 10 ==> |s| == 1
  {
    if n < 10 then [HexChar(n)] else NatText(n / 10) + [HexChar(n % 10)]
  }

  lemma {:induction false} NatTextValue(n: nat)
    ensures DigitsValue(NatText(n)) == n
  {
    if n >= 10 {
      NatTextValue(n / 10);
      var s := NatText(n);
      assert s[..|s| - 1] == NatText(n / 10);
    }
  }

  function ChannelText(b: Channel): string
  {
    match b
    case Fixed(n) => NatText(n)
    case Any => "\\d"
  }

  /** The regular expression text of a reference: `A-B:C\.D\.E`. */
  function Render(o: Obis): string
  {
    NatText(o.a) + ("-" + (ChannelText(o.b) + (":" + (NatText(o.c) + ("\\." + (NatText(o.d) + ("\\." + NatText(o.e))))))))
  }

  /** The regular expression a kind is registered under. */
  function Pattern(k: Kind): string
  {
    Render(ObisOf(k))
  }

  /** Cutting two sequences at the first separator. */
  lemma CutAt<T>(x: seq<T>, y: seq<T>, sep: T, r1: seq<T>, r2: seq<T>)
    requires sep !in x && sep !in y && x + ([sep] + r1) == y + ([sep] + r2)
    ensures x == y && r1 == r2
  {
    IndexAfter(x, sep, r1);
    IndexAfter(y, sep, r2);
    var s := x + ([sep] + r1);
    assert x == s[..|x|] && y == s[..|y|];
    assert r1 == s[|x| + 1..] && r2 == s[|y| + 1..];
  }

  lemma NatTextInjective(n: nat, m: nat)
    requires NatText(n) == NatText(m)
    ensures n == m
  {
    NatTextValue(n);
    NatTextValue(m);
  }

  lemma NoSeparators(s: string)
    requires AllDigits(s)
    ensures '-' !in s && ':' !in s && '\\' !in s
  {
  }

  /** Different references give different patterns. */
  lemma {:induction false} RenderInjective(o1: Obis, o2: Obis)
    requires Render(o1) == Render(o2)
    ensures o1 == o2
  {
    var a1, a2 := NatText(o1.a), NatText(o2.a);
    var c1, c2 := NatText(o1.c), NatText(o2.c);
    var d1, d2 := NatText(o1.d), NatText(o2.d);
    var e1, e2 := NatText(o1.e), NatText(o2.e);
    var b1, b2 := ChannelText(o1.b), ChannelText(o2.b);
    NoSeparators(a1); NoSeparators(a2); NoSeparators(c1); NoSeparators(c2);
    NoSeparators(d1); NoSeparators(d2);
    var t1 := d1 + ("\\." + e1);
    var t2 := d2 + ("\\." + e2);
    var u1 := c1 + ("\\." + t1);
    var u2 := c2 + ("\\." + t2);
    var v1 := b1 + (":" + u1);
    var v2 := b2 + (":" + u2);
    CutAt(a1, a2, '-', v1, v2);
    NatTextInjective(o1.a, o2.a);
    assert ':' !in b1 && ':' !in b2 by {
      if o1.b.Fixed? { NoSeparators(b1); }
      if o2.b.Fixed? { NoSeparators(b2); }
    }
    CutAt(b1, b2, ':', u1, u2);
    ChannelTextInjective(o1.b, o2.b);
    assert "\\." + t1 == ['\\'] + ("." + t1) && "\\." + t2 == ['\\'] + ("." + t2);
    CutAt(c1, c2, '\\', "." + t1, "." + t2);
    NatTextInjective(o1.c, o2.c);
    assert t1 == ("." + t1)[1..] && t2 == ("." + t2)[1..];
    assert "\\." + e1 == ['\\'] + ("." + e1) && "\\." + e2 == ['\\'] + ("." + e2);
    CutAt(d1, d2, '\\', "." + e1, "." + e2);
    NatTextInjective(o1.d, o2.d);
    assert e1 == ("." + e1)[1..] && e2 == ("." + e2)[1..];
    NatTextInjective(o1.e, o2.e);
  }

  lemma FixedNotAny(n: nat)
    ensures NatText(n) != "\\d"
  {
    NoSeparators(NatText(n));
    assert "\\d"[0] == '\\';
  }

  lemma ChannelTextInjective(b1: Channel, b2: Channel)
    requires ChannelText(b1) == ChannelText(b2)
    ensures b1 == b2
  {
    match b1
    case Fixed(n) =>
      FixedNotAny(n);
      if b2.Fixed? {
        NatTextInjective(n, b2.n);
      }
    case Any =>
      if b2.Fixed? {
        FixedNotAny(b2.n);
      }
  }

  /** Distinct kinds are registered under distinct patterns. */
  lemma PatternsDiffer(k: Kind, l: Kind)
    requires k != l
    ensures Pattern(k) != Pattern(l)
  {
    if Pattern(k) == Pattern(l) {
      RenderInjective(ObisOf(k), ObisOf(l));
      ObisKindInverse(k);
      ObisKindInverse(l);
    }
  }

  // ---------------------------------------------------------------------
  // Patterns: literal characters, escaped dots and \d

  datatype PatElem = Lit(c: char) | Digit

  predicate IsMeta(c: char)
  {
    c in ".^$*+?{}[]\\|()"
  }

  /** Whether a pattern stays inside the language of literal characters,
      `\.` and `\d`. */
  predicate Restricted(p: string)
  {
    if p == [] then true
    else if p[0] == '\\' then |p| >= 2 && (p[1] == '.' || p[1] == 'd') && Restricted(p[2..])
    else !IsMeta(p[0]) && Restricted(p[1..])
  }

  function Compile(p: string): (ps: seq<PatElem>)
    ensures |ps| <= |p|
  {
    if p == [] then []
    else if p[0] == '\\' && |p| >= 2 then Escaped(p[1]) + Compile(p[2..])
    else [Lit(p[0])] + Compile(p[1..])
  }

  /** `\d` is any digit; a backslash before anything else escapes it. */
  function Escaped(c: char): seq<PatElem>
  {
    if c == 'd' then [Digit] else [Lit(c)]
  }

  predicate ElemMatches(e: PatElem, c: char)
  {
    match e
    case Lit(x) => c == x
    case Digit => IsDigit(c)
  }

  /** `re.match("^" + pattern + "\\(", line)`. */
  predicate Matches(ps: seq<PatElem>, line: string)
  {
    |ps| < |line| && line[|ps|] == '(' && forall i | 0 <= i < |ps| :: ElemMatches(ps[i], line[i])
  }

  /** Compiling distributes over concatenation once the first part has no
      dangling backslash. */
  lemma {:induction false} CompileAppend(p: string, q: string)
    requires Restricted(p)
    ensures Compile(p + q) == Compile(p) + Compile(q)
  {
    if p == [] {
      assert p + q == q;
    } else if p[0] == '\\' {
      EscapeStep(p, q);
      CompileAppend(p[2..], q);
      assert Escaped(p[1]) + (Compile(p[2..]) + Compile(q)) == (Escaped(p[1]) + Compile(p[2..])) + Compile(q);
    } else {
      LiteralStep(p, q);
      CompileAppend(p[1..], q);
      assert [Lit(p[0])] + (Compile(p[1..]) + Compile(q)) == ([Lit(p[0])] + Compile(p[1..])) + Compile(q);
    }
  }

  lemma EscapeStep(p: string, q: string)
    requires |p| >= 2 && p[0] == '\\'
    ensures Compile(p) == Escaped(p[1]) + Compile(p[2..])
    ensures Compile(p + q) == Escaped(p[1]) + Compile(p[2..] + q)
  {
    var pq := p + q;
    assert pq[0] == '\\' && pq[1] == p[1] && pq[2..] == p[2..] + q;
  }

  lemma LiteralStep(p: string, q: string)
    requires |p| >= 1 && p[0] != '\\'
    ensures Compile(p) == [Lit(p[0])] + Compile(p[1..])
    ensures Compile(p + q) == [Lit(p[0])] + Compile(p[1..] + q)
  {
    var pq := p + q;
    assert pq[0] == p[0] && pq[1..] == p[1..] + q;
  }

  lemma {:induction false} RestrictedAppend(p: string, q: string)
    requires Restricted(p) && Restricted(q)
    ensures Restricted(p + q)
  {
    if p == [] {
      assert p + q == q;
    } else if p[0] == '\\' {
      var pq := p + q;
      assert pq[..2] == p[..2] && pq[2..] == p[2..] + q;
      RestrictedAppend(p[2..], q);
    } else {
      var pq := p + q;
      assert pq[0] == p[0] && pq[1..] == p[1..] + q;
      RestrictedAppend(p[1..], q);
    }
  }

  /** A pattern element that can stand in a reference: a digit, `\d`, or
      one of the separators. */
  predicate ObisElem(e: PatElem)
  {
    e == Digit || (e.Lit? && (IsDigit(e.c) || e.c == '-' || e.c == ':' || e.c == '.'))
  }

  lemma {:induction false} CompileDigits(s: string)
    requires AllDigits(s)
    ensures Restricted(s) && |Compile(s)| == |s|
    ensures forall i | 0 <= i < |s| :: Compile(s)[i] == Lit(s[i])
  {
    if s != [] {
      CompileDigits(s[1..]);
    }
  }

  lemma SeparatorsCompile()
    ensures Restricted("-") && Compile("-") == [Lit('-')]
    ensures Restricted(":") && Compile(":") == [Lit(':')]
    ensures Restricted("\\.") && Compile("\\.") == [Lit('.')]
    ensures Restricted("\\d") && Compile("\\d") == [Digit]
  {
  }

  predicate AllObisElems(ps: seq<PatElem>)
  {
    forall i | 0 <= i < |ps| :: ObisElem(ps[i])
  }

  /** Joining two restricted patterns with a one-element separator. */
  lemma SeparatorAppend(p: string, sep: string, e: PatElem, q: string)
    requires Restricted(p) && Restricted(q) && Restricted(sep) && Compile(sep) == [e]
    ensures Restricted(p + (sep + q)) && Compile(p + (sep + q)) == Compile(p) + ([e] + Compile(q))
  {
    RestrictedAppend(sep, q);
    RestrictedAppend(p, sep + q);
    CompileAppend(sep, q);
    CompileAppend(p, sep + q);
  }

  lemma ObisElemsJoin(p: seq<PatElem>, e: PatElem, q: seq<PatElem>)
    requires AllObisElems(p) && ObisElem(e) && AllObisElems(q)
    ensures AllObisElems(p + ([e] + q))
  {
  }

  lemma NatCompiles(n: nat)
    ensures Restricted(NatText(n)) && |Compile(NatText(n))| >= 1 && AllObisElems(Compile(NatText(n)))
    ensures n < 10 ==> |Compile(NatText(n))| == 1
    ensures Compile(NatText(n))[0].Lit? && IsDigit(Compile(NatText(n))[0].c)
  {
    CompileDigits(NatText(n));
  }

  /** The part after the colon, `C\.D\.E`. */
  function Tail(o: Obis): string
  {
    NatText(o.c) + ("\\." + (NatText(o.d) + ("\\." + NatText(o.e))))
  }

  lemma TailCompiles(o: Obis)
    ensures Restricted(Tail(o)) && AllObisElems(Compile(Tail(o)))
  {
    SeparatorsCompile();
    NatCompiles(o.c);
    NatCompiles(o.d);
    NatCompiles(o.e);
    var t := NatText(o.d) + ("\\." + NatText(o.e));
    SeparatorAppend(NatText(o.d), "\\.", Lit('.'), NatText(o.e));
    ObisElemsJoin(Compile(NatText(o.d)), Lit('.'), Compile(NatText(o.e)));
    SeparatorAppend(NatText(o.c), "\\.", Lit('.'), t);
    ObisElemsJoin(Compile(NatText(o.c)), Lit('.'), Compile(t));
  }

  lemma ChannelCompiles(b: Channel)
    requires b.Fixed? ==> b.n < 10
    ensures Restricted(ChannelText(b)) && |Compile(ChannelText(b))| == 1 && AllObisElems(Compile(ChannelText(b)))
    ensures Compile(ChannelText(b))[0] == Digit || (Compile(ChannelText(b))[0].Lit? && IsDigit(Compile(ChannelText(b))[0].c))
  {
    if b.Fixed? {
      NatCompiles(b.n);
    } else {
      SeparatorsCompile();
    }
  }

  /** A pattern rendered from value groups A < 10 and a single-digit B is
      in the restricted language, and compiles to a digit, a dash, the
      channel element and then only digits and separators. */
  lemma RenderCompiles(o: Obis)
    requires o.a < 10 && (o.b.Fixed? ==> o.b.n < 10)
    ensures Restricted(Render(o))
    ensures |Compile(Render(o))| >= 3 && AllObisElems(Compile(Render(o)))
    ensures Compile(Render(o))[0].Lit? && IsDigit(Compile(Render(o))[0].c) && Compile(Render(o))[1] == Lit('-')
    ensures Compile(Render(o))[2] == Digit || (Compile(Render(o))[2].Lit? && IsDigit(Compile(Render(o))[2].c))
  {
    SeparatorsCompile();
    NatCompiles(o.a);
    ChannelCompiles(o.b);
    TailCompiles(o);
    var v := ChannelText(o.b) + (":" + Tail(o));
    SeparatorAppend(ChannelText(o.b), ":", Lit(':'), Tail(o));
    ObisElemsJoin(Compile(ChannelText(o.b)), Lit(':'), Compile(Tail(o)));
    assert Render(o) == NatText(o.a) + ("-" + v);
    SeparatorAppend(NatText(o.a), "-", Lit('-'), v);
    ObisElemsJoin(Compile(NatText(o.a)), Lit('-'), Compile(v));
    var ps := Compile(Render(o));
    assert ps == Compile(NatText(o.a)) + ([Lit('-')] + Compile(v));
    assert ps[2] == Compile(v)[0] == Compile(ChannelText(o.b))[0];
  }

  /** Every registered pattern is in the restricted language and has the
      shape of an OBIS reference. */
  lemma AllPatternsRestricted(k: Kind)
    ensures Restricted(Pattern(k))
    ensures |Compiled(k)| >= 3 && AllObisElems(Compiled(k))
    ensures Compiled(k)[0].Lit? && IsDigit(Compiled(k)[0].c) && Compiled(k)[1] == Lit('-')
    ensures Compiled(k)[2] == Digit || (Compiled(k)[2].Lit? && IsDigit(Compiled(k)[2].c))
  {
    RenderCompiles(ObisOf(k));
  }

  function Compiled(k: Kind): seq<PatElem>
  {
    Compile(Pattern(k))
  }

  // ---------------------------------------------------------------------
  // The registry: P1CLASSES and register_p1

  /** The registration order as (reference, kind) entries. */
  function Table(): (t: seq<(string, Kind)>)
    ensures |t| == 36
    ensures forall i | 0 <= i < 36 :: t[i] == (Pattern(KindAt(i)), KindAt(i))
  {
    seq(36, i requires 0 <= i < 36 => (Pattern(KindAt(i)), KindAt(i)))
  }

  predicate DistinctReferences(entries: seq<(string, Kind)>)
  {
    forall i, j | 0 <= i < j < |entries| :: entries[i].0 != entries[j].0
  }

  function References(entries: seq<(string, Kind)>): (refs: seq<string>)
    ensures |refs| == |entries| && forall i | 0 <= i < |entries| :: refs[i] == entries[i].0
  {
    seq(|entries|, i requires 0 <= i < |entries| => entries[i].0)
  }

  /** No two registrations share a reference, so loading the module raises
      no KeyError. */
  lemma TableDistinct()
    ensures DistinctReferences(Table())
  {
    forall i, j | 0 <= i < j < 36 ensures Table()[i].0 != Table()[j].0 {
      RegisteredOnce(i);
      RegisteredOnce(j);
      PatternsDiffer(KindAt(i), KindAt(j));
    }
  }

  /** `P1CLASSES`, an insertion-ordered dictionary from reference to class. */
  class Registry {
    var entries: seq<(string, Kind)>

    ghost predicate Valid()
      reads this
    {
      DistinctReferences(entries)
    }

    constructor()
      ensures entries == [] && Valid()
    {
      entries := [];
    }

    /** `register_p1(reference)` applied to the class of `kind`: a
        reference already present is a KeyError and changes nothing;
        otherwise the entry goes after all existing ones. */
    method Register(reference: string, kind: Kind) returns (err: Option<Error>)
      requires Valid()
      modifies this
      ensures Valid()
      ensures reference in References(old(entries)) ==> err == Some(KeyError) && entries == old(entries)
      ensures reference !in References(old(entries)) ==> err == None && entries == old(entries) + [(reference, kind)]
    {
      var i := 0;
      while i < |entries|
        invariant 0 <= i <= |entries|
        invariant reference !in References(entries)[..i]
      {
        if entries[i].0 == reference {
          return Some(KeyError);
        }
        i := i + 1;
      }
      assert References(entries)[..i] == References(entries);
      entries := entries + [(reference, kind)];
      err := None;
    }
  }

  /** Importing the module: every kind is registered in order, and none is
      refused. */
  method LoadRegistry() returns (reg: Registry)
    ensures fresh(reg) && reg.Valid()
    ensures reg.entries == Table()
  {
    reg := new Registry();
    TableDistinct();
    for n := 0 to 36
      invariant reg.Valid() && reg.entries == Table()[..n]
    {
      var k := KindAt(n);
      forall i | 0 <= i < n ensures References(reg.entries)[i] != Pattern(k) {
        assert reg.entries[i] == Table()[i];
      }
      var err := reg.Register(Pattern(k), k);
      assert Table()[..n + 1] == Table()[..n] + [Table()[n]];
    }
    assert Table()[..36] == Table();
  }

  // ---------------------------------------------------------------------
  // parse_p1_object: the first matching registration

  /** The position of the first entry whose pattern matches `line`. */
  function FirstMatch(pats: seq<seq<PatElem>>, line: string): (r: Option<nat>)
    ensures r.None? <==> forall i | 0 <= i < |pats| :: !Matches(pats[i], line)
    ensures r.Some? ==> && r.value < |pats| && Matches(pats[r.value], line)
                        && forall j | 0 <= j < r.value :: !Matches(pats[j], line)
  {
    if pats == [] then None
    else if Matches(pats[0], line) then Some(0)
    else match FirstMatch(pats[1..], line)
      case None => None
      case Some(i) => Some(i + 1)
  }

  function CompiledTable(): (pats: seq<seq<PatElem>>)
    ensures |pats| == 36
    ensures forall i | 0 <= i < 36 :: pats[i] == Compiled(KindAt(i))
  {
    seq(36, i requires 0 <= i < 36 => Compiled(KindAt(i)))
  }

  /** The kind `parse_p1_object` picks for a line, if any. */
  function Classify(line: string): (r: Option<Kind>)
    ensures r.Some? ==> Matches(Compiled(r.value), line)
  {
    match FirstMatch(CompiledTable(), line)
    case None => None
    case Some(i) => Some(KindAt(i))
  }

  /** Classify picks the first registered kind whose pattern matches, and
      finds none exactly when no pattern matches. */
  lemma ClassifyFirst(line: string)
    ensures Classify(line).None? <==> forall k: Kind :: !Matches(Compiled(k), line)
    ensures Classify(line).Some? ==>
              var i := KindIndex(Classify(line).value);
              && Matches(Compiled(KindAt(i)), line)
              && forall j | 0 <= j < i :: !Matches(Compiled(KindAt(j)), line)
  {
    var pats := CompiledTable();
    match FirstMatch(pats, line)
    case None =>
      forall k: Kind ensures !Matches(Compiled(k), line) {
        assert pats[KindIndex(k)] == Compiled(k);
      }
    case Some(i) =>
      RegisteredOnce(i);
  }

  /** On a line a pattern matches, the header splits where the pattern
      ends: the reference is the matched text, the channel the digit after
      the first dash. */
  lemma MatchedHeader(k: Kind, line: string)
    requires Matches(Compiled(k), line)
    ensures var h := ParseHeader(line);
      && h.Ok? && h.value.reference == line[..|Compiled(k)|]
      && |line| > 2 && IsDigit(line[2]) && h.value.channel == DigitValue(line[2])
  {
    MatchPrefix(k, line);
    HeaderAt(line, |Compiled(k)|);
  }

  /** What a match tells about the start of the line: a digit, a dash, a
      digit, and no `(` before the one after the pattern. */
  lemma MatchPrefix(k: Kind, line: string)
    requires Matches(Compiled(k), line)
    ensures 3 <= |Compiled(k)| < |line| && line[|Compiled(k)|] == '('
    ensures '(' !in line[..|Compiled(k)|]
    ensures IsDigit(line[0]) && line[1] == '-' && IsDigit(line[2])
  {
    var ps := Compiled(k);
    AllPatternsRestricted(k);
    assert ElemMatches(ps[0], line[0]) && ElemMatches(ps[1], line[1]) && ElemMatches(ps[2], line[2]);
    forall i | 0 <= i < |ps| ensures line[..|ps|][i] != '(' {
      assert ElemMatches(ps[i], line[i]) && ObisElem(ps[i]);
    }
  }

  /** A line that starts `<digit>-<digit>` and has its first `(` at `n`
      has the first n characters as its reference and the second digit as
      its channel. */
  lemma HeaderAt(line: string, n: nat)
    requires 3 <= n < |line| && line[n] == '(' && '(' !in line[..n]
    requires IsDigit(line[0]) && line[1] == '-' && IsDigit(line[2])
    ensures var h := ParseHeader(line);
      h.Ok? && h.value.reference == line[..n] && h.value.channel == DigitValue(line[2])
  {
    assert line == line[..n] + (['('] + line[n + 1..]);
    IndexAfter(line[..n], '(', line[n + 1..]);
    var reference := line[..n];
    SecondPart([line[0]], line[2], line[3..n]);
    assert reference == [line[0]] + "-" + [line[2]] + line[3..n];
    ParseDigit(line[2]);
  }

  // ---------------------------------------------------------------------
  // Decoding the values of each family

  datatype Payload =
    | OctetPayload(octets: bytes)
    | TstPayload(time: LocalTime)
    | FloatPayload(number: Decimal)
    | UnitFloatPayload(number: Decimal, unit: string)
    | LogPayload(log: seq<(LocalTime, Decimal)>)
    | GasPayload(time: LocalTime, volume: Decimal)

  /** A decoded object: its class, the header every object has, and what
      its class decodes from the values. */
  datatype Obj = Obj(kind: Kind, header: Header, payload: Payload)

  function Value(vs: seq<string>, i: nat): Result<string>
  {
    if i < |vs| then Ok(vs[i]) else Err(IndexError)
  }

  function DecodeTstValue(vs: seq<string>, i: nat): Result<LocalTime>
  {
    match Value(vs, i)
    case Err(e) => Err(e)
    case Ok(v) => DecodeTst(v)
  }

  function DecodeUnitFloatValue(vs: seq<string>, i: nat): Result<(Decimal, string)>
  {
    match Value(vs, i)
    case Err(e) => Err(e)
    case Ok(v) => DecodeUnitFloat(v)
  }

  /** The constructor of each family, after `P1Object.__init__`: a missing
      value is an IndexError, a value its decoder rejects a ValueError. */
  function DecodePayload(f: Family, vs: seq<string>): (r: Result<Payload>)
    ensures f != FailureLog && vs == [] ==> r == Err(IndexError)
    ensures r.Ok? ==> PayloadFits(f, r.value)
  {
    match f
    case OctetString =>
      (match Value(vs, 0)
       case Err(e) => Err(e)
       case Ok(v) => match DecodeOctetString(v) case Err(e) => Err(e) case Ok(b) => Ok(OctetPayload(b)))
    case Tst =>
      (match DecodeTstValue(vs, 0) case Err(e) => Err(e) case Ok(t) => Ok(TstPayload(t)))
    case Float =>
      (match Value(vs, 0)
       case Err(e) => Err(e)
       case Ok(v) => match ParseFloat(v) case None => Err(ValueError) case Some(d) => Ok(FloatPayload(d)))
    case UnitFloat =>
      (match DecodeUnitFloatValue(vs, 0) case Err(e) => Err(e) case Ok(p) => Ok(UnitFloatPayload(p.0, p.1)))
    case FailureLog =>
      (match DecodeFailureLogSpec(vs) case Err(e) => Err(e) case Ok(log) => Ok(LogPayload(log)))
    case GasConsumed =>
      (match DecodeTstValue(vs, 0)
       case Err(e) => Err(e)
       case Ok(t) => match DecodeUnitFloatValue(vs, 1) case Err(e) => Err(e) case Ok(p) => Ok(GasPayload(t, p.0)))
  }

  /** The payload each family builds; decoded time stamps are from 1900 on. */
  predicate PayloadFits(f: Family, p: Payload)
  {
    match f
    case OctetString => p.OctetPayload?
    case Tst => p.TstPayload? && p.time.year >= 1900
    case Float => p.FloatPayload?
    case UnitFloat => p.UnitFloatPayload?
    case FailureLog => p.LogPayload?
    case GasConsumed => p.GasPayload? && p.time.year >= 1900
  }

  /** Building an object of class `k` from a line. */
  function DecodeObject(k: Kind, line: string): (r: Result<Obj>)
    ensures r.Ok? ==> r.value.kind == k && ParseHeader(line) == Ok(r.value.header)
    ensures r.Ok? ==> DecodePayload(FamilyOf(k), r.value.header.values) == Ok(r.value.payload)
  {
    match ParseHeader(line)
    case Err(e) => Err(e)
    case Ok(h) =>
      match DecodePayload(FamilyOf(k), h.values)
      case Err(e) => Err(e)
      case Ok(p) => Ok(Obj(k, h, p))
  }

  /** `parse_p1_object`: a line no pattern matches is a ValueError;
      otherwise the first matching class decodes it. */
  function ParseObject(line: string): (r: Result<Obj>)
    ensures Classify(line).None? ==> r == Err(ValueError)
    ensures r.Ok? ==> Classify(line) == Some(r.value.kind) && ParseHeader(line) == Ok(r.value.header)
  {
    match Classify(line)
    case None => Err(ValueError)
    case Some(k) => DecodeObject(k, line)
  }

  /** The channel of a parsed object is the digit after the dash of the
      matched reference. */
  lemma ParsedChannel(line: string)
    requires ParseObject(line).Ok?
    ensures |line| > 2 && IsDigit(line[2]) && ParseObject(line).value.header.channel == DigitValue(line[2])
  {
    var o := ParseObject(line).value;
    ClassifyFirst(line);
    MatchedHeader(o.kind, line);
  }

  // ---------------------------------------------------------------------
  // P1LongFailureLog

  /** One log entry: the time stamp at value `k` and the duration, a number
      with a unit, at value `k + 1`; the unit is dropped. */
  function LogEntry(vs: seq<string>, k: nat): (r: Result<(LocalTime, Decimal)>)
    ensures r.Ok? ==> k + 1 < |vs| && r.value.0.year >= 1900
    ensures k >= |vs| ==> r == Err(IndexError)
  {
    match DecodeTstValue(vs, k)
    case Err(e) => Err(e)
    case Ok(t) =>
      match DecodeUnitFloatValue(vs, k + 1)
      case Err(e) => Err(e)
      case Ok(d) => Ok((t, d.0))
  }

  /** `count` entries read by `entry` at positions `index`, `index + 2`,
      ...; the first entry that fails fails the whole. */
  function Pairs<T>(entry: nat -> Result<T>, index: nat, count: int): (r: Result<seq<T>>)
    ensures r.Ok? ==> |r.value| == (if count > 0 then count else 0)
    decreases if count > 0 then count else 0
  {
    if count <= 0 then Ok([])
    else match entry(index)
      case Err(e) => Err(e)
      case Ok(x) => ConsOk(x, Pairs(entry, index + 2, count - 1))
  }

  /** `x` in front of a successful result; a failure stays. */
  function ConsOk<T>(x: T, r: Result<seq<T>>): Result<seq<T>>
  {
    match r
    case Err(e) => Err(e)
    case Ok(rest) => Ok([x] + rest)
  }

  /** Entry `i` of a successful result is the one read at `index + 2i`. */
  lemma {:induction false} PairsAt<T>(entry: nat -> Result<T>, index: nat, count: int, i: nat)
    requires Pairs(entry, index, count).Ok? && i < count
    ensures entry(index + 2 * i).Ok?
    ensures Pairs(entry, index, count).value[i] == entry(index + 2 * i).value
    decreases i
  {
    if i > 0 {
      PairsAt(entry, index + 2, count - 1, i - 1);
      assert index + 2 + 2 * (i - 1) == index + 2 * i;
    }
  }

  function EntryReader(vs: seq<string>): nat -> Result<(LocalTime, Decimal)>
  {
    (k: nat) => LogEntry(vs, k)
  }

  /** The log entries from value `index` on. */
  function LogEntries(vs: seq<string>, index: nat, count: int): Result<seq<(LocalTime, Decimal)>>
  {
    Pairs(EntryReader(vs), index, count)
  }

  /** The log of a `P1LongFailureLog`: value 0 holds the number of entries,
      value 1 an OBIS code that is not read, and the pairs follow. */
  function DecodeFailureLogSpec(vs: seq<string>): Result<seq<(LocalTime, Decimal)>>
  {
    match Value(vs, 0)
    case Err(e) => Err(e)
    case Ok(v) =>
      match ParseInt(v, 10)
      case None => Err(ValueError)
      case Some(count) => LogEntries(vs, 2, count)
  }

  /** The consistency test the constructor computes but never raises:
      `len(values) - 2 != logcount / 2`, with true division. */
  predicate LengthCheckFails(vs: seq<string>, count: int)
  {
    (|vs| - 2) as real != count as real / 2.0
  }

  /** Entry `i` of a successful log is decoded from values 2 + 2i and
      3 + 2i. */
  lemma LogEntryAt(vs: seq<string>, index: nat, count: int, i: nat)
    requires LogEntries(vs, index, count).Ok? && i < count
    ensures index + 2 * i + 1 < |vs| && LogEntry(vs, index + 2 * i).Ok?
    ensures LogEntries(vs, index, count).value[i] == LogEntry(vs, index + 2 * i).value
  {
    PairsAt(EntryReader(vs), index, count, i);
    assert EntryReader(vs)(index + 2 * i) == LogEntry(vs, index + 2 * i);
  }

  /** A successful log has exactly `int(values[0])` entries (none for a
      negative count), entry `i` read from values 2 + 2i and 3 + 2i; with
      too few values the log cannot be read. */
  lemma FailureLogShape(vs: seq<string>)
    requires DecodeFailureLogSpec(vs).Ok?
    ensures |vs| > 0 && ParseInt(vs[0], 10).Some?
    ensures var count := ParseInt(vs[0], 10).value;
      && |DecodeFailureLogSpec(vs).value| == (if count > 0 then count else 0)
      && (count > 0 ==> 2 + 2 * count <= |vs|)
  {
    var count := ParseInt(vs[0], 10).value;
    if count > 0 {
      LogEntryAt(vs, 2, count, count - 1);
    }
  }

  /** The length check is inert: every log with at least one entry and
      exactly the values it needs fails the check, and is read all the
      same. */
  lemma LengthCheckIgnored(vs: seq<string>)
    requires DecodeFailureLogSpec(vs).Ok?
    requires ParseInt(vs[0], 10).value > 0 && |vs| == 2 + 2 * ParseInt(vs[0], 10).value
    ensures LengthCheckFails(vs, ParseInt(vs[0], 10).value)
  {
  }

  /** `P1LongFailureLog.__init__`: the count from value 0, then the loop. */
  method DecodeFailureLog(vs: seq<string>) returns (r: Result<seq<(LocalTime, Decimal)>>)
    ensures r == DecodeFailureLogSpec(vs)
  {
    if |vs| == 0 {
      return Err(IndexError);
    }
    var parsed := ParseInt(vs[0], 10);
    if parsed.None? {
      return Err(ValueError);
    }
    r := ReadPairs(EntryReader(vs), parsed.value);
  }

  /** The loop that reads `logcount` entries from value 2 on, each entry
      read by `entry` at the value it starts at. */
  method ReadPairs<T>(entry: nat -> Result<T>, logcount: int) returns (r: Result<seq<T>>)
    ensures r == Pairs(entry, 2, logcount)
  {
    var log: seq<T> := [];
    var index := 2;
    var left := logcount;
    PrependEmpty(Pairs(entry, index, left));
    while left > 0
      invariant index >= 2
      invariant Prepend(log, Pairs(entry, index, left)) == Pairs(entry, 2, logcount)
      decreases left
    {
      var e := entry(index);
      if e.Err? {
        return Err(e.error);
      }
      PrependStep(log, e.value, Pairs(entry, index + 2, left - 1));
      log := log + [e.value];
      index := index + 2;
      left := left - 1;
    }
    assert log + [] == log;
    r := Ok(log);
  }

  function Prepend<T>(log: seq<T>, r: Result<seq<T>>): Result<seq<T>>
  {
    match r
    case Ok(rest) => Ok(log + rest)
    case Err(e) => Err(e)
  }

  lemma PrependEmpty<T>(r: Result<seq<T>>)
    ensures Prepend([], r) == r
  {
    match r
    case Ok(rest) =>
      assert [] + rest == rest;
    case Err(e) =>
  }

  lemma PrependStep<T>(log: seq<T>, x: T, r: Result<seq<T>>)
    ensures Prepend(log, ConsOk(x, r)) == Prepend(log + [x], r)
  {
    match r
    case Ok(rest) =>
      assert log + ([x] + rest) == log + [x] + rest;
    case Err(e) =>
  }

  // ---------------------------------------------------------------------
  // Output fields, device ids and time stamps

  /** The `_mqtt_fields` of each family with their values; time stamps are
      published as UTC Unix time. Octet strings and the failure log have
      none. */
  function Fields(p: Payload): seq<(string, OutValue)>
    requires p.TstPayload? || p.GasPayload? ==> p.time.year >= 1
  {
    match p
    case OctetPayload(_) => []
    case TstPayload(t) => [("timestamp", IntVal(UnixTime(t)))]
    case FloatPayload(d) => [("float", DecVal(d))]
    case UnitFloatPayload(d, _) => [("float", DecVal(d))]
    case LogPayload(_) => []
    case GasPayload(t, v) => [("timestamp", IntVal(UnixTime(t))), ("volume", DecVal(v))]
  }

  /** Objects as the decoder builds them. */
  predicate WellFormed(o: Obj)
  {
    PayloadFits(FamilyOf(o.kind), o.payload)
  }

  lemma DecodedWellFormed(k: Kind, line: string)
    requires DecodeObject(k, line).Ok?
    ensures WellFormed(DecodeObject(k, line).value)
  {
  }

  /** `to_mqtt` of an object. */
  function ObjOutput(o: Obj): map<string, OutValue>
    requires WellFormed(o)
  {
    ObjectOutput(ClassName(o.kind), Fields(o.payload))
  }

  /** A gas reading publishes exactly its time stamp and volume, under
      the snake-cased class name with the field name appended. */
  lemma GasConsumedKeys(o: Obj)
    requires WellFormed(o) && o.kind == P1GasConsumed
    ensures var name := SnakeName(ClassName(o.kind));
      forall key :: key in ObjOutput(o) <==> key == name + "_" + "timestamp" || key == name + "_" + "volume"
  {
    assert FamilyOf(o.kind) == GasConsumed;
    var name := SnakeName(ClassName(o.kind));
    var fields := Fields(o.payload);
    assert |fields| == 2 && fields[0].0 == "timestamp" && fields[1].0 == "volume";
    ObjectOutputShape(ClassName(o.kind), fields);
    forall key ensures key in ObjOutput(o) <==> key == name + "_" + "timestamp" || key == name + "_" + "volume" {
      if key == name + "_" + "timestamp" {
        assert key == name + "_" + fields[0].0;
      }
      if key == name + "_" + "volume" {
        assert key == name + "_" + fields[1].0;
      }
    }
  }

  /** Octet strings and failure logs publish nothing. */
  lemma SilentKinds(o: Obj)
    requires WellFormed(o) && (FamilyOf(o.kind) == OctetString || FamilyOf(o.kind) == FailureLog)
    ensures ObjOutput(o) == map[]
  {
    ObjectOutputShape(ClassName(o.kind), Fields(o.payload));
  }

  /** The single-field families publish one value under the bare snake-cased
      class name. */
  lemma SingleFieldKinds(o: Obj)
    requires WellFormed(o) && FamilyOf(o.kind) in {Tst, Float, UnitFloat}
    ensures |ObjOutput(o)| == 1 && SnakeName(ClassName(o.kind)) in ObjOutput(o)
  {
    ObjectOutputShape(ClassName(o.kind), Fields(o.payload));
  }

  /** The Unix time of a time stamp candidate (`to_unixtimestamp`). */
  function ObjTimestamp(o: Obj): (t: int)
    requires WellFormed(o) && IsTimestamp(o.kind)
  {
    UnixTime(o.payload.time)
  }

  /** `device_id()` of an equipment identifier, corrected: the decoded
      octets as ASCII text, a ValueError when a byte is not ASCII. */
  function DeviceIdText(o: Obj): (r: Result<string>)
    requires WellFormed(o) && IsDeviceId(o.kind)
    ensures r.Ok? <==> IsAscii(o.payload.octets)
    ensures r.Ok? ==> IsAsciiText(r.value) && AsciiBytes(r.value) == o.payload.octets
  {
    if IsAscii(o.payload.octets) then
      var text := AsciiText(o.payload.octets);
      assert AsciiBytes(text) == o.payload.octets;
      Ok(text)
    else Err(ValueError)
  }
}
