# p1-mqtt: the P1 telegram pipeline in Dafny

This project models the core of p1-mqtt, which reads the P1 port of a Dutch
smart meter (DSMR P1 Companion Standard) and turns the raw byte stream into
per-channel dictionaries for MQTT. The model covers five pieces:

- **Stream framer** (`P1Parser.feed`, module `Parser`, class
  `Parser.P1Parser`). It keeps a byte buffer across calls. It drops
  everything before the first `/`. It cuts a candidate at the end of the
  first `\r\n!XXXX` terminator and trims the candidate to its last `/`. It
  drops candidates with a second `!` and candidates the telegram decoder
  refuses. The loop is proved against two specification functions, `Cuts`
  and `Residue`, over the whole stream.
- **Telegram decoder** (`P1Telegram`, modules `Crc16`, `Checksum` and
  `Telegram`). This covers the CRC-16/ARC check (polynomial 0xA001,
  initial value 0) and the line loop of `_parse_objects`. It also covers
  `split_by_channel`, the `timestamp`, `device_id` and `channel`
  properties, `to_mqtt`, `from_objects` and `__len__`.
- **Object base** (`p1object.py`, module `P1Object`). This covers the
  reference, channel and values of a line and the octet-string, unit-float
  and TST decoders. The TST decoder models `strptime`'s
  first-match-with-backtracking and the fixed +1h/+2h zones. It also
  covers `_utc_unixtime` as calendar arithmetic, `_mqtt_name` and
  `to_mqtt`'s key rule.
- **Object registry** (`objects.py`, module `Objects`). The 36 registered
  classes are a closed datatype `Kind` with a flag table. Each reference is
  a value-group record rendered to its regular-expression text and
  compiled to the restricted pattern language (`Lit(c) | Digit`). The
  module also has the ordered `P1CLASSES` registry with duplicate
  rejection, the first-match dispatch of `parse_p1_object`, each family's
  decoding, and the `P1LongFailureLog` loop.
- **Source driver** (`p1io.py`, module `P1io`). This covers the read-size
  and sync state machine of `p1io_main` and `TCPFullReader.read`, with the
  socket abstracted as a sequence of arrivals.

Bytes are `seq<byte>`; text is the ASCII decoding of bytes. Python's
`int()` is modelled with its whitespace and sign rules, digits with single
underscores between them, and `0x` with an optional underscore after it,
for bases 10 and 16. Floats are exact decimals. Errors are the
Python exception classes that matter to the callers (`ValueError`,
`IndexError`, `KeyError`, `TypeError`, `AttributeError`, `RuntimeError`).
This matters because `_parse_objects` catches only `ValueError`, while
`feed` catches everything.

Three places in the code do not do what the surrounding code and the
project's own description say; see "## Findings". For each, the code as
written is modelled and a lemma shows the consequence; the corrected
definition is the one the rest of the model uses.

## Model

| member | source | states |
|---|---|---|
| Text.IndexOf | p1_mqtt/p1/parser.py:44 | `index`: none exactly when the element is absent; otherwise a position holding it with no earlier occurrence |
| Text.LastIndexOf | p1_mqtt/p1/parser.py:71 | `rindex`: none exactly when absent; otherwise a position holding it with no later occurrence |
| Text.Count | p1_mqtt/p1/parser.py:84 | `count`: at most the length, and zero exactly when the element is absent |
| Text.CountAppend | p1_mqtt/p1/parser.py:84 | the count in two concatenated pieces is the sum of their counts |
| Text.Split | p1_mqtt/p1/p1object.py:111 | `split`: one part more than separators, no part holds the separator, the first part is a prefix and is non-empty when the text does not start with the separator |
| Text.JoinSplit | p1_mqtt/p1/p1object.py:65 | joining the parts of `split` with the separator gives back the text |
| Text.StripLeft | p1_mqtt/p1/objects.py:242 | the whitespace `int()` ignores: a suffix of the text that does not start with whitespace |
| Text.StripRight | p1_mqtt/p1/objects.py:242 | a prefix of the text that does not end with whitespace |
| Text.ParseIntPlain | p1_mqtt/p1/objects.py:242 | `int()` of a plain group of digits is its positional value |
| Text.ParseIntBadStart | p1_mqtt/p1/telegram.py:80 | `int()` is a ValueError when the first character after the leading whitespace is neither a sign nor a digit of the base |
| Text.ParseIntBlank | p1_mqtt/p1/telegram.py:80 | `int()` of empty or all-whitespace text is a ValueError |
| Text.ParseInt | p1_mqtt/p1/objects.py:242 | `int(s, base)` for bases 10 and 16: on success the stripped text is non-empty and starts with a sign or a digit of the base, and a negative result needs a leading `-` (its value: `ParseIntPlain`, `FourHexDigits`; its failures: `ParseIntBadStart`, `ParseIntBlank`) |
| Text.ParseFloat | p1_mqtt/p1/p1object.py:67 | `float()`: on success the stripped text is non-empty and longer than the fraction, and a negative result needs a leading `-` |
| Text.ParseFloatDecimal | p1_mqtt/p1/objects.py:116 | `float()` of `digits` or `digits.digits` is the decimal with those digits as mantissa and the fraction's length as scale, the mantissa being the whole part times 10 to the fraction's length plus the fraction |
| Text.FourHexDigits | p1_mqtt/p1/telegram.py:80 | `int(s, 16)` of four hex digits is their base-16 value |
| Text.AsciiText | p1_mqtt/p1/telegram.py:109 | `decode("ASCII")`: same length, each character's code is the byte |
| Text.AsciiBytes | p1_mqtt/p1/objects.py:165 | the inverse of ASCII decoding |
| Text.Lower | p1_mqtt/p1/p1object.py:123 | `lower()` of one ASCII character: capitals move by 32, other characters stay (non-ASCII capitals: see "## Left out") |
| Text.FirstBreak | p1_mqtt/p1/telegram.py:111 | the first line-break position, none exactly when there is no break |
| Text.SplitLines | p1_mqtt/p1/telegram.py:111 | `splitlines()`: no line holds a line break |
| Text.SplitLinesRoundTrip | p1_mqtt/p1/telegram.py:111 | lines joined with `\r\n` split back into the same lines |
| Text.PySlice | p1_mqtt/p1/telegram.py:80 | Python slicing: within bounds it is the plain slice, a range wholly outside the sequence is empty, and it never grows the sequence |
| Text.PySliceFromEnd | p1_mqtt/p1/telegram.py:80 | a negative bound counts from the end: it gives the same slice as the bound plus the length |
| Crc16.Crc | p1_mqtt/p1/telegram.py:85-93 | the CRC register always stays within 0..0xFFFF |
| Crc16.ComputeCrc | p1_mqtt/p1/telegram.py:85-93 | the nested loop computes the CRC fold, and the remainder stays below 0x10000 |
| Crc16.ShiftIsLoopBody | p1_mqtt/p1/telegram.py:88-93 | one step of the inner loop: shift right, XOR 0xA001 when the low bit was set |
| Crc16.ShiftsBounded | p1_mqtt/p1/telegram.py:88-93 | any number of inner steps keep a 16-bit register within 16 bits |
| Crc16.UpdateBounded | p1_mqtt/p1/telegram.py:86-93 | one byte's update keeps a 16-bit register within 16 bits |
| Crc16.ShiftsInjective | p1_mqtt/p1/telegram.py:88-93 | the inner steps never map two 16-bit registers to the same one |
| Crc16.SingleByteChangeDetected | p1_mqtt/p1/telegram.py:85-93 | changing any one byte of the data changes the CRC |
| Crc16.SingleByteChangeChangesValue | p1_mqtt/p1/telegram.py:85-98 | the same holds for the integer the check compares |
| Crc16.BangCrc | p1_mqtt/p1/telegram.py:29 | the CRC of `!` alone is 0x18c0, the digits of the `from_objects` buffer |
| Crc16.Hex4Digits | p1_mqtt/p1/telegram.py:80 | the four hex digits of a 16-bit value read back as that value |
| Checksum.HexBytes | p1_mqtt/p1/telegram.py:80 | a 16-bit value written as four ASCII hex-digit bytes, whose base-16 value is that value |
| Checksum.SlotCheck | p1_mqtt/p1/telegram.py:80-101 | passes only when the slot is ASCII and `int(slot, 16)` equals the CRC; every failure is a ValueError |
| Checksum.ValidateAsWritten | p1_mqtt/p1/telegram.py:69-101 | the check as written: passing means `buf[-6:-2]` is ASCII and its base-16 value is the CRC of `buf[:-6]`; every failure is a ValueError |
| Checksum.SlotOfDigits | p1_mqtt/p1/telegram.py:80-101 | a slot of four hex digits passes exactly when it spells the CRC of the data |
| Checksum.SlotsAfterBang | p1_mqtt/p1/telegram.py:73-78 | the data and digits around the last `!`, none exactly when there is no `!` |
| Checksum.Validate | p1_mqtt/p1/telegram.py:69-101 | the corrected check: a buffer without `!` is a ValueError |
| Checksum.FrameSlots | p1_mqtt/p1/telegram.py:73-78 | in data closed by `!`, four digits and a trailer without `!`, the slot is those digits |
| Checksum.FrameAccepted | p1_mqtt/p1/telegram.py:69-101 | data closed by `!` followed by its CRC in hex passes the check |
| Checksum.CorruptionDetected | p1_mqtt/p1/telegram.py:80-101 | changing one byte before the `!` of such a frame makes the check fail with ValueError |
| Checksum.CandidateRejectedAsWritten | p1_mqtt/p1/telegram.py:80 | as written, a buffer ending in `\r\n!` and four hex digits fails with ValueError |
| Checksum.BangDigitsRefused | p1_mqtt/p1/telegram.py:80 | `int("\n!" + two hex digits, 16)` fails |
| Checksum.DummyValidate | p1_mqtt/p1/telegram.py:29 | the `from_objects` buffer passes the check both as written and corrected |
| P1Object.DecodeOctetString | p1_mqtt/p1/p1object.py:26-30 | `bytearray.fromhex`: on success, two digits per byte plus the skipped whitespace make up the text |
| P1Object.OctetStringRoundTrip | p1_mqtt/p1/p1object.py:26-30 | the hex text of any bytes decodes back to them |
| P1Object.OctetStringLength | p1_mqtt/p1/p1object.py:26-30 | a text of hex digits decodes exactly when its length is even, to half as many bytes |
| P1Object.MatchFields | p1_mqtt/p1/p1object.py:56 | a `strptime` match gives one text per directive and ends inside the string |
| P1Object.MatchAlts | p1_mqtt/p1/p1object.py:56 | one directive's alternatives tried in order, with backtracking into the rest |
| P1Object.DecodeTst | p1_mqtt/p1/p1object.py:33-56 | a text not ending in `S` or `W` is a ValueError; a decoded time is a valid calendar time from 1900 on, two hours ahead of UTC for `S` and one hour for `W` |
| P1Object.ZoneOffsets | p1_mqtt/p1/p1object.py:47-50 | the same wall-clock reading is 3600 seconds later in UTC in winter than in summer |
| P1Object.EpochStart | p1_mqtt/p1/p1object.py:70-75 | midnight of 1970-01-01 UTC is Unix time 0 |
| P1Object.NextDayTime | p1_mqtt/p1/p1object.py:70-75 | the next calendar day, with the month and year rolling over and leap days counted, is 86400 seconds later |
| P1Object.NextSecondTime | p1_mqtt/p1/p1object.py:70-75 | the next wall-clock second, across minute, hour, day, month and year ends, is one second later |
| P1Object.UnixTime | p1_mqtt/p1/p1object.py:70-75 | `_utc_unixtime`: the UTC instant of a valid reading lies within the 86400 seconds of its date shifted by the zone offset (calendar partners: `EpochStart`, `NextDayTime`, `NextSecondTime`, `ZoneOffsets`) |
| P1Object.TstRoundTrip | p1_mqtt/p1/p1object.py:33-56 | every time stamp a meter can write (years 1969-2068) decodes back to the same time and zone |
| P1Object.DecodedYear | p1_mqtt/p1/p1object.py:33-56 | a decoded time stamp starts with two digits `yy`, and its year is 2000 + `yy` below 69 and 1900 + `yy` otherwise, so always 1969-2068 |
| P1Object.GasReadingExample | tests/test_p1_mqtt.py:53 | `171105201000W` decodes to 2017-11-05 20:10:00 +1h, which is Unix time 1509909000 |
| P1Object.DecodeUnitFloat | p1_mqtt/p1/p1object.py:59-67 | a text without exactly one `*` is a ValueError; the unit holds no `*` |
| P1Object.UnitFloatParts | p1_mqtt/p1/p1object.py:64-67 | `number*unit` decodes to the number's value and the unit, or fails when the number does |
| P1Object.ValuesRoundTrip | p1_mqtt/p1/p1object.py:114 | the values of `(v1)(v2)...` are `v1, v2, ...` in order |
| P1Object.FindValues | p1_mqtt/p1/p1object.py:114 | `re.findall(r"\((.*?)\)")`: no value holds `)` or a line feed, and a text without `(` has no values (see `ValuesRoundTrip`, `FirstValue`) |
| P1Object.FirstValue | p1_mqtt/p1/p1object.py:114 | the non-greedy match takes the first bracket pair, then the search goes on after it |
| P1Object.ParseHeader | p1_mqtt/p1/p1object.py:106-114 | a line without `(` is a ValueError; the reference is the text before the first `(` and the channel a digit |
| P1Object.HeaderRoundTrip | p1_mqtt/p1/p1object.py:106-114 | `before-dafter(v1)...(vn)` gives that reference, the digit `d` as channel, and the values |
| P1Object.ParseDigit | p1_mqtt/p1/p1object.py:111 | `int()` of one character succeeds exactly on a digit, with its value |
| P1Object.SnakeName | p1_mqtt/p1/p1object.py:117-123 | `_mqtt_name`: one underscore more per capital after the first character, and no capitals left |
| P1Object.SnakeNameUndo | p1_mqtt/p1/p1object.py:117-123 | dropping the underscores gives the lower-cased class name |
| P1Object.SnakeTailAppend | p1_mqtt/p1/p1object.py:123 | snake-casing works piece by piece |
| P1Object.SnakeWord | p1_mqtt/p1/p1object.py:123 | a capitalised word becomes `_` and the word in lower case |
| P1Object.FieldKeys | p1_mqtt/p1/p1object.py:149-158 | one key per field: exactly the snake-cased class name for a single field, and the snake-cased name, `_` and the field name for each field otherwise |
| P1Object.AssignedKeys | p1_mqtt/p1/p1object.py:154-164 | the dictionary's keys are exactly the keys assigned |
| P1Object.AssignedValues | p1_mqtt/p1/p1object.py:154-164 | each key holds the value of its last assignment |
| P1Object.ObjectOutputShape | p1_mqtt/p1/p1object.py:145-166 | no fields give an empty output, one field a single entry under the bare name, n fields n entries under `name_field` |
| P1Object.ToMqtt | p1_mqtt/p1/p1object.py:145-166 | the loop builds that dictionary |
| Objects.KindIndex | p1_mqtt/p1/objects.py:136-458 | every class has a position in the registration order |
| Objects.RegisteredOnce | p1_mqtt/p1/objects.py:136-458 | no class is registered at two positions |
| Objects.ObisKindInverse | p1_mqtt/p1/objects.py:136-458 | the reference a class is registered under leads back to that class |
| Objects.RenderInjective | p1_mqtt/p1/objects.py:136-458 | different references render to different pattern texts |
| Objects.PatternsDiffer | p1_mqtt/p1/objects.py:136-458 | distinct classes are registered under distinct patterns |
| Objects.CompileAppend | p1_mqtt/p1/objects.py:36 | compiling a restricted pattern distributes over concatenation |
| Objects.AllPatternsRestricted | p1_mqtt/p1/objects.py:36 | every registered pattern uses only literals, escaped dots and `\d`, and starts digit, `-`, digit or `\d` |
| Objects.TableDistinct | p1_mqtt/p1/objects.py:57-62 | no two registrations share a reference, so importing the module never raises |
| Objects.Registry.constructor | p1_mqtt/p1/objects.py:24 | `P1CLASSES` starts empty |
| Objects.Registry.Register | p1_mqtt/p1/objects.py:46-66 | a reference already present is a KeyError and leaves the registry unchanged; otherwise exactly one entry is added after the others |
| Objects.LoadRegistry | p1_mqtt/p1/objects.py:136-458 | importing the module registers every class in order, without error |
| Objects.FirstMatch | p1_mqtt/p1/objects.py:35-38 | none exactly when no pattern matches; otherwise the first pattern that matches |
| Objects.ClassifyFirst | p1_mqtt/p1/objects.py:33-41 | `parse_p1_object` picks the first registered class whose pattern matches, and none exactly when none matches |
| Objects.Classify | p1_mqtt/p1/objects.py:35-41 | the class loop of `parse_p1_object`: a class it picks has a pattern that matches the line (first-match order: `ClassifyFirst`) |
| Objects.MatchPrefix | p1_mqtt/p1/objects.py:36 | a matched line starts digit, `-`, digit, and its first `(` follows the matched text |
| Objects.MatchedHeader | p1_mqtt/p1/objects.py:36-43 | on a matched line the reference is the matched text and the channel the digit after the first `-` |
| Objects.DecodePayload | p1_mqtt/p1/objects.py:75-133 | a missing first value is an IndexError; a payload fits its family (decoded times from 1900 on) |
| Objects.DecodeObject | p1_mqtt/p1/objects.py:43 | the object has the class, the header of `P1Object.__init__` and the family's payload |
| Objects.ParseObject | p1_mqtt/p1/objects.py:27-43 | a line no pattern matches is a ValueError; a parsed object has the class picked and the line's header |
| Objects.ParsedChannel | p1_mqtt/p1/p1object.py:111 | the channel of a parsed object is the digit at position 2 of the line |
| Objects.DecodedWellFormed | p1_mqtt/p1/objects.py:43 | every decoded object is well formed |
| Objects.LogEntry | p1_mqtt/p1/objects.py:256-257 | an entry needs both its values (a time stamp from 1900 on); reading past the values is an IndexError |
| Objects.Pairs | p1_mqtt/p1/objects.py:254-261 | a successful read has exactly `count` entries, none for a non-positive count |
| Objects.PairsAt | p1_mqtt/p1/objects.py:254-261 | entry i is the one read at index + 2i |
| Objects.LogEntryAt | p1_mqtt/p1/objects.py:254-261 | entry i of the log is decoded from values 2 + 2i and 3 + 2i |
| Objects.FailureLogShape | p1_mqtt/p1/objects.py:242-261 | a decoded log has exactly `int(values[0])` entries and at least 2 + 2n values |
| Objects.LengthCheckIgnored | p1_mqtt/p1/objects.py:251-252 | the length test fails on every consistent log, and the log still decodes |
| Objects.DecodeFailureLog | p1_mqtt/p1/objects.py:237-261 | the constructor computes the log its specification describes |
| Objects.ReadPairs | p1_mqtt/p1/objects.py:254-261 | the while loop over `index`/`logcount` reads the pairs from value 2 on |
| Objects.GasConsumedKeys | p1_mqtt/p1/objects.py:441-447 | a gas reading publishes exactly `<name>_timestamp` and `<name>_volume` |
| Objects.SilentKinds | p1_mqtt/p1/objects.py:69-78 | octet-string and failure-log objects publish nothing |
| Objects.SingleFieldKinds | p1_mqtt/p1/objects.py:90-133 | time stamp, float and unit-float objects publish one entry under the bare name |
| Objects.DeviceIdText | p1_mqtt/p1/objects.py:160-165 | the identifier is text exactly when its bytes are ASCII, and the text encodes back to them |
| Telegram.ParseObjects | p1_mqtt/p1/telegram.py:103-129 | the line loop computes the line fold |
| Telegram.ParseLinesMeaning | p1_mqtt/p1/telegram.py:111-129 | the lines succeed exactly when no object line fails with a non-ValueError; then the meter id is the last `/` line's, the objects are the decoded object lines in order, the rest are counted unparseable |
| Telegram.ErrorStops | p1_mqtt/p1/telegram.py:125-129 | an error other than ValueError on one line is the result of the whole |
| Telegram.EveryObjectLineCounted | p1_mqtt/p1/telegram.py:125-129 | each object line adds one object or one unparseable |
| Telegram.ObjectLines | p1_mqtt/p1/telegram.py:112-121 | the lines that carry objects are no more than the lines |
| Telegram.Built | p1_mqtt/p1/telegram.py:49-54 | a telegram keeps the bytes it was built from |
| Telegram.BuiltMeaning | p1_mqtt/p1/telegram.py:35-54 | a built telegram passed the check, is ASCII, keeps its bytes, and holds the meter id, objects and unparseable count of its lines |
| Telegram.CheckSlot | p1_mqtt/p1/telegram.py:80-101 | the CRC loop and `int(digits, 16)` compute the slot check |
| Telegram.ValidateChecksumAsWritten | p1_mqtt/p1/telegram.py:69-101 | the method computes the check as written |
| Telegram.ValidateChecksum | p1_mqtt/p1/telegram.py:69-101 | the method computes the corrected check |
| Telegram.Finish | p1_mqtt/p1/telegram.py:52-54 | the rest of the constructor computes the built telegram |
| Telegram.NewAsWritten | p1_mqtt/p1/telegram.py:35-54 | the constructor as written |
| Telegram.New | p1_mqtt/p1/telegram.py:35-54 | the constructor with the corrected checksum slot |
| Telegram.FromBytesWellFormed | p1_mqtt/p1/telegram.py:126 | every object of a telegram built from bytes is well formed |
| Telegram.FrameBuilt | p1_mqtt/p1/telegram.py:35-101 | a frame with its CRC passes the check and is built whenever its lines are |
| Telegram.CorruptFrameRefused | p1_mqtt/p1/telegram.py:98-101 | changing one byte before the `!` makes construction fail with ValueError |
| Telegram.CandidateRefusedAsWritten | p1_mqtt/p1/telegram.py:80 | as written, construction fails on every buffer ending in `\r\n!` and four hex digits |
| Telegram.FromObjects | p1_mqtt/p1/telegram.py:21-33 | the telegram holds the given objects over the bare checksum buffer |
| Telegram.DummyBuilds | p1_mqtt/p1/telegram.py:29 | the bare checksum buffer builds into an empty telegram of length 0, as written and corrected |
| Telegram.LenOfBuilt | p1_mqtt/p1/telegram.py:56-67 | a telegram built from other bytes has their length |
| Telegram.Len | p1_mqtt/p1/telegram.py:56-67 | `__len__`: at most the buffer length, and 0 only for the `from_objects` buffer or an empty buffer |
| Telegram.SplitAtLineFeed | p1_mqtt/p1/telegram.py:111 | a line feed closes the line before it |
| Telegram.Filter | p1_mqtt/p1/telegram.py:194 | the kept elements come from the input and satisfy the test |
| Telegram.FilterSingle | p1_mqtt/p1/telegram.py:194-198 | exactly one element is kept exactly when exactly one position passes, and then it is that element |
| Telegram.FilterEmpty | p1_mqtt/p1/telegram.py:194 | nothing is kept exactly when no element passes |
| Telegram.TimestampUnique | p1_mqtt/p1/telegram.py:181-200 | a time stamp exists exactly when one object is a candidate, and it is that object's Unix time |
| Telegram.Timestamp | p1_mqtt/p1/telegram.py:181-200 | `timestamp`: a result is the Unix time of some time stamp candidate (uniqueness: `TimestampUnique`) |
| Telegram.TwoTimestampsNone | tests/test_p1_mqtt.py:157-159 | two candidates, such as the telegram's time and a gas reading, give no time stamp |
| Telegram.DeviceIdUnique | p1_mqtt/p1/telegram.py:202-221 | corrected: a device id exists exactly when one object is a candidate, and it is that object's identifier text |
| Telegram.DeviceId | p1_mqtt/p1/telegram.py:202-221 | corrected `device_id`: a result is the identifier text of some candidate, and the only failure is the ValueError of a non-ASCII identifier |
| Telegram.DeviceIdAsWritten | p1_mqtt/p1/telegram.py:202-221 | `device_id` as written: it never yields an id, and it fails only with AttributeError or TypeError |
| Telegram.DeviceIdNeverFound | p1_mqtt/p1/telegram.py:213-219 | as written, `device_id` never yields an id: a non-identifier object raises AttributeError, a lone identifier TypeError |
| Telegram.ChannelShared | p1_mqtt/p1/telegram.py:223-237 | a channel exists exactly when there are objects and all share it |
| Telegram.Channel | p1_mqtt/p1/telegram.py:223-237 | `channel`: none for no objects; otherwise a result is the first object's channel (sharing: `ChannelShared`) |
| Telegram.Channels | p1_mqtt/p1/telegram.py:167-175 | the kept channels never include 3 and hold no repeats |
| Telegram.ChannelsComplete | p1_mqtt/p1/telegram.py:169-175 | a channel is kept exactly when it is not 3 and some object has it |
| Telegram.OnChannelMembers | p1_mqtt/p1/telegram.py:169-175 | an object is in its channel's group exactly when it is in the telegram with that channel |
| Telegram.OnChannelEmpty | p1_mqtt/p1/telegram.py:169-175 | a group is empty exactly when no object has its channel |
| Telegram.Groups | p1_mqtt/p1/telegram.py:167-177 | one group per kept channel |
| Telegram.GroupByChannel | p1_mqtt/p1/telegram.py:167-177 | the dictionary loop: its keys in insertion order are the kept channels, each holding its objects in order |
| Telegram.SplitByChannel | p1_mqtt/p1/telegram.py:161-179 | one telegram per group, built by `from_objects` |
| Telegram.GroupChannel | p1_mqtt/p1/telegram.py:167-179 | every group is non-empty and its `channel` is its key |
| Telegram.SplitCovers | p1_mqtt/p1/telegram.py:167-179 | every object off channel 3 is in exactly one part, and the parts hold nothing else |
| Telegram.SplitPartsEmpty | p1_mqtt/p1/telegram.py:63-65 | every part has length 0 and holds its group |
| Telegram.MergeAllKeys | p1_mqtt/p1/telegram.py:145-146 | a key is in the merged dictionary exactly when some object output has it |
| Telegram.MergeAllLast | p1_mqtt/p1/telegram.py:145-146 | a key holds the value of the last output that has it |
| Telegram.Outputs | p1_mqtt/p1/telegram.py:145-146 | one output per object |
| Telegram.CompletedMeaning | p1_mqtt/p1/telegram.py:148-157 | the collector time is always added; the time stamp, device id and channel keys are there exactly when those exist; the object keys are untouched |
| Telegram.ToMqtt | p1_mqtt/p1/telegram.py:131-159 | the method computes the telegram's output with `time.time()` given |
| Telegram.Output | p1_mqtt/p1/telegram.py:131-159 | `to_mqtt` as a value: it fails exactly when `device_id` does, and on success holds the collector time under `p1mqtt_collector_timestamp` |
| Telegram.ObjectToMqtt | p1_mqtt/p1/p1object.py:145-166 | one object's output loop |
| Telegram.ObjectKeyShape | p1_mqtt/p1/p1object.py:149-158 | object keys start `p1_`, so they never clash with the telegram's own keys |
| Telegram.ClassNameShape | p1_mqtt/p1/objects.py:136-458 | every class name is `P1` and a capitalised word |
| Telegram.OutputTelegramKeys | p1_mqtt/p1/telegram.py:131-159 | `to_mqtt` fails exactly when the device id does; otherwise it adds the telegram's keys exactly when the properties exist |
| Telegram.OutputObjectKeys | p1_mqtt/p1/telegram.py:145-146 | besides the telegram's keys, the output holds exactly the objects' keys |
| Telegram.OutputLastWins | p1_mqtt/p1/telegram.py:145-146 | later objects' keys overwrite earlier ones |
| Parser.FindMarker | p1_mqtt/p1/parser.py:59 | a terminator match ends at least seven bytes on and inside the buffer |
| Parser.FindMarkerMeaning | p1_mqtt/p1/parser.py:59 | `re.search` finds the leftmost terminator, and none exactly when there is none |
| Parser.FirstMarker | p1_mqtt/p1/parser.py:59 | the terminator with none before it is the one found |
| Parser.FindMarkerAppend | p1_mqtt/p1/parser.py:59 | bytes appended after a terminator do not move it |
| Parser.SlashFrom | p1_mqtt/p1/parser.py:44 | a `/` found from a position is at or after it |
| Parser.SlashFromMeaning | p1_mqtt/p1/parser.py:44 | the search skips only bytes that are not `/` |
| Parser.IndexOfFrom | p1_mqtt/p1/parser.py:44-55 | `index(b"/")` on the sliced buffer is the search from the slice point |
| Parser.NextCut | p1_mqtt/p1/parser.py:43-63 | one loop turn clears, keeps from a `/`, or cuts from a `/` to a terminator's end |
| Parser.NextMeaning | p1_mqtt/p1/parser.py:43-63 | a clear sees no `/`; a keep starts at the first `/` with no terminator after; a cut starts at the first `/` and ends at the first terminator |
| Parser.NextAppend | p1_mqtt/p1/parser.py:35 | appending bytes changes no cut the buffer already holds |
| Parser.P1Parser.constructor | p1_mqtt/p1/parser.py:23-24 | the buffer starts empty |
| Parser.P1Parser.Feed | p1_mqtt/p1/parser.py:26-105 | the telegrams are those the cuts of the old buffer plus the input yield, in stream order, and the buffer becomes what the cutting leaves |
| Parser.P1Parser.Take | p1_mqtt/p1/parser.py:71-99 | one cut, trimmed to its last `/`, dropped on a stray `!` or a failed construction, kept otherwise |
| Parser.NoSlashCleared | p1_mqtt/p1/parser.py:43-50 | a buffer without `/` is cut nowhere and cleared |
| Parser.FromFirstSlash | p1_mqtt/p1/parser.py:52-55 | the bytes before the first `/` change neither cuts nor residue |
| Parser.NoMarkerKept | p1_mqtt/p1/parser.py:101-103 | a buffer from `/` with no terminator is kept whole |
| Parser.MarkerCut | p1_mqtt/p1/parser.py:59-63 | a buffer from `/` is cut at the end of its first terminator |
| Parser.MarkerResidue | p1_mqtt/p1/parser.py:62-63 | what is left after the cut is what the rest leaves |
| Parser.YieldMember | p1_mqtt/p1/parser.py:84-99 | a cut yields a telegram exactly when, trimmed, it holds at most one `!` and builds that telegram |
| Parser.YieldAllMembers | p1_mqtt/p1/parser.py:71-99 | a telegram is returned exactly when some cut yields it |
| Parser.ResidueShape | p1_mqtt/p1/parser.py:43-63 | the residue is a suffix of the stream, is empty or starts with `/`, holds no terminator, and is empty when the stream has no `/` |
| Parser.CutsShape | p1_mqtt/p1/parser.py:59-79 | every trimmed cut starts with `/`, holds no other `/`, and ends with `\r\n!` and four hex digits |
| Parser.TrimmedShape | p1_mqtt/p1/parser.py:71-79 | trimming a cut from `/` to a terminator gives such a candidate |
| Parser.FeedInPieces | p1_mqtt/p1/parser.py:26-105 | feeding a stream in two pieces gives the same telegrams and the same residue as feeding it whole |
| Parser.FeedAsWrittenFindsNothing | p1_mqtt/p1/parser.py:91-97 | as written, every candidate fails construction and is dropped |
| Parser.StreamAsWrittenFindsNothing | p1_mqtt/p1/parser.py:26-105 | as written, no stream ever yields a telegram |
| Parser.FrameFound | p1_mqtt/p1/parser.py:26-105 | with the corrected check, a frame after noise without `/` is one cut, leaves nothing behind, and yields the telegram it builds |
| Parser.FrameOneBang | p1_mqtt/p1/parser.py:84-86 | a frame holds exactly one `!`, so it is never dropped as a stray end marker |
| P1io.ToRead | p1_mqtt/p1io.py:183 | the request is `max(64, source_read_size)`, so at least 64 bytes |
| P1io.Next | p1_mqtt/p1io.py:201-230 | no telegram resets the read size and clears sync; otherwise the last telegram's length becomes the telegram size, the read size is that minus the residue, and sync holds exactly when the residue is empty or it held and the size stayed |
| P1io.SyncChanges | p1_mqtt/p1io.py:201-228 | sync is gained only with an empty parser, and lost only on a read without telegrams or a change of size |
| P1io.NextSettles | p1_mqtt/p1io.py:230 | after any read the read size is at most the telegram size |
| P1io.SteadyState | p1_mqtt/p1io.py:214-230 | in sync, one more telegram of the same size with nothing left keeps the state |
| P1io.StepAsWrittenRaises | p1_mqtt/p1io.py:226-230 | as written, the first read that brings a telegram raises TypeError |
| P1io.NextAsWritten | p1_mqtt/p1io.py:201-230 | the state update as written: it succeeds exactly when no telegram came, and then agrees with the corrected update `Next` whatever the parser holds; otherwise a TypeError |
| P1io.FrameKeepsSync | p1_mqtt/p1io.py:183-230 | in sync on a frame of at least 64 bytes, reading it yields its one telegram, empties the parser and keeps the state |
| P1io.ReadLoop.constructor | p1_mqtt/p1io.py:120-134 | the state starts at (0, 1024, not in sync) over a fresh, empty parser |
| P1io.ReadLoop.Turn | p1_mqtt/p1io.py:183-230 | a read of the wrong length raises RuntimeError; otherwise the parser is fed and the state moves as `Next` says |
| P1io.ReadLoop.Update | p1_mqtt/p1io.py:201-230 | the state update after a feed, reading `len(parser)`, which `P1Parser` does not define, as the length of the parser's residual buffer (`Pending`): the new state is `Next` of the old one with that length |
| P1io.Recv | p1_mqtt/p1io.py:65 | `recv(size)` returns at most `size` bytes |
| P1io.RecvMeaning | p1_mqtt/p1io.py:65-70 | `recv` loses no bytes and keeps their order, and returns bytes exactly when some arrive before a timeout or end of stream |
| P1io.TcpReader.constructor | p1_mqtt/p1io.py:43 | the reader starts with an empty buffer |
| P1io.TcpReader.Read | p1_mqtt/p1io.py:56-77 | exactly `size` bytes when that many arrive before a timeout or end of stream, otherwise none; no byte is lost and the surplus stays buffered |

## Left out

- p1_mqtt/mqtt.py, p1_mqtt/cli.py and p1_mqtt/p1serial.py are not part of this model. They cover the MQTT client and its thread, configuration, the process supervisor, and an older copy of the read heuristic.
- p1_mqtt/p1/objects/ is not part of this model. It is an older copy of the registry that the package does not import.
- Logging, the dump file, serial-port and socket setup, and `SystemExit` on a refused connection are left out: they are I/O around the core.
- The forwarding loop of `p1io_main` (p1_mqtt/p1io.py:234-247) is left out. It splits each telegram by channel and puts `to_mqtt()` on a multiprocessing queue, swallowing errors; the two operations it calls are modelled.
- `time.time()` is a parameter of `Telegram.ToMqtt`, and the data source is the `data` parameter of `P1io.ReadLoop.Turn`.
- Text.ParseFloat: floats are exact decimals from a sign, digits and an optional fraction. Exponents, `inf`, `nan` and underscores are not accepted, and binary rounding is not modelled. Leaving out underscores here while `Text.ParseInt` accepts them is deliberate: a meter writes its numeric values as digits with an optional decimal point, so the smaller grammar covers every value a telegram carries, and an input with underscores is, like one with an exponent, a case where the model returns None while Python returns a number.
- P1Object.DecodeTst: `pytz` is replaced by the two fixed offsets it is asked for (UTC+1 and UTC+2), and `_utc_unixtime` by integer calendar arithmetic.
- Text.Lower: only ASCII capitals are lowered, while Python's `str.lower` also maps non-ASCII capitals such as `Ä`. The only text lowered is the snake-cased class names, which are ASCII, so the difference never shows.
- P1io.TcpReader.Read: the size is a `nat`; `recv` with a negative size is not modelled.
- P1io.FrameKeepsSync: proved only for frames of at least 64 bytes, because a shorter request is raised to 64.
- `SupportsDeviceID`: p1_mqtt/p1/telegram.py:11 imports it from p1_mqtt/p1/p1object.py, which defines only `SupportsUnixtimestamp` (p1_mqtt/p1/p1object.py:17-23). As written, importing telegram.py therefore raises ImportError, and so does importing parser.py, which imports it; no operation modelled here could run. The model assumes the name resolves to a Protocol like `SupportsUnixtimestamp`, as its use in the `cast` at p1_mqtt/p1/telegram.py:213-216 implies.
- The length test of `P1LongFailureLog` (p1_mqtt/p1/objects.py:251-252) builds a ValueError without raising it. It is modelled as a test whose result is unused (`Objects.LengthCheckIgnored`), not as a finding, because the intended condition is unclear.

## Findings

| source | as written | input that shows it | evidently intended | confidence | as-written member | corrected member |
|---|---|---|---|---|---|---|
| p1_mqtt/p1/telegram.py:80 | the checksum digits are read at `buf[-6:-2]` and the CRC taken over `buf[:-6]`, as if two bytes followed the digits; the parser's candidates end right after the digits (p1_mqtt/p1/parser.py:59-62), so the slot is `\n!` plus two digits, `int(..., 16)` raises ValueError, and `feed` never returns a telegram | any valid frame, such as `/X` CR LF `!` followed by its four CRC digits | read the four digits after the last `!` and take the CRC over everything up to that `!` | not executed | Parser.StreamAsWrittenFindsNothing | Parser.FrameFound |
| p1_mqtt/p1/telegram.py:215-219 | `x.is_device_id` is set only by the two identifier classes, and `P1Object.__init__` sets the attribute `device_id = None`, which hides the `device_id()` method (p1_mqtt/p1/p1object.py:103) | a telegram holding a `P1Timestamp` raises AttributeError; a telegram holding only a `P1EquipmentIdentfier` raises TypeError | the flag is false unless set, and the method returns the identifier as ASCII text | not executed | Telegram.DeviceIdNeverFound | Telegram.DeviceIdUnique |
| p1_mqtt/p1io.py:226 | `len(parser)` on a `P1Parser`, which defines no `__len__` (p1_mqtt/p1/parser.py:15-105) | the first read from which `feed` returns a telegram raises TypeError | the length of the parser's residual buffer | not executed | P1io.StepAsWrittenRaises | P1io.ReadLoop.Update |
