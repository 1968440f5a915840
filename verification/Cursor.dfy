/** The ticket cursor: `base64url(isoformat(created_at) + " | " + str(id))`. */
module Cursor {
  import opened Prelude

  // ------------------------------------------------------------------
  // Fixed-width numerals in base 10 or 16
  // ------------------------------------------------------------------

  type Base = b: nat | b == 10 || b == 16 witness 10

  function Pow(b: Base, k: nat): (r: nat)
    ensures r > 0
  {
    if k == 0 then 1 else if b == 10 then 10 * Pow(b, k - 1) else 16 * Pow(b, k - 1)
  }

  function High(n: nat, b: Base): nat {
    if b == 10 then n / 10 else n / 16
  }

  function Low(n: nat, b: Base): (d: nat)
    ensures d < b
  {
    if b == 10 then n % 10 else n % 16
  }

  function Join(high: nat, low: nat, b: Base): nat {
    if b == 10 then high * 10 + low else high * 16 + low
  }

  /** Characters the two formatters may write: ASCII, and never the separator's bar. */
  predicate Plain(s: string) {
    forall i :: 0 <= i < |s| ==> s[i] as int < 128 && s[i] != '|'
  }

  function DigitText(n: nat, b: Base, k: nat): (s: string)
    ensures |s| == k && Plain(s)
  {
    if k == 0 then "" else DigitText(High(n, b), b, k - 1) + [DigitChar(Low(n, b))]
  }

  function ParseDigits(s: string, b: Base): Option<nat> {
    if s == "" then Some(0)
    else
      var last := DigitOf(s[|s| - 1]);
      match ParseDigits(s[..|s| - 1], b)
      case Some(n) => if last < b then Some(Join(n, last, b)) else None
      case None => None
  }

  lemma {:induction false} DigitsRoundTrip(n: nat, b: Base, k: nat)
    requires n < Pow(b, k)
    ensures ParseDigits(DigitText(n, b, k), b) == Some(n)
  {
    if k > 0 {
      DigitsRoundTrip(High(n, b), b, k - 1);
      assert DigitText(n, b, k)[..k - 1] == DigitText(High(n, b), b, k - 1);
    }
  }

  // ------------------------------------------------------------------
  // UUIDs (section 4 of RFC 9562): 128 bits, written 8-4-4-4-12 in hexadecimal
  // ------------------------------------------------------------------

  type Uuid = n: nat | n < Pow(16, 32) witness 0

  function UuidText(id: Uuid): (s: string)
    ensures Plain(s)
  {
    var h := DigitText(id, 16, 32);
    h[..8] + ("-" + (h[8..12] + ("-" + (h[12..16] + ("-" + (h[16..20] + ("-" + h[20..])))))))
  }

  function DropDashes(s: string): string {
    if s == "" then ""
    else if s[0] == '-' then DropDashes(s[1..])
    else [s[0]] + DropDashes(s[1..])
  }

  /** `UUID(text)`: hyphens are ignored wherever they stand, then 32 hexadecimal digits are read. */
  function ParseUuid(s: string): Option<Uuid> {
    var h := DropDashes(s);
    match ParseDigits(h, 16)
    case Some(n) => if |h| == 32 && n < Pow(16, 32) then Some(n) else None
    case None => None
  }

  lemma {:induction false} DropDashesAppend(a: string, b: string)
    requires '-' !in a
    ensures DropDashes(a + ("-" + b)) == a + DropDashes(b)
  {
    if a == "" {
      assert a + ("-" + b) == "-" + b && ("-" + b)[1..] == b;
    } else {
      assert (a + ("-" + b))[1..] == a[1..] + ("-" + b);
      DropDashesAppend(a[1..], b);
    }
  }

  lemma {:induction false} DropNoDashes(s: string)
    requires '-' !in s
    ensures DropDashes(s) == s
  {
    if s != "" {
      DropNoDashes(s[1..]);
    }
  }

  lemma {:induction false} DigitsHaveNoDash(n: nat, b: Base, k: nat)
    ensures '-' !in DigitText(n, b, k)
  {
    if k > 0 {
      DigitsHaveNoDash(High(n, b), b, k - 1);
    }
  }

  lemma UuidRoundTrip(id: Uuid)
    ensures ParseUuid(UuidText(id)) == Some(id)
  {
    var h := DigitText(id, 16, 32);
    DigitsHaveNoDash(id, 16, 32);
    var e := h[20..];
    DropNoDashes(e);
    var d := h[16..20] + ("-" + e);
    DropDashesAppend(h[16..20], e);
    var c := h[12..16] + ("-" + d);
    DropDashesAppend(h[12..16], d);
    var b := h[8..12] + ("-" + c);
    DropDashesAppend(h[8..12], c);
    DropDashesAppend(h[..8], b);
    assert h[..8] + (h[8..12] + (h[12..16] + (h[16..20] + e))) == h;
    DigitsRoundTrip(id, 16, 32);
  }

  // ------------------------------------------------------------------
  // Timestamps: a calendar date and time with an optional UTC offset
  // ------------------------------------------------------------------

  /** A UTC offset strictly between minus and plus 24 hours; zero is never negative. */
  datatype Offset = Offset(negative: bool, hours: nat, minutes: nat, seconds: nat, micros: nat) {
    predicate Valid() {
      hours < 24 && minutes < 60 && seconds < 60 && micros < 1000000
      && (negative ==> hours + minutes + seconds + micros > 0)
    }
  }

  predicate LeapYear(y: nat) {
    y % 4 == 0 && (y % 100 != 0 || y % 400 == 0)
  }

  function DaysInMonth(y: nat, m: nat): nat {
    if m == 2 then (if LeapYear(y) then 29 else 28)
    else if m in {4, 6, 9, 11} then 30
    else 31
  }

  datatype RawStamp = RawStamp(year: nat, month: nat, day: nat, hour: nat, minute: nat, second: nat, micro: nat, offset: Option<Offset>) {
    predicate Valid() {
      1 <= year <= 9999 && 1 <= month <= 12 && 1 <= day <= DaysInMonth(year, month)
      && hour < 24 && minute < 60 && second < 60 && micro < 1000000
      && (offset.Some? ==> offset.value.Valid())
    }
  }

  // The proleptic Gregorian calendar, and clocks and offsets as `datetime` admits them.
  lemma ValidIff(t: RawStamp)
    ensures t.Valid() <==>
      && 1 <= t.year && t.year <= 9999 && 1 <= t.month && t.month <= 12 && 1 <= t.day
      && t.day <= (match t.month
                   case 1 => 31 case 3 => 31 case 5 => 31 case 7 => 31 case 8 => 31 case 10 => 31 case 12 => 31
                   case 2 => if t.year % 400 == 0 then 29 else if t.year % 100 == 0 then 28 else if t.year % 4 == 0 then 29 else 28
                   case _ => 30)
      && t.hour <= 23 && t.minute <= 59 && t.second <= 59 && t.micro <= 999999 && (t.offset.Some? ==> t.offset.value.Valid())
    ensures t.offset.Some? ==>
      var o := t.offset.value;
      o.Valid() <==> o.hours <= 23 && o.minutes <= 59 && o.seconds <= 59 && o.micros <= 999999 && (o.negative ==> o != Offset(true, 0, 0, 0, 0))
  {
    assert t.year % 400 == 0 ==> t.year == 4 * (100 * (t.year / 400));
  }

  type Stamp = t: RawStamp | t.Valid() witness RawStamp(1, 1, 1, 0, 0, 0, 0, None)

  /** One numeric field of a timestamp: a leading character, a width and a value. */
  datatype Field = Field(lead: char, width: nat, value: nat) {
    predicate Fits() {
      value < Pow(10, width)
    }
  }

  /** No field begins with the separator, or with anything outside ASCII. */
  predicate Tidy(fs: seq<Field>) {
    forall i :: 0 <= i < |fs| ==> fs[i].lead as int < 128 && fs[i].lead != '|'
  }

  function Fields(fs: seq<Field>): (s: string)
    requires Tidy(fs)
    ensures Plain(s)
  {
    if fs == [] then "" else [fs[0].lead] + DigitText(fs[0].value, 10, fs[0].width) + Fields(fs[1..])
  }

  /** Reads fields of the given leads and widths, and returns what follows them. */
  function ReadFields(shape: seq<(char, nat)>, s: string): (r: Option<(seq<nat>, string)>)
    ensures r.Some? ==> |r.value.0| == |shape|
  {
    if shape == [] then Some(([], s))
    else
      var (lead, width) := shape[0];
      if |s| < 1 + width || s[0] != lead then None
      else
        match (ParseDigits(s[1..1 + width], 10), ReadFields(shape[1..], s[1 + width..]))
        case (Some(n), Some((ns, rest))) => Some(([n] + ns, rest))
        case _ => None
  }

  function Shape(fs: seq<Field>): (shape: seq<(char, nat)>)
    ensures |shape| == |fs|
  {
    if fs == [] then [] else [(fs[0].lead, fs[0].width)] + Shape(fs[1..])
  }

  function Values(fs: seq<Field>): seq<nat> {
    if fs == [] then [] else [fs[0].value] + Values(fs[1..])
  }

  lemma ReadOneField(f: Field, shape: seq<(char, nat)>, rest: string)
    requires f.Fits()
    ensures ReadFields([(f.lead, f.width)] + shape, [f.lead] + DigitText(f.value, 10, f.width) + rest)
         == match ReadFields(shape, rest)
            case Some((ns, after)) => Some(([f.value] + ns, after))
            case None => None
  {
    var digits := DigitText(f.value, 10, f.width);
    var s := [f.lead] + digits + rest;
    assert s[1..1 + f.width] == digits && s[1 + f.width..] == rest;
    DigitsRoundTrip(f.value, 10, f.width);
    assert ([(f.lead, f.width)] + shape)[1..] == shape;
  }

  lemma FirstField(fs: seq<Field>, rest: string)
    requires fs != [] && Tidy(fs)
    ensures Tidy(fs[1..])
    ensures Fields(fs) + rest == [fs[0].lead] + DigitText(fs[0].value, 10, fs[0].width) + (Fields(fs[1..]) + rest)
  {
  }

  lemma {:induction false} FieldsRoundTrip(fs: seq<Field>, rest: string)
    requires Tidy(fs) && forall i :: 0 <= i < |fs| ==> fs[i].Fits()
    ensures ReadFields(Shape(fs), Fields(fs) + rest) == Some((Values(fs), rest))
  {
    if fs == [] {
      assert Fields(fs) + rest == rest;
    } else {
      FirstField(fs, rest);
      FieldsRoundTrip(fs[1..], rest);
      ReadOneField(fs[0], Shape(fs[1..]), Fields(fs[1..]) + rest);
    }
  }

  lemma DecimalBounds()
    ensures Pow(10, 2) == 100 && Pow(10, 4) == 10000 && Pow(10, 6) == 1000000
  {
    assert Pow(10, 1) == 10 * Pow(10, 0);
    assert Pow(10, 3) == 10 * Pow(10, 2);
    assert Pow(10, 5) == 10 * Pow(10, 4);
  }

  function ClockFields(t: Stamp): seq<Field> {
    [Field('-', 2, t.month), Field('-', 2, t.day), Field('T', 2, t.hour), Field(':', 2, t.minute), Field(':', 2, t.second)]
  }

  function FractionFields(micro: nat): seq<Field> {
    if micro == 0 then [] else [Field('.', 6, micro)]
  }

  function HourMinuteFields(o: Offset): seq<Field> {
    [Field(if o.negative then '-' else '+', 2, o.hours), Field(':', 2, o.minutes)]
  }

  function SecondFields(o: Offset): seq<Field> {
    if o.seconds == 0 && o.micros == 0 then [] else [Field(':', 2, o.seconds)]
  }

  function OffsetText(offset: Option<Offset>): (s: string)
    ensures Plain(s)
  {
    match offset
    case None => ""
    case Some(o) => Fields(HourMinuteFields(o)) + (Fields(SecondFields(o)) + Fields(FractionFields(o.micros)))
  }

  /** `datetime.isoformat()` */
  function IsoText(t: Stamp): (s: string)
    ensures Plain(s)
  {
    DigitText(t.year, 10, 4) + (Fields(ClockFields(t)) + (Fields(FractionFields(t.micro)) + OffsetText(t.offset)))
  }

  lemma OneField(f: Field, fs: seq<Field>)
    requires Tidy([f] + fs)
    ensures Tidy(fs) && Fields([f] + fs) == [f.lead] + DigitText(f.value, 10, f.width) + Fields(fs)
  {
    assert ([f] + fs)[1..] == fs && ([f] + fs)[0] == f;
    assert forall i :: 0 <= i < |fs| ==> fs[i] == ([f] + fs)[i + 1];
  }

  // As `datetime.isoformat` writes it: microseconds and the parts of the offset only where there are any.
  lemma IsoTail(micro: nat, o: Offset)
    ensures Fields(FractionFields(micro)) == if micro == 0 then "" else "." + DigitText(micro, 10, 6)
    ensures Fields(SecondFields(o)) == if o.seconds == 0 && o.micros == 0 then "" else ":" + DigitText(o.seconds, 10, 2)
    ensures Fields(HourMinuteFields(o)) ==
      (if o.negative then "-" else "+") + DigitText(o.hours, 10, 2) + (":" + DigitText(o.minutes, 10, 2) + "")
  {
    OneField(Field('.', 6, micro), []);
    OneField(Field(':', 2, o.seconds), []);
    var fs := HourMinuteFields(o);
    OneField(fs[1], []);
    OneField(fs[0], fs[1..]);
    assert [Field('.', 6, micro)] == [Field('.', 6, micro)] + [] && [Field(':', 2, o.seconds)] == [Field(':', 2, o.seconds)] + [];
    assert fs[1..] == [fs[1]] + [] && fs == [fs[0]] + fs[1..];
  }

  lemma DigitsAre()
    ensures DigitText(7, 10, 2) == "07" && DigitText(31, 10, 2) == "31" && DigitText(0x3f, 16, 3) == "03f"
  {
  }

  /** An optional `.ffffff`, and what follows it. */
  function ReadFraction(s: string): Option<(nat, string)> {
    if s != "" && s[0] == '.' then
      match ReadFields([('.', 6)], s)
      case Some((ns, rest)) => Some((ns[0], rest))
      case None => None
    else Some((0, s))
  }

  lemma FractionRoundTrip(micro: nat, rest: string)
    requires micro < 1000000 && (rest != "" ==> rest[0] != '.')
    ensures ReadFraction(Fields(FractionFields(micro)) + rest) == Some((micro, rest))
  {
    DecimalBounds();
    FieldsRoundTrip(FractionFields(micro), rest);
    if micro == 0 {
      assert Fields(FractionFields(micro)) + rest == rest;
    } else {
      assert Shape(FractionFields(micro)) == [('.', 6)];
    }
  }

  function ReadSeconds(s: string): Option<(nat, string)> {
    if s != "" && s[0] == ':' then
      match ReadFields([(':', 2)], s)
      case Some((ns, rest)) => Some((ns[0], rest))
      case None => None
    else Some((0, s))
  }

  /** The offset that makes up the whole of `s`; Some(None) for a naive time. */
  function ReadOffset(s: string): Option<Option<Offset>> {
    if s == "" then Some(None)
    else if s[0] != '+' && s[0] != '-' then None
    else
      match ReadFields([(s[0], 2), (':', 2)], s)
      case None => None
      case Some((hm, tail)) =>
        match ReadSeconds(tail)
        case None => None
        case Some((sec, tail)) =>
          match ReadFraction(tail)
          case None => None
          case Some((us, tail)) =>
            var o := Offset(s[0] == '-' && hm[0] + hm[1] + sec + us > 0, hm[0], hm[1], sec, us);
            if tail == "" && o.Valid() then Some(Some(o)) else None
  }

  lemma SecondsRoundTrip(o: Offset)
    requires o.Valid()
    ensures var tail := Fields(FractionFields(o.micros));
      ReadSeconds(Fields(SecondFields(o)) + tail) == Some((o.seconds, tail))
  {
    DecimalBounds();
    var tail := Fields(FractionFields(o.micros));
    FieldsRoundTrip(SecondFields(o), tail);
    if SecondFields(o) == [] {
      assert Fields(SecondFields(o)) + tail == tail;
    } else {
      assert Shape(SecondFields(o)) == [(':', 2)] && Values(SecondFields(o)) == [o.seconds];
    }
  }

  lemma HourMinuteRoundTrip(o: Offset, tail: string)
    requires o.Valid()
    ensures ReadFields([(if o.negative then '-' else '+', 2), (':', 2)], Fields(HourMinuteFields(o)) + tail)
      == Some(([o.hours, o.minutes], tail))
  {
    DecimalBounds();
    var hm := HourMinuteFields(o);
    assert hm[1..] == [Field(':', 2, o.minutes)];
    assert Shape(hm[1..]) == [(':', 2)] && Values(hm[1..]) == [o.minutes];
    assert Values(hm) == [o.hours] + [o.minutes] == [o.hours, o.minutes];
    assert Shape(hm) == [(hm[0].lead, 2), (':', 2)];
    FieldsRoundTrip(hm, tail);
  }

  lemma SignLeads(o: Offset, tail: string)
    ensures var s := Fields(HourMinuteFields(o)) + tail; s != "" && s[0] == if o.negative then '-' else '+'
  {
  }

  /** Reading an offset from its three parts. */
  lemma ReadParts(s: string, tail: string, rest: string, o: Offset)
    requires o.Valid() && s != "" && s[0] == (if o.negative then '-' else '+')
    requires ReadFields([(s[0], 2), (':', 2)], s) == Some(([o.hours, o.minutes], tail))
    requires ReadSeconds(tail) == Some((o.seconds, rest)) && ReadFraction(rest) == Some((o.micros, ""))
    ensures ReadOffset(s) == Some(Some(o))
  {
  }

  lemma SomeOffsetRoundTrip(o: Offset)
    requires o.Valid()
    ensures ReadOffset(OffsetText(Some(o))) == Some(Some(o))
  {
    var fraction := Fields(FractionFields(o.micros));
    var tail := Fields(SecondFields(o)) + fraction;
    SignLeads(o, tail);
    HourMinuteRoundTrip(o, tail);
    SecondsRoundTrip(o);
    FractionRoundTrip(o.micros, "");
    assert fraction + "" == fraction;
    assert OffsetText(Some(o)) == Fields(HourMinuteFields(o)) + tail;
    ReadParts(Fields(HourMinuteFields(o)) + tail, tail, fraction, o);
  }

  lemma OffsetRoundTrip(offset: Option<Offset>)
    requires offset.Some? ==> offset.value.Valid()
    ensures ReadOffset(OffsetText(offset)) == Some(offset)
  {
    if offset.Some? {
      SomeOffsetRoundTrip(offset.value);
    }
  }

  /** `datetime.fromisoformat()`, on the layout `isoformat` writes. */
  function ParseIso(s: string): Option<Stamp> {
    if |s| < 4 then None
    else
      match (ParseDigits(s[..4], 10), ReadFields([('-', 2), ('-', 2), ('T', 2), (':', 2), (':', 2)], s[4..]))
      case (Some(year), Some((ns, tail))) =>
        (match ReadFraction(tail)
         case None => None
         case Some((micro, tail)) =>
           match ReadOffset(tail)
           case None => None
           case Some(offset) =>
             var t := RawStamp(year, ns[0], ns[1], ns[2], ns[3], ns[4], micro, offset);
             if t.Valid() then Some(t) else None)
      case _ => None
  }

  lemma IsoRoundTrip(t: Stamp)
    ensures ParseIso(IsoText(t)) == Some(t)
  {
    DecimalBounds();
    var s := IsoText(t);
    var zone := OffsetText(t.offset);
    var tail := Fields(FractionFields(t.micro)) + zone;
    assert s[..4] == DigitText(t.year, 10, 4) && s[4..] == Fields(ClockFields(t)) + tail;
    DigitsRoundTrip(t.year, 10, 4);
    ClockShape(t);
    FieldsRoundTrip(ClockFields(t), tail);
    FractionRoundTrip(t.micro, zone);
    OffsetRoundTrip(t.offset);
  }

  lemma ClockShape(t: Stamp)
    ensures Shape(ClockFields(t)) == [('-', 2), ('-', 2), ('T', 2), (':', 2), (':', 2)]
    ensures Values(ClockFields(t)) == [t.month, t.day, t.hour, t.minute, t.second]
    ensures forall f :: f in ClockFields(t) ==> f.Fits()
  {
    DecimalBounds();
    var fs := ClockFields(t);
    assert Shape(fs[5..]) == [] && Values(fs[5..]) == [];
    assert Shape(fs[4..]) == [(':', 2)] && Values(fs[4..]) == [t.second] by { assert fs[4..][1..] == fs[5..]; }
    assert Shape(fs[3..]) == [(':', 2), (':', 2)] && Values(fs[3..]) == [t.minute, t.second] by { assert fs[3..][1..] == fs[4..]; }
    assert Shape(fs[2..]) == [('T', 2), (':', 2), (':', 2)] && Values(fs[2..]) == [t.hour, t.minute, t.second] by { assert fs[2..][1..] == fs[3..]; }
    assert fs[1..][1..] == fs[2..];
  }

  // ------------------------------------------------------------------
  // Base64 (section 5 of RFC 4648)
  // ------------------------------------------------------------------

  type Byte = n: nat | n < 256
  type Six = n: nat | n < 64

  function SixChar(v: Six): char {
    if v < 26 then ('A' as int + v) as char
    else if v < 52 then ('a' as int + v - 26) as char
    else if v < 62 then ('0' as int + v - 52) as char
    else if v == 62 then '-' else '_'
  }

  /** The six-bit value of a character; 64 for a character outside the alphabet.
      The URL-safe characters are first translated to the standard ones, so both are read. */
  function SixBits(c: char): nat {
    if 'A' <= c <= 'Z' then c as int - 'A' as int
    else if 'a' <= c <= 'z' then c as int - 'a' as int + 26
    else if '0' <= c <= '9' then c as int - '0' as int + 52
    else if c == '-' || c == '+' then 62
    else if c == '_' || c == '/' then 63
    else 64
  }

  function Quad(c0: char, c1: char, c2: char, c3: char, rest: string): string {
    [c0] + ([c1] + ([c2] + ([c3] + rest)))
  }

  function Base64(bs: seq<Byte>): string {
    if |bs| == 0 then ""
    else
      var c0 := SixChar(bs[0] / 4);
      if |bs| == 1 then Quad(c0, SixChar(bs[0] % 4 * 16), '=', '=', "")
      else
        var c1 := SixChar(bs[0] % 4 * 16 + bs[1] / 16);
        if |bs| == 2 then Quad(c0, c1, SixChar(bs[1] % 16 * 4), '=', "")
        else Quad(c0, c1, SixChar(bs[1] % 16 * 4 + bs[2] / 64), SixChar(bs[2] % 64), Base64(bs[3..]))
  }

  // Test vectors of section 10 of RFC 4648, and the two characters of its URL-safe alphabet.
  lemma Base64Is()
    ensures Base64([102]) == "Zg==" && Base64([102, 111]) == "Zm8=" && Base64([0xfb, 0xff]) == "-_8="
  {
  }

  lemma Base64Threes(a: Byte, b: Byte, c: Byte, rest: seq<Byte>)
    ensures Base64([a, b, c] + rest) ==
      Quad(SixChar(a / 4), SixChar(a % 4 * 16 + b / 16), SixChar(b % 16 * 4 + c / 64), SixChar(c % 64), Base64(rest))
    ensures SixChar(102 / 4) == 'Z' && SixChar(102 % 4 * 16 + 111 / 16) == 'm' && SixChar(111 % 16 * 4 + 111 / 64) == '9' && SixChar(111 % 64) == 'v'
  {
    assert ([a, b, c] + rest)[3..] == rest;
  }

  predicate ScanState(quad: nat, left: nat) {
    (quad == 0 && left == 0) || (quad == 1 && left < 64) || (quad == 2 && left < 16) || (quad == 3 && left < 4)
  }

  /** The decoder's scan: `quad` characters of the current group are read, `left` holds their
      unused bits and `pads` counts padding. Foreign characters are skipped; enough padding
      stops the scan; an unfinished group is an error. */
  function Scan(s: string, quad: nat, left: nat, pads: nat): Option<seq<Byte>>
    requires ScanState(quad, left)
    decreases |s|, 0
  {
    if s == "" then (if quad == 0 then Some([]) else None)
    else if s[0] == '=' then
      if quad >= 2 && quad + pads + 1 >= 4 then Some([])
      else Scan(s[1..], quad, left, if quad >= 2 then pads + 1 else pads)
    else if SixBits(s[0]) >= 64 then Scan(s[1..], quad, left, pads)
    else Digest(SixBits(s[0]), s[1..], quad, left)
  }

  function Digest(v: Six, rest: string, quad: nat, left: nat): Option<seq<Byte>>
    requires ScanState(quad, left)
    decreases |rest|, 1
  {
    if quad == 0 then Scan(rest, 1, v, 0)
    else if quad == 1 then Emit(left * 4 + v / 16, Scan(rest, 2, v % 16, 0))
    else if quad == 2 then Emit(left * 16 + v / 4, Scan(rest, 3, v % 4, 0))
    else Emit(left * 64 + v, Scan(rest, 0, 0, 0))
  }

  function Emit(b: Byte, rest: Option<seq<Byte>>): Option<seq<Byte>> {
    match rest
    case Some(bs) => Some([b] + bs)
    case None => None
  }

  // Foreign characters are skipped, padding ends the text once it fills its group, and a group cut short is an error.
  lemma ScanIs(rest: string, quad: nat, left: nat, pads: nat)
    requires ScanState(quad, left)
    ensures Scan([' '] + rest, quad, left, pads) == Scan(rest, quad, left, pads)
    ensures quad == 2 ==> Scan(['=', '='] + rest, quad, left, 0) == Some([])
    ensures quad == 3 ==> Scan(['='] + rest, quad, left, 0) == Some([])
    ensures quad != 0 ==> Scan("", quad, left, pads) == None
    ensures quad == 2 ==> Scan(['='], quad, left, 0) == None
    ensures quad == 1 ==> Scan(['Z', '='], quad, left, 0) == None
  {
    assert ([' '] + rest)[1..] == rest && (['=', '='] + rest)[1..] == ['='] + rest && ['='][1..] == "" && ['Z', '='][1..] == ['='];
  }

  lemma ScanOne(v: Six, rest: string, quad: nat, left: nat)
    requires ScanState(quad, left)
    ensures Scan([SixChar(v)] + rest, quad, left, 0) == Digest(v, rest, quad, left)
  {
    var s := [SixChar(v)] + rest;
    assert s[1..] == rest && s[0] == SixChar(v);
    assert SixBits(SixChar(v)) == v;
  }

  lemma ScanOneByte(b: Byte)
    ensures Scan(Base64([b]), 0, 0, 0) == Some([b])
  {
    var tail := ['='] + (['='] + "");
    ScanOne(b / 4, [SixChar(b % 4 * 16)] + tail, 0, 0);
    ScanOne(b % 4 * 16, tail, 1, b / 4);
    assert tail[1..] == ['='] + "";
    assert b % 4 * 16 % 16 == 0 && b / 4 * 4 + b % 4 * 16 / 16 == b;
    assert Scan(tail[1..], 2, 0, 1) == Some([]);
    assert Scan(tail, 2, 0, 0) == Some([]);
    assert [b] + [] == [b];
    assert Base64([b]) == [SixChar(b / 4)] + ([SixChar(b % 4 * 16)] + tail);
  }

  lemma ScanTwoBytes(b0: Byte, b1: Byte)
    ensures Scan(Base64([b0, b1]), 0, 0, 0) == Some([b0, b1])
  {
    var v0, v1, v2 := b0 / 4, b0 % 4 * 16 + b1 / 16, b1 % 16 * 4;
    var tail := ['='] + "";
    ScanOne(v0, [SixChar(v1)] + ([SixChar(v2)] + tail), 0, 0);
    ScanOne(v1, [SixChar(v2)] + tail, 1, v0);
    ScanOne(v2, tail, 2, v1 % 16);
    assert v0 * 4 + v1 / 16 == b0 && v1 % 16 * 16 + v2 / 4 == b1;
    assert Scan(tail, 3, v2 % 4, 0) == Some([]);
    assert [b0] + ([b1] + []) == [b0, b1];
    assert Base64([b0, b1]) == [SixChar(v0)] + ([SixChar(v1)] + ([SixChar(v2)] + tail));
  }

  lemma ScanThreeBytes(b0: Byte, b1: Byte, b2: Byte, rest: string)
    ensures Scan(Quad(SixChar(b0 / 4), SixChar(b0 % 4 * 16 + b1 / 16), SixChar(b1 % 16 * 4 + b2 / 64), SixChar(b2 % 64), rest), 0, 0, 0)
         == Emit(b0, Emit(b1, Emit(b2, Scan(rest, 0, 0, 0))))
  {
    var v0, v1, v2, v3 := b0 / 4, b0 % 4 * 16 + b1 / 16, b1 % 16 * 4 + b2 / 64, b2 % 64;
    ScanOne(v0, [SixChar(v1)] + ([SixChar(v2)] + ([SixChar(v3)] + rest)), 0, 0);
    ScanOne(v1, [SixChar(v2)] + ([SixChar(v3)] + rest), 1, v0);
    ScanOne(v2, [SixChar(v3)] + rest, 2, v1 % 16);
    ScanOne(v3, rest, 3, v2 % 4);
    assert v0 * 4 + v1 / 16 == b0 && v1 % 16 * 16 + v2 / 4 == b1 && v2 % 4 * 64 + v3 == b2;
  }

  lemma {:induction false} Base64RoundTrip(bs: seq<Byte>)
    ensures Scan(Base64(bs), 0, 0, 0) == Some(bs)
  {
    if |bs| == 1 {
      ScanOneByte(bs[0]);
      assert bs == [bs[0]];
    } else if |bs| == 2 {
      ScanTwoBytes(bs[0], bs[1]);
      assert bs == [bs[0], bs[1]];
    } else if |bs| > 2 {
      ScanThreeBytes(bs[0], bs[1], bs[2], Base64(bs[3..]));
      Base64RoundTrip(bs[3..]);
      assert bs == [bs[0]] + ([bs[1]] + ([bs[2]] + bs[3..]));
    }
  }

  /** Every character the formatters write is ASCII, so UTF-8 is one byte a character. */
  predicate Ascii(s: string) {
    forall i :: 0 <= i < |s| ==> s[i] as int < 128
  }

  function Utf8(s: string): seq<Byte>
    requires Ascii(s)
  {
    if s == "" then [] else var b: Byte := s[0] as int; [b] + Utf8(s[1..])
  }

  function FromUtf8(bs: seq<Byte>): Option<string> {
    if bs == [] then Some("")
    else
      match FromUtf8(bs[1..])
      case Some(s) => if bs[0] < 128 then Some([bs[0] as char] + s) else None
      case None => None
  }

  lemma {:induction false} Utf8RoundTrip(s: string)
    requires Ascii(s)
    ensures FromUtf8(Utf8(s)) == Some(s)
  {
    if s != "" {
      Utf8RoundTrip(s[1..]);
      assert s == [s[0]] + s[1..];
    }
  }

  // ------------------------------------------------------------------
  // str.split with a separator
  // ------------------------------------------------------------------

  const SEP := " | "

  function SplitOn(s: string, sep: string, from: nat): (parts: seq<string>)
    requires sep != "" && from <= |s|
    ensures |parts| >= 1
    decreases |s|, |s| - from
  {
    if |s| < from + |sep| then [s]
    else if s[from..from + |sep|] == sep then [s[..from]] + SplitOn(s[from + |sep|..], sep, 0)
    else SplitOn(s, sep, from + 1)
  }

  lemma {:induction false} NoBarNoSplit(s: string, from: nat)
    requires '|' !in s && from <= |s|
    ensures SplitOn(s, SEP, from) == [s]
    decreases |s| - from
  {
    if |s| >= from + 3 {
      assert s[from..from + 3][1] == s[from + 1];
      assert SEP[1] == '|';
      NoBarNoSplit(s, from + 1);
    }
  }

  lemma {:induction false} SplitAtTheOnlyBar(a: string, b: string, from: nat)
    requires '|' !in a && '|' !in b && from <= |a|
    ensures SplitOn(a + SEP + b, SEP, from) == [a, b]
    decreases |a| - from
  {
    var s := a + SEP + b;
    if from == |a| {
      assert s[from..from + 3] == SEP && s[..from] == a && s[from + 3..] == b;
      NoBarNoSplit(b, 0);
    } else {
      assert s[from..from + 3][1] == s[from + 1];
      assert s[from + 1] != '|';
      SplitAtTheOnlyBar(a, b, from + 1);
    }
  }

  // ------------------------------------------------------------------
  // The codec
  // ------------------------------------------------------------------

  function RawCursor(t: Stamp, id: Uuid): (s: string)
    ensures Ascii(s)
  {
    IsoText(t) + SEP + UuidText(id)
  }

  lemma RawCursorIs(t: Stamp, id: Uuid)
    ensures RawCursor(t, id) == IsoText(t) + " | " + UuidText(id)
    ensures |UuidText(id)| == 36 && forall i :: i in {8, 13, 18, 23} ==> UuidText(id)[i] == '-'
  {
  }

  function EncodeCursor(t: Stamp, id: Uuid): string {
    Base64(Utf8(RawCursor(t, id)))
  }

  /** None stands for the ValueError every failure is turned into. */
  function DecodeCursor(cursor: string): Option<(Stamp, Uuid)> {
    match Scan(cursor, 0, 0, 0)
    case None => None
    case Some(bs) =>
      match FromUtf8(bs)
      case None => None
      case Some(raw) =>
        var parts := SplitOn(raw, SEP, 0);
        if |parts| != 2 then None
        else
          match (ParseIso(parts[0]), ParseUuid(parts[1]))
          case (Some(t), Some(id)) => Some((t, id))
          case _ => None
  }

  lemma CursorRoundTrip(t: Stamp, id: Uuid)
    ensures DecodeCursor(EncodeCursor(t, id)) == Some((t, id))
  {
    Base64RoundTrip(Utf8(RawCursor(t, id)));
    Utf8RoundTrip(RawCursor(t, id));
    SplitAtTheOnlyBar(IsoText(t), UuidText(id), 0);
    IsoRoundTrip(t);
    UuidRoundTrip(id);
  }

  lemma CursorInjective(t: Stamp, id: Uuid, t': Stamp, id': Uuid)
    requires EncodeCursor(t, id) == EncodeCursor(t', id')
    ensures t == t' && id == id'
  {
    CursorRoundTrip(t, id);
    CursorRoundTrip(t', id');
  }

  lemma CursorNonEmpty(t: Stamp, id: Uuid)
    ensures EncodeCursor(t, id) != ""
  {
    CursorRoundTrip(t, id);
    assert Scan("", 0, 0, 0) == Some([]);
    assert SplitOn("", SEP, 0) == [""];
  }
}
