/** The answer stream: server-sent event frames and the widget's incremental line parser. */
module Sse {
  import opened Prelude

  // ------------------------------------------------------------------
  // Text on both sides of the wire
  // ------------------------------------------------------------------

  /** A Python string is a sequence of code points (lone surrogates included). */
  type CodePoint = c: nat | c < 0x110000
  type Text = seq<CodePoint>

  /** A JavaScript string is a sequence of UTF-16 units. */
  type Unit = u: nat | u < 0x10000
  type Units = seq<Unit>

  function Utf16One(c: CodePoint): Units {
    if c < 0x10000 then [c] else [0xd800 + (c - 0x10000) / 0x400, 0xdc00 + (c - 0x10000) % 0x400]
  }

  // Two surrogates for a code point beyond the first plane (section 2 of RFC 2781), else the code point itself.
  lemma Utf16Is(c: CodePoint)
    ensures c < 0x10000 ==> Utf16One(c) == [c]
    ensures c >= 0x10000 ==>
      |Utf16One(c)| == 2 && var hi: int, lo: int := Utf16One(c)[0], Utf16One(c)[1];
      0xd800 <= hi < 0xdc00 && 0xdc00 <= lo < 0xe000 && c == (hi - 0xd800) * 0x400 + (lo - 0xdc00) + 0x10000
  {
  }

  function Utf16(t: Text): Units {
    if t == [] then [] else Utf16One(t[0]) + Utf16(t[1..])
  }

  lemma {:induction false} Utf16Append(a: Text, b: Text)
    ensures Utf16(a + b) == Utf16(a) + Utf16(b)
  {
    if a == [] {
      assert a + b == b;
    } else {
      assert (a + b)[1..] == a[1..] + b;
      Utf16Append(a[1..], b);
    }
  }

  // ------------------------------------------------------------------
  // JSON strings (section 7 of RFC 8259), written in ASCII only
  // ------------------------------------------------------------------

  function EscapeUnit(u: Unit): string {
    ['\\', 'u', DigitChar(u / 0x1000), DigitChar(u / 0x100 % 16), DigitChar(u / 16 % 16), DigitChar(u % 16)]
  }

  const QUOTE := '\"'
  const BACKSLASH := '\\'

  function JsonChar(c: CodePoint): string {
    if c == 34 then [BACKSLASH, QUOTE]
    else if c == 92 then [BACKSLASH, BACKSLASH]
    else if c == 10 then [BACKSLASH, 'n']
    else if c == 13 then [BACKSLASH, 'r']
    else if c == 9 then [BACKSLASH, 't']
    else if c == 12 then [BACKSLASH, 'f']
    else if c == 8 then [BACKSLASH, 'b']
    else if 32 <= c <= 126 then [c as char]
    else if c < 0x10000 then EscapeUnit(c)
    else EscapeUnit(Utf16One(c)[0]) + EscapeUnit(Utf16One(c)[1])
  }

  lemma EscapesAre()
    ensures JsonChar(34) == "\\\"" && JsonChar(92) == "\\\\" && JsonChar(8) == "\\b" && JsonChar(9) == "\\t"
    ensures JsonChar(10) == "\\n" && JsonChar(12) == "\\f" && JsonChar(13) == "\\r" && JsonChar(32) == " " && JsonChar(126) == "~"
  {
  }

  lemma UnicodeEscapesAre()
    ensures JsonChar(0xe9) == "\\u00e9" && JsonChar(0x1f600) == "\\ud83d\\ude00"
  {
    assert EscapeUnit(0xd83d) == "\\ud83d" && EscapeUnit(0xde00) == "\\ude00";
  }

  function JsonChars(t: Text): string {
    if t == [] then "" else JsonChar(t[0]) + JsonChars(t[1..])
  }

  function JsonString(t: Text): string {
    [QUOTE] + JsonChars(t) + [QUOTE]
  }

  /** No character that could end a line or be trimmed away from inside. */
  predicate Printable(s: string) {
    forall i :: 0 <= i < |s| ==> 32 <= s[i] as int < 127
  }

  lemma JsonCharPrintable(c: CodePoint)
    ensures Printable(JsonChar(c))
  {
  }

  lemma {:induction false} JsonCharsPrintable(t: Text)
    ensures Printable(JsonChars(t))
  {
    if t != [] {
      JsonCharPrintable(t[0]);
      JsonCharsPrintable(t[1..]);
    }
  }

  function ShortEscape(c: char): Option<Unit> {
    if c == QUOTE || c == BACKSLASH || c == '/' then Some(c as int)
    else if c == 'n' then Some(10)
    else if c == 'r' then Some(13)
    else if c == 't' then Some(9)
    else if c == 'f' then Some(12)
    else if c == 'b' then Some(8)
    else None
  }

  function Prepend(us: Units, r: Option<(Units, string)>): Option<(Units, string)> {
    match r
    case Some((vs, rest)) => Some((us + vs, rest))
    case None => None
  }

  /** Reads string contents up to the closing quote; returns the units and what follows. */
  function ReadChars(s: string): Option<(Units, string)> {
    if s == "" then None
    else if s[0] == QUOTE then Some(([], s[1..]))
    else if s[0] != BACKSLASH then
      if 32 <= s[0] as int < 0x10000 then Prepend([s[0] as int], ReadChars(s[1..])) else None
    else if |s| < 2 then None
    else if s[1] == 'u' then
      if |s| < 6 then None
      else
        var a, b, c, d := DigitOf(s[2]), DigitOf(s[3]), DigitOf(s[4]), DigitOf(s[5]);
        if a < 16 && b < 16 && c < 16 && d < 16
        then Prepend([a * 0x1000 + b * 0x100 + c * 16 + d], ReadChars(s[6..]))
        else None
    else if ShortEscape(s[1]).Some? then Prepend([ShortEscape(s[1]).value], ReadChars(s[2..]))
    else None
  }

  lemma HexDigitsOf(u: Unit)
    ensures u == u / 0x1000 * 0x1000 + u / 0x100 % 16 * 0x100 + u / 16 % 16 * 16 + u % 16
  {
    var n := u / 16;
    assert u == n * 16 + u % 16;
    var m := u / 0x100;
    assert n == m * 16 + n % 16;
    assert m == u / 0x1000 * 16 + m % 16;
  }

  /** Four digits read as one unit. */
  lemma ReadFourDigits(a: char, b: char, c: char, d: char, rest: string)
    requires DigitOf(a) < 16 && DigitOf(b) < 16 && DigitOf(c) < 16 && DigitOf(d) < 16
    ensures ReadChars([BACKSLASH, 'u', a, b, c, d] + rest)
         == Prepend([DigitOf(a) * 0x1000 + DigitOf(b) * 0x100 + DigitOf(c) * 16 + DigitOf(d)], ReadChars(rest))
  {
    assert ([BACKSLASH, 'u', a, b, c, d] + rest)[6..] == rest;
  }

  lemma ReadEscapedUnit(u: Unit, rest: string)
    ensures ReadChars(EscapeUnit(u) + rest) == Prepend([u], ReadChars(rest))
  {
    var a, b, c, d := u / 0x1000, u / 0x100 % 16, u / 16 % 16, u % 16;
    DigitReadsBack(a);
    DigitReadsBack(b);
    DigitReadsBack(c);
    DigitReadsBack(d);
    HexDigitsOf(u);
    ReadFourDigits(DigitChar(a), DigitChar(b), DigitChar(c), DigitChar(d), rest);
  }

  lemma PrependTwice(us: Units, vs: Units, r: Option<(Units, string)>)
    ensures Prepend(us, Prepend(vs, r)) == Prepend(us + vs, r)
  {
    if r.Some? {
      assert us + (vs + r.value.0) == us + vs + r.value.0;
    }
  }

  lemma ReadEscapedPair(c: CodePoint, rest: string)
    requires c >= 0x10000
    ensures ReadChars(JsonChar(c) + rest) == Prepend(Utf16One(c), ReadChars(rest))
  {
    var hi, lo := Utf16One(c)[0], Utf16One(c)[1];
    assert JsonChar(c) + rest == EscapeUnit(hi) + (EscapeUnit(lo) + rest);
    ReadEscapedUnit(hi, EscapeUnit(lo) + rest);
    ReadEscapedUnit(lo, rest);
    PrependTwice([hi], [lo], ReadChars(rest));
    assert Utf16One(c) == [hi] + [lo];
  }

  lemma ReadShort(e: char, rest: string)
    requires e != 'u'
    ensures ReadChars([BACKSLASH, e] + rest) == if ShortEscape(e).Some? then Prepend([ShortEscape(e).value], ReadChars(rest)) else None
  {
    assert ([BACKSLASH, e] + rest)[2..] == rest;
  }

  lemma ReadPlain(e: char, rest: string)
    requires 32 <= e as int < 127 && e != QUOTE && e != BACKSLASH
    ensures ReadChars([e] + rest) == Prepend([e as int], ReadChars(rest))
  {
    assert ([e] + rest)[1..] == rest;
  }

  lemma ReadOneChar(c: CodePoint, rest: string)
    ensures ReadChars(JsonChar(c) + rest) == Prepend(Utf16One(c), ReadChars(rest))
  {
    if c >= 0x10000 {
      ReadEscapedPair(c, rest);
    } else if c in {8, 9, 10, 12, 13, 34, 92} {
      ReadShort(JsonChar(c)[1], rest);
    } else if 32 <= c <= 126 {
      ReadPlain(c as char, rest);
    } else {
      ReadEscapedUnit(c, rest);
    }
  }

  lemma {:induction false} JsonStringReadsBack(t: Text, rest: string)
    ensures ReadChars(JsonChars(t) + ([QUOTE] + rest)) == Some((Utf16(t), rest))
  {
    var close := [QUOTE] + rest;
    if t == [] {
      assert JsonChars(t) + close == close && close[1..] == rest;
    } else {
      assert JsonChars(t) + close == JsonChar(t[0]) + (JsonChars(t[1..]) + close);
      ReadOneChar(t[0], JsonChars(t[1..]) + close);
      JsonStringReadsBack(t[1..], rest);
    }
  }

  // ------------------------------------------------------------------
  // The three event objects
  // ------------------------------------------------------------------

  const META := "{\"type\": \"meta\", \"conversation_id\": "
  const TOKEN := "{\"type\": \"token\", \"content\": "
  const CITES := "{\"type\": \"citations\", \"citations\": "

  /** What stream_answer yields: answer text, or the serialized list of citations. */
  datatype Item = Token(text: Text) | Citations(list: string)

  function ItemJson(item: Item): string {
    match item
    case Token(t) => TOKEN + JsonString(t) + "}"
    case Citations(list) => CITES + list + "}"
  }

  function MetaJson(conversation: Text): string {
    META + JsonString(conversation) + "}"
  }

  lemma EventsAre(t: Text, list: string)
    ensures MetaJson(t) == "{\"type\": \"meta\", \"conversation_id\": " + JsonString(t) + "}"
    ensures ItemJson(Token(t)) == "{\"type\": \"token\", \"content\": " + JsonString(t) + "}"
    ensures ItemJson(Citations(list)) == "{\"type\": \"citations\", \"citations\": " + list + "}"
    ensures JsonString(t) == "\"" + JsonChars(t) + "\""
  {
  }

  datatype Payload = MetaEvent(id: Units) | TokenEvent(content: Units) | CitationsEvent(list: string) | Ignored

  function ReadString(s: string): Option<(Units, string)> {
    if s != "" && s[0] == QUOTE then ReadChars(s[1..]) else None
  }

  function ParsePayload(s: string): Payload {
    if META <= s then
      match ReadString(s[|META|..])
      case Some((us, rest)) => if rest == "}" then MetaEvent(us) else Ignored
      case None => Ignored
    else if TOKEN <= s then
      match ReadString(s[|TOKEN|..])
      case Some((us, rest)) => if rest == "}" then TokenEvent(us) else Ignored
      case None => Ignored
    else if CITES <= s && |s| > |CITES| && s[|s| - 1] == '}' then CitationsEvent(s[|CITES|..|s| - 1])
    else Ignored
  }

  lemma ReadsBack(t: Text)
    ensures ReadString(JsonString(t) + "}") == Some((Utf16(t), "}"))
  {
    var s := JsonString(t) + "}";
    assert s[1..] == JsonChars(t) + ([QUOTE] + "}");
    JsonStringReadsBack(t, "}");
  }

  lemma MetaParses(conversation: Text)
    ensures ParsePayload(MetaJson(conversation)) == MetaEvent(Utf16(conversation))
  {
    var s := MetaJson(conversation);
    assert s == META + (JsonString(conversation) + "}");
    assert s[|META|..] == JsonString(conversation) + "}";
    ReadsBack(conversation);
  }

  lemma ItemParses(item: Item)
    ensures ParsePayload(ItemJson(item)) ==
      match item
      case Token(t) => TokenEvent(Utf16(t))
      case Citations(list) => CitationsEvent(list)
  {
    var s := ItemJson(item);
    assert META[10] == 'm' && TOKEN[10] == 't' && CITES[10] == 'c';
    match item
    case Token(t) =>
      assert s == TOKEN + (JsonString(t) + "}");
      assert s[10] == 't';
      assert s[|TOKEN|..] == JsonString(t) + "}";
      ReadsBack(t);
    case Citations(list) =>
      assert s[10] == 'c';
      assert s[|CITES|..|s| - 1] == list;
  }
}
