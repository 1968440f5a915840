/** From stream_answer through the network to the widget, which rebuilds lines from arbitrary chunks. */
module WidgetStream {
  import opened Prelude
  import opened Sse

  // ------------------------------------------------------------------
  // Lines
  // ------------------------------------------------------------------

  const NEWLINE := '\n'

  /** JavaScript's `split("\n")`: always at least one piece. */
  function Lines(s: string): (ls: seq<string>)
    ensures |ls| >= 1
  {
    if s == "" then [""]
    else
      var rest := Lines(s[1..]);
      if s[0] == NEWLINE then [""] + rest else [[s[0]] + rest[0]] + rest[1..]
  }

  /** The pieces ended by a newline, and the unfinished one. */
  function Complete(s: string): seq<string> {
    Lines(s)[..|Lines(s)| - 1]
  }

  function Unfinished(s: string): string {
    Lines(s)[|Lines(s)| - 1]
  }

  /** The last line of one text and the first of the next are one line. */
  function Glued(x: seq<string>, y: seq<string>): seq<string>
    requires |x| >= 1 && |y| >= 1
  {
    x[..|x| - 1] + [x[|x| - 1] + y[0]] + y[1..]
  }

  lemma {:induction false} LinesGlue(a: string, b: string)
    ensures Lines(a + b) == Glued(Lines(a), Lines(b))
  {
    if a == "" {
      assert a + b == b && "" + Lines(b)[0] == Lines(b)[0];
      assert Glued([""], Lines(b)) == [Lines(b)[0]] + Lines(b)[1..];
    } else {
      assert (a + b)[1..] == a[1..] + b;
      LinesGlue(a[1..], b);
      GluedPushes(a[0], Lines(a[1..]), Lines(b));
    }
  }

  lemma GluedPushes(c: char, x: seq<string>, y: seq<string>)
    requires |x| >= 1 && |y| >= 1
    ensures [""] + Glued(x, y) == Glued([""] + x, y)
    ensures [[c] + Glued(x, y)[0]] + Glued(x, y)[1..] == Glued([[c] + x[0]] + x[1..], y)
  {
    if |x| == 1 {
      assert [c] + (x[0] + y[0]) == ([c] + x[0]) + y[0];
    }
  }

  lemma {:induction false} UnfinishedIsOneLine(a: string)
    ensures Lines(Unfinished(a)) == [Unfinished(a)]
  {
    if a != "" {
      UnfinishedIsOneLine(a[1..]);
      if a[0] != NEWLINE && |Lines(a[1..])| == 1 {
        assert Unfinished(a)[1..] == Unfinished(a[1..]);
      }
    }
  }

  lemma LinesExtend(a: string, b: string)
    ensures Lines(a + b) == Complete(a) + Lines(Unfinished(a) + b)
  {
    LinesGlue(a, b);
    LinesGlue(Unfinished(a), b);
    UnfinishedIsOneLine(a);
  }

  // Appending only extends the unfinished line.
  lemma LinesAppend(a: string, b: string)
    ensures Complete(a + b) == Complete(a) + Complete(Unfinished(a) + b)
    ensures Unfinished(a + b) == Unfinished(Unfinished(a) + b)
  {
    LinesExtend(a, b);
  }

  lemma {:induction false} OneLine(s: string, rest: string)
    requires '\n' !in s
    ensures Lines(s + "\n" + rest) == [s] + Lines(rest)
  {
    var whole := s + [NEWLINE] + rest;
    if s == "" {
      assert whole[1..] == rest;
    } else {
      assert whole[1..] == s[1..] + [NEWLINE] + rest;
      OneLine(s[1..], rest);
      assert s == [s[0]] + s[1..];
    }
  }

  // ------------------------------------------------------------------
  // The server's frames
  // ------------------------------------------------------------------

  const DATA := "data: "
  const DONE := "[DONE]"

  function Frame(json: string): string {
    DATA + json + [NEWLINE] + [NEWLINE]
  }

  function Frames(items: seq<Item>): string {
    if items == [] then Frame(DONE) else Frame(ItemJson(items[0])) + Frames(items[1..])
  }

  /** Everything sse_event_stream sends. */
  function Wire(conversation: Text, items: seq<Item>): string {
    Frame(MetaJson(conversation)) + Frames(items)
  }

  // The bytes on the wire.
  lemma FrameIs(json: string)
    ensures Frame(json) == "data: " + json + "\n\n"
    ensures Frames([]) == "data: [DONE]\n\n"
  {
    assert DATA + json + [NEWLINE] + [NEWLINE] == "data: " + json + "\n\n";
    assert DATA + DONE + [NEWLINE] + [NEWLINE] == "data: [DONE]\n\n";
  }

  function FrameLines(items: seq<Item>): seq<string> {
    if items == [] then [DATA + DONE, ""] else [DATA + ItemJson(items[0]), ""] + FrameLines(items[1..])
  }

  /** json.dumps writes citations, like everything else, without raw control characters. */
  predicate WellWritten(items: seq<Item>) {
    forall i :: 0 <= i < |items| && items[i].Citations? ==> Printable(items[i].list)
  }

  lemma MetaPrintable()
    ensures Printable(META)
  {
  }

  lemma TokenPrintable()
    ensures Printable(TOKEN)
  {
  }

  lemma CitesPrintable()
    ensures Printable(CITES)
  {
  }

  lemma Bracketed(prefix: string, middle: string)
    requires Printable(prefix) && Printable(middle)
    ensures Printable(prefix + middle + "}")
  {
  }

  lemma JsonPrintable(conversation: Text, item: Item)
    requires item.Citations? ==> Printable(item.list)
    ensures Printable(MetaJson(conversation)) && Printable(ItemJson(item))
  {
    MetaPrintable();
    JsonCharsPrintable(conversation);
    Bracketed(META, JsonString(conversation));
    match item
    case Token(t) =>
      TokenPrintable();
      JsonCharsPrintable(t);
      Bracketed(TOKEN, JsonString(t));
    case Citations(list) =>
      CitesPrintable();
      Bracketed(CITES, list);
  }

  lemma LinesOfFrame(json: string, rest: string)
    requires Printable(json)
    ensures Lines(Frame(json) + rest) == [DATA + json, ""] + Lines(rest)
  {
    assert Frame(json) + rest == (DATA + json) + [NEWLINE] + ([NEWLINE] + rest);
    OneLine(DATA + json, [NEWLINE] + rest);
    assert [NEWLINE] + rest == "" + [NEWLINE] + rest;
    OneLine("", rest);
  }

  lemma {:induction false} LinesOfFrames(items: seq<Item>)
    requires WellWritten(items)
    ensures Lines(Frames(items)) == FrameLines(items) + [""]
  {
    if items == [] {
      LinesOfFrame(DONE, "");
      assert Frame(DONE) + "" == Frame(DONE);
    } else {
      JsonPrintable([], items[0]);
      LinesOfFrame(ItemJson(items[0]), Frames(items[1..]));
      LinesOfFrames(items[1..]);
    }
  }

  // ------------------------------------------------------------------
  // What the widget makes of one line
  // ------------------------------------------------------------------

  /** `shown` is whether the assistant's bubble exists yet; citations are drawn only onto one. */
  datatype Chat = Chat(conversation: Option<Units>, fullText: Units, shown: bool, citations: Option<string>)

  const FRESH := Chat(None, [], false, None)

  predicate IsSpace(c: char) {
    9 <= c as int <= 13 || c as int in {32, 160, 0x1680, 0x2028, 0x2029, 0x202f, 0x205f, 0x3000, 0xfeff} || 0x2000 <= c as int <= 0x200a
  }

  // The other space separators of Unicode.
  const SEPARATORS := "\U{1680}\U{2000}\U{2001}\U{2002}\U{2003}\U{2004}\U{2005}\U{2006}\U{2007}\U{2008}\U{2009}\U{200A}\U{202F}\U{205F}\U{3000}"

  /** White space and line terminators of ECMAScript (sections 12.2 and 12.3 of ECMA-262). */
  lemma SpacesAre(c: char)
    ensures IsSpace(c) <==> c in "\t\U{0B}\U{0C} \U{A0}\U{FEFF}" + SEPARATORS + "\n\r\U{2028}\U{2029}"
  {
  }

  function TrimStart(s: string): string {
    if s != "" && IsSpace(s[0]) then TrimStart(s[1..]) else s
  }

  function TrimEnd(s: string): string {
    if s != "" && IsSpace(s[|s| - 1]) then TrimEnd(s[..|s| - 1]) else s
  }

  function Trim(s: string): string {
    TrimEnd(TrimStart(s))
  }

  predicate IsDone(line: string) {
    DATA <= line && Trim(line[|DATA|..]) == DONE
  }

  function OnEvent(c: Chat, p: Payload): Chat {
    match p
    case MetaEvent(id) => if id != [] then c.(conversation := Some(id)) else c
    case TokenEvent(content) => if content != [] then c.(shown := true, fullText := c.fullText + content) else c
    case CitationsEvent(list) => if c.shown then c.(citations := Some(list)) else c
    case Ignored => c
  }

  function OnLine(c: Chat, line: string): Chat {
    if DATA <= line then OnEvent(c, ParsePayload(Trim(line[|DATA|..]))) else c
  }

  /** The for loop over one chunk's lines: `[DONE]` abandons the rest of that chunk. */
  function OnLines(c: Chat, lines: seq<string>): Chat
    decreases |lines|
  {
    if lines == [] || IsDone(lines[0]) then c
    else OnLines(OnLine(c, lines[0]), lines[1..])
  }

  function Read(c: Chat, line: string): Chat {
    if IsDone(line) then c else OnLine(c, line)
  }

  /** The simple reading: every line in turn. */
  function ReadAll(c: Chat, lines: seq<string>): Chat
    decreases |lines|
  {
    if lines == [] then c
    else ReadAll(Read(c, lines[0]), lines[1..])
  }

  predicate Inert(line: string) {
    !(DATA <= line) || IsDone(line)
  }

  /** Nothing but blank or foreign lines follows a `[DONE]` line. */
  predicate EndsAtDone(lines: seq<string>) {
    forall i, j :: 0 <= i < j < |lines| && IsDone(lines[i]) ==> Inert(lines[j])
  }

  lemma {:induction false} ReadInert(c: Chat, lines: seq<string>)
    requires forall i :: 0 <= i < |lines| ==> Inert(lines[i])
    ensures ReadAll(c, lines) == c
  {
    if lines != [] {
      ReadInert(c, lines[1..]);
    }
  }

  lemma {:induction false} BreakLosesNothing(c: Chat, lines: seq<string>)
    requires EndsAtDone(lines)
    ensures OnLines(c, lines) == ReadAll(c, lines)
    decreases |lines|
  {
    if lines != [] {
      if IsDone(lines[0]) {
        ReadInert(c, lines[1..]);
      } else {
        BreakLosesNothing(OnLine(c, lines[0]), lines[1..]);
      }
    }
  }

  lemma {:induction false} ReadAllAppend(c: Chat, a: seq<string>, b: seq<string>)
    ensures ReadAll(c, a + b) == ReadAll(ReadAll(c, a), b)
    decreases |a|
  {
    if a == [] {
      assert a + b == b;
    } else {
      assert (a + b)[1..] == a[1..] + b;
      ReadAllAppend(Read(c, a[0]), a[1..], b);
    }
  }

  // ------------------------------------------------------------------
  // The widget
  // ------------------------------------------------------------------

  function Concat(chunks: seq<string>): string {
    if chunks == [] then "" else Concat(chunks[..|chunks| - 1]) + chunks[|chunks| - 1]
  }

  /** The widget's state (what it shows, and its carry-over buffer) after a list of network chunks. */
  function Received(chunks: seq<string>): (Chat, string) {
    if chunks == [] then (FRESH, "")
    else
      var (c, buffer) := Received(chunks[..|chunks| - 1]);
      var text := buffer + chunks[|chunks| - 1];
      (OnLines(c, Complete(text)), Unfinished(text))
  }

  // However the stream is cut, the widget has read exactly its complete lines.
  lemma {:induction false} ChunkingIsIrrelevant(chunks: seq<string>)
    requires EndsAtDone(Complete(Concat(chunks)))
    ensures Received(chunks) == (ReadAll(FRESH, Complete(Concat(chunks))), Unfinished(Concat(chunks)))
  {
    if chunks != [] {
      var before, chunk := chunks[..|chunks| - 1], chunks[|chunks| - 1];
      var sofar := Concat(before);
      var more := Complete(Unfinished(sofar) + chunk);
      LinesAppend(sofar, chunk);
      assert forall i :: 0 <= i < |Complete(sofar)| ==> Complete(sofar)[i] == Complete(Concat(chunks))[i];
      ChunkingIsIrrelevant(before);
      assert forall i :: 0 <= i < |more| ==> more[i] == Complete(Concat(chunks))[|Complete(sofar)| + i];
      BreakLosesNothing(ReadAll(FRESH, Complete(sofar)), more);
      ReadAllAppend(FRESH, Complete(sofar), more);
    }
  }

  class Widget {
    var buffer: string
    var chat: Chat

    constructor ()
      ensures buffer == "" && chat == FRESH
    {
      buffer := "";
      chat := FRESH;
    }

    method OnChunk(value: string)
      modifies this
      ensures chat == OnLines(old(chat), Complete(old(buffer) + value))
      ensures buffer == Unfinished(old(buffer) + value)
    {
      buffer := buffer + value;
      var lines := Lines(buffer);
      buffer := lines[|lines| - 1];
      lines := lines[..|lines| - 1];
      var i := 0;
      while i < |lines|
        invariant 0 <= i <= |lines|
        invariant buffer == Unfinished(old(buffer) + value)
        invariant OnLines(old(chat), Complete(old(buffer) + value)) == OnLines(chat, lines[i..])
      {
        var line := lines[i];
        assert lines[i..][1..] == lines[i + 1..];
        i := i + 1;
        if !(DATA <= line) {
          continue;
        }
        var dataStr := Trim(line[|DATA|..]);
        if dataStr == DONE {
          break;
        }
        match ParsePayload(dataStr) {
          case MetaEvent(id) =>
            if id != [] {
              chat := chat.(conversation := Some(id));
            }
          case TokenEvent(content) =>
            if content != [] {
              chat := chat.(shown := true);
              chat := chat.(fullText := chat.fullText + content);
            }
          case CitationsEvent(list) =>
            if chat.shown {
              chat := chat.(citations := Some(list));
            }
          case Ignored =>
        }
      }
    }

    method OnStream(chunks: seq<string>)
      requires buffer == "" && chat == FRESH
      modifies this
      ensures (chat, buffer) == Received(chunks)
    {
      var i := 0;
      while i < |chunks|
        invariant 0 <= i <= |chunks| && (chat, buffer) == Received(chunks[..i])
      {
        assert chunks[..i + 1][..i] == chunks[..i];
        OnChunk(chunks[i]);
        i := i + 1;
      }
      assert chunks[..i] == chunks;
    }
  }

  // ------------------------------------------------------------------
  // End to end
  // ------------------------------------------------------------------

  function TextOf(items: seq<Item>): Text {
    if items == [] then [] else (if items[0].Token? then items[0].text else []) + TextOf(items[1..])
  }

  function OnItem(c: Chat, item: Item): Chat {
    match item
    case Token(t) => OnEvent(c, TokenEvent(Utf16(t)))
    case Citations(list) => OnEvent(c, CitationsEvent(list))
  }

  function OnItems(c: Chat, items: seq<Item>): Chat
    decreases |items|
  {
    if items == [] then c else OnItems(OnItem(c, items[0]), items[1..])
  }

  lemma TrimKeeps(s: string)
    requires s != "" && !IsSpace(s[0]) && !IsSpace(s[|s| - 1])
    ensures Trim(s) == s
  {
  }

  lemma DataLine(json: string)
    requires |json| >= 2 && json[0] == '{' && json[|json| - 1] == '}'
    ensures !IsDone(DATA + json)
    ensures forall c :: OnLine(c, DATA + json) == OnEvent(c, ParsePayload(json))
  {
    assert (DATA + json)[|DATA|..] == json;
    TrimKeeps(json);
  }

  lemma DoneLine()
    ensures IsDone(DATA + DONE) && !IsDone("") && Inert("")
  {
    assert (DATA + DONE)[|DATA|..] == DONE;
    TrimKeeps(DONE);
  }

  lemma ItemLine(item: Item)
    ensures !IsDone(DATA + ItemJson(item))
    ensures forall c :: OnLine(c, DATA + ItemJson(item)) == OnItem(c, item)
  {
    var json := ItemJson(item);
    assert json[0] == '{' && json[|json| - 1] == '}';
    DataLine(json);
    ItemParses(item);
  }

  lemma {:induction false} ReadFrames(c: Chat, items: seq<Item>)
    ensures ReadAll(c, FrameLines(items)) == OnItems(c, items)
    decreases |items|
  {
    var ls := FrameLines(items);
    DoneLine();
    if items == [] {
      assert ls[1..] == [""] && ls[1..][1..] == [];
      assert ReadAll(c, ls[1..]) == c;
    } else {
      ItemLine(items[0]);
      assert ls[1..][0] == "" && ls[1..][1..] == FrameLines(items[1..]);
      ReadFrames(OnItem(c, items[0]), items[1..]);
    }
  }

  lemma {:induction false} FramesEndAtDone(items: seq<Item>)
    ensures EndsAtDone(FrameLines(items))
  {
    DoneLine();
    if items != [] {
      ItemLine(items[0]);
      FramesEndAtDone(items[1..]);
    }
  }

  function Answer(item: Item): Text {
    if item.Token? then item.text else []
  }

  lemma OneItem(c: Chat, item: Item, text: Text)
    ensures var d := OnItem(c, item);
      d.conversation == c.conversation && d.fullText == c.fullText + Utf16(Answer(item))
      && d.shown == (c.shown || Answer(item) != [])
      && d.fullText + Utf16(text) == c.fullText + Utf16(Answer(item) + text)
  {
    Utf16Append(Answer(item), text);
    assert (c.fullText + Utf16(Answer(item))) + Utf16(text) == c.fullText + (Utf16(Answer(item)) + Utf16(text));
  }

  lemma {:induction false} ItemsAddUp(c: Chat, items: seq<Item>)
    ensures var d := OnItems(c, items);
      d.conversation == c.conversation && d.fullText == c.fullText + Utf16(TextOf(items))
      && d.shown == (c.shown || TextOf(items) != [])
    decreases |items|
  {
    if items != [] {
      ItemsAddUp(OnItem(c, items[0]), items[1..]);
      OneItem(c, items[0], TextOf(items[1..]));
    }
  }

  lemma WireLines(conversation: Text, items: seq<Item>)
    requires WellWritten(items)
    ensures Complete(Wire(conversation, items)) == [DATA + MetaJson(conversation), ""] + FrameLines(items)
    ensures Unfinished(Wire(conversation, items)) == ""
  {
    var ls := [DATA + MetaJson(conversation), ""] + FrameLines(items);
    JsonPrintable(conversation, Token([]));
    LinesOfFrame(MetaJson(conversation), Frames(items));
    LinesOfFrames(items);
    assert Lines(Wire(conversation, items)) == ls + [""];
  }

  // For every item sequence and every way the network cuts the stream, the widget ends with an
  // empty buffer, the conversation id, and the concatenated answer text.
  lemma WidgetSeesTheAnswer(conversation: Text, items: seq<Item>, chunks: seq<string>)
    requires conversation != [] && WellWritten(items) && Concat(chunks) == Wire(conversation, items)
    ensures var (chat, buffer) := Received(chunks);
      && buffer == ""
      && chat == OnItems(FRESH.(conversation := Some(Utf16(conversation))), items)
      && chat.conversation == Some(Utf16(conversation))
      && chat.fullText == Utf16(TextOf(items))
  {
    var json := MetaJson(conversation);
    var ls := [DATA + json, ""] + FrameLines(items);
    WireLines(conversation, items);
    DoneLine();
    assert json[0] == '{' && json[|json| - 1] == '}';
    DataLine(json);
    MetaParses(conversation);
    assert Utf16(conversation) != [];
    var c := FRESH.(conversation := Some(Utf16(conversation)));
    ReadFrames(c, items);
    FramesEndAtDone(items);
    assert ls[1..][0] == "" && ls[1..][1..] == FrameLines(items);
    ChunkingIsIrrelevant(chunks);
    ItemsAddUp(c, items);
  }
}
