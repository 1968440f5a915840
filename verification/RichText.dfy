/** The widget's rich-text renderer: escape first, then one pass over the lines. */
module RichText {
  import opened Prelude
  import opened WidgetStream

  // ------------------------------------------------------------------
  // Escaping
  // ------------------------------------------------------------------

  function ReplaceChar(s: string, c: char, entity: string): string {
    if s == "" then "" else (if s[0] == c then entity else [s[0]]) + ReplaceChar(s[1..], c, entity)
  }

  const AMP := "&amp;"
  const LT := "&lt;"
  const GT := "&gt;"
  const QUOT := "&quot;"

  /** Four passes over the whole text, the ampersand first. */
  function EscapeHtml(s: string): string {
    ReplaceChar(ReplaceChar(ReplaceChar(ReplaceChar(s, '&', AMP), '<', LT), '>', GT), '\"', QUOT)
  }

  /** Each character on its own. */
  function Entity(c: char): string {
    if c == '&' then AMP
    else if c == '<' then LT
    else if c == '>' then GT
    else if c == '\"' then QUOT
    else [c]
  }

  function Entities(s: string): string {
    if s == "" then "" else Entity(s[0]) + Entities(s[1..])
  }

  lemma {:induction false} ReplaceAppend(a: string, b: string, c: char, entity: string)
    ensures ReplaceChar(a + b, c, entity) == ReplaceChar(a, c, entity) + ReplaceChar(b, c, entity)
  {
    if a == "" {
      assert a + b == b;
    } else {
      assert (a + b)[1..] == a[1..] + b;
      ReplaceAppend(a[1..], b, c, entity);
    }
  }

  lemma {:induction false} ReplaceAbsent(s: string, c: char, entity: string)
    requires c !in s
    ensures ReplaceChar(s, c, entity) == s
  {
    if s != "" {
      ReplaceAbsent(s[1..], c, entity);
    }
  }

  lemma ReplaceSingle(c: char, d: char, entity: string)
    ensures ReplaceChar([c], d, entity) == if c == d then entity else [c]
  {
    assert [c][1..] == "";
    assert entity + "" == entity && [c] + "" == [c];
  }

  predicate NoMarkup(s: string) {
    '<' !in s && '>' !in s && '\"' !in s
  }

  lemma LaterPassesKeep(s: string)
    requires NoMarkup(s)
    ensures ReplaceChar(ReplaceChar(ReplaceChar(s, '<', LT), '>', GT), '\"', QUOT) == s
  {
    ReplaceAbsent(s, '<', LT);
    ReplaceAbsent(s, '>', GT);
    ReplaceAbsent(s, '\"', QUOT);
  }

  lemma EscapeOne(c: char)
    ensures EscapeHtml([c]) == Entity(c)
  {
    ReplaceSingle(c, '&', AMP);
    if c == '&' {
      LaterPassesKeep(AMP);
    } else {
      ReplaceSingle(c, '<', LT);
      if c == '<' {
        ReplaceAbsent(LT, '>', GT);
        ReplaceAbsent(LT, '\"', QUOT);
      } else {
        ReplaceSingle(c, '>', GT);
        if c == '>' {
          ReplaceAbsent(GT, '\"', QUOT);
        } else {
          ReplaceSingle(c, '\"', QUOT);
        }
      }
    }
  }

  lemma EscapeAppend(a: string, b: string)
    ensures EscapeHtml(a + b) == EscapeHtml(a) + EscapeHtml(b)
  {
    ReplaceAppend(a, b, '&', AMP);
    var a1, b1 := ReplaceChar(a, '&', AMP), ReplaceChar(b, '&', AMP);
    ReplaceAppend(a1, b1, '<', LT);
    var a2, b2 := ReplaceChar(a1, '<', LT), ReplaceChar(b1, '<', LT);
    ReplaceAppend(a2, b2, '>', GT);
    ReplaceAppend(ReplaceChar(a2, '>', GT), ReplaceChar(b2, '>', GT), '\"', QUOT);
  }

  // The order of the passes is right: the result is the one-pass escape.
  lemma {:induction false} FourPassesAreOne(s: string)
    ensures EscapeHtml(s) == Entities(s)
  {
    if s != "" {
      assert s == [s[0]] + s[1..];
      EscapeAppend([s[0]], s[1..]);
      EscapeOne(s[0]);
      FourPassesAreOne(s[1..]);
    }
  }

  lemma EntitiesAre()
    ensures EscapeHtml("&") == "&amp;" && EscapeHtml("<") == "&lt;" && EscapeHtml(">") == "&gt;" && EscapeHtml("\"") == "&quot;"
  {
    EscapeOne('&');
    EscapeOne('<');
    EscapeOne('>');
    EscapeOne('\"');
  }

  function Unescape(s: string): string {
    if s == "" then ""
    else if AMP <= s then "&" + Unescape(s[5..])
    else if LT <= s then "<" + Unescape(s[4..])
    else if GT <= s then ">" + Unescape(s[4..])
    else if QUOT <= s then "\"" + Unescape(s[6..])
    else [s[0]] + Unescape(s[1..])
  }

  lemma UnescapeOne(c: char, rest: string)
    ensures Unescape(Entity(c) + rest) == [c] + Unescape(rest)
  {
    var s := Entity(c) + rest;
    assert s[|Entity(c)|..] == rest;
    if c == '&' {
      assert AMP <= s;
    } else if c == '<' {
      assert LT <= s && s[1] == 'l';
    } else if c == '>' {
      assert GT <= s && s[1] == 'g';
    } else if c == '\"' {
      assert QUOT <= s && s[1] == 'q';
    }
  }

  lemma EntitySafe(c: char)
    ensures NoMarkup(Entity(c))
  {
  }

  lemma {:induction false} EntitiesFaithful(s: string)
    ensures Unescape(Entities(s)) == s && NoMarkup(Entities(s))
  {
    if s != "" {
      EntitiesFaithful(s[1..]);
      EntitySafe(s[0]);
      UnescapeOne(s[0], Entities(s[1..]));
    }
  }

  // Nothing of the raw text is lost, and no character of it can open a tag or end an attribute.
  lemma EscapeIsFaithfulAndSafe(s: string)
    ensures Unescape(EscapeHtml(s)) == s
    ensures NoMarkup(EscapeHtml(s))
  {
    FourPassesAreOne(s);
    EntitiesFaithful(s);
  }

  // ------------------------------------------------------------------
  // Lines
  // ------------------------------------------------------------------

  /** What the regular expressions make of one line; texts are already inline-rendered. */
  datatype Line = Bullet(html: string) | Prose(html: string) | Blank

  predicate EndsDot(c: char) {
    c == '\n' || c == '\r' || c as int == 0x2028 || c as int == 0x2029
  }

  function DotStar(s: string): string {
    if s == "" || EndsDot(s[0]) then "" else [s[0]] + DotStar(s[1..])
  }

  /** The capture of `^\s*[-*]\s+(.*)`. */
  function BulletText(line: string): Option<string> {
    var s := TrimStart(line);
    if |s| >= 2 && (s[0] == '-' || s[0] == '*') && IsSpace(s[1]) then Some(DotStar(TrimStart(s[1..]))) else None
  }

  predicate Spaces(s: string) {
    forall i :: 0 <= i < |s| ==> IsSpace(s[i])
  }

  lemma {:induction false} TrimStartDrops(ws: string, rest: string)
    requires Spaces(ws) && (rest == "" || !IsSpace(rest[0]))
    ensures TrimStart(ws + rest) == rest
  {
    if ws == "" {
      assert ws + rest == rest;
    } else {
      assert (ws + rest)[1..] == ws[1..] + rest;
      TrimStartDrops(ws[1..], rest);
    }
  }

  /** The leading white space. */
  function Lead(s: string): (n: nat)
    ensures n <= |s| && Spaces(s[..n]) && (n < |s| ==> !IsSpace(s[n]))
  {
    if s != "" && IsSpace(s[0]) then
      var n := Lead(s[1..]);
      assert s[..n + 1] == [s[0]] + s[1..][..n];
      1 + n
    else 0
  }

  lemma TrimStartIs(s: string)
    ensures TrimStart(s) == s[Lead(s)..]
  {
    var n := Lead(s);
    TrimStartDrops(s[..n], s[n..]);
    assert s == s[..n] + s[n..];
  }

  lemma {:induction false} LeadIs(s: string, n: nat)
    requires n < |s| && Spaces(s[..n]) && !IsSpace(s[n])
    ensures Lead(s) == n
  {
    if n > 0 {
      assert s[..n][0] == s[0] && s[1..][..n - 1] == s[..n][1..];
      LeadIs(s[1..], n - 1);
    }
  }

  // A line is a bullet exactly if it is white space, a dash or an asterisk, white space again, and anything.
  lemma BulletIff(line: string)
    ensures BulletText(line).Some? <==>
      exists n :: 0 <= n < |line| - 1 && Spaces(line[..n]) && (line[n] == '-' || line[n] == '*') && IsSpace(line[n + 1])
  {
    TrimStartIs(line);
    if n :| 0 <= n < |line| - 1 && Spaces(line[..n]) && (line[n] == '-' || line[n] == '*') && IsSpace(line[n + 1]) {
      LeadIs(line, n);
    }
  }

  // `.*` stops before the first line feed, carriage return, line or paragraph separator.
  lemma {:induction false} DotStarIs(s: string)
    ensures DotStar(s) <= s
    ensures forall c :: c in DotStar(s) ==> c as int !in {10, 13, 0x2028, 0x2029}
    ensures |DotStar(s)| < |s| ==> s[|DotStar(s)|] as int in {10, 13, 0x2028, 0x2029}
  {
    if s != "" && !EndsDot(s[0]) {
      DotStarIs(s[1..]);
    }
  }

  lemma {:induction false} TrimEmptyIff(s: string)
    ensures TrimEnd(s) == "" <==> Spaces(s)
    decreases |s|
  {
    if s != "" {
      var n := |s| - 1;
      if IsSpace(s[n]) {
        TrimEmptyIff(s[..n]);
        assert Spaces(s) <==> Spaces(s[..n]);
      }
    }
  }

  // The item is what follows the mark and its white space, up to the end of the line.
  lemma BulletOf(ws: string, mark: char, gap: string, rest: string, inline: string -> string)
    requires Spaces(ws) && (mark == '-' || mark == '*') && gap != "" && Spaces(gap) && (rest == "" || !IsSpace(rest[0]))
    ensures BulletText(ws + ([mark] + (gap + rest))) == Some(DotStar(rest))
    ensures Classify(ws + ([mark] + (gap + rest)), inline) == Bullet(inline(DotStar(rest)))
  {
    TrimStartDrops(ws, [mark] + (gap + rest));
    TrimStartDrops(gap, rest);
    assert ([mark] + (gap + rest))[1..] == gap + rest;
  }

  // Of the lines that are not bullets those of nothing but white space are blank, and the others whole prose.
  lemma OtherLines(line: string, inline: string -> string)
    requires BulletText(line).None?
    ensures Classify(line, inline) == if forall i :: 0 <= i < |line| ==> IsSpace(line[i]) then Blank else Prose(inline(line))
  {
    TrimStartIs(line);
    var n := Lead(line);
    TrimEmptyIff(line[n..]);
    if n < |line| {
      assert line[n..][0] == line[n];
    } else {
      assert line[..n] == line;
    }
  }

  function Classify(line: string, inline: string -> string): Line {
    if BulletText(line).Some? then Bullet(inline(BulletText(line).value))
    else if Trim(line) == "" then Blank
    else Prose(inline(line))
  }

  function ClassifyAll(lines: seq<string>, inline: string -> string): (ls: seq<Line>)
    ensures |ls| == |lines|
    ensures forall i :: 0 <= i < |lines| ==> ls[i] == Classify(lines[i], inline)
  {
    if lines == [] then [] else [Classify(lines[0], inline)] + ClassifyAll(lines[1..], inline)
  }

  // ------------------------------------------------------------------
  // The specification: maximal runs of bullets and of prose
  // ------------------------------------------------------------------

  datatype Block = List(items: seq<string>) | Paragraph(lines: seq<string>)

  predicate SameKind(a: Line, b: Line) {
    (a.Bullet? && b.Bullet?) || (a.Prose? && b.Prose?)
  }

  /** The length of the longest prefix of lines of the given kind. */
  function Run(kind: Line, ls: seq<Line>): (n: nat)
    ensures n <= |ls|
  {
    if ls != [] && SameKind(kind, ls[0]) then 1 + Run(kind, ls[1..]) else 0
  }

  function Htmls(ls: seq<Line>): seq<string> {
    if ls == [] then []
    else (if ls[0].Blank? then [] else [ls[0].html]) + Htmls(ls[1..])
  }

  function BlockOf(kind: Line, ls: seq<Line>): Block {
    if kind.Bullet? then List(Htmls(ls)) else Paragraph(Htmls(ls))
  }

  function Blocks(ls: seq<Line>): seq<Block>
    decreases |ls|
  {
    if ls == [] then []
    else if ls[0].Blank? then Blocks(ls[1..])
    else
      var n := Run(ls[0], ls);
      [BlockOf(ls[0], ls[..n])] + Blocks(ls[n..])
  }

  function Texts(bs: seq<Block>): seq<string> {
    if bs == [] then [] else (if bs[0].List? then bs[0].items else bs[0].lines) + Texts(bs[1..])
  }

  lemma {:induction false} HtmlsAppend(a: seq<Line>, b: seq<Line>)
    ensures Htmls(a + b) == Htmls(a) + Htmls(b)
  {
    if a == [] {
      assert a + b == b;
    } else {
      assert (a + b)[1..] == a[1..] + b;
      HtmlsAppend(a[1..], b);
    }
  }

  // Every line that is not blank appears exactly once, in order.
  lemma {:induction false} EveryLineOnce(ls: seq<Line>)
    ensures Texts(Blocks(ls)) == Htmls(ls)
    decreases |ls|
  {
    if ls != [] {
      if ls[0].Blank? {
        EveryLineOnce(ls[1..]);
      } else {
        var n := Run(ls[0], ls);
        EveryLineOnce(ls[n..]);
        assert ls == ls[..n] + ls[n..];
        HtmlsAppend(ls[..n], ls[n..]);
        assert Blocks(ls)[1..] == Blocks(ls[n..]);
      }
    }
  }

  lemma {:induction false} RunStops(kind: Line, a: seq<Line>, b: seq<Line>)
    requires b == [] || !SameKind(kind, b[0])
    ensures Run(kind, a + b) == Run(kind, a)
    ensures Run(kind, a) < |a| ==> !SameKind(kind, a[Run(kind, a)])
  {
    if a == [] {
      assert a + b == b;
    } else {
      assert (a + b)[1..] == a[1..] + b;
      RunStops(kind, a[1..], b);
    }
  }

  lemma BlocksOfHead(ls: seq<Line>)
    requires ls != [] && !ls[0].Blank?
    ensures var n := Run(ls[0], ls); 1 <= n <= |ls| && Blocks(ls) == [BlockOf(ls[0], ls[..n])] + Blocks(ls[n..])
  {
  }

  // Blank lines separate blocks and vanish.
  lemma {:induction false} BlankSeparates(a: seq<Line>, b: seq<Line>)
    ensures Blocks(a + ([Blank] + b)) == Blocks(a) + Blocks(b)
    decreases |a|
  {
    var gap := [Blank] + b;
    var whole := a + gap;
    if a == [] {
      assert whole == gap && gap[1..] == b;
    } else if a[0].Blank? {
      assert whole[1..] == a[1..] + gap;
      BlankSeparates(a[1..], b);
    } else {
      RunStops(a[0], a, gap);
      var n := Run(a[0], a);
      BlocksOfHead(a);
      BlocksOfHead(whole);
      assert whole[..n] == a[..n] && whole[n..] == a[n..] + gap;
      BlankSeparates(a[n..], b);
    }
  }

  // Without blank lines, lists and paragraphs alternate: runs are maximal.
  lemma {:induction false} RunsAlternate(ls: seq<Line>)
    requires forall i :: 0 <= i < |ls| ==> !ls[i].Blank?
    ensures var bs := Blocks(ls);
      && (ls != [] ==> bs != [] && bs[0].List? == ls[0].Bullet?)
      && forall i :: 0 <= i < |bs| - 1 ==> bs[i].List? != bs[i + 1].List?
    decreases |ls|
  {
    if ls != [] {
      var n := Run(ls[0], ls);
      RunsAlternate(ls[n..]);
      RunStops(ls[0], ls, []);
      assert ls + [] == ls;
      var bs := Blocks(ls);
      assert bs[1..] == Blocks(ls[n..]);
      forall i | 0 <= i < |bs| - 1
        ensures bs[i].List? != bs[i + 1].List?
      {
        if i > 0 {
          assert bs[i] == bs[1..][i - 1] && bs[i + 1] == bs[1..][i];
        }
      }
    }
  }

  /** The lines from..to are of one kind, and neither neighbour continues them. */
  predicate MaximalRun(ls: seq<Line>, from: nat, to: nat) {
    && from < to <= |ls| && !ls[from].Blank?
    && (forall i :: from <= i < to ==> SameKind(ls[from], ls[i]))
    && (from > 0 ==> !SameKind(ls[from - 1], ls[from]))
    && (to < |ls| ==> !SameKind(ls[from], ls[to]))
  }

  /** Where the blocks of the lines from `at` on begin and end. */
  function Spans(ls: seq<Line>, at: nat): (spans: seq<(nat, nat)>)
    requires at <= |ls|
    decreases |ls| - at
  {
    if at == |ls| then []
    else if ls[at].Blank? then Spans(ls, at + 1)
    else
      RunStops(ls[at], ls[at..], []);
      BlocksOfHead(ls[at..]);
      var to := at + Run(ls[at], ls[at..]);
      [(at, to)] + Spans(ls, to)
  }

  lemma {:induction false} RunIsOfKind(kind: Line, ls: seq<Line>)
    ensures forall i :: 0 <= i < Run(kind, ls) ==> SameKind(kind, ls[i])
    ensures Run(kind, ls) < |ls| ==> !SameKind(kind, ls[Run(kind, ls)])
  {
    if ls != [] && SameKind(kind, ls[0]) {
      RunIsOfKind(kind, ls[1..]);
    }
  }

  lemma HeadIsMaximal(ls: seq<Line>, at: nat)
    requires at < |ls| && !ls[at].Blank? && (at > 0 ==> !SameKind(ls[at - 1], ls[at]))
    ensures MaximalRun(ls, at, at + Run(ls[at], ls[at..]))
  {
    var n := Run(ls[at], ls[at..]);
    RunIsOfKind(ls[at], ls[at..]);
    BlocksOfHead(ls[at..]);
    forall i | at <= i < at + n
      ensures SameKind(ls[at], ls[i])
    {
      assert ls[at..][i - at] == ls[i];
    }
    if at + n < |ls| {
      assert ls[at..][n] == ls[at + n];
    }
  }

  lemma FirstSpan(ls: seq<Line>, at: nat)
    requires at < |ls| && !ls[at].Blank?
    ensures var to := at + Run(ls[at], ls[at..]);
      && at < to <= |ls|
      && Blocks(ls[at..]) == [BlockOf(ls[at], ls[at..to])] + Blocks(ls[to..])
      && Spans(ls, at) == [(at, to)] + Spans(ls, to)
  {
    BlocksOfHead(ls[at..]);
    var n := Run(ls[at], ls[at..]);
    assert ls[at..][n..] == ls[at + n..] && ls[at..][..n] == ls[at..at + n];
  }

  predicate Within(spans: seq<(nat, nat)>, i: nat) {
    exists k :: 0 <= k < |spans| && spans[k].0 <= i < spans[k].1
  }

  /** Maximal runs from `at` on, one after the other. */
  predicate Runs(ls: seq<Line>, spans: seq<(nat, nat)>, at: nat) {
    && (forall k :: 0 <= k < |spans| ==> at <= spans[k].0 && MaximalRun(ls, spans[k].0, spans[k].1))
    && (forall k :: 0 < k < |spans| ==> spans[k - 1].1 <= spans[k].0)
  }

  lemma OneMoreRun(ls: seq<Line>, spans: seq<(nat, nat)>, at: nat, to: nat)
    requires Runs(ls, spans, to) && MaximalRun(ls, at, to)
    ensures Runs(ls, [(at, to)] + spans, at)
  {
  }

  lemma RunsFrom(ls: seq<Line>, spans: seq<(nat, nat)>, at: nat)
    requires Runs(ls, spans, at + 1)
    ensures Runs(ls, spans, at)
  {
  }

  lemma KindChanges(ls: seq<Line>, at: nat, to: nat)
    requires MaximalRun(ls, at, to)
    ensures 0 < to < |ls| ==> !SameKind(ls[to - 1], ls[to])
  {
    assert SameKind(ls[at], ls[to - 1]);
  }

  lemma FirstRun(ls: seq<Line>, at: nat) returns (to: nat)
    requires at < |ls| && !ls[at].Blank? && (at > 0 ==> !SameKind(ls[at - 1], ls[at]))
    ensures at < to <= |ls| && MaximalRun(ls, at, to) && Spans(ls, at) == [(at, to)] + Spans(ls, to)
    ensures to < |ls| ==> !SameKind(ls[to - 1], ls[to])
  {
    to := at + Run(ls[at], ls[at..]);
    HeadIsMaximal(ls, at);
    FirstSpan(ls, at);
    KindChanges(ls, at, to);
  }

  lemma {:induction false} SpansAreMaximal(ls: seq<Line>, at: nat)
    requires at <= |ls| && (0 < at < |ls| ==> !SameKind(ls[at - 1], ls[at]))
    ensures Runs(ls, Spans(ls, at), at)
    decreases |ls| - at
  {
    if at < |ls| {
      if ls[at].Blank? {
        SpansAreMaximal(ls, at + 1);
        RunsFrom(ls, Spans(ls, at + 1), at);
      } else {
        var to := FirstRun(ls, at);
        SpansAreMaximal(ls, to);
        OneMoreRun(ls, Spans(ls, to), at, to);
      }
    }
  }

  lemma WithinOneMore(span: (nat, nat), spans: seq<(nat, nat)>, i: nat)
    requires span.0 <= i < span.1 || Within(spans, i)
    ensures Within([span] + spans, i)
  {
    if span.0 <= i < span.1 {
      assert ([span] + spans)[0] == span;
    } else {
      var k :| 0 <= k < |spans| && spans[k].0 <= i < spans[k].1;
      assert ([span] + spans)[k + 1] == spans[k];
    }
  }

  lemma {:induction false} SpansCover(ls: seq<Line>, at: nat, i: nat)
    requires at <= i < |ls| && !ls[i].Blank?
    ensures Within(Spans(ls, at), i)
    decreases |ls| - at
  {
    if ls[at].Blank? {
      SpansCover(ls, at + 1, i);
    } else {
      var to := at + Run(ls[at], ls[at..]);
      FirstSpan(ls, at);
      if i >= to {
        SpansCover(ls, to, i);
      }
      WithinOneMore((at, to), Spans(ls, to), i);
    }
  }

  predicate SpanBlock(ls: seq<Line>, span: (nat, nat), b: Block) {
    span.0 < span.1 <= |ls| && b == BlockOf(ls[span.0], ls[span.0..span.1])
  }

  predicate Follow(ls: seq<Line>, bs: seq<Block>, spans: seq<(nat, nat)>) {
    |bs| == |spans| && forall k :: 0 <= k < |spans| ==> SpanBlock(ls, spans[k], bs[k])
  }

  lemma FollowOneMore(ls: seq<Line>, b: Block, span: (nat, nat), bs: seq<Block>, spans: seq<(nat, nat)>)
    requires SpanBlock(ls, span, b) && Follow(ls, bs, spans)
    ensures Follow(ls, [b] + bs, [span] + spans)
  {
  }

  lemma {:induction false} BlocksFollowSpans(ls: seq<Line>, at: nat)
    requires at <= |ls|
    ensures Follow(ls, Blocks(ls[at..]), Spans(ls, at))
    decreases |ls| - at
  {
    if at < |ls| {
      if ls[at].Blank? {
        assert ls[at..][1..] == ls[at + 1..];
        BlocksFollowSpans(ls, at + 1);
      } else {
        var to := at + Run(ls[at], ls[at..]);
        FirstSpan(ls, at);
        BlocksFollowSpans(ls, to);
        FollowOneMore(ls, BlockOf(ls[at], ls[at..to]), (at, to), Blocks(ls[to..]), Spans(ls, to));
      }
    }
  }

  // For every text: the blocks are, in order, exactly the maximal runs of bullets and of prose, and
  // every line that is not blank lies in one of them.
  lemma BlocksAreMaximalRuns(ls: seq<Line>)
    ensures var spans := Spans(ls, 0);
      && |Blocks(ls)| == |spans|
      && (forall k :: 0 <= k < |spans| ==> MaximalRun(ls, spans[k].0, spans[k].1) && SpanBlock(ls, spans[k], Blocks(ls)[k]))
      && (forall k :: 0 < k < |spans| ==> spans[k - 1].1 <= spans[k].0)
      && (forall i: nat :: i < |ls| && !ls[i].Blank? ==> Within(spans, i))
  {
    assert ls[0..] == ls;
    BlocksFollowSpans(ls, 0);
    SpansAreMaximal(ls, 0);
    forall i: nat | i < |ls| && !ls[i].Blank?
      ensures Within(Spans(ls, 0), i)
    {
      SpansCover(ls, 0, i);
    }
  }

  // ------------------------------------------------------------------
  // HTML
  // ------------------------------------------------------------------

  function Items(items: seq<string>): string {
    if items == [] then "" else "<li>" + items[0] + "</li>" + Items(items[1..])
  }

  function JoinLines(lines: seq<string>): string {
    if lines == [] then ""
    else if |lines| == 1 then lines[0]
    else lines[0] + "<br>" + JoinLines(lines[1..])
  }

  function BlockHtml(b: Block): string {
    match b
    case List(items) => "<ul>" + (Items(items) + "</ul>")
    case Paragraph(lines) => "<p>" + JoinLines(lines) + "</p>"
  }

  function Html(bs: seq<Block>): string {
    if bs == [] then "" else BlockHtml(bs[0]) + Html(bs[1..])
  }

  // The tags: each item and each line is written after those before it, and each block after those before it.
  lemma {:induction false} ItemsAppend(items: seq<string>, x: string)
    ensures Items(items + [x]) == Items(items) + ("<li>" + x + "</li>")
  {
    if items == [] {
      assert [x][1..] == [] && "<li>" + x + "</li>" + "" == "<li>" + x + "</li>";
    } else {
      assert (items + [x])[1..] == items[1..] + [x];
      ItemsAppend(items[1..], x);
    }
  }

  lemma {:induction false} JoinAppend(lines: seq<string>, x: string)
    ensures JoinLines(lines + [x]) == if lines == [] then x else JoinLines(lines) + ("<br>" + x)
  {
    if lines != [] {
      assert (lines + [x])[1..] == lines[1..] + [x];
      JoinAppend(lines[1..], x);
    }
  }

  lemma {:induction false} HtmlAppend(bs: seq<Block>, b: Block)
    ensures Html(bs + [b]) == Html(bs) + if b.List? then "<ul>" + (Items(b.items) + "</ul>") else "<p>" + JoinLines(b.lines) + "</p>"
  {
    if bs == [] {
      assert [b][1..] == [] && BlockHtml(b) + "" == BlockHtml(b);
    } else {
      assert (bs + [b])[1..] == bs[1..] + [b];
      HtmlAppend(bs[1..], b);
    }
  }

  // Two items make a list, and two lines of prose a paragraph.
  lemma SmallList(a: string, b: string)
    ensures Html(Blocks([Bullet(a), Bullet(b)])) == "<ul>" + ("<li>" + a + "</li>" + ("<li>" + b + "</li>") + "</ul>")
  {
    var ls := [Bullet(a), Bullet(b)];
    BlocksOfHead(ls);
    assert ls[1..] == [Bullet(b)] && ls[..2] == ls && ls[2..] == [];
    assert Htmls(ls) == [a] + Htmls([Bullet(b)]) == [a] + [b];
    ItemsAppend([], a);
    ItemsAppend([a], b);
    assert [] + [a] == [a];
    HtmlAppend([], List([a] + [b]));
  }

  lemma SmallParagraph(a: string, b: string)
    ensures Html(Blocks([Prose(a), Prose(b)])) == "<p>" + (a + ("<br>" + b)) + "</p>"
  {
    var ls := [Prose(a), Prose(b)];
    BlocksOfHead(ls);
    assert ls[1..] == [Prose(b)] && ls[..2] == ls && ls[2..] == [];
    assert Htmls(ls) == [a] + Htmls([Prose(b)]) == [a] + [b];
    JoinAppend([a], b);
    HtmlAppend([], Paragraph([a] + [b]));
  }

  /** What remains to be written for `ls` when a list is open or a paragraph is pending. */
  function Remaining(inList: bool, paragraph: seq<string>, ls: seq<Line>): string {
    if inList then
      var n := Run(Bullet(""), ls);
      Items(Htmls(ls[..n])) + ("</ul>" + Html(Blocks(ls[n..])))
    else if paragraph != [] then
      var n := Run(Prose(""), ls);
      BlockHtml(Paragraph(paragraph + Htmls(ls[..n]))) + Html(Blocks(ls[n..]))
    else Html(Blocks(ls))
  }

  lemma RunOfHead(ls: seq<Line>)
    requires ls != [] && !ls[0].Blank?
    ensures var n := Run(ls[0], ls[1..]);
      Run(ls[0], ls) == n + 1 && Htmls(ls[..n + 1]) == [ls[0].html] + Htmls(ls[1..][..n]) && ls[n + 1..] == ls[1..][n..]
  {
    var n := Run(ls[0], ls[1..]);
    assert ls[..n + 1][1..] == ls[1..][..n];
  }

  lemma {:induction false} RunSameKind(a: Line, b: Line, ls: seq<Line>)
    requires SameKind(a, b)
    ensures Run(a, ls) == Run(b, ls)
  {
    if ls != [] {
      RunSameKind(a, b, ls[1..]);
    }
  }

  lemma OpenBlock(ls: seq<Line>)
    requires ls != [] && !ls[0].Blank?
    ensures Html(Blocks(ls)) ==
      if ls[0].Bullet? then "<ul>" + Remaining(true, [], ls) else Remaining(false, [ls[0].html], ls[1..])
  {
    RunOfHead(ls);
    var n := Run(ls[0], ls);
    assert Blocks(ls)[1..] == Blocks(ls[n..]);
    if ls[0].Bullet? {
      RunSameKind(ls[0], Bullet(""), ls);
      var items, rest := Items(Htmls(ls[..n])), Html(Blocks(ls[n..]));
      assert ("<ul>" + (items + "</ul>")) + rest == "<ul>" + (items + ("</ul>" + rest));
    } else {
      RunSameKind(ls[0], Prose(""), ls[1..]);
    }
  }

  lemma NextItem(ls: seq<Line>)
    requires ls != [] && ls[0].Bullet?
    ensures Remaining(true, [], ls) == "<li>" + ls[0].html + "</li>" + Remaining(true, [], ls[1..])
  {
    RunOfHead(ls);
    RunSameKind(ls[0], Bullet(""), ls);
    RunSameKind(ls[0], Bullet(""), ls[1..]);
    var n := Run(Bullet(""), ls[1..]);
    var hs := Htmls(ls[..n + 1]);
    assert hs[1..] == Htmls(ls[1..][..n]);
    var item, more, rest := "<li>" + ls[0].html + "</li>", Items(hs[1..]), "</ul>" + Html(Blocks(ls[n + 1..]));
    assert (item + more) + rest == item + (more + rest);
  }

  lemma NextProse(paragraph: seq<string>, ls: seq<Line>)
    requires paragraph != [] && ls != [] && ls[0].Prose?
    ensures Remaining(false, paragraph, ls) == Remaining(false, paragraph + [ls[0].html], ls[1..])
  {
    RunOfHead(ls);
    RunSameKind(ls[0], Prose(""), ls);
    RunSameKind(ls[0], Prose(""), ls[1..]);
    var n := Run(Prose(""), ls[1..]);
    assert paragraph + Htmls(ls[..n + 1]) == (paragraph + [ls[0].html]) + Htmls(ls[1..][..n]);
  }

  lemma CloseList(ls: seq<Line>)
    requires ls == [] || !ls[0].Bullet?
    ensures Remaining(true, [], ls) == "</ul>" + Html(Blocks(ls))
  {
    assert ls[..0] == [] && ls[0..] == ls;
  }

  lemma Flush(paragraph: seq<string>, ls: seq<Line>)
    requires paragraph != [] && (ls == [] || !ls[0].Prose?)
    ensures Remaining(false, paragraph, ls) == BlockHtml(Paragraph(paragraph)) + Html(Blocks(ls))
  {
    assert ls[..0] == [] && ls[0..] == ls;
    assert paragraph + [] == paragraph;
  }

  function Pending(paragraph: seq<string>): string {
    if paragraph == [] then "" else BlockHtml(Paragraph(paragraph))
  }

  lemma Regroup(a: string, b: string, c: string)
    ensures a + (b + c) == (a + b) + c
  {
  }

  // One lemma per step of the pass: what is written plus what remains stays the same.

  lemma StepFlush(html: string, paragraph: seq<string>, now: seq<Line>)
    requires now == [] || !now[0].Prose?
    ensures html + Remaining(false, paragraph, now) == (html + Pending(paragraph)) + Remaining(false, [], now)
  {
    if paragraph == [] {
      assert html + "" == html;
    } else {
      Flush(paragraph, now);
      Regroup(html, BlockHtml(Paragraph(paragraph)), Html(Blocks(now)));
    }
  }

  lemma StepOpen(html: string, now: seq<Line>)
    requires now != [] && now[0].Bullet?
    ensures html + Remaining(false, [], now) == (html + "<ul>") + Remaining(true, [], now)
  {
    OpenBlock(now);
  }

  lemma StepItem(html: string, now: seq<Line>)
    requires now != [] && now[0].Bullet?
    ensures html + Remaining(true, [], now) == (html + ("<li>" + now[0].html + "</li>")) + Remaining(true, [], now[1..])
  {
    NextItem(now);
  }

  lemma StepClose(html: string, now: seq<Line>)
    requires now == [] || !now[0].Bullet?
    ensures html + Remaining(true, [], now) == (html + "</ul>") + Remaining(false, [], now)
  {
    CloseList(now);
  }

  lemma StepProse(paragraph: seq<string>, now: seq<Line>)
    requires now != [] && now[0].Prose?
    ensures Remaining(false, paragraph, now) == Remaining(false, paragraph + [now[0].html], now[1..])
  {
    if paragraph == [] {
      OpenBlock(now);
      assert [] + [now[0].html] == [now[0].html];
    } else {
      NextProse(paragraph, now);
    }
  }

  method FlushParagraph(html: string, paragraph: seq<string>) returns (html': string, paragraph': seq<string>)
    ensures html' == html + Pending(paragraph) && paragraph' == []
  {
    html', paragraph' := html, paragraph;
    if |paragraph| > 0 {
      html' := html' + ("<p>" + JoinLines(paragraph) + "</p>");
      paragraph' := [];
    }
  }

  /** The loop body: one bullet line. */
  method OnBullet(html: string, inList: bool, paragraph: seq<string>, item: string, ghost now: seq<Line>)
    returns (html': string, inList': bool, paragraph': seq<string>)
    requires now != [] && now[0] == Bullet(item) && (inList ==> paragraph == [])
    ensures inList' && paragraph' == []
    ensures html' + Remaining(true, [], now[1..]) == html + Remaining(inList, paragraph, now)
  {
    html', inList', paragraph' := html, inList, paragraph;
    if !inList {
      StepFlush(html', paragraph', now);
      html', paragraph' := FlushParagraph(html', paragraph');
      StepOpen(html', now);
      html' := html' + "<ul>";
      inList' := true;
    }
    StepItem(html', now);
    html' := html' + ("<li>" + item + "</li>");
  }

  /** The loop body: a line that is not a bullet. */
  method OnOther(html: string, inList: bool, paragraph: seq<string>, blank: bool, text: string, ghost now: seq<Line>)
    returns (html': string, paragraph': seq<string>)
    requires now != [] && now[0] == (if blank then Blank else Prose(text)) && (inList ==> paragraph == [])
    ensures html' + Remaining(false, paragraph', now[1..]) == html + Remaining(inList, paragraph, now)
  {
    html', paragraph' := html, paragraph;
    if inList {
      StepClose(html', now);
      html' := html' + "</ul>";
    }
    if blank {
      StepFlush(html', paragraph', now);
      html', paragraph' := FlushParagraph(html', paragraph');
      return;
    }
    StepProse(paragraph', now);
    paragraph' := paragraph' + [text];
  }

  /** The loop body. */
  method OnLine(html: string, inList: bool, paragraph: seq<string>, line: string, inline: string -> string, ghost now: seq<Line>)
    returns (html': string, inList': bool, paragraph': seq<string>)
    requires now != [] && now[0] == Classify(line, inline) && (inList ==> paragraph == [])
    ensures inList' ==> paragraph' == []
    ensures html' + Remaining(inList', paragraph', now[1..]) == html + Remaining(inList, paragraph, now)
  {
    var bullet := BulletText(line);
    if bullet.Some? {
      html', inList', paragraph' := OnBullet(html, inList, paragraph, inline(bullet.value), now);
    } else {
      html', paragraph' := OnOther(html, inList, paragraph, Trim(line) == "", inline(line), now);
      inList' := false;
    }
  }

  lemma NoneRendered(ls: seq<Line>)
    ensures "" + Remaining(false, [], ls) == Html(Blocks(ls))
  {
  }

  /** The one pass: `html` so far, an open list or a pending paragraph, never both. */
  method RenderLines(lines: seq<string>, inline: string -> string) returns (html: string)
    ensures html == Html(Blocks(ClassifyAll(lines, inline)))
  {
    html := "";
    var inList := false;
    var paragraph: seq<string> := [];
    ghost var ls := ClassifyAll(lines, inline);
    var i := 0;
    assert ls[0..] == ls;
    NoneRendered(ls);
    while i < |lines|
      invariant 0 <= i <= |lines|
      invariant inList ==> paragraph == []
      invariant html + Remaining(inList, paragraph, ls[i..]) == Html(Blocks(ls))
    {
      assert ls[i..][1..] == ls[i + 1..];
      html, inList, paragraph := OnLine(html, inList, paragraph, lines[i], inline, ls[i..]);
      i := i + 1;
    }
    assert ls[i..] == [];
    html := Finish(html, inList, paragraph);
  }

  method Finish(html: string, inList: bool, paragraph: seq<string>) returns (html': string)
    requires inList ==> paragraph == []
    ensures html' == html + Remaining(inList, paragraph, [])
  {
    html' := html;
    if inList {
      StepClose(html', []);
      html' := html' + "</ul>";
    }
    StepFlush(html', paragraph, []);
    var flushed, _ := FlushParagraph(html', paragraph);
    html' := flushed;
    assert html' + "" == html';
  }

  predicate AllBlank(ls: seq<Line>) {
    forall i :: 0 <= i < |ls| ==> ls[i].Blank?
  }

  /** An answer with nothing but blank lines is shown as its escaped text. */
  method RenderRichText(raw: string, inline: string -> string) returns (result: string)
    ensures var ls := ClassifyAll(Lines(EscapeHtml(raw)), inline);
      result == if AllBlank(ls) then EscapeHtml(raw) else Html(Blocks(ls))
  {
    var escaped := EscapeHtml(raw);
    var lines := Lines(escaped);
    var html := RenderLines(lines, inline);
    EmptyOnlyWhenBlank(ClassifyAll(lines, inline));
    result := if html != "" then html else escaped;
  }

  lemma {:induction false} EmptyOnlyWhenBlank(ls: seq<Line>)
    ensures Html(Blocks(ls)) == "" <==> AllBlank(ls)
    decreases |ls|
  {
    if ls != [] {
      if ls[0].Blank? {
        EmptyOnlyWhenBlank(ls[1..]);
        assert forall i :: 1 <= i < |ls| ==> ls[i] == ls[1..][i - 1];
      } else {
        assert Html(Blocks(ls)) == BlockHtml(Blocks(ls)[0]) + Html(Blocks(ls)[1..]);
        assert |BlockHtml(Blocks(ls)[0])| > 0;
      }
    }
  }
}
