/** Producing one answer: what is streamed, what is stored and what is returned. */
module ChatAnswers {
  import opened Prelude
  import opened Sse
  import opened WidgetStream

  /** What the language model streams: text pieces and a usage report. */
  datatype ModelChunk = Piece(text: Text) | Usage(prompt: nat, completion: nat)

  /** The escalation step's verdict. */
  datatype Verdict = Verdict(escalated: bool, answer: Option<Text>)

  /** What the language model decides about escalating. */
  datatype Action = ANSWER | ESCALATE

  /** The escalation step answers only when it escalates: with the shipped template, and a sentence
      on how to reach the organization if it has an address. */
  function Process(action: Action, template: Text, reachUs: Text): Verdict {
    if action == ANSWER then Verdict(false, None) else Verdict(true, Some(template + reachUs))
  }

  /** The canned answer is used only when the verdict carries a non-empty one. */
  predicate Canned(v: Verdict) {
    v.escalated && v.answer.Some? && v.answer.value != []
  }

  /** What both paths store. */
  function FinalAnswer(v: Verdict, completion: Text): Text {
    if Canned(v) then v.answer.value else completion
  }

  const SPACE: CodePoint := 32

  /** Python's `split(" ")`. */
  function Words(t: Text): (ws: seq<Text>)
    ensures |ws| >= 1
  {
    if t == [] then [[]]
    else
      var rest := Words(t[1..]);
      if t[0] == SPACE then [[]] + rest else [[t[0]] + rest[0]] + rest[1..]
  }

  /** The words from number `i` on, each followed by a space except the last. */
  function Rejoined(ws: seq<Text>, i: nat): Text
    requires i < |ws|
    decreases |ws| - i
  {
    if i == |ws| - 1 then ws[i] else ws[i] + [SPACE] + Rejoined(ws, i + 1)
  }

  lemma {:induction false} RejoinedShift(ws: seq<Text>, vs: seq<Text>, i: nat, j: nat)
    requires i < |ws| && j < |vs| && ws[i..] == vs[j..]
    ensures Rejoined(ws, i) == Rejoined(vs, j)
    decreases |ws| - i
  {
    assert ws[i] == ws[i..][0] == vs[j];
    if i < |ws| - 1 {
      assert ws[i + 1..] == ws[i..][1..] && vs[j + 1..] == vs[j..][1..];
      RejoinedShift(ws, vs, i + 1, j + 1);
    }
  }

  // The pieces between spaces.
  lemma {:induction false} WordsHaveNoSpace(t: Text)
    ensures forall w :: w in Words(t) ==> 32 !in w
  {
    if t != [] {
      WordsHaveNoSpace(t[1..]);
    }
  }

  lemma {:induction false} WordsRejoin(t: Text)
    ensures Rejoined(Words(t), 0) == t
  {
    if t != [] {
      var ws, rest := Words(t), Words(t[1..]);
      WordsRejoin(t[1..]);
      if t[0] == SPACE {
        RejoinedShift(ws, rest, 1, 0);
        assert t == [] + [SPACE] + t[1..];
      } else if |rest| > 1 {
        RejoinedShift(ws, rest, 1, 1);
        assert t == [t[0]] + t[1..];
      } else {
        assert t == [t[0]] + t[1..];
      }
    }
  }

  /** What the model branch yields: one token for each piece. */
  function Pieces(llm: seq<ModelChunk>): (tokens: seq<Item>)
    ensures AllTokens(tokens)
  {
    if llm == [] then [] else (if llm[0].Piece? then [Token(llm[0].text)] else []) + Pieces(llm[1..])
  }

  lemma {:induction false} PiecesAppend(a: seq<ModelChunk>, b: seq<ModelChunk>)
    ensures Pieces(a + b) == Pieces(a) + Pieces(b)
  {
    if a == [] {
      assert a + b == b;
    } else {
      assert (a + b)[1..] == a[1..] + b;
      PiecesAppend(a[1..], b);
    }
  }

  lemma OnePiece(llm: seq<ModelChunk>, i: nat)
    requires i < |llm|
    ensures Pieces(llm[..i + 1]) == Pieces(llm[..i]) + if llm[i].Piece? then [Token(llm[i].text)] else []
  {
    PiecesAppend(llm[..i], [llm[i]]);
    assert llm[..i + 1] == llm[..i] + [llm[i]];
    assert [llm[i]][1..] == [];
  }

  // Each piece is a token, after those of the pieces before it and before those of the pieces after it;
  // a stream of pieces only is forwarded one for one.
  lemma PieceInOrder(llm: seq<ModelChunk>, i: nat)
    requires i < |llm| && llm[i].Piece?
    ensures var n := |Pieces(llm[..i])|;
      n < |Pieces(llm)| && Pieces(llm)[n] == Token(llm[i].text) && Pieces(llm)[..n] == Pieces(llm[..i])
    ensures (forall j :: 0 <= j < i ==> llm[j].Piece?) ==> |Pieces(llm)| > i && Pieces(llm)[i] == Token(llm[i].text)
  {
    OnePiece(llm, i);
    PiecesAppend(llm[..i + 1], llm[i + 1..]);
    assert llm == llm[..i + 1] + llm[i + 1..];
    CountPieces(llm[..i]);
  }

  lemma {:induction false} CountPieces(llm: seq<ModelChunk>)
    ensures |Pieces(llm)| <= |llm|
    ensures |Pieces(llm)| == |llm| <==> forall j :: 0 <= j < |llm| ==> llm[j].Piece?
  {
    if llm != [] {
      CountPieces(llm[1..]);
      assert forall j :: 1 <= j < |llm| ==> llm[j] == llm[1..][j - 1];
    }
  }

  /** The usage kept is what the last report says, or nothing without one. */
  predicate Reported(llm: seq<ModelChunk>, usage: (nat, nat)) {
    && ((forall i :: 0 <= i < |llm| ==> llm[i].Piece?) ==> usage == (0, 0))
    && (forall i :: 0 <= i < |llm| && llm[i].Usage? && (forall j :: i < j < |llm| ==> llm[j].Piece?) ==>
          usage == (llm[i].prompt, llm[i].completion))
  }

  predicate AllTokens(items: seq<Item>) {
    forall i :: 0 <= i < |items| ==> items[i].Token?
  }

  lemma {:induction false} TextAppend(items: seq<Item>, more: seq<Item>)
    ensures TextOf(items + more) == TextOf(items) + TextOf(more)
  {
    if items == [] {
      assert items + more == more;
    } else {
      assert (items + more)[1..] == items[1..] + more;
      TextAppend(items[1..], more);
    }
  }

  lemma OneMoreToken(items: seq<Item>, t: Text)
    ensures TextOf(items + [Token(t)]) == TextOf(items) + t
  {
    TextAppend(items, [Token(t)]);
    assert [Token(t)][1..] == [];
    assert TextOf([Token(t)]) == t + [];
  }

  lemma OneMoreWord(ws: seq<Text>, i: nat, before: Text)
    requires i < |ws|
    ensures before + Rejoined(ws, i) ==
      (before + (ws[i] + if i < |ws| - 1 then [SPACE] else [])) + if i + 1 < |ws| then Rejoined(ws, i + 1) else []
  {
    var piece := ws[i] + if i < |ws| - 1 then [SPACE] else [];
    var rest := if i + 1 < |ws| then Rejoined(ws, i + 1) else [];
    assert Rejoined(ws, i) == piece + rest;
  }

  /** What was yielded for the first i words, and the rest of the answer. */
  function Streamed(tokens: seq<Item>, words: seq<Text>, i: nat): Text
    requires i <= |words|
  {
    TextOf(tokens) + if i < |words| then Rejoined(words, i) else []
  }

  lemma NextWord(tokens: seq<Item>, words: seq<Text>, i: nat)
    requires i < |words|
    ensures var piece := words[i] + if i < |words| - 1 then [SPACE] else [];
      Streamed(tokens + [Token(piece)], words, i + 1) == Streamed(tokens, words, i)
  {
    OneMoreWord(words, i, TextOf(tokens));
    OneMoreToken(tokens, words[i] + if i < |words| - 1 then [SPACE] else []);
  }

  /** One token for each of the first i words, with its space unless it is the last. */
  predicate ByWord(tokens: seq<Item>, words: seq<Text>, i: nat) {
    && |tokens| == i <= |words|
    && forall k :: 0 <= k < i ==> tokens[k] == Token(words[k] + if k < |words| - 1 then [SPACE] else [])
  }

  lemma {:induction false} ByWordStreams(tokens: seq<Item>, words: seq<Text>, i: nat)
    requires words != [] && ByWord(tokens, words, i)
    ensures Streamed(tokens, words, i) == Rejoined(words, 0)
  {
    if i > 0 {
      ByWordStreams(tokens[..i - 1], words, i - 1);
      NextWord(tokens[..i - 1], words, i - 1);
      assert tokens == tokens[..i - 1] + [tokens[i - 1]];
    }
  }

  /** The escalated branch: the canned answer word by word. */
  method StreamCanned(answer: Text) returns (tokens: seq<Item>)
    ensures ByWord(tokens, Words(answer), |Words(answer)|)
    ensures AllTokens(tokens) && TextOf(tokens) == answer
  {
    tokens := [];
    var words := Words(answer);
    var i := 0;
    while i < |words|
      invariant ByWord(tokens, words, i)
    {
      tokens := tokens + [Token(words[i] + if i < |words| - 1 then [SPACE] else [])];
      i := i + 1;
    }
    WordsRejoin(answer);
    ByWordStreams(tokens, words, i);
    assert TextOf(tokens) + [] == TextOf(tokens);
  }

  /** The model branch: text is forwarded and accumulated, usage reports are kept. */
  method StreamModel(llm: seq<ModelChunk>) returns (tokens: seq<Item>, stored: Text, usage: (nat, nat))
    ensures tokens == Pieces(llm) && stored == TextOf(tokens)
    ensures Reported(llm, usage)
  {
    tokens, stored, usage := [], [], (0, 0);
    var i := 0;
    while i < |llm|
      invariant 0 <= i <= |llm|
      invariant tokens == Pieces(llm[..i]) && stored == TextOf(tokens)
      invariant Reported(llm[..i], usage)
    {
      OnePiece(llm, i);
      assert llm[..i + 1][..i] == llm[..i];
      match llm[i] {
        case Piece(text) =>
          OneMoreToken(tokens, text);
          stored := stored + text;
          tokens := tokens + [Token(text)];
        case Usage(prompt, completion) =>
          usage := (prompt, completion);
      }
      i := i + 1;
    }
    assert llm[..i] == llm;
  }

  method StreamAnswer(verdict: Verdict, llm: seq<ModelChunk>, citations: Option<string>)
    returns (tokens: seq<Item>, yielded: seq<Item>, stored: Text, usage: (nat, nat))
    ensures verdict.escalated && verdict.answer.Some? && verdict.answer.value != [] ==>
      stored == verdict.answer.value && usage == (0, 0)
    ensures !verdict.escalated || verdict.answer.None? || verdict.answer.value == [] ==>
      tokens == Pieces(llm) && Reported(llm, usage)
    ensures AllTokens(tokens) && TextOf(tokens) == stored
    ensures yielded == tokens + match citations case Some(list) => [Citations(list)] case None => []
  {
    usage := (0, 0);
    if verdict.escalated && verdict.answer.Some? && verdict.answer.value != [] {
      stored := verdict.answer.value;
      tokens := StreamCanned(stored);
    } else {
      tokens, stored, usage := StreamModel(llm);
    }
    yielded := tokens;
    if citations.Some? {
      yielded := yielded + [Citations(citations.value)];
    }
  }

  function CitationTail(citations: Option<string>): seq<Item> {
    match citations
    case Some(list) => [Citations(list)]
    case None => []
  }

  lemma {:induction false} OnItemsAppend(c: Chat, a: seq<Item>, b: seq<Item>)
    ensures OnItems(c, a + b) == OnItems(OnItems(c, a), b)
    decreases |a|
  {
    if a == [] {
      assert a + b == b;
    } else {
      assert (a + b)[1..] == a[1..] + b;
      OnItemsAppend(OnItem(c, a[0]), a[1..], b);
    }
  }

  lemma {:induction false} TokensLeaveCitations(c: Chat, items: seq<Item>)
    requires AllTokens(items)
    ensures OnItems(c, items).citations == c.citations
    decreases |items|
  {
    if items != [] {
      TokensLeaveCitations(OnItem(c, items[0]), items[1..]);
    }
  }

  lemma TailDrawsCitations(c: Chat, citations: Option<string>)
    ensures OnItems(c, CitationTail(citations)) == if citations.Some? && c.shown then c.(citations := citations) else c
  {
    if citations.Some? {
      var tail := CitationTail(citations);
      assert tail[1..] == [] && OnItems(c, tail) == OnItem(c, tail[0]);
    }
  }

  lemma FinalChat(id: Units, tokens: seq<Item>, citations: Option<string>)
    requires AllTokens(tokens)
    ensures var stored := TextOf(tokens);
      OnItems(FRESH.(conversation := Some(id)), tokens + CitationTail(citations))
      == Chat(Some(id), Utf16(stored), stored != [], if stored != [] then citations else None)
  {
    var c := FRESH.(conversation := Some(id));
    OnItemsAppend(c, tokens, CitationTail(citations));
    TokensLeaveCitations(c, tokens);
    ItemsAddUp(c, tokens);
    TailDrawsCitations(OnItems(c, tokens), citations);
    assert [] + Utf16(TextOf(tokens)) == Utf16(TextOf(tokens));
  }

  lemma TailWellWritten(tokens: seq<Item>, citations: Option<string>)
    requires AllTokens(tokens) && (citations.Some? ==> Printable(citations.value))
    ensures WellWritten(tokens + CitationTail(citations))
  {
  }

  // The whole path: the chat the widget ends with is fixed by what stream_answer stored,
  // on both branches and however the network cuts the stream.
  lemma WidgetShowsWhatIsStored(conversation: Text, tokens: seq<Item>, citations: Option<string>, chunks: seq<string>)
    requires conversation != [] && AllTokens(tokens) && (citations.Some? ==> Printable(citations.value))
    requires Concat(chunks) == Wire(conversation, tokens + CitationTail(citations))
    ensures var stored := TextOf(tokens);
      Received(chunks) == (Chat(Some(Utf16(conversation)), Utf16(stored), stored != [], if stored != [] then citations else None), "")
  {
    var items := tokens + CitationTail(citations);
    TailWellWritten(tokens, citations);
    WidgetSeesTheAnswer(conversation, items, chunks);
    FinalChat(Utf16(conversation), tokens, citations);
  }

  /** The non-streaming path stores the final answer but returns the escalation step's. */
  method Answer(verdict: Verdict, completion: Text) returns (stored: Text, returned: Option<Text>)
    ensures stored == (if verdict.escalated && verdict.answer.Some? && verdict.answer.value != [] then verdict.answer.value else completion)
    ensures returned == verdict.answer
  {
    if verdict.escalated && verdict.answer.Some? && verdict.answer.value != [] {
      stored := verdict.answer.value;
    } else {
      stored := completion;
    }
    returned := verdict.answer;
  }

  // answer() returns what it stores exactly when the escalation step escalates; whatever the
  // model writes, an ordinary answer is stored and nothing is returned.
  lemma AnswerIsReturnedIff(action: Action, template: Text, reachUs: Text, completion: Text)
    requires template != []
    ensures var v := Process(action, template, reachUs);
      && (v.answer == Some(FinalAnswer(v, completion)) <==> action == ESCALATE)
      && (action == ANSWER ==> FinalAnswer(v, completion) == completion && v.answer == None)
      && (Canned(v) <==> action == ESCALATE)
  {
    if action == ESCALATE {
      assert |template + reachUs| > 0;
    }
  }
}
