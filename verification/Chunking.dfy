/** Splitting a document's text into overlapping chunks, and storing them all or not at all. */
module Chunking {
  import opened Prelude

  /** text[start:end] in Python: a negative end counts from the back, and both are cut to the text. */
  function Slice(text: string, start: nat, end: int): string {
    var stop := if end < 0 then |text| + end else if end > |text| then |text| else end;
    if start >= stop then "" else text[start..stop]
  }

  /** The chunks that begin at start, start + stride, ... while that is inside the text. */
  function Chunks(text: string, size: int, overlap: int, start: nat): seq<string>
    requires overlap < size
    decreases |text| - start
  {
    if start >= |text| then []
    else [Slice(text, start, start + size)] + Chunks(text, size, overlap, start + (size - overlap))
  }

  class TextChunker {
    const size: int
    const overlap: int

    constructor (size: int, overlap: int)
      requires overlap < size
      ensures this.size == size && this.overlap == overlap
    {
      this.size, this.overlap := size, overlap;
    }

    method Split(text: string) returns (chunks: seq<string>)
      requires overlap < size
      ensures chunks == Chunks(text, size, overlap, 0)
    {
      if text == "" {
        return [];
      }
      chunks := [];
      var start := 0;
      while start < |text|
        invariant start >= 0
        invariant chunks + Chunks(text, size, overlap, start) == Chunks(text, size, overlap, 0)
        decreases |text| - start
      {
        var end := start + size;
        var chunk := Slice(text, start, end);
        assert chunks + ([chunk] + Chunks(text, size, overlap, start + (size - overlap)))
            == chunks + [chunk] + Chunks(text, size, overlap, start + (size - overlap));
        chunks := chunks + [chunk];
        start := start + size - overlap;
      }
    }
  }

  datatype ValueError = OverlapTooLarge

  /** The constructor's guard: the stride must be positive, and nothing else is asked. */
  method NewChunker(size: int, overlap: int) returns (r: Result<TextChunker, ValueError>)
    ensures r.Ok? <==> overlap < size
    ensures r.Ok? ==> fresh(r.value) && r.value.size == size && r.value.overlap == overlap
  {
    if overlap >= size {
      return Err(OverlapTooLarge);
    }
    var c := new TextChunker(size, overlap);
    return Ok(c);
  }

  // ------------------------------------------------------------------
  // How many chunks, and which
  // ------------------------------------------------------------------

  function CeilDiv(n: nat, d: nat): nat
    requires d > 0
  {
    (n + d - 1) / d
  }

  lemma DivShift(m: nat, k: nat, d: nat)
    requires d > 0
    ensures (k * d + m) / d == k + m / d
  {
    var q, r := m / d, m % d;
    assert k * d + m == (k + q) * d + r;
    DivUnique(k * d + m, k + q, r, d);
  }

  lemma DivUnique(n: nat, q: nat, r: nat, d: nat)
    requires d > 0 && n == q * d + r && r < d
    ensures n / d == q
  {
    var q', r' := n / d, n % d;
    assert n == q' * d + r';
    if q' < q {
      Times(q' + 1, q, d);
    } else if q < q' {
      Times(q + 1, q', d);
    }
  }

  lemma DivMonotone(a: nat, b: nat, d: nat)
    requires d > 0 && a <= b
    ensures a / d <= b / d
  {
    if b / d < a / d {
      Times(b / d + 1, a / d, d);
    }
  }

  lemma CeilDivStep(n: nat, d: nat)
    requires d > 0 && n > 0
    ensures CeilDiv(n, d) == 1 + (if n <= d then 0 else CeilDiv(n - d, d))
  {
    DivShift(n - 1, 1, d);
    if n <= d {
      DivUnique(n - 1, 0, n - 1, d);
    }
  }

  lemma {:induction false} ChunkCount(text: string, size: int, overlap: int, start: nat)
    requires overlap < size
    ensures |Chunks(text, size, overlap, start)| == if start >= |text| then 0 else CeilDiv(|text| - start, size - overlap)
    decreases |text| - start
  {
    if start < |text| {
      CeilDivStep(|text| - start, size - overlap);
      ChunkCount(text, size, overlap, start + (size - overlap));
    }
  }

  function Offset(k: nat, stride: nat): nat {
    if k == 0 then 0 else stride + Offset(k - 1, stride)
  }

  lemma {:induction false} OffsetIsProduct(k: nat, stride: nat)
    ensures Offset(k, stride) == k * stride
  {
    if k > 0 {
      OffsetIsProduct(k - 1, stride);
    }
  }

  lemma {:induction false} ChunkAt(text: string, size: int, overlap: int, start: nat, k: nat)
    requires overlap < size && k < |Chunks(text, size, overlap, start)|
    ensures var at := start + Offset(k, size - overlap);
      at < |text| && Chunks(text, size, overlap, start)[k] == Slice(text, at, at + size)
    decreases k
  {
    if k > 0 {
      ChunkAt(text, size, overlap, start + (size - overlap), k - 1);
    }
  }

  // ------------------------------------------------------------------
  // The text comes back
  // ------------------------------------------------------------------

  function Tail(chunk: string, overlap: nat): string {
    if |chunk| <= overlap then "" else chunk[overlap..]
  }

  function Tails(chunks: seq<string>, overlap: nat): string {
    if chunks == [] then "" else Tail(chunks[0], overlap) + Tails(chunks[1..], overlap)
  }

  /** The first chunk, then every later one without the characters it shares with its predecessor. */
  function Rebuilt(chunks: seq<string>, overlap: nat): string {
    if chunks == [] then "" else chunks[0] + Tails(chunks[1..], overlap)
  }

  lemma TailOfSlice(text: string, size: nat, overlap: nat, start: nat)
    requires overlap < size && start < |text|
    ensures Tail(Slice(text, start, start + size), overlap) ==
      if start + overlap >= |text| then ""
      else if start + size > |text| then text[start + overlap..]
      else text[start + overlap..start + size]
  {
    var stop := if start + size > |text| then |text| else start + size;
    assert Slice(text, start, start + size) == text[start..stop];
  }

  lemma TailsStep(chunk: string, rest: seq<string>, overlap: nat)
    ensures Tails([chunk] + rest, overlap) == Tail(chunk, overlap) + Tails(rest, overlap)
  {
    assert ([chunk] + rest)[1..] == rest;
  }

  /** The part of the text that the chunks from `start` on add to what comes before. */
  function Remaining(text: string, from: nat): string {
    if from >= |text| then "" else text[from..]
  }

  lemma RemainingStep(text: string, size: nat, overlap: nat, start: nat)
    requires overlap < size && start < |text|
    ensures Tail(Slice(text, start, start + size), overlap) + Remaining(text, start + size) == Remaining(text, start + overlap)
  {
    TailOfSlice(text, size, overlap, start);
  }

  lemma {:induction false} TailsCover(text: string, size: nat, overlap: nat, start: nat)
    requires overlap < size
    ensures Tails(Chunks(text, size, overlap, start), overlap) == Remaining(text, start + overlap)
    decreases |text| - start
  {
    if start < |text| {
      var rest := Chunks(text, size, overlap, start + (size - overlap));
      TailsCover(text, size, overlap, start + (size - overlap));
      TailsStep(Slice(text, start, start + size), rest, overlap);
      RemainingStep(text, size, overlap, start);
    }
  }

  lemma ChunksRebuildText(text: string, size: nat, overlap: nat)
    requires overlap < size
    ensures Rebuilt(Chunks(text, size, overlap, 0), overlap) == text
  {
    var chunks := Chunks(text, size, overlap, 0);
    if text != "" {
      TailsCover(text, size, overlap, size - overlap);
      assert chunks[1..] == Chunks(text, size, overlap, size - overlap);
      if size < |text| {
        assert text == text[..size] + text[size..];
      }
    }
  }

  // ------------------------------------------------------------------
  // Redundant chunks
  // ------------------------------------------------------------------

  /** A later chunk that repeats the end of its predecessor, one stride in, and adds nothing. */
  predicate Redundant(chunks: seq<string>, stride: nat, k: nat) {
    0 < k < |chunks| && stride <= |chunks[k - 1]| && chunks[k] == chunks[k - 1][stride..]
  }

  /** Consecutive slices: the second is the end of the first exactly when the text stops within the first. */
  lemma NextSlice(text: string, size: nat, stride: nat, at: nat)
    requires 0 < stride <= size && at + stride < |text|
    ensures var first, second := Slice(text, at, at + size), Slice(text, at + stride, at + stride + size);
      && stride <= |first|
      && (second == first[stride..] <==> at + size >= |text|)
      && (at + size >= |text| <==> |second| <= size - stride)
  {
    var stop := if at + size > |text| then |text| else at + size;
    var first, second := Slice(text, at, at + size), Slice(text, at + stride, at + stride + size);
    assert first == text[at..stop];
    assert first[stride..] == text[at + stride..stop];
    if at + size < |text| {
      assert |second| > |first[stride..]|;
    }
  }

  /** Chunk number k starts k strides into the text. */
  predicate LaidAt(text: string, size: nat, stride: nat, chunks: seq<string>, k: nat) {
    var at := Offset(k, stride);
    k < |chunks| && at < |text| && chunks[k] == Slice(text, at, at + size)
  }

  predicate Laid(text: string, size: nat, stride: nat, chunks: seq<string>) {
    forall k :: 0 <= k < |chunks| ==> LaidAt(text, size, stride, chunks, k)
  }

  lemma ChunkLaid(text: string, size: nat, overlap: nat, k: nat)
    requires overlap < size && k < |Chunks(text, size, overlap, 0)|
    ensures LaidAt(text, size, size - overlap, Chunks(text, size, overlap, 0), k)
  {
    ChunkAt(text, size, overlap, 0, k);
  }

  lemma ChunksLaid(text: string, size: nat, overlap: nat)
    requires overlap < size
    ensures Laid(text, size, size - overlap, Chunks(text, size, overlap, 0))
  {
    var chunks, stride := Chunks(text, size, overlap, 0), size - overlap;
    forall k | 0 <= k < |chunks|
      ensures LaidAt(text, size, stride, chunks, k)
    {
      ChunkLaid(text, size, overlap, k);
    }
  }

  lemma LaidRedundant(text: string, size: nat, stride: nat, chunks: seq<string>, k: nat)
    requires Laid(text, size, stride, chunks) && 0 < stride <= size && 0 < k < |chunks|
    ensures Redundant(chunks, stride, k) <==> Offset(k, stride) + (size - stride) >= |text|
    ensures Redundant(chunks, stride, k) <==> |chunks[k]| <= size - stride
  {
    var at := Offset(k - 1, stride);
    assert Offset(k, stride) == at + stride;
    assert LaidAt(text, size, stride, chunks, k - 1) && LaidAt(text, size, stride, chunks, k);
    NextSlice(text, size, stride, at);
  }

  // A chunk repeats the end of its predecessor exactly when it is no longer than the overlap.
  lemma RedundantIff(text: string, size: nat, overlap: nat, k: nat)
    requires overlap < size && 0 < k < |Chunks(text, size, overlap, 0)|
    ensures var chunks := Chunks(text, size, overlap, 0);
      && (Redundant(chunks, size - overlap, k) <==> Offset(k, size - overlap) + overlap >= |text|)
      && (Redundant(chunks, size - overlap, k) <==> |chunks[k]| <= overlap)
  {
    ChunksLaid(text, size, overlap);
    LaidRedundant(text, size, size - overlap, Chunks(text, size, overlap, 0), k);
  }

  // Redundant chunks come last, and there are at most ceil(overlap / stride) of them.
  lemma RedundantChunksTrail(text: string, size: nat, overlap: nat, k: nat)
    requires overlap < size
    requires Redundant(Chunks(text, size, overlap, 0), size - overlap, k)
    ensures forall j :: k <= j < |Chunks(text, size, overlap, 0)| ==> RedundantAt(text, size, overlap, j)
    ensures |Chunks(text, size, overlap, 0)| - k <= CeilDiv(overlap, size - overlap)
  {
    var chunks, stride := Chunks(text, size, overlap, 0), size - overlap;
    RedundantIff(text, size, overlap, k);
    OffsetIsProduct(k, stride);
    forall j | k <= j < |chunks|
      ensures RedundantAt(text, size, overlap, j)
    {
      RedundantIff(text, size, overlap, j);
      OffsetIsProduct(j, stride);
      Times(k, j, stride);
    }
    ChunkCount(text, size, overlap, 0);
    CeilWithin(|text|, overlap, stride, k);
  }

  predicate RedundantAt(text: string, size: nat, overlap: nat, j: nat)
    requires overlap < size
  {
    Redundant(Chunks(text, size, overlap, 0), size - overlap, j)
  }

  lemma CeilWithin(n: nat, overlap: nat, stride: nat, k: nat)
    requires stride > 0 && k * stride + overlap >= n
    ensures CeilDiv(n, stride) <= k + CeilDiv(overlap, stride)
  {
    var m := overlap + stride - 1;
    assert n + stride - 1 <= k * stride + m;
    DivShift(m, k, stride);
    DivMonotone(n + stride - 1, k * stride + m, stride);
  }

  // ------------------------------------------------------------------
  // What the guard lets through
  // ------------------------------------------------------------------

  /** The k-th chunk has, at its own place, the character at position i of the text. */
  predicate Holds(text: string, size: int, overlap: int, k: nat, i: nat)
    requires overlap < size && i < |text|
  {
    var chunks, at := Chunks(text, size, overlap, 0), Offset(k, size - overlap);
    k < |chunks| && at <= i < at + |chunks[k]| && chunks[k][i - at] == text[i]
  }

  /** Some chunk holds the character at position i. */
  ghost predicate Covered(text: string, size: int, overlap: int, i: nat)
    requires overlap < size && i < |text|
  {
    exists k: nat :: Holds(text, size, overlap, k, i)
  }

  lemma SliceHolds(text: string, at: nat, end: int, i: nat)
    requires at < |text| && i < |text|
    ensures at <= i < at + |Slice(text, at, end)| <==> at <= i < (if end < 0 then |text| + end else end)
    ensures at <= i < at + |Slice(text, at, end)| ==> Slice(text, at, end)[i - at] == text[i]
  {
  }

  // Which positions a chunk holds: those from its start up to the slice's end, counted as Python does.
  lemma HoldsIff(text: string, size: int, overlap: int, k: nat, i: nat)
    requires overlap < size && i < |text|
    ensures var at := Offset(k, size - overlap);
      Holds(text, size, overlap, k, i) <==> at <= i < (if at + size < 0 then |text| + at + size else at + size)
  {
    var at := Offset(k, size - overlap);
    var end := at + size;
    if at <= i {
      ChunkStarts(text, size, overlap, k);
      ChunkAt(text, size, overlap, 0, k);
      SliceHolds(text, at, end, i);
    }
  }

  lemma ChunkStarts(text: string, size: int, overlap: int, k: nat)
    requires overlap < size && Offset(k, size - overlap) < |text|
    ensures k < |Chunks(text, size, overlap, 0)|
  {
    var stride := size - overlap;
    OffsetIsProduct(k, stride);
    ChunkCount(text, size, overlap, 0);
    CeilAbove(|text|, stride, k);
  }

  lemma CeilAbove(n: nat, d: nat, k: nat)
    requires d > 0 && k * d < n
    ensures k < CeilDiv(n, d)
  {
    DivShift(d, k, d);
    DivUnique(d, 1, 0, d);
    DivMonotone(k * d + d, n + d - 1, d);
  }

  lemma ReachedBy(i: nat, stride: nat)
    requires stride > 0
    ensures Offset(i / stride, stride) <= i < Offset(i / stride, stride) + stride
  {
    OffsetIsProduct(i / stride, stride);
  }

  // The guard admits sizes and overlaps of any sign; the chunks hold all of a text exactly when the
  // overlap is not negative, or the text is empty or no longer than one chunk.
  lemma NothingLostIff(text: string, size: int, overlap: int)
    requires overlap < size
    ensures (forall i: nat :: i < |text| ==> Covered(text, size, overlap, i))
      <==> overlap >= 0 || |text| <= size || text == ""
  {
    var stride := size - overlap;
    if overlap >= 0 {
      forall i: nat | i < |text|
        ensures Covered(text, size, overlap, i)
      {
        ReachedBy(i, stride);
        HoldsIff(text, size, overlap, i / stride, i);
      }
    } else if |text| <= size {
      forall i: nat | i < |text|
        ensures Covered(text, size, overlap, i)
      {
        HoldsIff(text, size, overlap, 0, i);
      }
    } else if text != "" {
      SomethingLost(text, size, overlap);
    }
  }

  /** The first character after the first chunk, or the last one when sizes count from the back, is in no chunk. */
  lemma SomethingLost(text: string, size: int, overlap: int)
    requires overlap < size && overlap < 0 && |text| > size && text != ""
    ensures var i := if size >= 0 then size else |text| - 1; !Covered(text, size, overlap, i)
  {
    var i := if size >= 0 then size else |text| - 1;
    forall k: nat
      ensures !Holds(text, size, overlap, k, i)
    {
      HoldsIff(text, size, overlap, k, i);
      var at := Offset(k, size - overlap);
      assert k > 0 ==> at >= size - overlap;
    }
  }

  // ------------------------------------------------------------------
  // Processing a document
  // ------------------------------------------------------------------

  datatype Status = PROCESSING | READY | FAILED

  datatype Row<E> = Row(document: nat, index: nat, content: string, embedding: E)

  function Zipped<E>(document: nat, chunks: seq<string>, embeddings: seq<E>, index: nat): (rows: seq<Row<E>>)
    ensures |rows| == if |chunks| <= |embeddings| then |chunks| else |embeddings|
    ensures forall i :: 0 <= i < |rows| ==> rows[i] == Row(document, index + i, chunks[i], embeddings[i])
  {
    if chunks == [] || embeddings == [] then []
    else [Row(document, index, chunks[0], embeddings[0])] + Zipped(document, chunks[1..], embeddings[1..], index + 1)
  }

  function Contents<E>(rows: seq<Row<E>>, document: nat): seq<string> {
    if rows == [] then []
    else (if rows[0].document == document then [rows[0].content] else []) + Contents(rows[1..], document)
  }

  lemma ContentsStep<E>(row: Row<E>, rest: seq<Row<E>>, document: nat)
    ensures Contents([row] + rest, document) == (if row.document == document then [row.content] else []) + Contents(rest, document)
  {
    assert ([row] + rest)[1..] == rest;
  }

  lemma {:induction false} ContentsAppend<E>(a: seq<Row<E>>, b: seq<Row<E>>, document: nat)
    ensures Contents(a + b, document) == Contents(a, document) + Contents(b, document)
  {
    if a == [] {
      assert a + b == b;
    } else {
      var head := if a[0].document == document then [a[0].content] else [];
      ContentsAppend(a[1..], b, document);
      ContentsStep(a[0], a[1..] + b, document);
      assert [a[0]] + (a[1..] + b) == a + b;
      assert head + (Contents(a[1..], document) + Contents(b, document)) == (head + Contents(a[1..], document)) + Contents(b, document);
    }
  }

  lemma {:induction false} ContentsOfZipped<E>(document: nat, chunks: seq<string>, embeddings: seq<E>, index: nat)
    requires |chunks| == |embeddings|
    ensures Contents(Zipped(document, chunks, embeddings, index), document) == chunks
  {
    if chunks != [] {
      var rows := Zipped(document, chunks, embeddings, index);
      assert rows[1..] == Zipped(document, chunks[1..], embeddings[1..], index + 1);
      ContentsOfZipped(document, chunks[1..], embeddings[1..], index + 1);
      assert chunks == [chunks[0]] + chunks[1..];
    }
  }

  class DocumentProcessor<E> {
    const chunker: TextChunker
    var rows: seq<Row<E>>
    var status: map<nat, Status>

    constructor (chunker: TextChunker)
      ensures this.chunker == chunker && rows == [] && status == map[]
    {
      this.chunker := chunker;
      rows, status := [], map[];
    }

    /** The parsed text, the embeddings and the insert may each fail; a failure is raised again at the end. */
    method Process(document: nat, text: Option<string>, embeddings: Option<seq<E>>, inserts: bool) returns (raised: bool)
      requires 0 <= chunker.overlap < chunker.size
      modifies `rows, `status
      ensures raised <==> text.None? || embeddings.None? || !inserts
      ensures status == old(status)[document := if raised then FAILED else READY]
      ensures raised ==> rows == old(rows)
      ensures !raised ==>
        rows == old(rows) + Zipped(document, Chunks(text.value, chunker.size, chunker.overlap, 0), embeddings.value, 0)
      ensures !raised ==>
        var chunks := Chunks(text.value, chunker.size, chunker.overlap, 0);
        && old(rows) <= rows
        && |rows| - |old(rows)| == (if |chunks| <= |embeddings.value| then |chunks| else |embeddings.value|)
        && forall i :: 0 <= i < |rows| - |old(rows)| ==> rows[|old(rows)| + i] == Row(document, i, chunks[i], embeddings.value[i])
      ensures !raised && Contents(old(rows), document) == [] ==>
        |embeddings.value| == |Chunks(text.value, chunker.size, chunker.overlap, 0)| ==>
        Rebuilt(Contents(rows, document), chunker.overlap) == text.value
    {
      var committed := rows;
      if text.Some? {
        var chunks := chunker.Split(text.value);
        if embeddings.Some? {
          rows := rows + Zipped(document, chunks, embeddings.value, 0);
          if inserts {
            status := status[document := READY];
            ContentsAppend(committed, Zipped(document, chunks, embeddings.value, 0), document);
            if |chunks| == |embeddings.value| {
              ContentsOfZipped(document, chunks, embeddings.value, 0);
              ChunksRebuildText(text.value, chunker.size, chunker.overlap);
              assert [] + chunks == chunks;
            }
            return false;
          }
        }
      }
      rows := committed;
      status := status[document := FAILED];
      return true;
    }
  }
}
