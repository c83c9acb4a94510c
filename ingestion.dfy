/** Knowledge-base ingestion: each markdown file is split into overlapping
    word windows, and every window becomes one stored document with its own
    id and metadata. Directory walking and file reading are inputs here; the
    vector store's `add` is represented by the batch it would be given. */
module Ingestion {
  import opened Text
  import opened Documents

  const DefaultChunkSize: int := 512
  const DefaultOverlap: int := 50

  /** The outcome of `chunk_text`: `range` refuses a zero step with
      `ValueError`. */
  datatype Chunking = Chunked(chunks: seq<string>) | ZeroStep

  function Min(a: int, b: int): int {
    if a <= b then a else b
  }

  /** Python's `words[start:start + size]` for `0 <= start <= len(words)`,
      including a negative stop, which counts from the end. */
  function Window(words: seq<string>, start: nat, size: int): seq<string>
    requires start <= |words|
  {
    var n := |words|;
    var stop := start + size;
    var end := if stop < 0 then (if stop + n < 0 then 0 else stop + n)
               else if stop > n then n else stop;
    if start < end then words[start..end] else []
  }

  /** The chunks the strided loop emits from position `start` onwards. */
  function ChunksFrom(words: seq<string>, size: int, step: nat, start: nat): seq<string>
    requires step > 0
    decreases |words| - start
  {
    if start >= |words| then []
    else
      var chunk := Join(" ", Window(words, start, size));
      (if chunk != "" then [chunk] else []) + ChunksFrom(words, size, step, start + step)
  }

  /** `chunk_text(text, chunk_size, overlap)`: a negative stride gives no
      chunks, a zero stride raises. */
  function Chunks(text: string, size: int, overlap: int): Chunking {
    var step := size - overlap;
    if step == 0 then ZeroStep
    else if step < 0 then Chunked([])
    else Chunked(ChunksFrom(Words(text), size, step, 0))
  }

  /** `chunk_text`. */
  method ChunkText(text: string, chunkSize: int := DefaultChunkSize, overlap: int := DefaultOverlap)
    returns (r: Chunking)
    ensures r == Chunks(text, chunkSize, overlap)
  {
    var words := Words(text);
    var step := chunkSize - overlap;
    if step == 0 {
      return ZeroStep;
    }
    if step < 0 {
      return Chunked([]);
    }
    var chunks := StridedChunks(words, chunkSize, step);
    return Chunked(chunks);
  }

  /** What the strided loop has emitted before reaching `start`, and what it
      emits at `start`. */
  function Emitted(words: seq<string>, size: int, start: nat): seq<string>
    requires start < |words|
  {
    var chunk := Join(" ", Window(words, start, size));
    if chunk != "" then [chunk] else []
  }

  /** One pass of the strided loop: the chunks from `start` are what it emits
      there followed by the chunks from the next stride. */
  lemma StrideStep(words: seq<string>, size: int, step: nat, start: nat, done: seq<string>)
    requires step > 0 && start < |words|
    ensures done + ChunksFrom(words, size, step, start) ==
      (done + Emitted(words, size, start)) + ChunksFrom(words, size, step, start + step)
  {
    var rest := ChunksFrom(words, size, step, start + step);
    var e := Emitted(words, size, start);
    assert ChunksFrom(words, size, step, start) == e + rest;
    assert done + (e + rest) == (done + e) + rest;
  }

  /** The invariant of the strided loop survives one pass: the chunks still
      to come after the emitted ones are those from the next stride. */
  lemma StrideInvariant(words: seq<string>, size: int, step: nat, start: nat,
                        done: seq<string>, emitted: seq<string>)
    requires step > 0 && start < |words|
    requires ChunksFrom(words, size, step, 0) == done + ChunksFrom(words, size, step, start)
    requires emitted == done + Emitted(words, size, start)
    ensures ChunksFrom(words, size, step, 0) == emitted + ChunksFrom(words, size, step, start + step)
  {
    StrideStep(words, size, step, start, done);
  }

  /** The body of the strided loop: join the window at `start` and keep it
      when non-empty. */
  method EmitWindow(words: seq<string>, size: int, start: nat, chunks: seq<string>) returns (r: seq<string>)
    requires start < |words|
    ensures r == chunks + Emitted(words, size, start)
  {
    var chunk := Join(" ", Window(words, start, size));
    if chunk != "" {
      return chunks + [chunk];
    }
    assert chunks + [] == chunks;
    return chunks;
  }

  /** The loop of `chunk_text` for a positive stride: one window per stride
      start, kept when its join is non-empty. */
  method StridedChunks(words: seq<string>, size: int, step: nat) returns (chunks: seq<string>)
    requires step > 0
    ensures chunks == ChunksFrom(words, size, step, 0)
  {
    chunks := [];
    var i: nat := 0;
    while i < |words|
      invariant ChunksFrom(words, size, step, 0) == chunks + ChunksFrom(words, size, step, i)
      decreases |words| - i
    {
      var emitted := EmitWindow(words, size, i, chunks);
      StrideInvariant(words, size, step, i, chunks, emitted);
      chunks, i := emitted, i + step;
    }
    assert chunks + [] == chunks;
  }

  // ---------------------------------------------------------------- chunk shape

  predicate AllWords(words: seq<string>) {
    forall i :: 0 <= i < |words| ==> IsWord(words[i])
  }

  /** `words[start:start + size]` for a non-negative size. */
  function Span(words: seq<string>, start: nat, size: nat): seq<string>
    requires start <= |words|
  {
    words[start..Min(start + size, |words|)]
  }

  /** With a positive size the window is a plain slice, and one that starts
      inside the text joins to a non-empty chunk, which `if chunk` keeps. */
  lemma ChunkNonEmpty(words: seq<string>, start: nat, size: int)
    requires AllWords(words) && start < |words| && size > 0
    ensures Window(words, start, size) == Span(words, start, size)
    ensures Join(" ", Window(words, start, size)) != ""
    ensures Emitted(words, size, start) == [Join(" ", Span(words, start, size))]
  {
    var w := Window(words, start, size);
    JoinStartsWith(" ", w);
    assert IsWord(w[0]);
  }

  /** The chunks from `start` with a positive size: one per stride start. */
  function Pieces(words: seq<string>, size: nat, step: nat, start: nat): seq<string>
    requires step > 0
    decreases |words| - start
  {
    if start >= |words| then []
    else [Join(" ", Span(words, start, size))] + Pieces(words, size, step, start + step)
  }

  /** One step of the strided loop with a positive size: the window at
      `start` is kept, then the loop moves one stride on. */
  lemma ChunksFromStep(words: seq<string>, size: int, step: nat, start: nat)
    requires step > 0 && size > 0 && AllWords(words) && start < |words|
    ensures ChunksFrom(words, size, step, start)
         == [Join(" ", Span(words, start, size))] + ChunksFrom(words, size, step, start + step)
  {
    assert ChunksFrom(words, size, step, start) == Emitted(words, size, start) + ChunksFrom(words, size, step, start + step) by {
      StrideStep(words, size, step, start, []);
      assert [] + ChunksFrom(words, size, step, start) == ChunksFrom(words, size, step, start);
      assert [] + Emitted(words, size, start) == Emitted(words, size, start);
    }
    ChunkNonEmpty(words, start, size);
  }

  /** With a positive size no window is dropped: the strided loop emits one
      chunk per stride start. */
  lemma {:induction false} ChunksArePieces(words: seq<string>, size: int, step: nat, start: nat)
    requires step > 0 && size > 0 && AllWords(words)
    ensures ChunksFrom(words, size, step, start) == Pieces(words, size, step, start)
    decreases |words| - start
  {
    if start < |words| {
      var next: nat := start + step;
      var chunk := Join(" ", Span(words, start, size));
      assert ChunksFrom(words, size, step, start) == [chunk] + ChunksFrom(words, size, step, next) by {
        ChunksFromStep(words, size, step, start);
      }
      assert ChunksFrom(words, size, step, next) == Pieces(words, size, step, next) by {
        ChunksArePieces(words, size, step, next);
      }
    }
  }

  /** The first word of chunk `k`: `k * step`, by repeated addition. */
  function Stride(k: nat, step: nat): nat {
    if k == 0 then 0 else Stride(k - 1, step) + step
  }

  lemma {:induction false} StrideIsProduct(k: nat, step: nat)
    ensures Stride(k, step) == k * step
  {
    if k > 0 {
      StrideIsProduct(k - 1, step);
      assert (k - 1) * step + step == k * step;
    }
  }

  lemma {:induction false} StrideMonotone(a: nat, b: nat, step: nat)
    requires a <= b
    ensures Stride(a, step) <= Stride(b, step)
    decreases b
  {
    if a < b {
      StrideMonotone(a, b - 1, step);
    }
  }

  /** The chunk whose stride holds word `j`: `j / step`, by repeated subtraction. */
  function StrideOf(j: nat, step: nat): nat
    requires step > 0
    decreases j
  {
    if j < step then 0 else StrideOf(j - step, step) + 1
  }

  lemma {:induction false} StrideOfBounds(j: nat, step: nat)
    requires step > 0
    ensures Stride(StrideOf(j, step), step) <= j < Stride(StrideOf(j, step), step) + step
    decreases j
  {
    if j >= step {
      StrideOfBounds(j - step, step);
    }
  }

  /** `StrideOf(j, step)` is the quotient of `j` by `step`: the `k` with
      `k * step <= j < (k + 1) * step`. */
  lemma StrideOfIsQuotient(j: nat, step: nat)
    requires step > 0
    ensures StrideOf(j, step) * step <= j < StrideOf(j, step) * step + step
  {
    StrideOfBounds(j, step);
    StrideIsProduct(StrideOf(j, step), step);
  }

  /** Chunk `k` from `start` is the span at `start + Stride(k, step)`. */
  lemma {:induction false} PieceAt(words: seq<string>, size: nat, step: nat, start: nat, k: nat)
    requires step > 0
    requires k < |Pieces(words, size, step, start)|
    ensures start + Stride(k, step) < |words|
    ensures Pieces(words, size, step, start)[k] == Join(" ", Span(words, start + Stride(k, step), size))
    decreases |words| - start
  {
    if k > 0 {
      PieceAt(words, size, step, start + step, k - 1);
    }
  }

  /** The number of chunks from `start` is the ceiling of the remaining words
      over the stride: `c` strides cover them, `c - 1` do not. */
  lemma {:induction false} PiecesCount(words: seq<string>, size: nat, step: nat, start: nat)
    requires step > 0
    ensures var c := |Pieces(words, size, step, start)|;
      if start >= |words| then c == 0
      else |words| - start <= Stride(c, step) < |words| - start + step
    decreases |words| - start
  {
    if start < |words| {
      PiecesCount(words, size, step, start + step);
    }
  }

  /** Splitting the join of a span gives the span back: between one and
      `size` words. */
  lemma SpanWords(words: seq<string>, start: nat, size: nat)
    requires AllWords(words) && start < |words| && size > 0
    ensures Words(Join(" ", Span(words, start, size))) == Span(words, start, size)
    ensures 1 <= |Span(words, start, size)| <= size
  {
    var w := Span(words, start, size);
    forall i | 0 <= i < |w|
      ensures IsWord(w[i])
    {
      assert w[i] == words[start + i];
    }
    WordsOfJoin(w);
  }

  /** Chunk `k` splits back into the span at `Stride(k, step)`. */
  lemma PieceWords(words: seq<string>, size: nat, step: nat, k: nat)
    requires 0 < step && 0 < size && AllWords(words)
    requires k < |Pieces(words, size, step, 0)|
    ensures Stride(k, step) < |words|
    ensures Pieces(words, size, step, 0)[k] == Join(" ", Span(words, Stride(k, step), size))
    ensures Words(Pieces(words, size, step, 0)[k]) == Span(words, Stride(k, step), size)
    ensures 1 <= |Span(words, Stride(k, step), size)| <= size
  {
    PieceAt(words, size, step, 0, k);
    SpanWords(words, Stride(k, step), size);
  }

  /** Two spans `step` apart, the first one full, share `size - step` words. */
  lemma SpanOverlap(words: seq<string>, s: nat, size: nat, step: nat)
    requires 0 < step <= size && s + size <= |words|
    ensures |Span(words, s, size)| == size && |Span(words, s + step, size)| >= size - step
    ensures Span(words, s, size)[step..] == Span(words, s + step, size)[..size - step]
  {
    assert Span(words, s, size)[step..] == words[s + step..s + size];
    assert Span(words, s + step, size)[..size - step] == words[s + step..s + size];
  }

  /** Consecutive chunks: a full chunk ends with exactly the `size - step`
      words the next one starts with. */
  lemma PiecesOverlap(words: seq<string>, size: nat, step: nat, k: nat)
    requires 0 < step <= size && AllWords(words)
    requires k + 1 < |Pieces(words, size, step, 0)|
    requires Stride(k, step) + size <= |words|
    ensures var c := Pieces(words, size, step, 0);
      && |Words(c[k])| == size && |Words(c[k + 1])| >= size - step
      && Words(c[k])[step..] == Words(c[k + 1])[..size - step]
  {
    PieceWords(words, size, step, k);
    PieceWords(words, size, step, k + 1);
    SpanOverlap(words, Stride(k, step), size, step);
  }

  /** The chunk `StrideOf(j, step)` exists for every word `j`. */
  lemma StrideOfInRange(words: seq<string>, size: nat, step: nat, j: nat)
    requires 0 < step && j < |words|
    ensures StrideOf(j, step) < |Pieces(words, size, step, 0)|
    ensures Stride(StrideOf(j, step), step) <= j < Stride(StrideOf(j, step), step) + step
  {
    var k := StrideOf(j, step);
    var count := |Pieces(words, size, step, 0)|;
    StrideOfBounds(j, step);
    PiecesCount(words, size, step, 0);
    if count <= k {
      StrideMonotone(count, k, step);
      assert false;
    }
  }

  /** A span starting at or before word `j`, within `size` of it, holds it. */
  lemma SpanHolds(words: seq<string>, s: nat, size: nat, j: nat)
    requires s <= j < s + size && j < |words|
    ensures j - s < |Span(words, s, size)| && Span(words, s, size)[j - s] == words[j]
  {
  }

  /** Word `j` is word `j - Stride(k, step)` of chunk `k = StrideOf(j, step)`. */
  lemma PiecesCover(words: seq<string>, size: nat, step: nat, j: nat)
    requires 0 < step <= size && AllWords(words) && j < |words|
    ensures var c := Pieces(words, size, step, 0); var k := StrideOf(j, step);
      && k < |c| && Stride(k, step) <= j < Stride(k, step) + |Words(c[k])|
      && Words(c[k])[j - Stride(k, step)] == words[j]
  {
    var k := StrideOf(j, step);
    StrideOfInRange(words, size, step, j);
    PieceWords(words, size, step, k);
    SpanHolds(words, Stride(k, step), size, j);
  }

  /** The chunks of a text are the pieces of its words. */
  lemma ChunksOfText(text: string, size: int, overlap: int)
    requires 0 <= overlap < size
    ensures Chunks(text, size, overlap) == Chunked(Pieces(Words(text), size, size - overlap, 0))
    ensures AllWords(Words(text))
  {
    WordsAreWords(text);
    ChunksArePieces(Words(text), size, size - overlap, 0);
  }

  /** Under the conditions the docstring assumes (`0 <= overlap < chunk_size`),
      chunk `k` is the window of `chunk_size` words starting at word
      `k * (chunk_size - overlap)`, joined by single spaces; splitting it gives
      that window back, so it holds between one and `chunk_size` words. */
  lemma ChunkClosedForm(text: string, size: int, overlap: int, k: nat)
    requires 0 <= overlap < size
    requires Chunks(text, size, overlap).Chunked? && k < |Chunks(text, size, overlap).chunks|
    ensures var words := Words(text); var s := Stride(k, size - overlap); var c := Chunks(text, size, overlap).chunks;
      && s < |words|
      && c[k] == Join(" ", Span(words, s, size))
      && Words(c[k]) == Span(words, s, size)
      && 1 <= |Words(c[k])| <= size
  {
    ChunksOfText(text, size, overlap);
    PieceWords(Words(text), size, size - overlap, k);
  }

  /** Chunking always succeeds under those conditions; an empty text gives no
      chunks, and otherwise there are `ceil(n / step)` of them for `n` words. */
  lemma ChunkCount(text: string, size: int, overlap: int)
    requires 0 <= overlap < size
    ensures Chunks(text, size, overlap).Chunked?
    ensures var c := |Chunks(text, size, overlap).chunks|; var n := |Words(text)|;
      && (c == 0 <==> n == 0)
      && n <= Stride(c, size - overlap) < n + (size - overlap)
  {
    ChunksOfText(text, size, overlap);
    PiecesCount(Words(text), size, size - overlap, 0);
  }

  /** A full chunk ends with exactly the `overlap` words the next chunk starts with. */
  lemma ChunkOverlap(text: string, size: int, overlap: int, k: nat)
    requires 0 <= overlap < size
    requires Chunks(text, size, overlap).Chunked? && k + 1 < |Chunks(text, size, overlap).chunks|
    requires Stride(k, size - overlap) + size <= |Words(text)|
    ensures var c := Chunks(text, size, overlap).chunks;
      && |Words(c[k])| == size && |Words(c[k + 1])| >= overlap
      && Words(c[k])[size - overlap..] == Words(c[k + 1])[..overlap]
  {
    ChunksOfText(text, size, overlap);
    PiecesOverlap(Words(text), size, size - overlap, k);
  }

  /** No word is lost: word `j` is word `j - Stride(k, step)` of chunk
      `k = StrideOf(j, step)`, the quotient of `j` by the stride. */
  lemma EveryWordCovered(text: string, size: int, overlap: int, j: nat)
    requires 0 <= overlap < size
    requires j < |Words(text)|
    ensures Chunks(text, size, overlap).Chunked?
    ensures var c := Chunks(text, size, overlap).chunks; var step := size - overlap; var k := StrideOf(j, step);
      && k < |c| && Stride(k, step) <= j < Stride(k, step) + |Words(c[k])|
      && Words(c[k])[j - Stride(k, step)] == Words(text)[j]
  {
    var words, step := Words(text), size - overlap;
    ChunksOfText(text, size, overlap);
    assert Chunks(text, size, overlap).chunks == Pieces(words, size, step, 0);
    PiecesCover(words, size, step, j);
  }

  // ---------------------------------------------------------------- ingestion batch

  /** One markdown file found under the documents directory; `text` is `None`
      when reading it failed. */
  datatype SourceFile = SourceFile(path: string, name: string, stem: string, text: Option<string>)

  /** The three parallel lists handed to the collection in one `add`. */
  datatype Batch = Batch(documents: seq<string>, metadatas: seq<Metadata>, ids: seq<string>)

  function ChunkId(stem: string, i: nat): string {
    stem + "_" + Decimal(i)
  }

  function ChunkMetadata(f: SourceFile, i: nat, total: nat): Metadata {
    map["source" := MStr(f.path), "chunk_id" := MInt(i), "total_chunks" := MInt(total), "filename" := MStr(f.name)]
  }

  /** The chunks of one file with the default window; a file that could not be
      read, or could not be chunked, contributes none. */
  function FileChunks(f: SourceFile): seq<string> {
    if f.text.None? then []
    else match Chunks(f.text.value, DefaultChunkSize, DefaultOverlap)
      case Chunked(c) => c
      case ZeroStep => []
  }

  /** The documents, metadata records and ids for a file's chunks: chunk `i`
      gets the id `<stem>_<i>` and its place among the file's chunks. */
  function ChunkBatch(f: SourceFile, chunks: seq<string>): (b: Batch)
    ensures |b.documents| == |b.metadatas| == |b.ids| == |chunks|
    ensures forall i :: 0 <= i < |b.ids| ==>
      && b.documents[i] == chunks[i]
      && b.ids[i] == ChunkId(f.stem, i)
      && b.metadatas[i] == ChunkMetadata(f, i, |chunks|)
  {
    Batch(chunks,
          seq(|chunks|, i requires 0 <= i < |chunks| => ChunkMetadata(f, i, |chunks|)),
          seq(|chunks|, i requires 0 <= i < |chunks| => ChunkId(f.stem, i)))
  }

  /** Within one file, chunk ids differ exactly when the chunk numbers do. */
  lemma ChunkIdInjective(stem: string, i: nat, j: nat)
    ensures ChunkId(stem, i) == ChunkId(stem, j) <==> i == j
  {
    if ChunkId(stem, i) == ChunkId(stem, j) {
      var p := |stem| + 1;
      assert ChunkId(stem, i)[p..] == Decimal(i);
      assert ChunkId(stem, j)[p..] == Decimal(j);
      DecimalInjective(i, j);
    }
  }

  /** No two chunks of one file share an id. */
  lemma ChunkBatchIdsDistinct(f: SourceFile, chunks: seq<string>)
    ensures var ids := ChunkBatch(f, chunks).ids;
      forall i, j :: 0 <= i < j < |ids| ==> ids[i] != ids[j]
  {
    var ids := ChunkBatch(f, chunks).ids;
    forall i, j | 0 <= i < j < |ids|
      ensures ids[i] != ids[j]
    {
      ChunkIdInjective(f.stem, i, j);
    }
  }

  /** What one file adds to the batch. */
  function FileBatch(f: SourceFile): Batch {
    ChunkBatch(f, FileChunks(f))
  }

  function Concat(a: Batch, b: Batch): Batch {
    Batch(a.documents + b.documents, a.metadatas + b.metadatas, a.ids + b.ids)
  }

  /** The batch built from the files in walking order. */
  function BatchOf(files: seq<SourceFile>): (b: Batch)
    ensures |b.documents| == |b.metadatas| == |b.ids|
    decreases |files|
  {
    if |files| == 0 then Batch([], [], [])
    else Concat(BatchOf(files[..|files| - 1]), FileBatch(files[|files| - 1]))
  }

  /** Two files with the same stem, say `a/notes.md` and `b/notes.md`, both
      give their first chunk the id `notes_0`: the batch then holds a repeated
      id. */
  lemma SameStemCollides(f: SourceFile, g: SourceFile)
    requires f.stem == g.stem
    requires |FileChunks(f)| > 0 && |FileChunks(g)| > 0
    ensures var ids := BatchOf([f, g]).ids;
      |FileChunks(f)| < |ids| && ids[0] == ids[|FileChunks(f)|]
  {
    var b := BatchOf([f, g]);
    assert [f, g][..1] == [f];
    assert [f][..0] == [];
    assert BatchOf([f]) == Concat(Batch([], [], []), FileBatch(f));
    assert b == Concat(BatchOf([f]), FileBatch(g));
    assert b.ids[|FileChunks(f)|] == FileBatch(g).ids[0];
  }

  lemma EmptyAddition(before: Batch, added: Batch)
    requires added.documents == [] && |added.documents| == |added.metadatas| == |added.ids|
    ensures Concat(before, added) == before
  {
    assert before.documents + [] == before.documents;
    assert before.metadatas + [] == before.metadatas;
    assert before.ids + [] == before.ids;
  }

  /** The inner loop of `ingest_documents`: one document, metadata record and
      id per chunk of the file, appended in chunk order. */
  method AddChunks(batch: Batch, f: SourceFile, chunks: seq<string>) returns (r: Batch)
    ensures r == Concat(batch, ChunkBatch(f, chunks))
  {
    var added := ChunkBatch(f, chunks);
    var documents, metadatas, ids := batch.documents, batch.metadatas, batch.ids;
    for i := 0 to |chunks|
      invariant documents == batch.documents + added.documents[..i]
      invariant metadatas == batch.metadatas + added.metadatas[..i]
      invariant ids == batch.ids + added.ids[..i]
    {
      assert added.documents[..i + 1] == added.documents[..i] + [chunks[i]];
      assert added.metadatas[..i + 1] == added.metadatas[..i] + [ChunkMetadata(f, i, |chunks|)];
      assert added.ids[..i + 1] == added.ids[..i] + [ChunkId(f.stem, i)];
      documents := documents + [chunks[i]];
      metadatas := metadatas + [ChunkMetadata(f, i, |chunks|)];
      ids := ids + [ChunkId(f.stem, i)];
    }
    assert added.documents[..|chunks|] == added.documents;
    assert added.metadatas[..|chunks|] == added.metadatas;
    assert added.ids[..|chunks|] == added.ids;
    return Batch(documents, metadatas, ids);
  }

  /** `ingest_documents`: nothing when the directory is missing; otherwise the
      per-file chunk loops fill the three lists, which are written in one batch
      exactly when some chunk was produced. */
  method IngestDocuments(pathExists: bool, files: seq<SourceFile>) returns (written: Option<Batch>)
    ensures !pathExists ==> written == None
    ensures pathExists ==> (written.Some? <==> BatchOf(files).documents != [])
    ensures written.Some? ==> written.value == BatchOf(files)
  {
    if !pathExists {
      return None;
    }
    var batch := Batch([], [], []);
    for fi := 0 to |files|
      invariant batch == BatchOf(files[..fi])
    {
      var f := files[fi];
      assert files[..fi + 1][..fi] == files[..fi];
      if f.text.Some? {
        var outcome := ChunkText(f.text.value);
        if outcome.Chunked? {
          batch := AddChunks(batch, f, outcome.chunks);
        } else {
          EmptyAddition(batch, FileBatch(f));
        }
      } else {
        EmptyAddition(batch, FileBatch(f));
      }
    }
    assert files[..|files|] == files;
    if batch.documents != [] {
      return Some(batch);
    }
    return None;
  }
}
