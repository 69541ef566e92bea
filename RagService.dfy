/** The question-answering backend (python-Model/src/main.py).

    `/upload` takes a CSV file, flattens its cells into one text, cuts the
    text into 500-character chunks and replaces the chunk table with those
    chunks and their embeddings. `/ask` strips the question, scores every
    stored chunk against it, puts the three best chunks into a prompt and
    answers with the stripped text the language model generates.

    The embedding model, the similarity measure and the language model are
    collaborators this model cannot see: they are function parameters.
    Similarities are integers standing in for the source's floats. */
module RagService {
  import opened Wrappers
  import Strings

  const ChunkSize: nat := 500
  const TopCount: nat := 3

  const NoFileUploaded := "No file uploaded"
  const NotCsv := "Upload a CSV file"
  const QuestionRequired := "Question is required"
  const NoData := "No data available. Upload a CSV first."
  const NoAnswer := "No answer generated."
  /** The upload message around the chunk count. */
  const UploadedHead := "\U{2705} Uploaded "
  const UploadedTail := " chunks successfully"

  function Min(a: int, b: int): int { if a <= b then a else b }

  // ---------------------------------------------------------------------
  // Python text primitives

  /** The characters Python's `str.strip()` removes (`str.isspace`). */
  predicate PyWhitespace(c: char)
  {
    || ('\t' <= c <= '\r')
    || ('\U{1C}' <= c <= '\U{1F}')
    || c == ' ' || c == '\U{85}' || c == '\U{A0}' || c == '\U{1680}'
    || ('\U{2000}' <= c <= '\U{200A}')
    || c == '\U{2028}' || c == '\U{2029}' || c == '\U{202F}' || c == '\U{205F}'
    || c == '\U{3000}'
  }

  /** Python's `lower()` on one character, for the ASCII letters. */
  function LowerChar(c: char): char
  {
    if 'A' <= c <= 'Z' then (c as int + 32) as char else c
  }

  function Lower(s: string): (r: string)
    ensures |r| == |s| && forall k :: 0 <= k < |s| ==> r[k] == LowerChar(s[k])
  {
    seq(|s|, k requires 0 <= k < |s| => LowerChar(s[k]))
  }

  /** `filename.lower().endswith(".csv")`: the name is at least four
      characters long and its last four, lower-cased, are ".csv". */
  predicate HasCsvExtension(filename: string)
    ensures HasCsvExtension(filename) <==>
      |filename| >= 4 && Lower(filename[|filename| - 4..]) == ".csv"
  {
    assert |filename| >= 4 ==> Lower(filename)[|filename| - 4..] == Lower(filename[|filename| - 4..]);
    var lower := Lower(filename);
    |lower| >= 4 && lower[|lower| - 4..] == ".csv"
  }

  /** The extension test looks only at the last four characters and
      ignores their case. */
  lemma CsvExtensionIgnoresCase(stem: string, ext: string)
    requires |ext| == 4
    ensures HasCsvExtension(stem + ext) <==> Lower(ext) == ".csv"
  {
    var name := stem + ext;
    assert Lower(name)[|name| - 4..] == Lower(ext);
  }

  // ---------------------------------------------------------------------
  // Upload validation

  /** An uploaded file: its name and the cells `pandas.read_csv` finds in
      it, every cell already converted to a string. */
  datatype CsvFile = CsvFile(filename: string, cells: seq<seq<string>>)

  /** The multipart request; `file` is absent when there is no `file` part. */
  datatype UploadRequest = UploadRequest(file: Option<CsvFile>)

  /** The two checks `/upload` makes before it touches the store. */
  function CheckUpload(req: UploadRequest): (r: Result<CsvFile>)
    ensures req.file.None? ==> r == Failure(NoFileUploaded)
    ensures req.file.Some? && !HasCsvExtension(req.file.value.filename) ==> r == Failure(NotCsv)
    ensures r.Success? <==> req.file.Some? && HasCsvExtension(req.file.value.filename)
    ensures r.Success? ==> r.value == req.file.value
  {
    match req.file
    case None => Failure(NoFileUploaded)
    case Some(f) => if HasCsvExtension(f.filename) then Success(f) else Failure(NotCsv)
  }

  // ---------------------------------------------------------------------
  // Flatten and join

  /** `df.values.flatten()`: the cells row by row. */
  function Flatten(grid: seq<seq<string>>): seq<string>
  {
    if |grid| == 0 then [] else grid[0] + Flatten(grid[1..])
  }

  /** Every row has `width` cells, as in a data frame. */
  predicate Rectangular(grid: seq<seq<string>>, width: nat)
  {
    forall r :: 0 <= r < |grid| ==> |grid[r]| == width
  }

  /** In row-major order, cell (r, c) of a grid `width` cells wide sits at
      position r * width + c. */
  lemma {:induction false} FlattenAt(grid: seq<seq<string>>, width: nat, r: nat, c: nat)
    requires Rectangular(grid, width)
    requires r < |grid| && c < width
    ensures |Flatten(grid)| == |grid| * width
    ensures r * width + c < |Flatten(grid)| && Flatten(grid)[r * width + c] == grid[r][c]
  {
    FlattenLength(grid, width);
    if r > 0 {
      FlattenAt(grid[1..], width, r - 1, c);
      assert r * width + c == width + ((r - 1) * width + c);
    }
  }

  lemma {:induction false} FlattenLength(grid: seq<seq<string>>, width: nat)
    requires Rectangular(grid, width)
    ensures |Flatten(grid)| == |grid| * width
  {
    if |grid| > 0 {
      FlattenLength(grid[1..], width);
      assert |grid| * width == width + (|grid| - 1) * width;
    }
  }

  /** `" ".join(...)` over the flattened cells. */
  function JoinedText(grid: seq<seq<string>>): string
  {
    Strings.Join(' ', Flatten(grid))
  }

  /** The joined text holds every cell and one space between each two
      neighbouring cells; with no cell at all it is empty. */
  lemma JoinedTextLength(grid: seq<seq<string>>)
    ensures |Flatten(grid)| == 0 ==> JoinedText(grid) == ""
    ensures |Flatten(grid)| > 0 ==>
      |JoinedText(grid)| == Strings.TotalLength(Flatten(grid)) + |Flatten(grid)| - 1
  {
    Strings.JoinLength(' ', Flatten(grid));
  }

  /** When no cell contains a space, the cells can be read back from the
      joined text. */
  lemma JoinedTextKeepsCells(grid: seq<seq<string>>)
    requires |Flatten(grid)| > 0
    requires forall k :: 0 <= k < |Flatten(grid)| ==> ' ' !in Flatten(grid)[k]
    ensures Strings.Split(JoinedText(grid), ' ') == Flatten(grid)
  {
    Strings.SplitJoin(' ', Flatten(grid));
  }

  // ---------------------------------------------------------------------
  // Fixed-size chunking

  function ChunkCount(n: nat): nat
  {
    (n + ChunkSize - 1) / ChunkSize
  }

  /** `[text[i:i + 500] for i in range(0, len(text), 500)]`: chunk i starts
      at offset 500 * i; every chunk but the last is 500 long, the last is
      between 1 and 500 long, and there are ceil(len / 500) of them. */
  function Chunks(text: string): (chunks: seq<string>)
    ensures |text| == 0 <==> |chunks| == 0
    ensures |chunks| > 0 ==> (|chunks| - 1) * ChunkSize < |text| <= |chunks| * ChunkSize
    ensures |chunks| > 0 ==> (|chunks| - 1) * ChunkSize + |chunks[|chunks| - 1]| == |text|
    ensures forall i :: 0 <= i < |chunks| ==>
      && 1 <= |chunks[i]| <= ChunkSize
      && i * ChunkSize + |chunks[i]| <= |text|
      && chunks[i] == text[i * ChunkSize .. i * ChunkSize + |chunks[i]|]
    ensures forall i :: 0 <= i < |chunks| - 1 ==> |chunks[i]| == ChunkSize
  {
    seq(ChunkCount(|text|), i requires 0 <= i < ChunkCount(|text|) =>
      text[i * ChunkSize .. Min(i * ChunkSize + ChunkSize, |text|)])
  }

  lemma {:induction false} ConcatChunksPrefix(text: string, k: nat)
    requires k <= |Chunks(text)|
    ensures Strings.Concat(Chunks(text)[..k]) == text[..Min(k * ChunkSize, |text|)]
  {
    var chunks := Chunks(text);
    if k > 0 {
      ConcatChunksPrefix(text, k - 1);
      assert chunks[..k][..k - 1] == chunks[..k - 1];
      var start := (k - 1) * ChunkSize;
      assert text[..start + |chunks[k - 1]|] == text[..start] + chunks[k - 1];
      assert start + |chunks[k - 1]| == Min(k * ChunkSize, |text|);
    }
  }

  /** Concatenating the chunks in order gives back the text exactly. */
  lemma ConcatChunks(text: string)
    ensures Strings.Concat(Chunks(text)) == text
  {
    var chunks := Chunks(text);
    ConcatChunksPrefix(text, |chunks|);
    assert chunks[..|chunks|] == chunks;
  }

  /** The pieces before position k concatenate to a prefix of the whole. */
  lemma {:induction false} ConcatPrefixOfWhole(parts: seq<string>, k: nat)
    requires k <= |parts|
    ensures |Strings.Concat(parts[..k])| <= |Strings.Concat(parts)|
    ensures Strings.Concat(parts[..k]) == Strings.Concat(parts)[..|Strings.Concat(parts[..k])|]
  {
    if k < |parts| {
      var init := parts[..|parts| - 1];
      ConcatPrefixOfWhole(init, k);
      assert init[..k] == parts[..k];
    } else {
      assert parts[..k] == parts;
    }
  }

  /** Pieces that each hold 500 characters, except a last one of 1 to 500,
      concatenate to 500 characters per piece before position k. */
  lemma {:induction false} FullPiecesLength(parts: seq<string>, k: nat)
    requires k < |parts|
    requires forall i :: 0 <= i < |parts| - 1 ==> |parts[i]| == ChunkSize
    ensures |Strings.Concat(parts[..k])| == k * ChunkSize
  {
    if k > 0 {
      FullPiecesLength(parts, k - 1);
      assert parts[..k][..k - 1] == parts[..k - 1];
    }
  }

  /** The chunking is the only way to cut the text into pieces of 500
      characters followed by one of 1 to 500 characters. */
  lemma ChunksUnique(text: string, pieces: seq<string>)
    requires Strings.Concat(pieces) == text
    requires forall i :: 0 <= i < |pieces| ==> 1 <= |pieces[i]| <= ChunkSize
    requires forall i :: 0 <= i < |pieces| - 1 ==> |pieces[i]| == ChunkSize
    ensures pieces == Chunks(text)
  {
    var chunks := Chunks(text);
    var n := |pieces|;
    if n == 0 {
      return;
    }
    FullPiecesLength(pieces, n - 1);
    assert pieces[..n] == pieces;
    assert pieces[..n][..n - 1] == pieces[..n - 1];
    assert |text| == (n - 1) * ChunkSize + |pieces[n - 1]|;
    SameChunkCount(|chunks|, n, |text|);
    forall i | 0 <= i < n
      ensures pieces[i] == chunks[i]
    {
      PieceAt(text, pieces, i);
    }
  }

  lemma SameChunkCount(m: nat, n: nat, length: nat)
    requires m > 0 ==> (m - 1) * ChunkSize < length <= m * ChunkSize
    requires m == 0 <==> length == 0
    requires n > 0 && (n - 1) * ChunkSize < length <= n * ChunkSize
    ensures m == n
  {
  }

  /** Piece i of such a cutting starts at offset 500 * i. */
  lemma PieceAt(text: string, pieces: seq<string>, i: nat)
    requires Strings.Concat(pieces) == text
    requires i < |pieces|
    requires forall i :: 0 <= i < |pieces| - 1 ==> |pieces[i]| == ChunkSize
    ensures i * ChunkSize + |pieces[i]| <= |text|
    ensures pieces[i] == text[i * ChunkSize .. i * ChunkSize + |pieces[i]|]
  {
    FullPiecesLength(pieces, i);
    ConcatPrefixOfWhole(pieces, i + 1);
    assert pieces[..i + 1][..i] == pieces[..i];
    var before := Strings.Concat(pieces[..i]);
    var upto := Strings.Concat(pieces[..i + 1]);
    assert upto == before + pieces[i];
    assert upto == text[..|upto|];
    assert pieces[i] == upto[|before|..];
  }

  // ---------------------------------------------------------------------
  // Top-3 selection, `np.argsort(scores)[-3:][::-1]`

  predicate IndicesBelow(s: seq<nat>, n: nat)
  {
    forall k :: 0 <= k < |s| ==> s[k] < n
  }

  predicate Distinct(s: seq<nat>)
  {
    forall a, b :: 0 <= a < b < |s| ==> s[a] != s[b]
  }

  /** The indices are in order of non-increasing score. */
  predicate ByDescendingScore(scores: seq<int>, s: seq<nat>)
    requires IndicesBelow(s, |scores|)
  {
    forall a, b :: 0 <= a < b < |s| ==> scores[s[a]] >= scores[s[b]]
  }

  /** Inserts index `i` into a list of indices ordered by descending score,
      before the first index that does not score higher. */
  function InsertByScore(scores: seq<int>, i: nat, sorted: seq<nat>): (r: seq<nat>)
    requires i < |scores| && IndicesBelow(sorted, |scores|)
    ensures |r| == |sorted| + 1 && IndicesBelow(r, |scores|)
    ensures forall j :: j in r <==> j == i || j in sorted
  {
    if |sorted| == 0 || scores[sorted[0]] <= scores[i] then [i] + sorted
    else
      assert sorted == [sorted[0]] + sorted[1..];
      [sorted[0]] + InsertByScore(scores, i, sorted[1..])
  }

  lemma ConsDistinct(x: nat, s: seq<nat>)
    requires Distinct(s) && x !in s
    ensures Distinct([x] + s)
  {
    var r := [x] + s;
    forall a, b | 0 <= a < b < |r| ensures r[a] != r[b] {
      assert r[b] == s[b - 1];
      if a > 0 {
        assert r[a] == s[a - 1];
      }
    }
  }

  lemma {:induction false} InsertKeepsDistinct(scores: seq<int>, i: nat, sorted: seq<nat>)
    requires i < |scores| && IndicesBelow(sorted, |scores|)
    requires Distinct(sorted) && i !in sorted
    ensures Distinct(InsertByScore(scores, i, sorted))
  {
    if |sorted| == 0 || scores[sorted[0]] <= scores[i] {
      ConsDistinct(i, sorted);
    } else {
      var tail := sorted[1..];
      assert sorted == [sorted[0]] + tail;
      assert Distinct(tail) && i !in tail;
      InsertKeepsDistinct(scores, i, tail);
      var rest := InsertByScore(scores, i, tail);
      assert sorted[0] !in tail;
      ConsDistinct(sorted[0], rest);
    }
  }

  lemma {:induction false} InsertKeepsOrder(scores: seq<int>, i: nat, sorted: seq<nat>)
    requires i < |scores| && IndicesBelow(sorted, |scores|)
    requires ByDescendingScore(scores, sorted)
    ensures ByDescendingScore(scores, InsertByScore(scores, i, sorted))
  {
    var r := InsertByScore(scores, i, sorted);
    if |sorted| == 0 || scores[sorted[0]] <= scores[i] {
      assert r == [i] + sorted;
      forall a, b | 0 <= a < b < |r| ensures scores[r[a]] >= scores[r[b]] {
        if a == 0 {
          assert r[b] == sorted[b - 1];
        } else {
          assert r[a] == sorted[a - 1] && r[b] == sorted[b - 1];
        }
      }
    } else {
      var tail := sorted[1..];
      InsertKeepsOrder(scores, i, tail);
      var rest := InsertByScore(scores, i, tail);
      assert r == [sorted[0]] + rest;
      forall a, b | 0 <= a < b < |r| ensures scores[r[a]] >= scores[r[b]] {
        if a == 0 {
          var x := rest[b - 1];
          assert x in rest;
          if x != i {
            var p :| 0 <= p < |tail| && tail[p] == x;
            assert sorted[p + 1] == x;
          }
        } else {
          assert r[a] == rest[a - 1] && r[b] == rest[b - 1];
        }
      }
    }
  }

  /** The indices 0 .. n - 1, ordered by descending score. */
  function ArgSortDescending(scores: seq<int>, n: nat): (r: seq<nat>)
    requires n <= |scores|
    ensures |r| == n && IndicesBelow(r, |scores|)
    ensures forall j :: j in r <==> 0 <= j < n
    ensures Distinct(r) && ByDescendingScore(scores, r)
  {
    if n == 0 then []
    else
      var sorted := ArgSortDescending(scores, n - 1);
      InsertKeepsDistinct(scores, n - 1, sorted);
      InsertKeepsOrder(scores, n - 1, sorted);
      InsertByScore(scores, n - 1, sorted)
  }

  /** The indices of the best `min(3, n)` scores: distinct, in range, in
      order of non-increasing score, and no index left out scores higher
      than the lowest one selected. Ties may come in either order. */
  function TopIndices(scores: seq<int>): (top: seq<nat>)
    ensures |top| == Min(TopCount, |scores|)
    ensures IndicesBelow(top, |scores|) && Distinct(top) && ByDescendingScore(scores, top)
    ensures forall j :: 0 <= j < |scores| && j !in top ==>
      |top| > 0 && scores[j] <= scores[top[|top| - 1]]
  {
    var sorted := ArgSortDescending(scores, |scores|);
    var top := sorted[..Min(TopCount, |sorted|)];
    assert forall j :: 0 <= j < |scores| && j !in top ==> |top| > 0 && scores[j] <= scores[top[|top| - 1]] by {
      forall j | 0 <= j < |scores| && j !in top
        ensures |top| > 0 && scores[j] <= scores[top[|top| - 1]]
      {
        assert j in sorted;
        var p :| 0 <= p < |sorted| && sorted[p] == j;
        assert p >= |top|;
      }
    }
    top
  }

  // ---------------------------------------------------------------------
  // Answers and reply bodies

  /** The outcome of `model.generate_content([prompt])`: it raised an
      exception with the given message, or returned a response whose
      `text` may be missing. */
  datatype Generation = Raised(message: string) | Generated(text: Option<string>)

  /** `response.text.strip() if response.text else "No answer generated."`:
      the fallback appears exactly when there is no text or the text is
      empty; text of whitespace only becomes the empty answer. */
  function AnswerText(text: Option<string>): (answer: string)
    ensures text.None? || text.value == "" ==> answer == NoAnswer
    ensures text.Some? && text.value != "" ==> answer == Strings.Strip(text.value, PyWhitespace)
    ensures answer != "" && answer != NoAnswer ==>
      !PyWhitespace(answer[0]) && !PyWhitespace(answer[|answer| - 1])
    ensures answer == "" <==>
      text.Some? && text.value != "" && forall k :: 0 <= k < |text.value| ==> PyWhitespace(text.value[k])
  {
    if text.Some? && text.value != "" then Strings.Strip(text.value, PyWhitespace) else NoAnswer
  }

  /** The body of a reply, by the key it carries. */
  datatype Reply = ErrorReply(error: string) | UploadedReply(count: nat) | AnswerReply(answer: string)

  function Digit(d: nat): char
    requires d < 10
  {
    ('0' as int + d) as char
  }

  /** `str(n)` for a count. */
  function Decimal(n: nat): string
  {
    if n < 10 then [Digit(n)] else Decimal(n / 10) + [Digit(n % 10)]
  }

  /** The number a string of decimal digits denotes, most significant first. */
  function DigitsValue(s: string): int
  {
    if |s| == 0 then 0 else DigitsValue(s[..|s| - 1]) * 10 + (s[|s| - 1] as int - '0' as int)
  }

  /** `str(n)` is made of digits, has no leading zero and reads back as n. */
  lemma {:induction false} DecimalRoundTrip(n: nat)
    ensures var d := Decimal(n);
      && d != ""
      && (forall k :: 0 <= k < |d| ==> '0' <= d[k] <= '9')
      && (d[0] == '0' ==> n == 0)
      && DigitsValue(d) == n
  {
    if n >= 10 {
      DecimalRoundTrip(n / 10);
      var d := Decimal(n);
      assert d[..|d| - 1] == Decimal(n / 10);
      assert d[0] == Decimal(n / 10)[0];
    }
  }

  /** The reply as the JSON object it is sent as. */
  function ReplyBody(r: Reply): (body: map<string, string>)
    ensures r.ErrorReply? ==> body == map["error" := r.error]
    ensures r.UploadedReply? ==> body.Keys == {"message"}
    ensures r.AnswerReply? ==> body == map["answer" := r.answer]
  {
    match r
    case ErrorReply(e) => map["error" := e]
    case UploadedReply(n) => map["message" := UploadedHead + Decimal(n) + UploadedTail]
    case AnswerReply(a) => map["answer" := a]
  }

  /** The upload message reports the number of chunks between its fixed
      opening and closing words. */
  lemma UploadMessageCount(n: nat)
    ensures var m := ReplyBody(UploadedReply(n))["message"];
      && |m| == |UploadedHead| + |Decimal(n)| + |UploadedTail|
      && m[..|UploadedHead|] == UploadedHead
      && m[|m| - |UploadedTail|..] == UploadedTail
      && m[|UploadedHead|..|m| - |UploadedTail|] == Decimal(n)
      && DigitsValue(m[|UploadedHead|..|m| - |UploadedTail|]) == n
  {
    var m := ReplyBody(UploadedReply(n))["message"];
    assert m[|UploadedHead|..|m| - |UploadedTail|] == Decimal(n);
    DecimalRoundTrip(n);
  }

  /** The `try`/`except` around the language model: an exception's
      message becomes an error reply, a response becomes an answer. */
  function GenerationReply(g: Generation): (reply: Reply)
    ensures g.Raised? ==> reply == ErrorReply(g.message)
    ensures g.Generated? ==> reply == AnswerReply(AnswerText(g.text))
  {
    match g
    case Raised(message) => ErrorReply(message)
    case Generated(text) => AnswerReply(AnswerText(text))
  }

  /** `data.get("question", "").strip()`: a missing question counts as
      empty; a present one is stripped, so the result is empty exactly when
      the question is all whitespace, and otherwise has no whitespace at
      either end. */
  function Question(question: Option<string>): (q: string)
    ensures question.None? ==> q == ""
    ensures question.Some? ==>
      (q == "" <==> forall k :: 0 <= k < |question.value| ==> PyWhitespace(question.value[k]))
    ensures q != "" ==> !PyWhitespace(q[0]) && !PyWhitespace(q[|q| - 1])
    ensures question.Some? ==> q == Strings.Strip(question.value, PyWhitespace)
  {
    Strings.Strip(question.GetOr(""), PyWhitespace)
  }

  const PromptHead := "\n    You are a helpful assistant.\n    Use the following context to answer the question clearly and concisely.\n\n    Context:\n    "
  const PromptMiddle := "\n\n    Question: "
  const PromptTail := "\n    "

  /** The prompt sent to the language model. */
  function Prompt(context: string, question: string): string
  {
    PromptHead + context + PromptMiddle + question + PromptTail
  }

  /** The prompt is the fixed instructions, the context, the fixed
      "Question:" line, the question and the fixed closing, in that order. */
  lemma PromptLayout(context: string, question: string)
    ensures var prompt := Prompt(context, question);
      && |prompt| == |PromptHead| + |context| + |PromptMiddle| + |question| + |PromptTail|
      && prompt[..|PromptHead|] == PromptHead
      && prompt[|PromptHead|..|PromptHead| + |context|] == context
      && var at := |PromptHead| + |context| + |PromptMiddle|;
         && prompt[|PromptHead| + |context|..at] == PromptMiddle
         && prompt[at..at + |question|] == question
         && prompt[at + |question|..] == PromptTail
  {
    var prompt := Prompt(context, question);
    assert prompt == PromptHead + context + (PromptMiddle + question + PromptTail);
    var at := |PromptHead| + |context| + |PromptMiddle|;
    assert prompt == (PromptHead + context + PromptMiddle) + question + PromptTail;
  }

  // ---------------------------------------------------------------------
  // The chunk table

  /** A stand-in for the embedding vector stored in the BLOB column. */
  type Embedding = seq<int>

  datatype Row = Row(chunk: string, embedding: Embedding)

  /** `SELECT chunk FROM chunks`, in insertion order. */
  function ChunkColumn(rows: seq<Row>): (chunks: seq<string>)
    ensures |chunks| == |rows|
  {
    seq(|rows|, k requires 0 <= k < |rows| => rows[k].chunk)
  }

  /** The embedding column, in insertion order. */
  function EmbeddingColumn(rows: seq<Row>): (embeddings: seq<Embedding>)
    ensures |embeddings| == |rows|
  {
    seq(|rows|, k requires 0 <= k < |rows| => rows[k].embedding)
  }

  /** Lists that agree with the rows position by position are the columns. */
  lemma Columns(rows: seq<Row>, chunks: seq<string>, embeddings: seq<Embedding>)
    requires |chunks| == |rows| && |embeddings| == |rows|
    requires forall i :: 0 <= i < |rows| ==> chunks[i] == rows[i].chunk && embeddings[i] == rows[i].embedding
    ensures chunks == ChunkColumn(rows) && embeddings == EmbeddingColumn(rows)
  {
  }

  /** The loop that unpacks the fetched rows into a chunk list and an
      embedding list. */
  method ReadColumns(rows: seq<Row>) returns (chunks: seq<string>, embeddings: seq<Embedding>)
    ensures chunks == ChunkColumn(rows) && embeddings == EmbeddingColumn(rows)
  {
    chunks, embeddings := [], [];
    var k := 0;
    while k < |rows|
      invariant 0 <= k <= |rows|
      invariant |chunks| == k && |embeddings| == k
      invariant forall i :: 0 <= i < k ==> chunks[i] == rows[i].chunk && embeddings[i] == rows[i].embedding
    {
      chunks := chunks + [rows[k].chunk];
      embeddings := embeddings + [rows[k].embedding];
      k := k + 1;
    }
    Columns(rows, chunks, embeddings);
  }

  /** `util.cos_sim(question_emb, np.vstack(embeddings))[0]`: the similarity
      of the question to every embedding. */
  function Similarities(questionEmbedding: Embedding, embeddings: seq<Embedding>,
                        similarity: (Embedding, Embedding) -> int): (scores: seq<int>)
    ensures |scores| == |embeddings|
    ensures forall k :: 0 <= k < |embeddings| ==> scores[k] == similarity(questionEmbedding, embeddings[k])
  {
    seq(|embeddings|, k requires 0 <= k < |embeddings| => similarity(questionEmbedding, embeddings[k]))
  }

  /** `[chunks[i] for i in top_idxs]` */
  function SelectChunks(chunks: seq<string>, top: seq<nat>): (selected: seq<string>)
    requires IndicesBelow(top, |chunks|)
    ensures |selected| == |top|
    ensures forall k :: 0 <= k < |top| ==> selected[k] == chunks[top[k]]
  {
    seq(|top|, k requires 0 <= k < |top| => chunks[top[k]])
  }

  /** The stored chunks most similar to the question, best first, joined
      by newlines. */
  function TopContext(rows: seq<Row>, questionEmbedding: Embedding,
                      similarity: (Embedding, Embedding) -> int): (context: string)
    ensures rows == [] ==> context == ""
    ensures rows != [] ==>
      |context| == Strings.TotalLength(TopChunks(rows, questionEmbedding, similarity))
        + Min(TopCount, |rows|) - 1
  {
    Strings.JoinLength('\n', TopChunks(rows, questionEmbedding, similarity));
    Strings.Join('\n', TopChunks(rows, questionEmbedding, similarity))
  }

  /** The context built from the columns read out of the rows is the
      rows' top context. */
  lemma ContextFromColumns(rows: seq<Row>, chunks: seq<string>, embeddings: seq<Embedding>,
                           questionEmbedding: Embedding, similarity: (Embedding, Embedding) -> int)
    requires chunks == ChunkColumn(rows) && embeddings == EmbeddingColumn(rows)
    ensures var top := TopIndices(Similarities(questionEmbedding, embeddings, similarity));
      IndicesBelow(top, |chunks|) &&
      Strings.Join('\n', SelectChunks(chunks, top)) == TopContext(rows, questionEmbedding, similarity)
  {
  }

  /** When no chunk holds a newline, the context is the selected chunks,
      one per line. */
  lemma TopContextLines(rows: seq<Row>, questionEmbedding: Embedding,
                        similarity: (Embedding, Embedding) -> int)
    requires rows != []
    requires forall k :: 0 <= k < |rows| ==> '\n' !in rows[k].chunk
    ensures Strings.Split(TopContext(rows, questionEmbedding, similarity), '\n')
      == TopChunks(rows, questionEmbedding, similarity)
  {
    Strings.SplitJoin('\n', TopChunks(rows, questionEmbedding, similarity));
  }

  /** The chunks of the rows most similar to the question, best first: at
      most three, each taken from a different row. */
  function TopChunks(rows: seq<Row>, questionEmbedding: Embedding,
                     similarity: (Embedding, Embedding) -> int): (selected: seq<string>)
    ensures |selected| == Min(TopCount, |rows|)
    ensures forall k :: 0 <= k < |selected| ==> selected[k] in ChunkColumn(rows)
    ensures var top := TopIndices(Similarities(questionEmbedding, EmbeddingColumn(rows), similarity));
      forall k :: 0 <= k < |selected| ==> selected[k] == rows[top[k]].chunk
  {
    var scores := Similarities(questionEmbedding, EmbeddingColumn(rows), similarity);
    var top := TopIndices(scores);
    var column := ChunkColumn(rows);
    var picked := SelectChunks(column, top);
    assert forall k :: 0 <= k < |picked| ==> picked[k] == column[top[k]] == rows[top[k]].chunk;
    picked
  }

  /** The DuckDB table `chunks (chunk TEXT, embedding BLOB)`. */
  class ChunkTable {
    var rows: seq<Row>

    /** The server starts by resetting the table. */
    constructor ()
      ensures rows == []
    {
      rows := [];
    }

    /** `reset_db`: drop the database and create an empty table. */
    method Reset()
      modifies this
      ensures rows == []
    {
      rows := [];
    }

    /** `INSERT INTO chunks VALUES (?, ?)` */
    method Insert(chunk: string, embedding: Embedding)
      modifies this
      ensures rows == old(rows) + [Row(chunk, embedding)]
    {
      rows := rows + [Row(chunk, embedding)];
    }

    /** `/upload`: a rejected request leaves the table as it was; an
        accepted one replaces its whole content by the chunks of the joined
        cell text, in order, each with its embedding, and reports how many
        chunks there are. */
    method Upload(req: UploadRequest, embed: string -> Embedding) returns (reply: Reply)
      modifies this
      ensures CheckUpload(req).Failure? ==>
        reply == ErrorReply(CheckUpload(req).error) && rows == old(rows)
      ensures CheckUpload(req).Success? ==>
        && ChunkColumn(rows) == Chunks(JoinedText(req.file.value.cells))
        && (forall k :: 0 <= k < |rows| ==> rows[k].embedding == embed(rows[k].chunk))
        && reply == UploadedReply(|rows|)
    {
      var checked := CheckUpload(req);
      if checked.Failure? {
        return ErrorReply(checked.error);
      }
      Reset();
      var text := JoinedText(checked.value.cells);
      var chunks := Chunks(text);
      var embeddings := seq(|chunks|, i requires 0 <= i < |chunks| => embed(chunks[i]));
      var k := 0;
      while k < |chunks|
        invariant 0 <= k <= |chunks|
        invariant |rows| == k
        invariant forall i :: 0 <= i < k ==> rows[i] == Row(chunks[i], embeddings[i])
      {
        Insert(chunks[k], embeddings[k]);
        k := k + 1;
      }
      assert ChunkColumn(rows) == chunks;
      reply := UploadedReply(|chunks|);
    }

    /** `/ask`: an empty question is rejected whatever the table holds; an
        empty table is rejected next; otherwise the reply is what the
        language model makes of the prompt built from the stripped question
        and the three chunks most similar to it. */
    method Ask(question: Option<string>, embed: string -> Embedding,
               similarity: (Embedding, Embedding) -> int,
               generate: string -> Generation) returns (reply: Reply)
      ensures Question(question) == "" ==> reply == ErrorReply(QuestionRequired)
      ensures Question(question) != "" && rows == [] ==> reply == ErrorReply(NoData)
      ensures Question(question) != "" && rows != [] ==>
        reply == GenerationReply(generate(Prompt(
          TopContext(rows, embed(Question(question)), similarity), Question(question))))
    {
      var q := Question(question);
      if q == "" {
        return ErrorReply(QuestionRequired);
      }
      var fetched := rows;
      if fetched == [] {
        return ErrorReply(NoData);
      }
      var chunks, embeddings := ReadColumns(fetched);
      var questionEmbedding := embed(q);
      var scores := Similarities(questionEmbedding, embeddings, similarity);
      var top := TopIndices(scores);
      var context := Strings.Join('\n', SelectChunks(chunks, top));
      ContextFromColumns(fetched, chunks, embeddings, questionEmbedding, similarity);
      reply := GenerationReply(generate(Prompt(context, q)));
    }
  }
}
