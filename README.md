# Verified model of a CSV question-answering demo

The repository has two parts. One is a Flask backend (`python-Model/src/main.py`). Its
`/upload` turns a CSV file into 500-character text chunks with embeddings in a DuckDB
table, and its `/ask` answers a question from the three chunks most similar to it. The
other is a React frontend with two independent components. `ReactWebCame.jsx` captures
a webcam frame and keeps the latest one in IndexedDB under the key `"latestImage"`.
`SpeechToText.jsx` turns speech into an editable question, posts it, and shows the reply.

This project models those three pieces in Dafny and proves what they promise:

- `Strings.dfy` (module `Strings`): Python's `join` and `split` on one separator, and
  `strip`/`trim` that take the language's whitespace set as a parameter.
- `RagService.dfy` (module `RagService`): upload validation, the flatten-and-join of the
  cells, the fixed-size chunking, the replace-all chunk table (class `ChunkTable`), the
  checks in `/ask`, the top-3 selection, the prompt and the answer fallback.
- `WebcamCapture.dfy` (module `WebcamCapture`): the object store (class `ImageStore`, a
  map) and a component session (class `CaptureSession`, holding `capturedImage`).
- `VoiceQuery.dfy` (module `VoiceQuery`): the component state (class `SpeechToText`:
  `transcript`, `listening`, `voiceInput`, `responseData`) and how a reply is shown.
- `Interop.dfy` (module `Interop`): the backend never sends a `reply` field, so the
  frontend shows `"No response from backend."` for every body the backend produces.
- `Wrappers.dfy`: `Option` and `Result`.

Collaborators the model cannot see are parameters:

- the CSV parser's output is a grid of strings;
- the embedding model is `embed: string -> Embedding`;
- cosine similarity is `similarity: (Embedding, Embedding) -> int`;
- the language model is `generate: string -> Generation`;
- the webcam frame is an `Option<string>`;
- the backend, seen from the browser, is `string -> FetchOutcome`.

Three points where the code may surprise a reader, and which the model keeps as the code has them:

- Edits do not stop `voiceInput` from tracking the transcript. Every change of the
  transcript overwrites `voiceInput`, including a user's edit.
- "Reset" clears `voiceInput` only when the transcript was not already empty. This is
  because React's effect runs only when the transcript value changes.
- The backend replies with `answer`, `message` or `error`, never with `reply`. It listens
  on port 7000, while the frontend posts to port 5000.

## Model

| member | source | states |
|---|---|---|
| `Strings.JoinLength` | python-Model/src/main.py:42 | a join of n ≥ 1 pieces is as long as the pieces plus n − 1 separators; a join of no pieces is empty |
| `Strings.SplitJoin` | python-Model/src/main.py:42 | splitting a join on its separator gives back the pieces when no piece contains the separator |
| `Strings.Strip` | python-Model/src/main.py:60 | the stripped text neither starts nor ends with whitespace, and it is empty exactly when the input is all whitespace |
| `Strings.StripContent` | python-Model/src/main.py:60 | the stripped text is the input from the end of its whitespace prefix on, and everything after it is whitespace: only leading and trailing whitespace is removed |
| `RagService.Lower` | python-Model/src/main.py:36 | lower-casing keeps the length and maps each character on its own |
| `RagService.HasCsvExtension` | python-Model/src/main.py:36 | a name passes exactly when it has at least four characters and its last four, lower-cased, are ".csv" |
| `RagService.CsvExtensionIgnoresCase` | python-Model/src/main.py:36 | whatever stem comes first, a name ending in a four-character extension passes exactly when that extension lower-cased is ".csv", so ".CSV" and ".Csv" pass too |
| `RagService.CheckUpload` | python-Model/src/main.py:32-37 | no `file` part gives "No file uploaded"; otherwise a name without a case-insensitive ".csv" ending gives "Upload a CSV file"; otherwise the file is accepted unchanged |
| `RagService.FlattenLength` | python-Model/src/main.py:42 | flattening a grid with `width` columns gives rows × width cells |
| `RagService.FlattenAt` | python-Model/src/main.py:42 | the flattening is row-major: cell (r, c) is at position r·width + c |
| `RagService.JoinedTextLength` | python-Model/src/main.py:42 | the joined text is as long as all cells plus one space between each two cells, and empty when there are no cells |
| `RagService.JoinedTextKeepsCells` | python-Model/src/main.py:42 | when no cell contains a space, splitting the joined text on spaces gives back the cells in row-major order |
| `RagService.Chunks` | python-Model/src/main.py:44-45 | chunk i is the text from offset 500·i; each chunk has 1 to 500 characters, all but the last exactly 500; there are ceil(len/500) chunks, so empty text gives none |
| `RagService.ConcatChunks` | python-Model/src/main.py:44-45 | concatenating the chunks in order gives back the text exactly |
| `RagService.ChunksUnique` | python-Model/src/main.py:44-45 | any cutting of the text into 500-character pieces followed by one piece of 1 to 500 characters is the chunking |
| `RagService.ArgSortDescending` | python-Model/src/main.py:78 | the sort gives every index below n exactly once, in order of non-increasing score |
| `RagService.TopIndices` | python-Model/src/main.py:78 | gives min(3, n) distinct in-range indices in order of non-increasing score; no index left out scores higher than the lowest one selected |
| `RagService.Question` | python-Model/src/main.py:60 | a missing question reads as ""; a present one is exactly its Python-stripped text, so it is empty exactly when it is all whitespace and otherwise neither starts nor ends with whitespace |
| `RagService.ReadColumns` | python-Model/src/main.py:71-74 | the loop over the fetched rows gives the chunk column and the embedding column, in row order |
| `RagService.Similarities` | python-Model/src/main.py:77 | one score per embedding, the i-th being the similarity of the question to embedding i |
| `RagService.SelectChunks` | python-Model/src/main.py:79 | the selected chunks are the chunks at the top indices, in that order |
| `RagService.TopChunks` | python-Model/src/main.py:78-79 | min(3, n) chunks are selected, and chunk k is the chunk of the row at position k of the top-3 indices, so they come from distinct rows, best score first, and no row left out scores higher than the last one picked |
| `RagService.TopContext` | python-Model/src/main.py:80 | the context of an empty table is empty; for a non-empty table it is as long as the selected chunks plus one newline between each two |
| `RagService.TopContextLines` | python-Model/src/main.py:80 | when no chunk contains a newline, splitting the context on newlines gives back exactly the selected chunks |
| `RagService.ContextFromColumns` | python-Model/src/main.py:71-80 | the context built from the unpacked columns is the top-3 context of the rows |
| `RagService.PromptLayout` | python-Model/src/main.py:82-90 | the prompt is the fixed opening, the context, the fixed "Question:" line, the question and the closing, in that order, with nothing else |
| `RagService.AnswerText` | python-Model/src/main.py:96 | "No answer generated." when the text is missing or empty; otherwise exactly the Python-stripped text, which is empty exactly when the text is all whitespace |
| `RagService.GenerationReply` | python-Model/src/main.py:94-99 | an exception becomes an error reply with its message; a response becomes an answer reply carrying the answer text |
| `RagService.ReplyBody` | python-Model/src/main.py:33-97 | an error reply is the object with only `error`, an answer reply the object with only `answer`, an upload reply the object with only `message` |
| `RagService.DecimalRoundTrip` | python-Model/src/main.py:53 | the decimal rendering of a count is non-empty, all digits, without a leading zero, and reads back as the count |
| `RagService.UploadMessageCount` | python-Model/src/main.py:53 | the upload message is "✅ Uploaded ", then exactly `Decimal(n)` (digits that read back as n), then " chunks successfully" |
| `RagService.ChunkTable.constructor` | python-Model/src/main.py:102-103 | the server starts with an empty chunk table |
| `RagService.ChunkTable.Reset` | python-Model/src/main.py:20-26 | `reset_db` leaves the table empty |
| `RagService.ChunkTable.Insert` | python-Model/src/main.py:50 | an insert appends one row (chunk, embedding) |
| `RagService.ChunkTable.Upload` | python-Model/src/main.py:32-53 | a rejected upload returns the check's error and leaves the table unchanged; an accepted one leaves exactly the new chunks in order, each with its embedding, and reports their number |
| `RagService.ChunkTable.Ask` | python-Model/src/main.py:59-99 | an empty stripped question gives "Question is required" whatever the table holds; an empty table gives "No data available. Upload a CSV first."; otherwise the reply is the model's outcome for the prompt built from the top-3 context and the stripped question |
| `WebcamCapture.ImageStore.Put` | React/React-Frontend/vite-project/src/components/ReactWebCame.jsx:30 | a put overwrites the entry for its key and changes nothing else |
| `WebcamCapture.ImageStore.Get` | React/React-Frontend/vite-project/src/components/ReactWebCame.jsx:36 | a get finds the stored value exactly when the key is present, and changes nothing |
| `WebcamCapture.CaptureSession.constructor` | React/React-Frontend/vite-project/src/components/ReactWebCame.jsx:10 | a new session shows no image |
| `WebcamCapture.CaptureSession.SaveToIndexedDB` | React/React-Frontend/vite-project/src/components/ReactWebCame.jsx:28-32 | saving writes only the "latestImage" entry |
| `WebcamCapture.CaptureSession.LoadFromIndexedDB` | React/React-Frontend/vite-project/src/components/ReactWebCame.jsx:34-41 | loading shows the stored image when it is truthy and otherwise keeps the shown image; the store is not written |
| `WebcamCapture.CaptureSession.Capture` | React/React-Frontend/vite-project/src/components/ReactWebCame.jsx:43-50 | a truthy frame is shown and stored under "latestImage"; no frame changes neither the session nor the store; the store keeps holding at most one non-empty image under that key |
| `WebcamCapture.Mount` | React/React-Frontend/vite-project/src/components/ReactWebCame.jsx:52-54 | a freshly mounted session shows the stored image, or nothing on a miss |
| `WebcamCapture.CaptureThenRemount` | React/React-Frontend/vite-project/src/components/ReactWebCame.jsx:30-38 | a frame captured in one session is what the next mounted session shows |
| `WebcamCapture.CaptureTwice` | React/React-Frontend/vite-project/src/components/ReactWebCame.jsx:30 | after two captures the store holds only the second frame, under the one key |
| `VoiceQuery.IsBlank` | React/React-Frontend/vite-project/src/components/SpeechToText.jsx:19 | the input counts as blank exactly when every character is JavaScript whitespace |
| `VoiceQuery.ResponseText` | React/React-Frontend/vite-project/src/components/SpeechToText.jsx:26-30 | a truthy `reply` is shown as is; a missing or empty one gives "No response from backend."; a throw gives "Error contacting server."; the result is never empty |
| `VoiceQuery.SpeechToText.constructor` | React/React-Frontend/vite-project/src/components/SpeechToText.jsx:7-8 | `voiceInput` and `responseData` start empty |
| `VoiceQuery.SpeechToText.TranscriptChanged` | React/React-Frontend/vite-project/src/components/SpeechToText.jsx:14-16 | a changed transcript overwrites `voiceInput`, discarding edits; an unchanged one leaves it alone |
| `VoiceQuery.SpeechToText.Edit` | React/React-Frontend/vite-project/src/components/SpeechToText.jsx:45 | an edit sets `voiceInput` to the typed text, except when the browser is unsupported |
| `VoiceQuery.SpeechToText.StartListening` | React/React-Frontend/vite-project/src/components/SpeechToText.jsx:49 | starts listening when supported; nothing else changes |
| `VoiceQuery.SpeechToText.StopListening` | React/React-Frontend/vite-project/src/components/SpeechToText.jsx:55 | stops listening when supported; nothing else changes |
| `VoiceQuery.SpeechToText.ResetTranscript` | React/React-Frontend/vite-project/src/components/SpeechToText.jsx:64 | clears the transcript when supported, and with it `voiceInput` if the transcript was not empty |
| `VoiceQuery.SpeechToText.Submit` | React/React-Frontend/vite-project/src/components/SpeechToText.jsx:18-36 | a blank input or an unsupported browser sends nothing and changes nothing; otherwise the untrimmed input is posted and `responseData` shows how the request ended |
| `VoiceQuery.SubmitExamples` | React/React-Frontend/vite-project/src/components/SpeechToText.jsx:18-32 | `{"reply":"4"}` shows "4", `{}` shows the fallback, an unreachable backend shows the error text |
| `Interop.EveryBackendReplyShowsFallback` | React/React-Frontend/vite-project/src/components/SpeechToText.jsx:27 | no backend body has a `reply` field, so each of them, answers included, makes the frontend show "No response from backend." |

## Left out

- Flask routing, HTTP status codes and ports (7000 for the backend, 5000 in the frontend) are transport, not logic.
- The case where `request.get_json()` returns None is left out: it is JSON request parsing.
- A non-string `question` is left out: its `strip()` raising is Flask-level error handling.
- `pandas.read_csv` is a foreign call. The model starts from the cells as strings. Header handling, NaN cells (rendered "nan" by `astype(str)`) and parse errors belong to pandas. `fillna("")` has no effect after `astype(str)`, so it is not modelled. `reset_db` (main.py:39) runs before `read_csv` (main.py:41), so a file named `.csv` that fails to parse leaves the table empty. `Upload` does not model that failure: it starts from parsed cells.
- DuckDB is a foreign library. The connection and the database file are left out, and so is its deletion in `reset_db`, which becomes clearing the table. The BLOB encoding (`tobytes`/`frombuffer`) is taken to give back the same vector.
- The sentence-transformer model, `util.cos_sim` and the Gemini call are foreign calls. They are function parameters, and similarities are integers instead of floats, so NaN scores are not modelled.
- `dotenv` and the API key are configuration.
- RagService.TopIndices: numpy's tie order is not modelled. Ties may come in any order, which is all the source guarantees.
- RagService.LowerChar: only ASCII letters are lower-cased. No other character lower-cases to any of ".csv", so `HasCsvExtension` gives Python's answer for every name; other uses of `lower()` are not modelled.
- IndexedDB `openDB`, its upgrade callback and persistence failures are browser collaborators. The store is a map whose operations always succeed.
- react-webcam's `getScreenshot` is a browser collaborator, so the frame is an input.
- The speech-recognition engine is a browser collaborator. Its transcript updates are calls to `TranscriptChanged`. An unsupported engine is taken to report no transcript changes.
- JSON bodies are objects with string fields. A `reply` of another type, or a body that is not an object, is not modelled.
- Async interleavings are concurrency. These include a load racing a capture on mount, and two submits in flight with the last write winning.
- Rendering, styles, `console.log` and `App.jsx` are presentation only.
