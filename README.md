# Personal WhatsApp Assistant: the answering core, in Dafny

This project models the part of `chat_with_assistant.js` that the repository
implements itself. Two things are modelled:

- **`normalizeDocuments`** turns each loaded document into one plain string
  before the text splitter sees it. A string `pageContent` is kept as it is. An
  array is joined with `"\n"`. Any other value becomes `""`.
- **`runModel(question)`** is the entry point that the messaging front-end
  calls. It decides whether to build or load the vector store: it loads
  `Data.index` when that file exists, and otherwise builds a store from the
  normalised documents and saves it. It then appends the question to the
  process-wide message history. Next it constructs the retrieval chain, which
  throws when no store is available. Finally it queries the chain and returns
  the chain's text, or the fixed string `"Sorry, I couldn't process your
  request."` when the query fails.

The project has two modules:

- `Documents` (`documents.dfy`) defines the document shapes, `Join` (the
  behaviour of `Array.prototype.join`), `SplitOn` (an independent cutting
  function, used as `Join`'s inverse), and the normalisation functions.
- `ChatAssistant` (`chat_assistant.dfy`) covers `runModel`:
  - `RunStep` specifies one call as a pure function of the process state and
    the external outcomes.
  - `RunSequence` chains many calls, so that properties across calls can be
    stated.
  - The class `Assistant` holds the module-level state: whether `./data`
    exists, the documents loaded at startup, whether `Data.index` exists, and
    the message history. Its `RunModel` method is proved equal to `RunStep`.

Every library call is an opaque input to each call, bundled in `Env`:

- whether `HNSWLib.load` succeeds;
- whether splitting, embedding and `HNSWLib.fromDocuments` succeed on the
  normalised texts, given as a function of those texts;
- whether `save` succeeds;
- whether `chain.invoke` succeeds, and the text it returns.

The directory loader's result is a constructor parameter: the documents, or
`None` when `loader.load()` threw.

Three behaviours of the code that a reader might not expect:

- The question is appended at lines 110-113, before the chain is built or
  queried. So a call that returns the fallback, or that throws, still grows the
  history by one message.
- A failed build puts the assistant in no special state. That call throws at
  line 117. The index file is still absent, so the next call takes the build
  branch at lines 91-107 again.
- `runModel` itself throws (a `TypeError` at line 117) when no store was
  obtained. Only the front-end in `index.js` turns that exception into a reply.

Two details of the code that the model keeps:

- If the documents failed to load at startup, `docs` is `undefined`. Then
  `normalizeDocuments(docs)` throws inside the build's `try`. The error is
  caught at line 104, the store stays undefined, and the call throws at
  line 117.
- If the build succeeds but `save` fails, the store is still defined, because
  it is assigned at line 101 before `save` runs at line 102. That call
  therefore answers normally, but the file is not created, and the next call
  builds again.

## Model

| member | source | states |
|---|---|---|
| `Documents.Join` | chat_with_assistant.js:52-53 | an empty array joins to `""`; otherwise the length is the parts' total length plus one separator between each two neighbours, and the result starts with the first part |
| `Documents.JoinSnoc` | chat_with_assistant.js:53 | adding a part adds exactly one separator and then that part, so the joined text never ends in a separator of its own |
| `Documents.SplitJoin` | chat_with_assistant.js:53 | joining a non-empty array of parts that contain no separator character loses nothing: cutting the result at the separator gives back exactly the parts |
| `Documents.NormalizeDocument` | chat_with_assistant.js:50-55 | a string `pageContent` maps to itself; any other non-array value maps to `""`; an array maps to its elements joined with `"\n"` (so an empty array gives `""` and a one-element array gives that element); a non-empty array maps to a string of its total length plus one newline between each two elements, which splits at `"\n"` back into the array when no element contains a newline |
| `Documents.NormalizeDocuments` | chat_with_assistant.js:48-57 | never fails; the result has one string per document, and string `i` is document `i`'s normalisation |
| `Documents.NormalizeDocumentsAppend` | chat_with_assistant.js:48-49 | normalising a concatenation of document lists equals concatenating their normalisations, so element `i` depends only on document `i` |
| `ChatAssistant.RunStep` | chat_with_assistant.js:71-131 | a present index file is only loaded, yields a store exactly when loading succeeds, and stays present; an absent one is built: with documents, a store exists exactly when building from their normalisation succeeds, and it is saved (the file exists afterwards) exactly when building and saving both succeed; nothing can be built from documents that failed to load; the history grows by exactly one message holding the question; the call throws exactly when no store was obtained; otherwise it returns the chain's text, or exactly the fallback string when querying fails |
| `ChatAssistant.FallbackKeepsState` | chat_with_assistant.js:124-130 | a failed query changes only the returned value: the branch taken, the index file and the history match those of a successful query with the same other outcomes |
| `ChatAssistant.RunSequence` | chat_with_assistant.js:71-131 | successive calls produce one step each: the first is `RunStep` from the given state, and every later one is `RunStep` from the index-file flag and history the previous call left |
| `ChatAssistant.SequenceHistory` | chat_with_assistant.js:110-113 | after call `i` the history is the starting history followed by messages for the first `i + 1` questions, in order (append-only, one per call) |
| `ChatAssistant.PresentIndexOnlyLoaded` | chat_with_assistant.js:83-90 | when `Data.index` exists at startup, every call only loads and the file stays, whatever the documents are; the index is never rebuilt |
| `ChatAssistant.SavedOnce` | chat_with_assistant.js:83-107 | when calls run one after another, once a call has saved a store every later call takes the load branch, so the index is built and saved at most once in such a run |
| `ChatAssistant.UnsavedBuildIsRetried` | chat_with_assistant.js:91-107 | a call that took the build branch but did not save leaves the file absent, so the next call builds again |
| `ChatAssistant.NoDocumentsAlwaysThrows` | chat_with_assistant.js:92-117 | when the startup load of the documents threw and there is no index file, every call throws and the index file is never created |
| `ChatAssistant.Assistant.constructor` | chat_with_assistant.js:20-43 | start-up: `./data` exists afterwards, and it was created exactly when it was missing; the loaded documents, or their absence, are kept; the history is empty |
| `ChatAssistant.Assistant.RunModel` | chat_with_assistant.js:71-131 | the new index-file flag, the new history and the returned outcome are exactly those `RunStep` gives for the old state; nothing else changes |

## Left out

- `index.js`: the messaging client, the HTTP routes for the QR code, and the
  mapping of a thrown error to a second fixed reply (`index.js:83-89`). These
  are transport glue.
- The directory loader and its extension-to-extractor table
  (chat_with_assistant.js:28-33). Their work happens inside the library, so
  only the result is modelled: a sequence of documents, or `None` when loading
  threw.
- The text splitter with `chunkSize: 1000`, the embeddings, and the HNSWLib
  build, save, load and similarity search. These are foreign code with
  floating-point numerics. Their success or failure is an opaque input, and
  the store's contents are not modelled.
- Documents.NormalizeDocument: JavaScript's `join` turns `null`, `undefined`
  and non-string elements into strings. The model types array elements as
  strings only. A `null` document, which makes the callback throw, is not
  represented.
- The prompt template text, the `OpenAI` model settings, and the construction
  of `RetrievalQAChain` once a store exists (60-77, 117-120). These are
  foreign calls. A failure of the `OpenAI` constructor at line 73 is not
  modelled.
- ChatAssistant.RunStep: saving is treated as all-or-nothing. A `save` that
  fails after writing part of `Data.index` would leave the file present, and
  later calls would then take the load branch. That case is not modelled.
- Logging, `dotenv`, and the asynchronous scheduling of concurrent calls.
  Calls are modelled as running one after another.
- ChatAssistant.SavedOnce: holds only for calls that run one after another.
  `index.js:76-90` starts a `runModel` per incoming message without waiting for
  the previous one. Two calls that both check for the file at line 83 while the
  first build is still awaiting (lines 98 and 101, before the save at line 102)
  both build and both save. That double build is not modelled.
