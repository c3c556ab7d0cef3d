# Nexus: a browser-side document chat, modelled in Dafny

Nexus is a single-page web app. It lets a user drop PDF files onto a sidebar and chat with a local
language model about their contents (retrieval-augmented generation). This project models its core:

- **The vector store** (`Chunker`, `VectorStore`). Texts are cut into overlapping windows of at
  most 500 characters. A window is cut just before its last space only when that space lies
  strictly past 80% of the window size. Each window's text is trimmed, and the non-empty ones are
  stored under fresh ids, without embedding. A search embeds the query and every stored chunk
  and scores each chunk by cosine similarity. The best `limit` chunks come back in descending
  order of score.
- **The two chat hooks** (`WebLLM`, `CpuLLM`). Each has a one-time engine initialisation with a
  progress line, and a chat turn that builds a system prompt from the retrieved context. The GPU
  hook streams the reply into the last message. The CPU hook builds a ChatML prompt, cleans the
  generated text and falls back to a fixed apology on failure.
- **The page** (`Page`). It holds the knowledge graph, which starts with the root node and gains
  one node and one link per ingested document. It also holds the list of ingested files and the
  preview state.
- **The sidebar's drop handler** (`Sidebar`). Each dropped file in turn is extracted, checked,
  stored and added to the page, with each failure isolated to its file.
- **The chat box's submit handler** (`ChatFloat`). It searches the store for four chunks and
  passes the query and the joined chunks to the GPU chat hook.

The engines (embedding model, language models, PDF parser) are left abstract. The embedder is a
function from text to an optional vector of a fixed dimension. Square root is a function
characterised by `IsSqrt`. An engine load, a PDF extraction and a generation are given to the
operation as their outcome.

`Wrappers` holds `Option`, `Outcome` and `Result`. `Messages` holds the chat message type.
`Text` models the JavaScript string operations the core relies on: `trim`, `lastIndexOf`,
`indexOf`, a single `replace`, `join` and integer formatting.

## Model

| member | source | states |
|---|---|---|
| Chunker.CutWindowSpec | src/services/vectorStore.ts:158-167 | a window is cut just before its last space exactly when that space lies past 80% of the chunk size, and the cursor moves to just after it less the overlap; otherwise the whole window is kept and the cursor moves by `chunkSize - overlap` |
| Chunker.ChunkText | src/services/vectorStore.ts:154-171 | the chunking loop computes `ChunkPieces`; every chunk is non-empty, trimmed and at most `chunkSize` long; the empty text gives no chunks |
| Chunker.CutAt | src/services/vectorStore.ts:158-168 | one turn of the loop yields the window at the cursor, cut as `CutWindow` says, and the next cursor |
| Chunker.SpansBounded | src/services/vectorStore.ts:157-168 | every window visited is non-empty, lies inside the text and holds at most `chunkSize` characters |
| Chunker.SpansCover | src/services/vectorStore.ts:157-168 | every non-space character of the text lies in some visited window (no text is skipped) |
| Chunker.ChunkPiecesEmpty | src/services/vectorStore.ts:154-171 | chunking yields no chunk exactly when the text is all whitespace |
| Chunker.ChunksFromWindows | src/services/vectorStore.ts:157-170 | every chunk returned is the trimmed text of one visited window, a non-empty slice of the input |
| Chunker.ChunksCoverText | src/services/vectorStore.ts:157-170 | no text is lost: every non-whitespace character lies in a visited window whose chunk is returned |
| Chunker.PiecesShape | src/services/vectorStore.ts:168-170 | every chunk kept by the filter is non-empty, trimmed and at most `chunkSize` long |
| VectorStore.NothingSkipped | src/services/vectorStore.ts:73-82 | when no chunk is blank, the k-th chunk becomes the k-th document with `chunkIdx` k and the k-th fresh id |
| VectorStore.ChunksNeverSkipped | src/services/vectorStore.ts:66-82 | every chunk `chunkText` yields passes `addDocument`'s blank-chunk test |
| VectorStore.StoredAppend | src/services/vectorStore.ts:84 | appending chunk-shaped documents with fresh consecutive ids keeps ids increasing and unique |
| VectorStore.Store.constructor | src/services/vectorStore.ts:30-34 | a new store holds no documents and is not ready |
| VectorStore.Store.Init | src/services/vectorStore.ts:43-59 | the store becomes ready when it was ready or the load succeeds; otherwise the init error; documents untouched |
| VectorStore.Store.AddDocument | src/services/vectorStore.ts:61-90 | init failure propagates; an all-whitespace text fails with "no text content"; otherwise the document's chunks are appended in order with fresh consecutive ids; the store stays well formed |
| VectorStore.Store.Index | src/services/vectorStore.ts:73-82 | the loop that turns chunks into documents builds exactly `NewDocuments`: blank chunks are skipped, and each kept chunk gets the next id and its own index as `chunkIdx` |
| VectorStore.Store.CosineSimilarity | src/services/vectorStore.ts:142-152 | the accumulating loop computes the dot product over the product of the norms, and 0 when either norm is 0 |
| VectorStore.Store.CosineSymmetric | src/services/vectorStore.ts:142-152 | cosine similarity is symmetric |
| VectorStore.Store.CosineZero | src/services/vectorStore.ts:150-151 | a zero vector scores 0 against anything |
| VectorStore.Store.CosineSelf | src/services/vectorStore.ts:142-152 | a non-zero vector scores 1 against itself |
| VectorStore.DotSymmetric | src/services/vectorStore.ts:146 | the dot product is symmetric |
| VectorStore.SortPermutes | src/services/vectorStore.ts:118 | sorting by score permutes the scored entries |
| VectorStore.SortDescending | src/services/vectorStore.ts:118 | sorted entries are in descending order of score |
| VectorStore.SortStable | src/services/vectorStore.ts:118 | the sort is stable: entries of equal score keep their storage order |
| VectorStore.Store.SearchRanked | src/services/vectorStore.ts:118-131 | search results come in descending order of score |
| VectorStore.Store.RankingStable | src/services/vectorStore.ts:107-118 | among stored documents of equal score, the one stored first ranks first |
| VectorStore.Store.SearchFromStore | src/services/vectorStore.ts:107-131 | every result is a stored document with its content, its source and its own similarity to the query |
| VectorStore.Store.SearchTopK | src/services/vectorStore.ts:118-131 | a stored document scoring strictly higher than some result is itself a result |
| VectorStore.Store.SearchSpec | src/services/vectorStore.ts:92-140 | there are never more results than documents; with documents, a query embedding and every document embedded, `min(limit, documents)` results |
| VectorStore.Store.Search | src/services/vectorStore.ts:92-140 | the store is initialised if needed; the results are `SearchSpec` when ready, none on an init failure; documents untouched |
| VectorStore.SliceEnd | src/services/vectorStore.ts:127 | `slice(0, limit)` keeps `min(limit, n)` entries for a non-negative limit, and never more than there are |
| WebLLM.AccumulatedGrows | src/hooks/useWebLLM.ts:87-95 | the streamed answer only grows: each partial answer is a prefix of every later one |
| WebLLM.AccumulatedSkipsEmpty | src/hooks/useWebLLM.ts:87-95 | a stream whose chunks all lack delta content gives the empty answer |
| WebLLM.AccumulatedDropsEmpty | src/hooks/useWebLLM.ts:87-95 | a chunk without delta content, wherever it sits in the stream, leaves the answer unchanged |
| WebLLM.WebChat.SystemPromptChoice | src/hooks/useWebLLM.ts:55-72 | the grounded prompt is chosen exactly for a non-empty context; it ends with the context heading and the context, and the context is recovered after the preamble |
| WebLLM.WebChat.constructor | src/hooks/useWebLLM.ts:13-20 | empty history, not loading, model loading, the initial progress line, no error, no engine |
| WebLLM.WebChat.Init | src/hooks/useWebLLM.ts:22-47 | nothing when already initialising or loaded; otherwise the engine is ready with "GPU Ready.", or the error is "GPU Error: " with the message and progress shows the last report |
| WebLLM.WebChat.OnChat | src/hooks/useWebLLM.ts:49-102 | nothing without an engine; otherwise the request is system prompt, earlier history and user message; the user message and the streamed answer are appended; a failure sets the error; loading ends cleared |
| CpuLLM.ProgressTextSpec | src/hooks/useCpuLLM.ts:45-54 | the progress line is never empty; it is "Model Ready." exactly for "done" (or that status echoed); other statuses are echoed; "progress" shows the prefix, the percent's digits and a '%' |
| CpuLLM.GroundedIff | src/hooks/useCpuLLM.ts:87 | the RAG prompt is used exactly when the context holds a non-whitespace character |
| CpuLLM.CleanAnswerSpec | src/hooks/useCpuLLM.ts:126-128 | the cleaned answer is trimmed; a text without the end tag is only trimmed |
| CpuLLM.CleanTaggedAnswer | src/hooks/useCpuLLM.ts:126-128 | a body followed by one end tag cleans to the trimmed body |
| CpuLLM.ReplySpec | src/hooks/useCpuLLM.ts:126-140 | the assistant reply is never empty; a failed generation gives the fallback; a tag-free, non-blank answer gives the trimmed answer |
| CpuLLM.CpuChat.PromptShape | src/hooks/useCpuLLM.ts:87-110 | the prompt ends with the user turn, the message and the assistant turn; with a grounded context the context follows the RAG system text; otherwise the prompt starts with the general system text |
| CpuLLM.CpuChat.constructor | src/hooks/useCpuLLM.ts:24-31 | empty history, not loading, model loading, "Initiating Engine...", no error, no generator |
| CpuLLM.CpuChat.Init | src/hooks/useCpuLLM.ts:34-69 | nothing once initialisation started; progress follows the reports; success sets the ready line and clears the error; failure sets the load error; model loading ends either way |
| CpuLLM.CpuChat.OnChat | src/hooks/useCpuLLM.ts:72-145 | nothing without a generator or while loading; otherwise the prompt is sent, the user message and the reply are appended, the error is cleared or set to the generation error, and loading ends cleared |
| Page.InitialWellFormed | src/app/page.tsx:10-13 | the initial graph, the root alone, is well formed |
| Page.WithDocumentWellFormed | src/app/page.tsx:25-30 | adding a document keeps the graph well formed: root first, one more node than links, every link joins nodes |
| Page.WithDocumentsSpec | src/app/page.tsx:25-30 | documents added in turn keep the graph well formed, keep earlier nodes and links, and add the k-th name as node and as link target in turn |
| Page.Home.constructor | src/app/page.tsx:16-22 | the page starts with the initial graph, no files, no selection and the preview closed |
| Page.Home.HandleDocumentAdded | src/app/page.tsx:25-30 | the graph gains the document node and the root link; nothing else changes |
| Page.Home.AddFile | src/components/layout/Sidebar.tsx:49 | the `setFiles` updater appends the file and changes nothing else |
| Page.Home.HandleFileClick | src/app/page.tsx:33-36 | the file is selected and the preview opens |
| Page.Home.ClosePreview | src/app/page.tsx:67 | the preview closes and the selection stays |
| Sidebar.BlankIff | src/components/layout/Sidebar.tsx:33 | the sidebar rejects a text exactly when it is all whitespace |
| Sidebar.FileOutcomeSpec | src/components/layout/Sidebar.tsx:25-57 | a file succeeds exactly when its text was extracted, is not blank and the store is ready; an extracted file never fails with the store's no-text error |
| Sidebar.KeptSucceeded | src/components/layout/Sidebar.tsx:49-51 | every file added to the page succeeded |
| Sidebar.SucceededKept | src/components/layout/Sidebar.tsx:49-51 | every file that succeeded is added to the page |
| Sidebar.AllKept | src/components/layout/Sidebar.tsx:25-58 | when every file succeeds, all are added in order |
| Sidebar.ProcessFile | src/components/layout/Sidebar.tsx:26-57 | one file's outcome is `FileOutcome`; on success the file list and graph gain that file, otherwise they are unchanged |
| Sidebar.SidebarPanel.constructor | src/components/layout/Sidebar.tsx:19 | the sidebar starts not processing |
| Sidebar.SidebarPanel.OnDrop | src/components/layout/Sidebar.tsx:21-60 | each file gets the outcome its own extraction calls for; the file list and graph gain exactly the files that succeeded, in order; the store only grows; processing ends cleared |
| ChatFloat.ContextOfSpec | src/components/layout/ChatFloat.tsx:34-40 | with non-empty results the context is empty exactly when there are no results; one result is the context; more start with the first and a blank line |
| ChatFloat.StoredResultsHaveContent | src/components/layout/ChatFloat.tsx:37-39 | results drawn from a well-stored store all have content |
| ChatFloat.ChatBox.constructor | src/components/layout/ChatFloat.tsx:13 | the chat box starts with an empty input |
| ChatFloat.ChatBox.HandleSubmit | src/components/layout/ChatFloat.tsx:24-50 | nothing on a blank input or a busy chat; otherwise the input is cleared, four results are searched for the query as typed, and the query and joined context go to the chat; the context is empty exactly when nothing was found |
| Text.TrimSpec | src/services/vectorStore.ts:168 | `trim` removes exactly the leading and trailing whitespace: its result is trimmed, empty exactly for all-whitespace input, and a trimmed string is left alone |
| Text.LastIndexOfSpec | src/services/vectorStore.ts:161 | `lastIndexOf` finds the last occurrence, and -1 exactly when there is none |
| Text.ReplaceFirst | src/hooks/useCpuLLM.ts:128 | a string `replace` with a string pattern replaces only the first occurrence: without one the text is unchanged, otherwise the length changes by the replacement's less the pattern's |
| Text.Join | src/components/layout/ChatFloat.tsx:39 | `join` of no parts is empty and of one part is that part; more parts start with the first part and the separator; the length is the parts' total plus one separator between each pair |
| Text.IndexOf | src/hooks/useCpuLLM.ts:128 | `indexOf` finds the first occurrence of the pattern, or -1 when there is none |

## Left out

- Floating point: embeddings and scores are mathematical reals. Square root is a parameter
  characterised by `IsSqrt`. NaN, infinities and rounding are not modelled.
- Vectors of different lengths: the embedder always returns vectors of the store's dimension.
  JavaScript would read `undefined` past the end of the shorter vector.
- `Math.round((data.progress || 0) * 100)`: the rounded percent arrives as the report's integer
  `percent`. A missing status is given as the empty string.
- `uuidv4()`: ids are modelled by a counter. Only their freshness and order matter to the model.
- Engine and model loading, PDF parsing and generation are asynchronous foreign calls. Their
  outcomes are given as parameters (`loadOk`, `load`, `extracted`, `completion`, `generation`).
  Within one call to `OnDrop` a failed store load fails every file in the batch, rather than being
  retried per file.
- `VectorStore.getInstance` is a singleton. The model passes the one store object explicitly.
- React state batching, re-renders and concurrent turns are not modelled. Each handler runs to
  completion. The `isLoading` guards are modelled on the state as the handler sees it.
- JSX rendering, `alert`, `console` output, scrolling, the minimised chat state and the preview
  modal's rendering are not modelled.
- Strings are sequences of characters, not UTF-16 code units.
- An `undefined` context is modelled as `""`. The two are treated alike by both chat hooks.
- The outer `try`/`catch` blocks of `handleSubmit` cannot be reached: search never throws and
  `onChat` catches its own errors. They are not modelled.
- `chunkText` would loop forever when `overlap` is large enough that the cursor does not move. The
  model requires `Advancing(chunkSize, overlap)`, which the store's constants 500 and 50 meet.
- An embedder call that throws is modelled as `None`. In `search` it makes the whole search
  answer no results, as the source's `catch` does. Stored chunks are embedded again on every
  search; the model does not count that cost.
- `Chunker.CutAt` and `Sidebar.ProcessFile` are loop bodies of the source lifted into methods of
  their own. `VectorStore.Store.Index` is `addDocument`'s whole id-assigning loop, lifted out of it.
- `search`'s default `limit` of 3 is not modelled: the limit is always passed, and the one caller
  passes 4.
- CosineSelf: stated only for a vector of non-zero norm, because a zero vector scores 0 against itself.
- ReplySpec: does not state that the fallback reply is trimmed. Proving that takes character
  facts about the literal that the verifier does not reach cheaply.
- SystemPromptChoice: states its facts about the prompt fields the constructor sets to the fixed
  prompts, and requires the general prompt to be the shorter one, which the constructor's values
  satisfy.
- PromptShape: states its facts about the ChatML system texts the constructor sets, not about the
  literals directly.
- HandleSubmit: states the chat's message list after the turn only as extending the history with
  the user message; the full list is `WebLLM.WebChat.OnChat`'s postcondition.
