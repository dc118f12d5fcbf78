# Chat turn controller and ingestion bookkeeping, in Dafny

This project models the two pieces of sequential logic in a retrieval-augmented
chatbot: the conversation controller of the chat page (the `Home` component of
`frontend/src/app/page.tsx`) and the dedup-and-batch step of the ingestion script
(`backend/scripts/ingestData.py`). It proves properties of both.

## The chat page

The page keeps four pieces of state: the transcript `messages`, the text box
`input`, the flag `isLoading` and the header `error`. Module `Chat` holds them in a
`ChatState` and models each command as a pure function:

- `BeginSubmit` is `handleSubmit` up to its first `await`. A whitespace-only input is a
  no-op. Otherwise the untrimmed input is appended as a user message and sent as the
  query. The text box is emptied, the loading flag is raised and the error is cleared.
- `Complete` is everything after the request settles. `handleSubmit` awaits twice,
  on `fetch` (page.tsx line 124) and on `response.json()` (line 134). The two are
  merged into one step, which is sound because nothing is written between them: the
  status check in between only decides whether the catch block runs. `Settle` covers the try and
  catch blocks: exactly one bot message is appended, either the server's `response`
  field or the fixed apology, and a failure sets the fixed connection error. `Finish`
  covers the finally block and drops the loading flag.
- `ClearChat`, `SetInput` and `PickSuggestion` are `clearChat`, the text box's
  `onChange` and `handleSuggestionClick`.
- `AutoHeight` and `RenderedHeight` are the text box's resize effect and its CSS
  bounds.

The request is not performed. Its result is an input of type `Outcome`: a response
with a status and a body, or a network error. A timestamp from `new Date()` is an
input of type `Instant`.

Two behaviours of the code are made explicit:

- The page allows only one request at a time, but not inside `handleSubmit`. The
  text box and the submit button are disabled while loading (page.tsx lines 252
  and 271). `BeginSubmit` therefore takes `!isLoading` as a precondition.
  `ChatSession.Step` drops a submit event that arrives while loading, as the
  disabled controls do.
- The bot reply is appended with the functional update `prev => [...prev, m]`. A
  reply that arrives after "clear chat" is therefore appended to the emptied
  transcript, which then opens with an answer to a question it no longer shows
  (`Chat.StaleReplyAfterClear`). Module `ChatSession` adds an epoch counter that the
  page does not have. Every clear advances the epoch, and a reply from an earlier
  epoch is discarded. This is a strengthening beyond the code, listed under Findings.

`ChatSession` also drives the page by events (typing, the clear-input button,
suggestion clicks, submit, request settled, clear chat). Each event is subject to the
page's enabling rules. Its invariant `Consistent` holds after every run of events: the
loading flag is up exactly while a request is outstanding, and user and bot messages
alternate. A user message is never blank. The transcript ends in an unanswered
question exactly while the current epoch's request is outstanding.

A 2xx reply whose JSON object has no `response` field is not treated as a failure.
The page reads `data.response` without checking it, so the bot message's text is
`undefined`. The model follows the page: message text is an `Option<string>`, and
`None` stands for `undefined`. A body on which reading `.response` throws is a
failure: one that is not JSON, so that `response.json()` throws, and the JSON value
`null`, for which `data.response` throws a `TypeError`. Both are the `Unreadable`
body.

## The ingestion script

Module `Ingest` takes three inputs: the extracted text, the splitter's chunks and the
set of ids already in the vector store. From them it computes what the script sends
to the embedder and to `collection.add`:

- `CheckText` raises when the text is blank under Python's `str.strip`.
- `DocId` and `DocIds` name chunk `i` `doc_<i>`. Its decimal rendering is in module
  `Decimal`, with a round trip that makes the ids distinct.
- `Kept`, `NewChunks` and `NewIds` are the two filtering comprehensions. Both keep
  the same positions, in order.
- `PlanBatches` is the loop over `range(0, len(new_chunks), 100)`.
- `Ingest` is the whole step.

Ids are positional and count from 0. A stored `doc_5` causes the sixth chunk to be
skipped even if its text has changed since the earlier run. The model keeps that behaviour.

## Model

| member | source | states |
|---|---|---|
| `Text.TrimEmptyIffBlank` | frontend/src/app/page.tsx:114 | `trim()` (and `strip()`) yields the empty string exactly when every character of the input is whitespace of that runtime |
| `Text.LeadingSpace` | backend/scripts/ingestData.py:40 | the count of leading characters removed is the longest run of whitespace at the start: all of them are whitespace and the next character, if any, is not |
| `Text.TrailingSpace` | backend/scripts/ingestData.py:40 | the count of trailing characters removed is the longest run of whitespace at the end: all of them are whitespace and the character before them, if any, is not |
| `Text.Trim` | frontend/src/app/page.tsx:114 | `trim()` / `strip()` is no longer than its input and, when non-empty, begins and ends with a non-whitespace character |
| `Text.TrimIsSlice` | backend/scripts/ingestData.py:40 | the trimmed string is the contiguous slice of the input between its whitespace prefix and its whitespace suffix |
| `Text.TrimRemovesOnlySpace` | frontend/src/app/page.tsx:114 | everything `trim()` removes, before and after the slice it keeps, is whitespace |
| `Chat.BeginSubmit` | frontend/src/app/page.tsx:112-127 | with the page not loading: a blank input leaves the state unchanged and sends nothing; otherwise exactly one user message holding the untrimmed input is appended after the unchanged earlier messages, the input is emptied, loading is raised, the error is cleared, and the query is that same untrimmed text |
| `Chat.Reply` | frontend/src/app/page.tsx:135-145 | the bot message is a non-user message stamped now; its text is the `response` field when the try block runs to its end (absent field: `undefined`), and the fixed apology otherwise |
| `Chat.Settle` | frontend/src/app/page.tsx:130-146 | exactly one bot message is appended after the unchanged transcript: the `response` field when the try block runs to its end (the request, the status check, `response.json()` and the read of `data.response` all succeed), the fixed apology otherwise, a JSON `null` body included; a failure sets the fixed connection error and a success leaves the error alone |
| `Chat.Finish` | frontend/src/app/page.tsx:147-149 | the loading flag is down whatever the outcome; transcript, input and error are kept |
| `Chat.Complete` | frontend/src/app/page.tsx:122-149 | a settled request appends exactly one non-user message (the reply or the apology) to the unchanged transcript, sets the error exactly on failure, and ends with loading down |
| `Chat.ClearChat` | frontend/src/app/page.tsx:152-155 | the transcript is empty and the error is null; the input box and the loading flag are untouched |
| `Chat.SetInput` | frontend/src/app/page.tsx:244 | editing the text box changes the input only |
| `Chat.PickSuggestion` | frontend/src/app/page.tsx:107-110 | a suggestion becomes the input; transcript, loading flag and error are unchanged and nothing is sent |
| `Chat.PickThenSubmit` | frontend/src/app/page.tsx:107-117 | after a suggestion is picked, a submit sends that suggestion verbatim and appends it as the only new user message, unless it is blank |
| `Chat.SubmitEnabledIffSends` | frontend/src/app/page.tsx:271 | the submit button is enabled exactly when the page is not loading and submitting would send a request |
| `Chat.AcceptedTurn` | frontend/src/app/page.tsx:112-149 | an accepted turn adds exactly the user message and then exactly one bot reply to the unchanged transcript, sends the untrimmed input, and ends with loading down, the input empty and the error null exactly on success |
| `Chat.StaleReplyAfterClear` | frontend/src/app/page.tsx:136 | as written, a turn cleared while in flight still appends its reply, so the cleared transcript consists of one bot message |
| `Chat.AutoHeight` | frontend/src/app/page.tsx:100-105 | the written height is the content height capped at 120 pixels |
| `Chat.RenderedHeightIsNearestFit` | frontend/src/app/page.tsx:255 | the rendered height lies between 50 and 120 pixels and is the admissible height nearest to the content height |
| `ChatSession.Begin` | frontend/src/app/page.tsx:112-127 | the page's `BeginSubmit`, with the request tagged by the current epoch exactly when one is sent |
| `ChatSession.Resolve` | frontend/src/app/page.tsx:134-149 | a reply from the current epoch is applied as the page applies it; a reply from an earlier epoch leaves transcript, input and error alone; either way loading ends and nothing is outstanding |
| `ChatSession.Clear` | frontend/src/app/page.tsx:152-155 | the page's `clearChat`, which also advances the epoch so an outstanding reply becomes stale |
| `ChatSession.Step` | frontend/src/app/page.tsx:187-271 | under the page's enabling rules (clear-chat button only with messages, line 187; suggestions only on an empty transcript, lines 206-207; text box and submit button disabled while loading, lines 252 and 271; clear-input button never disabled, line 257): a submit sends a request exactly when the submit button is enabled, tagged with the current epoch; only a clear of a non-empty transcript advances the epoch, by one; only a settling request ends loading; only submit, settle and clear change the transcript; while loading only the clear-input button or a suggestion on an emptied transcript changes the input |
| `ChatSession.StartConsistent` | frontend/src/app/page.tsx:83-86 | the mount state satisfies the controller invariant |
| `ChatSession.StepKeepsConsistent` | frontend/src/app/page.tsx:187-271 | every user or network event, under the page's enabling rules, keeps the invariant: loading exactly while a request is outstanding, alternating user/bot messages, non-blank user messages, a trailing question exactly while the current epoch's request is outstanding |
| `ChatSession.RunKeepsConsistent` | frontend/src/app/page.tsx:112-155 | every sequence of events preserves the invariant |
| `ChatSession.IdleTranscriptIsAnswered` | frontend/src/app/page.tsx:147-149 | from mount, whenever nothing is loading, every question in the transcript is followed by exactly one answer |
| `ChatSession.StaleReplyDiscarded` | frontend/src/app/page.tsx:152-155 | a reply from before the latest clear leaves transcript and error unchanged and ends loading |
| `ChatSession.SecondSubmitDropped` | frontend/src/app/page.tsx:269-271 | while a turn is in flight a submit changes nothing: no message, no request |
| `ChatSession.ClearThenReplyStaysEmpty` | frontend/src/app/page.tsx:136-155 | submit, clear, then the reply arrives: the transcript stays empty |
| `Ingest.CheckText` | backend/scripts/ingestData.py:40-41 | ingestion fails exactly when the extracted text is all Python whitespace, and otherwise passes the text on unchanged |
| `Decimal.Render` | backend/scripts/ingestData.py:59 | the rendering of `i` is a non-empty string of decimal digits with no leading zero (a single digit exactly for `i < 10`) |
| `Decimal.ValueOfRender` | backend/scripts/ingestData.py:59 | reading back the decimal rendering of `i` gives `i` |
| `Decimal.RenderInjective` | backend/scripts/ingestData.py:59 | distinct numbers render to distinct strings |
| `Ingest.DocId` | backend/scripts/ingestData.py:59 | the id of position `i` is the prefix `doc_` followed by a non-empty string of decimal digits |
| `Ingest.DocIdReadsBack` | backend/scripts/ingestData.py:59 | the digits after `doc_` in the id of position `i`, read as a decimal number, are `i` |
| `Ingest.DocIdInjective` | backend/scripts/ingestData.py:59 | different positions get different ids |
| `Ingest.DocIds` | backend/scripts/ingestData.py:59 | one id per chunk, the `i`-th being `doc_<i>` |
| `Ingest.DocIdsDistinct` | backend/scripts/ingestData.py:59 | no two chunks share an id |
| `Ingest.Kept` | backend/scripts/ingestData.py:63-64 | the kept positions are increasing, in range, and are exactly the positions whose id is not stored |
| `Ingest.NewIds` | backend/scripts/ingestData.py:64 | the new ids are exactly the ids at the kept positions, in order |
| `Ingest.NewChunks` | backend/scripts/ingestData.py:63 | the new chunks are exactly the chunks at the kept positions, in order, each chunk tested by the id at its own position |
| `Ingest.Aligned` | backend/scripts/ingestData.py:63-64 | with one id per chunk, the new chunks and the new ids have the same length and the `k`-th new id belongs to the `k`-th new chunk |
| `Ingest.NewIdsMembers` | backend/scripts/ingestData.py:64 | an id is new exactly when it is among the ids and not stored |
| `Ingest.Slice` | backend/scripts/ingestData.py:71-72 | Python slicing with clamped bounds: the length and the elements of `s[i:j]` |
| `Ingest.PlanBatches` | backend/scripts/ingestData.py:69-72 | there are `ceil(n/100)` batches; batch `b` starts at `100*b`, holds between 1 and 100 chunks and the matching ids; the batches concatenate back to the new chunks (and, with aligned lengths, to the new ids) with nothing lost or duplicated |
| `Ingest.BatchesAligned` | backend/scripts/ingestData.py:71-72 | inside every batch the `j`-th id is the id of the `j`-th chunk, both from the same original chunk position |
| `Ingest.NothingNewIffAllStored` | backend/scripts/ingestData.py:62-66 | no position is kept exactly when every chunk's id is already stored |
| `Ingest.Ingest` | backend/scripts/ingestData.py:40-88 | a blank extraction fails; otherwise no batch is sent exactly when every id is stored, batch `b` starts at `100*b` and holds between 1 and 100 chunks, the batches concatenate to the new chunks and the new ids, and each batch pairs every chunk with its own id |
| `Ingest.RerunAddsNothing` | backend/scripts/ingestData.py:62-66 | after the new ids are stored every position's id is stored, and a second run over the same chunks finds nothing new |

## Findings

| source | as written | input that shows it | evidently intended | confidence | as-written member | corrected member |
|---|---|---|---|---|---|---|
| frontend/src/app/page.tsx:136 | the reply is appended with `prev => [...prev, m]` to whatever transcript is current, including one cleared while the request was in flight (the apology at line 146 likewise) | type `hi`, submit, press clear chat before the reply arrives, let the reply arrive: the transcript is one bot message answering nothing | a reply from before a clear is discarded | medium (a design choice the code does not make explicit); not executed | `Chat.StaleReplyAfterClear` | `ChatSession.Resolve` |

## Left out

- Chat.BeginSubmit: requires `!isLoading`, which `handleSubmit` does not test itself; the page keeps the guard in the disabled text box and submit button (page.tsx lines 252 and 271), and `ChatSession.Step` models those controls.
- The request itself (`fetch`, the `NEXT_PUBLIC_API_URL` setting, the JSON encoding of the body) is a foreign call; its result is the `Outcome` input and the query is returned as a string.
- `new Date()` is an `Instant` input; the controller never reads a timestamp.
- A `response` field that is JSON but not a string is not modelled; the backend always sends a string.
- React's scheduling is not modelled: each half of `handleSubmit` is applied as one step, as React batches the updates made between two awaits.
- `console.error`, scroll-into-view, focusing the text box, and all markup and styling are side effects with no state the controller reads.
- The message renderer, the clipboard button, the static suggestion list, the page layout, the backend query service and the PDF downloader are not part of this model.
- In the ingestion script: loading the environment and the API-key check, PDF reading, the text splitter, the embedding call, `collection.get`, `collection.add`, `collection.count` and the progress prints are foreign calls or I/O. The chunks and the set of stored ids are inputs.
- Ingest.Ingest: returns every planned batch; in the script an exception from `genai.embed_content` or `collection.add` (ingestData.py lines 75-85) aborts the remaining batches, after the earlier ones were stored. Those calls are not modelled, so neither is their failure.
- `collection.get(ids=doc_ids)['ids']` is modelled as a set of stored ids: the script only tests membership, so the order of that list does not matter.
- Ingest.NewChunks: requires at least as many ids as chunks; the comprehension would raise `IndexError` otherwise, which cannot happen because the ids are built from the chunk count.
