# Medical AI Assistant — a verified model of its core

The Medical AI Assistant is a chat page backed by a retrieval-augmented
answering service, plus a dashboard of maps of Tunisian doctors. This
project models its core logic in Dafny and proves what that logic promises.

- **Backend conversation memory and event stream** (`api_server.dfy`,
  module `ApiServer`). Each session keeps its twenty most recent messages.
  A chat request reads the last five of them as a history text, asks the
  retrieval chain, stores the question and the answer, and streams the
  answer back as one `data: {"text": c}` event per character. A failure of
  the chain becomes a single error event. A session can be cleared.
- **Client session store** (`app_store.dfy`, module `AppStore`): the five
  slices with their setters.
- **Client chat exchange** (`chat_stream.dfy`, module `ChatStream`). The
  exchange appends the user's message and raises the streaming flag. It
  then posts the request and decodes the body chunk by chunk and line by
  line, publishing each fragment to a live buffer. It settles with exactly
  one assistant message, either the answer or a connection-error text. On
  success it recommends the first three sample doctors. The flag is
  lowered on every path.
- **The stream between the two** (`stream_round_trip.dfy`, module
  `StreamRoundTrip`). When the transport cuts the stream only between
  events, the client decodes what the backend encoded back to the answer.
  A retrieval failure reaches the client as an ordinary answer.
- **Chat input box** (`chat_input.dfy`, module `ChatInput`): submit sends
  the trimmed text and empties the field, unless the text is blank or the
  box is disabled.
- **Dashboard CSV reading** (`dashboard_csv.dfy`, module `DashboardCsv`).
  The three maps share it: drop the header, skip blank lines, split each
  line into tokens, strip quotes, read fields by token position, and keep
  a row only when both coordinates are non-zero. This module also holds
  the governorate (last word of the address), the two-test filter and the
  sorted option lists.
- **The three maps**:
  - `doctors_map.dfy` is the profile map: options and filtering.
  - `doctors_cluster_map.dfy` is the cluster map: first-fit clustering with
    re-averaged centres, and circle size and colour by count.
  - `doctors_interactive_map.dfy` is the interactive map: loading with an
    error path, marker filtering and count, options ranked by frequency
    with the key order of `Object.entries`, and the working-hours popup.
- **Support modules**:
  - `strings.dfy` holds JavaScript `trim`, `split`, `join`, `includes`,
    Python `str.title` and decimal rendering.
  - `seqs.dfy` holds `filter`, distinct values and a stable sort by key.
  - `string_order.dfy` holds the default `Array.prototype.sort` order on
    strings (UTF-16 code units).
  - `types.dfy` holds the value types and the six sample doctors.
  - `wrappers.dfy` holds `Option` and `Result`.

Collaborators the code cannot see are parameters of the members that use
them:
- the retrieval chain `rag`, which returns `Ok(Some(text))`, `Ok(None)` for a reply without text, or `Err(message)`;
- `json.dumps({'text': s})` as `encode`;
- `JSON.parse(payload).text` as `parse`, with `None` when it throws;
- the network `fetch`, which maps the request to its outcome;
- the CSV tokenizer regex as `tokenize`;
- `parseFloat` as `parseNumber`, with `None` for `NaN`;
- the clock values (ids and dates), which are opaque.

## Model

| member | source | states |
|---|---|---|
| ApiServer.ConversationMemory.constructor | backend/api_server.py:44 | memory starts with no sessions |
| ApiServer.ConversationMemory.GetConversationHistory | backend/api_server.py:46-57 | an unknown session reads "No previous conversation"; a known one reads its last `limit` entries, formatted; memory is not changed |
| ApiServer.PythonTail | backend/api_server.py:53 | `history[-limit:]` for every integer: a suffix of the history; the last `limit` entries for a positive limit, all entries for 0, all but the first `-limit` for a negative limit |
| ApiServer.ZeroLimitReadsAll | backend/api_server.py:53 | a limit of 0 reads the whole stored history, not none of it |
| ApiServer.FormatHistoryIsJoin | backend/api_server.py:54-57 | the history text is the entry lines `Role: content` joined by a blank line, one line per entry, in order |
| ApiServer.HistoryLinesOfRoles | backend/api_server.py:55 | the stored roles `user` and `assistant` title-case to `User` and `Assistant` |
| ApiServer.ConversationMemory.AddToMemory | backend/api_server.py:59-73 | memory afterwards is the old memory with this session (created empty if unseen) extended by the entry and cut to its last 20; bounded memory stays bounded |
| ApiServer.AddedFrame | backend/api_server.py:59-73 | adding an entry creates or changes only its own session; every other session is unchanged and no session disappears |
| ApiServer.AddedLast | backend/api_server.py:66-73 | after adding, the session holds 1 to 20 entries and its last entry is the one just added |
| ApiServer.AddedKeepsMostRecent | backend/api_server.py:66-73 | the session keeps the most recent entries in order: the old ones plus the new one, less as many of the oldest as exceed 20 |
| ApiServer.AddedToShort | backend/api_server.py:63-69 | a session below the limit (or an unseen one) simply gains the entry at its end |
| ApiServer.AddedBounded | backend/api_server.py:71-73 | if every session held 1 to 20 entries, that stays true after adding |
| ApiServer.Truncate | backend/api_server.py:72-73 | the truncated history has min(n, 20) entries |
| ApiServer.ConversationMemory.ClearMemory | backend/api_server.py:267-273 | exactly the named session is removed; the reply says whether it existed |
| ApiServer.ClearAfterAdd | backend/api_server.py:267-273 | a session just written to exists, and once cleared its history reads "No previous conversation" |
| ApiServer.ConversationMemory.ChatStream | backend/api_server.py:222-248 | reads the history with limit 5 and asks the retrieval chain; on an answer memory gains the question then the answer, and the events are the answer's per-character stream; on a reply without text (`response.text` is `None`, line 151) memory gains the question then an assistant entry reading `None`, and one `Error: 'NoneType' object is not iterable` event is sent; when the chain raises, memory is unchanged and one `Error: <message>` event is sent |
| ApiServer.HistoryAfterExchange | backend/api_server.py:225-238 | after one successful exchange on a new session, the next request's history is `User: <question>`, a blank line, then `Assistant: <answer>` |
| ApiServer.Generate | backend/api_server.py:241-242 | the loop yields one event per character of the answer, in order |
| ApiServer.EncodeStream | backend/api_server.py:241-242 | as many events as characters; event k carries character k |
| AppStore.Store.constructor | src/store/useAppStore.ts:29-53 | initial state: Tunis as location, no doctors, nothing selected, no messages, not streaming |
| AppStore.Store.SetUserLocation | src/store/useAppStore.ts:31 | replaces only the location |
| AppStore.Store.SetRecommendedDoctors | src/store/useAppStore.ts:35 | replaces only the recommended doctors |
| AppStore.Store.AddRecommendedDoctors | src/store/useAppStore.ts:36-39 | appends the doctors after the current ones, with no deduplication; the other slices are unchanged |
| AppStore.Store.SetSelectedDoctor | src/store/useAppStore.ts:43 | replaces only the selection; membership in the list is not required |
| AppStore.Store.AddMessage | src/store/useAppStore.ts:47-48 | appends exactly one message at the end; the earlier messages and the other slices are unchanged |
| AppStore.Store.ClearMessages | src/store/useAppStore.ts:49 | empties only the messages |
| AppStore.Store.SetIsStreaming | src/store/useAppStore.ts:53 | replaces only the streaming flag |
| ChatStream.LinePayload | src/features/chat/useChatStream.ts:64-66 | a line has a payload exactly when it starts with `data: `, and the line is that prefix followed by the payload |
| ChatStream.LinesWithoutPrefixIgnored | src/features/chat/useChatStream.ts:63-64 | lines that do not start with `data: ` add nothing to the response |
| ChatStream.MalformedLineSkipped | src/features/chat/useChatStream.ts:65-71 | a `data: ` line whose payload does not parse is skipped; the lines before and after it still count |
| ChatStream.LineFragmentsAppend | src/features/chat/useChatStream.ts:63-73 | the fragments of two runs of lines are the fragments of each, in order |
| ChatStream.BodyFragmentsAppend | src/features/chat/useChatStream.ts:56-74 | the fragments of two runs of chunks are the fragments of each, in order |
| ChatStream.TwoChunks | src/features/chat/useChatStream.ts:56-74 | two one-event chunks decode to their two texts, concatenated in order |
| ChatStream.OneLineChunk | src/features/chat/useChatStream.ts:60-68 | a chunk holding one `data: ` line and its line break yields that payload's text |
| ChatStream.SplitEventNotReassembled | src/features/chat/useChatStream.ts:60-66 | each chunk is split on its own: an event cut inside its payload yields at most the parse of the payload's head, and the rest of the line is dropped |
| ChatStream.ChatHook.ReadChunk | src/features/chat/useChatStream.ts:60-73 | after one chunk the running response is the concatenation of all fragments so far; each fragment was published to the live buffer as the running text at that point |
| ChatStream.ChatHook.ReadBody | src/features/chat/useChatStream.ts:53-75 | the full response is the decoded text of all chunks; the live buffer ends holding it and shows every prefix of fragments along the way |
| ChatStream.Settle | src/features/chat/useChatStream.ts:47-101 | the exchange answers exactly when the request resolved with a 2xx status and the body, if any, was read to its end; an answer's content is the concatenation of the fragments read |
| ChatStream.Recommended | src/features/chat/useChatStream.ts:87-89 | three doctors on an answer and none on a failure, always a prefix of the sample list |
| ChatStream.NotOkFails | src/features/chat/useChatStream.ts:47-101 | a non-2xx status fails; the reply is the connection-error template followed by `HTTP error! status: ` and the status in decimal, and no doctors are recommended |
| ChatStream.RejectedFails | src/features/chat/useChatStream.ts:28-101 | a rejected request fails; the reply is the connection-error template followed by the rejection's message, and no doctors are recommended |
| ChatStream.ReadFailureFails | src/features/chat/useChatStream.ts:55-101 | a read of an ok body that fails ends the exchange; the reply is the connection-error template followed by the read error's message, and no doctors are recommended |
| ChatStream.OkBodyAnswers | src/features/chat/useChatStream.ts:77-89 | an ok body read to its end settles with exactly the concatenated fragments, and three doctors are recommended |
| ChatStream.ChatHook.Transfer | src/features/chat/useChatStream.ts:28-75 | a rejection, a non-ok status or a failed read reports that error; otherwise the response is the decoded body (empty when there is no body); the published fragments are those read |
| ChatStream.ChatHook.Conclude | src/features/chat/useChatStream.ts:77-101 | exactly one assistant message is added: the answer, or the connection-error template followed by the error text; the first three sample doctors are added on success only; the live buffer is cleared |
| ChatStream.ChatHook.Begin | src/features/chat/useChatStream.ts:16-26 | before the request the store holds the old messages plus the user's message, streaming is on, the live buffer is empty, and no other slice changes |
| ChatStream.ChatHook.SendMessage | src/features/chat/useChatStream.ts:13-104 | the request carries the message and the history before this turn; at the moment of the request the store already holds the user's message, streaming is on and the live buffer is empty; afterwards the store has gained exactly one settling assistant message; doctors are added on success only; streaming is off again; no other slice changes |
| ChatStream.HistoryOf | src/features/chat/useChatStream.ts:38-41 | the history sent has one `{role, content}` pair per message, in order |
| StreamRoundTrip.StreamChunkFragments | backend/api_server.py:241-242 | the events of a text, read as one chunk, decode to its characters, one fragment per character |
| StreamRoundTrip.StreamRoundTrip | src/features/chat/useChatStream.ts:56-75 | an answer cut into pieces, each piece's events arriving as one chunk, decodes to the whole answer |
| StreamRoundTrip.WholeStreamRoundTrip | backend/api_server.py:241-242 | the whole answer's events read as one chunk decode to the answer unchanged |
| StreamRoundTrip.SingleEventBody | backend/api_server.py:248 | a body of one event decodes to that event's parsed payload |
| StreamRoundTrip.BackendErrorIsAnswered | backend/api_server.py:245-248 | a retrieval failure arrives as a 200 response whose event decodes to `Error: <message>`; the client shows it as the answer and still recommends three doctors |
| StreamRoundTrip.SplitEvent | backend/api_server.py:242 | an event followed by more text splits into its data line, an empty line, then the lines of the rest |
| StreamRoundTrip.ConcatChars | src/features/chat/useChatStream.ts:67 | accumulating the one-character fragments rebuilds the text |
| ChatInput.InputBox.constructor | src/features/chat/ChatInput.tsx:12 | the field starts empty |
| ChatInput.InputBox.SetInput | src/features/chat/ChatInput.tsx:26-27 | typing replaces the field's content |
| ChatInput.InputBox.HandleSubmit | src/features/chat/ChatInput.tsx:14-20 | something is sent exactly when the trimmed text is non-empty and the box is enabled; what is sent is the trimmed text and the field is emptied; otherwise the field is unchanged |
| ChatInput.InputBox.SubmitDisabled | src/features/chat/ChatInput.tsx:32 | the button is off exactly when submitting would send nothing |
| ChatInput.SentTextIsTrimmed | src/features/chat/ChatInput.tsx:17 | sent text is never blank, has no white space at either end, and trimming it again changes nothing |
| ChatInput.BlankNeverSent | src/features/chat/ChatInput.tsx:16 | an enabled box refuses a text exactly when it is all white space |
| Strings.Trim | src/features/chat/ChatInput.tsx:16-17 | the result is the input less its leading and trailing ECMAScript white space; neither end of the result is white space; it is empty exactly when the input is all white space |
| Strings.TrimIdempotent | src/features/chat/ChatInput.tsx:17 | trimming twice is trimming once |
| Strings.Split | src/features/dashboard/DoctorsMap.tsx:41 | at least one piece; no piece holds the separator; a text without the separator is one piece |
| Strings.SplitJoin | src/features/dashboard/DoctorsMap.tsx:41 | joining the pieces with the separator gives the text back |
| Strings.NatToString | src/features/chat/useChatStream.ts:48 | the status in the error text is a non-empty string of digits without a leading zero |
| Strings.NatToStringValue | src/features/chat/useChatStream.ts:48 | reading the rendered status back gives the number |
| Strings.CanonicalDecimal | src/features/dashboard/DoctorsInteractiveMap.tsx:289-297 | a digit string without a leading zero is the rendering of its own value |
| Strings.TitleIdempotent | backend/api_server.py:55 | title-casing twice is title-casing once |
| Strings.TitleOfLowerWord | backend/api_server.py:55 | a lower-case word is title-cased by upper-casing its first letter |
| Strings.TitleOfUser | backend/api_server.py:55 | `"user".title()` is `User` |
| Strings.TitleOfAssistant | backend/api_server.py:55 | `"assistant".title()` is `Assistant` |
| Seqs.FilterSpec | src/features/dashboard/DoctorsMap.tsx:82-86 | a filter keeps exactly the elements passing the test, in their original order |
| Seqs.FilterComplement | src/features/dashboard/DoctorsMap.tsx:82-86 | a filter and its complement together hold every element once |
| Seqs.Distinct | src/features/dashboard/DoctorsMap.tsx:75 | `new Set` keeps each value once and no other value |
| Seqs.SortBySpec | src/features/dashboard/DoctorsInteractiveMap.tsx:295-296 | the sort by key is ordered by key and is a permutation of its input |
| Seqs.SortByStable | src/features/dashboard/DoctorsInteractiveMap.tsx:295-296 | the sort is stable: each group of equal keys keeps its relative order |
| StringOrder.SortSpec | src/features/dashboard/DoctorsMap.tsx:75 | the default string sort yields a permutation sorted by UTF-16 code units |
| StringOrder.LexLeTotal | src/features/dashboard/DoctorsMap.tsx:75 | any two strings are comparable under code-unit order |
| StringOrder.LexLeTransitive | src/features/dashboard/DoctorsMap.tsx:75 | code-unit order is transitive |
| DashboardCsv.DataLinesSpec | src/features/dashboard/DoctorsMap.tsx:41-45 | the data lines are exactly the non-blank lines after the first, in file order |
| DashboardCsv.HeaderDropped | src/features/dashboard/DoctorsMap.tsx:41-45 | whatever the header holds, it is dropped, and the body's blank lines are skipped |
| DashboardCsv.StripQuotes | src/features/dashboard/DoctorsMap.tsx:49 | removes one leading quote if present, then exactly one trailing quote when one remains: the result is the value with those characters cut and nothing else |
| DashboardCsv.StripQuotedToken | src/features/dashboard/DoctorsMap.tsx:49 | a quoted token loses exactly its two quotes |
| DashboardCsv.StripUnquotedToken | src/features/dashboard/DoctorsMap.tsx:49 | a token without quotes is unchanged |
| DashboardCsv.CleanValues | src/features/dashboard/DoctorsMap.tsx:48-49 | one cleaned value per token, in token order |
| DashboardCsv.ProfileRow | src/features/dashboard/DoctorsMap.tsx:47-62 | fields missing from a short line read as `""` or 0 (name past one token, specialty past two, address past five, the coordinates past six and seven, the hours past nine); specialty and address are tokens 2 and 5 with quotes stripped and trimmed |
| DashboardCsv.ProfileRows | src/features/dashboard/DoctorsMap.tsx:44-62 | one record per data line, in order, built from that line's tokens |
| DashboardCsv.ProfileDoctors | src/features/dashboard/DoctorsMap.tsx:63 | every loaded doctor has both coordinates non-zero, and no more doctors than data lines |
| DashboardCsv.ProfileDoctorsSpec | src/features/dashboard/DoctorsMap.tsx:44-63 | the loaded doctors are exactly the records with both coordinates non-zero, in file order |
| DashboardCsv.ShortRowDropped | src/features/dashboard/DoctorsMap.tsx:57-63 | a line with fewer than eight tokens has no `y` and is never loaded |
| DashboardCsv.Governorate | src/features/dashboard/DoctorsMap.tsx:76-79 | the governorate is the address's suffix after its last space (the whole address when there is none), and holds no space |
| DashboardCsv.GovernorateEdgeCases | src/features/dashboard/DoctorsMap.tsx:77-78 | an address without a space is its own governorate; one ending in a space has the empty governorate |
| DashboardCsv.OwnSelectionMatches | src/features/dashboard/DoctorsMap.tsx:82-86 | selecting a doctor's own specialty and governorate keeps that doctor |
| DashboardCsv.Specialties | src/features/dashboard/DoctorsMap.tsx:75 | one specialty per doctor, in list order (the interactive map reads the same projection through the profile fields) |
| DashboardCsv.Governorates | src/features/dashboard/DoctorsMap.tsx:76-79 | one governorate per doctor, the last word of its address, in list order |
| DashboardCsv.SortedOptionsSpec | src/features/dashboard/DoctorsMap.tsx:75-79 | the options are sorted, hold `all` and every value once and nothing else (a value equal to `all` adds a second `all`) |
| DashboardCsv.AllNotAlwaysFirst | src/features/dashboard/DoctorsMap.tsx:75 | `all` is sorted like any other value, so a value whose first code unit is below `a` comes before it |
| DoctorsMap.FilteredDoctorsSpec | src/features/dashboard/DoctorsMap.tsx:82-86 | the shown doctors are exactly those passing both tests, in list order, so the shown count never exceeds the total |
| DoctorsMap.AllShowsEverything | src/features/dashboard/DoctorsMap.tsx:82-86 | with both selections at `all` every doctor is shown |
| DoctorsMap.SpecialtyOptionsSpec | src/features/dashboard/DoctorsMap.tsx:75 | the specialty options are sorted and offer `all` and exactly the specialties present |
| DoctorsMap.GovernorateOptionsSpec | src/features/dashboard/DoctorsMap.tsx:76-79 | the governorate options are sorted and offer `all` and exactly the governorates present |
| DoctorsMap.OwnGovernorateShown | src/features/dashboard/DoctorsMap.tsx:84 | choosing a doctor's governorate from the list always shows that doctor |
| DoctorsClusterMap.SpecialtyFilteredSpec | src/features/dashboard/DoctorsClusterMap.tsx:82-84 | clustering sees exactly the doctors of the selected specialty (all of them for `all`), in list order |
| DoctorsClusterMap.AllSpecialtiesKeepsEverything | src/features/dashboard/DoctorsClusterMap.tsx:82-84 | `all` keeps every doctor |
| DoctorsClusterMap.Admit | src/features/dashboard/DoctorsClusterMap.tsx:90-108 | admitting a doctor adds at most one cluster and leaves every cluster other than the first fit as it was |
| DoctorsClusterMap.ClusterAll | src/features/dashboard/DoctorsClusterMap.tsx:89-109 | never more clusters than doctors, and at least one cluster when there is a doctor |
| DoctorsClusterMap.FirstFit | src/features/dashboard/DoctorsClusterMap.tsx:90-93 | the chosen cluster is near the doctor on both axes and no earlier cluster is; `None` means no cluster is near |
| DoctorsClusterMap.BuildClusters | src/features/dashboard/DoctorsClusterMap.tsx:87-109 | the loop builds the clusters of admitting the doctors one after another |
| DoctorsClusterMap.ClusterAllWellFormed | src/features/dashboard/DoctorsClusterMap.tsx:95-107 | every cluster has at least one member, its count is its number of members, and its centre is their mean |
| DoctorsClusterMap.ClusterAllPartition | src/features/dashboard/DoctorsClusterMap.tsx:89-109 | each doctor lands in exactly one cluster, and each cluster's members are exactly the doctors put in it, in list order |
| DoctorsClusterMap.ClusterAllCounts | src/features/dashboard/DoctorsClusterMap.tsx:196 | the counts add up to the number of doctors clustered, so there are never more clusters than doctors |
| DoctorsClusterMap.MergeTwo | src/features/dashboard/DoctorsClusterMap.tsx:89-109 | two doctors within the radius on both axes form one cluster of two at their midpoint |
| DoctorsClusterMap.MergeThenSplit | src/features/dashboard/DoctorsClusterMap.tsx:89-109 | after such a merge, a third doctor not within the radius of the midpoint starts a second cluster |
| DoctorsClusterMap.BucketRanges | src/features/dashboard/DoctorsClusterMap.tsx:112-127 | for positive counts the five buckets are 1, 2–4, 5–9, 10–19 and 20 or more |
| DoctorsClusterMap.GetRadius | src/features/dashboard/DoctorsClusterMap.tsx:112-118 | the radius is 5, 8, 12, 16 or 20 exactly when the count falls in the first to fifth range |
| DoctorsClusterMap.GetColor | src/features/dashboard/DoctorsClusterMap.tsx:121-127 | the colour is blue, green, amber, red or dark red exactly when the count falls in the first to fifth range |
| DoctorsClusterMap.RadiusMonotone | src/features/dashboard/DoctorsClusterMap.tsx:112-118 | a larger cluster is never drawn smaller |
| DoctorsClusterMap.ColorFollowsRadius | src/features/dashboard/DoctorsClusterMap.tsx:112-127 | two counts share a colour exactly when they share a radius |
| DoctorsInteractiveMap.InteractiveRow | src/features/dashboard/DoctorsInteractiveMap.tsx:64-81 | the link is token 0, empty when the line has no token, and the fields shared with the profile map are exactly the profile map's record of the same line |
| DoctorsInteractiveMap.InteractiveRowDays | src/features/dashboard/DoctorsInteractiveMap.tsx:74-80 | Monday to Sunday are tokens 9 to 15 with quotes stripped and trimmed, each empty when the line is shorter |
| DoctorsInteractiveMap.InteractiveRows | src/features/dashboard/DoctorsInteractiveMap.tsx:56-82 | one record per data line, in order |
| DoctorsInteractiveMap.InteractiveDoctorsSpec | src/features/dashboard/DoctorsInteractiveMap.tsx:56-83 | a record is loaded exactly when both coordinates are non-zero, in file order |
| DoctorsInteractiveMap.SameDoctorsAsProfileMap | src/features/dashboard/DoctorsInteractiveMap.tsx:56-83 | from the same file, the interactive map and the profile map load the same doctors in the same order |
| DoctorsInteractiveMap.InteractiveMap.constructor | src/features/dashboard/DoctorsInteractiveMap.tsx:33-35 | the page starts with no doctors, loading, and no error |
| DoctorsInteractiveMap.InteractiveMap.Load | src/features/dashboard/DoctorsInteractiveMap.tsx:50-93 | an ok response's text replaces the doctors; a rejection or a non-ok status sets "Failed to load doctor data" and keeps the doctors; loading ends either way |
| DoctorsInteractiveMap.FilteredCountIsMarkers | src/features/dashboard/DoctorsInteractiveMap.tsx:321-325 | the count in the header is the number of markers drawn |
| DoctorsInteractiveMap.Frequencies | src/features/dashboard/DoctorsInteractiveMap.tsx:289-292 | the dictionary holds exactly the keys present, each with its number of occurrences |
| DoctorsInteractiveMap.CountFrequencies | src/features/dashboard/DoctorsInteractiveMap.tsx:289-292 | the loop computes the frequencies and the order in which keys were first inserted |
| DoctorsInteractiveMap.EntriesOrder | src/features/dashboard/DoctorsInteractiveMap.tsx:295 | `Object.entries` lists each inserted key exactly as often as it was inserted: the order is a permutation |
| DoctorsInteractiveMap.EntriesOrderIndicesFirst | src/features/dashboard/DoctorsInteractiveMap.tsx:295 | array-index keys are listed first, in ascending numeric order |
| DoctorsInteractiveMap.EntriesOrderKeepsOthers | src/features/dashboard/DoctorsInteractiveMap.tsx:295 | the other keys follow in insertion order |
| DoctorsInteractiveMap.EntriesOrderPlainKeys | src/features/dashboard/DoctorsInteractiveMap.tsx:295 | when no key is an array index, the entries keep insertion order |
| DoctorsInteractiveMap.NumberKeyIsIndex | src/features/dashboard/DoctorsInteractiveMap.tsx:290 | a key written as a number up to 2^32-2 is an array index of that value |
| DoctorsInteractiveMap.RankMultiset | src/features/dashboard/DoctorsInteractiveMap.tsx:295-297 | ranking only reorders the keys |
| DoctorsInteractiveMap.RankSorted | src/features/dashboard/DoctorsInteractiveMap.tsx:296 | ranked keys come in non-increasing order of count |
| DoctorsInteractiveMap.RankedOptions | src/features/dashboard/DoctorsInteractiveMap.tsx:285-300 | the options are `all` followed by one entry per distinct key |
| DoctorsInteractiveMap.RankedOptionsSpec | src/features/dashboard/DoctorsInteractiveMap.tsx:285-300 | `all` comes first (alone when there are no doctors), then each key once and nothing else, in non-increasing frequency; equal frequencies keep their `Object.entries` order |
| DoctorsInteractiveMap.RankKeys | src/features/dashboard/DoctorsInteractiveMap.tsx:285-300 | the memoised computation yields the ranked option list |
| DoctorsInteractiveMap.SpecialtyOptions | src/features/dashboard/DoctorsInteractiveMap.tsx:285-300 | the specialty list is the ranked list of the doctors' specialties |
| DoctorsInteractiveMap.GovernorateOptions | src/features/dashboard/DoctorsInteractiveMap.tsx:302-319 | the governorate list is the ranked list of the last words of the addresses |
| DoctorsInteractiveMap.MostFrequentFirst | src/features/dashboard/DoctorsInteractiveMap.tsx:285-300 | the option right after `all` is a most frequent specialty |
| DoctorsInteractiveMap.Week | src/features/dashboard/DoctorsInteractiveMap.tsx:212-219 | seven days labelled `Lundi` to `Dimanche`, Monday first, each with that day's field |
| DoctorsInteractiveMap.WorkingHoursSpec | src/features/dashboard/DoctorsInteractiveMap.tsx:212-220 | the popup lists exactly the days whose hours are non-blank once trimmed, in week order |
| DoctorsInteractiveMap.NoHoursNoSection | src/features/dashboard/DoctorsInteractiveMap.tsx:212-220 | a doctor with seven blank day fields has no working hours listed |

## Left out

- Network, streaming and timing: the HTTP server, CORS, the health and root endpoints, the backend's `asyncio.sleep`, `fetch`, the stream reader, and the `TextDecoder`. Each is a parameter or a sequence of chunks. Byte-level decoding is not modelled, so chunks are text.
- The retrieval chain (the vector store, the embeddings and the language model) is the parameter `rag`. Its exceptions are its `Err` results, and a reply whose `response.text` is `None` is `Ok(None)`. Memory stores that `None` as the text `None`, which is how the history's f-string renders it; the model does not keep the stored value apart from its rendering.
- JSON encoding and parsing are the parameters `encode` and `parse`. The round-trip lemmas require only that `parse` reads back what `encode` writes and that encodings hold no line break.
- The client never sends `session_id`, so every exchange uses the backend's `"default"` session (backend/api_server.py:200). The backend ignores the client's `context`, conversation history included. The model keeps both as written.
- The CSV tokenizer regex and `parseFloat` are the parameters `tokenize` and `parseNumber`. Positions index tokens, so a field that yields no token shifts the later fields.
- Floating point: coordinates and cluster centres are exact reals, so rounding in the mean is not modelled.
- The profile and cluster maps do not check `response.ok`. A failed fetch there only ends loading; this is not modelled beyond the CSV reading.
- DoctorsMap.tsx reads its header into an unused variable (line 42). The model just drops the header.
- Leaflet and React: map creation, markers, popups' HTML, clustering plugin options, hooks' lifecycle and rendering of the presentational components. The interactive map's errors when it creates the map or updates markers (DoctorsInteractiveMap.tsx:133, 282) belong to Leaflet and are left out.
- Logging to the console, including the parse errors the client logs and skips.
- Message ids and timestamps (`Date.now()`, `new Date()`) are opaque values of a `Clock` parameter.
- Strings.Title: models Python's `str.title` for ASCII letters only. Other characters count as uncased.
- DoctorsInteractiveMap.Frequencies: keys inherited from `Object.prototype` (such as `constructor`) are not modelled. The accumulator's `acc[k] || 0` would misread them.
- ApiServer.Truncate: its contract states the length only. That the truncated history keeps the most recent entries in order is stated by `ApiServer.AddedKeepsMostRecent`.
- ApiServer.Added has no contract of its own. What adding does to memory is stated by `ApiServer.AddedFrame`, `ApiServer.AddedLast` and `ApiServer.AddedKeepsMostRecent`.
