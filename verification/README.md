# Verified models of the agent runtime

This project models the stateful cores of the repository in Dafny and proves what they keep over every input and every
run. Each module follows one source file, or one part of it. Code that updates objects or arrays in place is modelled by
classes and methods; every such method is proved equal to a specification function, and the main results are lemmas
about those functions, by induction over whole runs. `dafny verify dfyconfig.toml` checks everything.

| component | modules | main results |
|---|---|---|
| Session log (`pkg/memory/jsonl.go`) | SessionStore, CrashSafety, StoreRefinement | after a crash between any two writes of any run GetHistory still finds every live message (no record over the scanner limit); without crashes the log is a plain list of messages with a summary; a stale count is never read |
| Legacy import (`pkg/memory/migration.go`) | Migration, MigrationFiles, SavedSessions | any number of interruptions leaves the store of the uninterrupted import, exactly when the files that cannot be renamed agree with the last ones |
| History sanitizer and request loop (`pkg/agent/context.go`, `pkg/agent/loop.go`) | Messages, Sanitizer, SanitizerLaws, Requests, Compression, AgentLoop, Text | the sanitizer establishes the whole tool-call protocol, changes exactly the histories that break it, and keeps damage local; every list any run of the loop sends is acceptable and carries the round of the reply before it; the exact condition under which all lists of a turn obey the predecessor rule |
| Search engine (`pkg/utils/bm25.go`) | Bm25, Bm25Laws, MinHeap, TopK | inverted-index scores equal direct summation of the Okapi formula; the bounded heap returns the k best for every iteration order |
| Tool registry and search tool (`pkg/tools/registry.go`, `pkg/tools/search_tool.go`) | ToolRegistry, ToolHistory, EngineCache, SearchTool | under every interleaving, a returned engine indexes exactly the hidden tools of a version current during the call; a search finds the tools whose name or description has a query term; which tools are callable is read off the history |
| Similarity cache (`pkg/skills/search_cache.go`) | Trigrams, LruOrder, SearchCache | merge loop equals set similarity; the order list is the least-recently-used order of the keys; a hit is a best one |
| Cooldowns and fallback (`pkg/providers/cooldown.go`, `pkg/providers/fallback.go`) | Cooldown, Fallback | every cooldown is the backoff of the streak read off the history; no failure ever shortens one; every turn of a fallback run decides how it goes on; calls are in order, never to a cooling provider; reports are complete |
| Voice activity (`pkg/audio/vad_silero_ort.go`, `pkg/audio/ringbuffer.go`) | RingBuffers, Vad, VadMeaning, VadDetector | the detector depends on the byte stream, not on how it is split, exactly when every frame fits; events alternate and are exact |
| Byte streams (`pkg/stream/chain_buffer.go`, `pkg/stream/audio.go`) | ChainBuffers, AudioStreams | the linked list is a byte queue; the end is reported only when every pushed byte was pulled |
| Sentence splitter (`pkg/speech/splitter.go`) | Splitter | nothing but white space is lost or reordered |

Five promises turn out to be conditional. In each case the code is modelled as it is, and the exact condition is proved
for all inputs, in terms a caller can check beforehand; where a promise is surprising, a lemma also shows a failing input.

- An append to a log whose last line lacks its newline is glued to that line; both are lost although the append reports
  success (`CrashSafety.TornAppendLosesTheNext`). A stopped operation is safe exactly unless an append is glued to a live
  message (`CrashSafety.CrashKeepsLiveMessages`), and a completed one leaves the intended history exactly when it is no
  append or the file ends in a newline (`CrashSafety.AfterIsIntended`).
- A line of 10 MB or more makes every later read fail. A session can be read after a run exactly if no append and no
  replacement since the last replacement of the history wrote such a line (`CrashSafety.ReadableIffShort`; with torn
  appends, where pieces add up on one line, `CrashSafety.RunReadableIff`).
- A tool-call message may get an illegal predecessor in two ways: after a forced compression, when the rebuilt request ends
  in a plain assistant message (`Compression.CompressionCanBreakPredecessors`), and without any compression, when a blank
  user message follows a finished conversation and is dropped (`AgentLoop.BlankTurnBreaksPredecessors`). Over every turn
  the rule holds exactly unless a round of tool calls is added to a list of one of these two kinds
  (`AgentLoop.TurnPredecessorsIff`, also a postcondition of `AgentLoop.Agent.RunAgentLoop`). Which lists these are can be
  told from the user message and the stored history (`Compression.RequestEndsCallableIff`,
  `Compression.RoundAfterCompressionIff`).
- A voice frame that overflows the three-window buffer drops the oldest bytes (`Vad.OverflowLosesBytes`). The detector
  depends on the byte stream alone exactly when every frame fits behind the bytes still waiting
  (`Vad.FeedAllIsConsumeIff`); frames of at most two windows always do.
- A legacy file that cannot be renamed is imported again by the next run and can overwrite a newer session
  (`Migration.StuckRenameChangesTheStore`). Restarts and reruns are harmless exactly when, session by session, the stuck
  files agree with what is imported last (`Migration.RestartsAreHarmlessIff`).

Two smaller observations are stated as lemmas or contracts too: any two queries shorter than three bytes count as
identical for the similarity cache (`Trigrams.ShortTextsAreAlike`), and closing a full audio stream does not mark its end
(`AudioStreams.AudioStream.Close`).

Assumptions shared by all modules: integers do not overflow; real arithmetic stands for `float32` and `float64`; the
clock does not run backwards; a lock makes the code it guards one step, except in EngineCache, where the steps of
concurrent threads interleave.

## Model

| member | source | states |
|---|---|---|
| Sanitizer.FindAssistant | pkg/agent/context.go:600-609 | the backward walk finds a tool-call message exactly when the kept list ends in a run of tool messages after one |
| Sanitizer.IsKept | pkg/agent/context.go:584-636 | the switch on the role keeps a message exactly when it has a legal place after what was kept |
| Sanitizer.DropMisplaced | pkg/agent/context.go:582-637 | the first loop is the left-to-right filter that needs only two facts about the kept prefix |
| Sanitizer.CollectAnswers | pkg/agent/context.go:647-681 | counts the whole run of tool messages after a call, and reports success exactly when that run covers all call ids |
| Sanitizer.DropUnanswered | pkg/agent/context.go:643-690 | the second loop deletes exactly the groups whose calls are not all answered |
| Sanitizer.SanitizeHistory | pkg/agent/context.go:577-693 | the two loops together, for every history including the empty one |
| Sanitizer.Pass1Chains | pkg/agent/context.go:582-637 | whatever the input, what pass 1 keeps is a legal continuation at every position |
| Sanitizer.Pass2KeepsChain | pkg/agent/context.go:643-690 | deleting whole groups keeps the predecessor rule that pass 1 set up |
| Sanitizer.Pass2Covers | pkg/agent/context.go:643-690 | after pass 2 every call is covered by the run after it, although runs may come together |
| Sanitizer.ChainedIff | pkg/agent/context.go:582-637 | the running check of pass 1 holds exactly when no message is a system message, every call has a legal predecessor and every tool message lies in a run |
| Sanitizer.AnsweredEverywhereIff | pkg/agent/context.go:643-690 | the group check of pass 2 holds exactly when every tool call is answered directly after its message |
| Sanitizer.SanitizedIsWellFormed | pkg/agent/context.go:577-693 | for every input the output has no system message, legal predecessors, no unanswered call and no orphan tool message |
| Sanitizer.FixedIffWellFormed | pkg/agent/context.go:577-693 | the sanitizer is the identity exactly on histories that already obey the protocol |
| Sanitizer.Idempotent | pkg/agent/context.go:577-693 | sanitizing twice is sanitizing once |
| Sanitizer.KeepsConversation | pkg/agent/context.go:577-693 | the output is a subsequence of the input, and every user and plain assistant message survives in order |
| SanitizerLaws.SplitsAtPlain | pkg/agent/context.go:577-693 | damage stays local: for every user or plain assistant message u, sanitizing p + [u] + q is sanitizing p and [u] + q separately |
| SanitizerLaws.KeepsWellFormedPrefix | pkg/agent/context.go:577-693 | a history that obeys the protocol, with all its tool rounds, is kept whole whatever follows it |
| SanitizerLaws.MisplacedVanishesAlone | pkg/agent/context.go:582-637 | a system message, an orphan tool message or a tool-call message without legal predecessor vanishes, and everything else is treated as if it had not been there |
| SanitizerLaws.UnansweredRoundVanishes | pkg/agent/context.go:643-690 | a tool-call message with a missing answer vanishes together with its tool messages, and alone |
| Requests.BuildMessages | pkg/agent/context.go:475-575 | the list is one system message (the prompt, then separator, note and summary if there is a summary), the sanitized history, and the current message as a user message unless it is all white space; it is acceptable to a strict provider |
| Text.BlankIff | pkg/agent/context.go:563 | trimming leaves nothing exactly of texts that are all white space |
| Requests.ClosedConcat | pkg/agent/loop.go:1311-1418 | lists in which calls and answers match may be joined |
| Requests.RoundIsClosed | pkg/agent/loop.go:1283-1418 | a tool-call message followed by one tool message per call is closed |
| Requests.RoundKeepsRequest | pkg/agent/loop.go:1283-1418 | appending a round to an acceptable request gives an acceptable request |
| Requests.RoundKeepsPredecessorsIff | pkg/agent/loop.go:1283-1418 | one appended round keeps the predecessor rule exactly by the last role of the request |
| Compression.CompressionIsRepaired | pkg/agent/loop.go:1465-1514 | compression shrinks the history by at most half, keeps the newest messages in place and the first one with a note of how many were dropped, and the rebuilt request is acceptable and keeps every plain message after the cut |
| Compression.DecimalReads | pkg/agent/loop.go:1494-1497 | the number in the note can be read back |
| Compression.AllKept | pkg/agent/loop.go:1465-1470 | up to four messages are left alone |
| Compression.RequestEndsCallableIff | pkg/agent/context.go:475-575 | for every stored history, whole or damaged, and every current message: the request ends in a user or tool message exactly when the message is not blank or the newest message of the history that is neither system nor tool nor tool-call message is from the user |
| Compression.RequestPredecessors | pkg/agent/context.go:475-575 | a freshly built request obeys the predecessor rule, whatever the history and the message |
| Compression.RoundAfterCompressionIff | pkg/agent/loop.go:1465-1514 | for every stored history: after compression and rebuild the next round of tool calls obeys the predecessor rule exactly when, among the first message and those behind the cut, the newest plain one is a user message; this can be told before compressing |
| Compression.WellFormedNewestIff | pkg/agent/loop.go:1465-1514 | on a history that obeys the protocol that condition says: the last message is a user or tool message, and the first message or one behind the cut is a user message |
| Compression.CompressionCanBreakPredecessors | pkg/agent/loop.go:1465-1514 | a well-formed history that fails the condition |
| AgentLoop.Session.Interfere | pkg/agent/loop.go:1605-1685 | background summarization may cut the history down to its last four messages at any moment; on a shared session anything may happen |
| AgentLoop.Session.ForceCompression | pkg/agent/loop.go:1465-1514 | the stored history becomes its compressed form; up to four messages are left alone |
| AgentLoop.Agent.CallLLM | pkg/agent/loop.go:1129-1155 | one call hands its list to one provider, or to one candidate after the other until one replies, and nothing else; its result is the reply, or with one provider its error, with several a summary of a kind only if one error is; the session only drifts meanwhile |
| AgentLoop.Agent.CompressAndRebuild | pkg/agent/loop.go:1210-1216 | the rebuilt list is the request made of the compressed form of the history stored at the failed call, up to drift before and after the compression |
| AgentLoop.Agent.TryOnce | pkg/agent/loop.go:1159-1219 | one pass of the retry loop: exactly time-outs and context errors are tried again, while retries are left, on the same list or a rebuilt one |
| AgentLoop.Agent.CallWithRetries | pkg/agent/loop.go:1157-1231 | at most three calls, each continuing the log; all but the last failed, and a time-out or context error is given up only after the third |
| AgentLoop.Agent.RunTools | pkg/agent/loop.go:1265-1418 | the round is that of the response: its text, all its tool calls with their ids and requested names, in order, and one tool message per call; every call is executed once, and its tool message tells its result; the same round goes to the request list and, with drift in between, to the stored history |
| AgentLoop.Agent.NormalizeCalls | pkg/agent/loop.go:1265-1309 | every call of the response, in order, with its id, under the name from wherever the response carries it |
| AgentLoop.Agent.ExecuteAll | pkg/agent/loop.go:1316-1384 | every call is executed exactly once, in any order, and each result is kept under its call |
| AgentLoop.RoundContinues | pkg/agent/loop.go:1265-1418 | the list with the round of the newest reply continues the log |
| AgentLoop.SentIsAcceptable | pkg/agent/loop.go:1060-1433 | every list a provider sees in a run is acceptable |
| AgentLoop.Agent.RunLLMIteration | pkg/agent/loop.go:1060-1433 | over any number of iterations, retries and compressions: every call works on an acceptable list that repeats the one before after a time-out, adds the round of the reply before, or is rebuilt from the compressed history after a context error; the providers heard and said exactly what the log says; the answer is the text of the last reply, its reasoning if that is empty, or empty when the iterations are used up; every requested tool call is executed; the loop ends |
| AgentLoop.Agent.RunLLMIterationStream | pkg/agent/loop.go:640-791 | the same for the streaming loop, which makes exactly one call to one provider per iteration and never falls back to reasoning |
| AgentLoop.Agent.RunAgentLoop | pkg/agent/loop.go:963-1044 | a whole turn starts from the stored history and the user message, sends only acceptable lists, obeys the predecessor rule exactly under the stated condition, and ends as its request loop did, with the answer, or the default for an empty one, stored last |
| AgentLoop.RunPredecessorsIff | pkg/agent/loop.go:1060-1433 | over a whole run every list obeys the predecessor rule exactly when no round is added to a list that ends in neither a user nor a tool message |
| AgentLoop.EndsBadlyIff | pkg/agent/loop.go:1060-1433 | in every run, from every first list: a list ends in neither a user nor a tool message exactly when it is still the first list and that ended so, or it was rebuilt in this run from the stored history, and what compression left of that has a newest plain message that is not from the user |
| AgentLoop.TurnPredecessorsIff | pkg/agent/loop.go:963-1044 | over every turn all lists obey the predecessor rule exactly unless a round is added to such a list; the first list is one exactly when the user message is blank and the newest plain message of the history read is not from the user |
| AgentLoop.BlankTurnBreaksPredecessors | pkg/agent/context.go:563-572 | a turn without compression that breaks the rule: a blank message after a finished conversation, answered by a tool call |
| AgentLoop.Agent.SaveAnswer | pkg/agent/loop.go:1007-1023 | an answer is stored once as a plain assistant message, the default in place of an empty one; a failed call stores nothing |
| SessionStore.JSONLStore.ReadMessages | pkg/memory/jsonl.go:131-176 | returns exactly the decodable records after the skipped lines, and fails exactly when some line is too long for the scanner |
| SessionStore.JSONLStore.CountLines | pkg/memory/jsonl.go:181-200 | counts the non-empty lines, decodable or not |
| SessionStore.JSONLStore.AddFullMessage | pkg/memory/jsonl.go:218-268 | two writes, lines before metadata |
| SessionStore.JSONLStore.GetHistory | pkg/memory/jsonl.go:270-290 | the history is read from the lines and the skip count alone |
| SessionStore.JSONLStore.SetSummaryText | pkg/memory/jsonl.go:306-325 | one write of the metadata |
| SessionStore.JSONLStore.TruncateHistory | pkg/memory/jsonl.go:327-361 | one write of the metadata, after a recount of the lines; nothing when the file cannot be scanned |
| SessionStore.JSONLStore.ReplaceHistory | pkg/memory/jsonl.go:363-394 | two writes, metadata before lines |
| SessionStore.JSONLStore.CompactLog | pkg/memory/jsonl.go:402-439 | no write when nothing is skipped or the file cannot be scanned, else metadata before lines |
| SessionStore.SnocLine | pkg/memory/jsonl.go:146-172 | what one more line adds to the lines counted and the records read |
| SessionStore.EncodeDecodes | pkg/memory/jsonl.go:443-456 | a rewritten file decodes to the records it was written from |
| CrashSafety.AppendLines | pkg/memory/jsonl.go:223-242 | an append adds one line, or spoils the last line if that lacks its newline |
| CrashSafety.AppendHistory | pkg/memory/jsonl.go:223-242 | what an append, whole or torn, leaves to be read: one record more, nothing more, or one live record less when it is glued to one |
| CrashSafety.SkipWithinLines | pkg/memory/jsonl.go:218-439 | over every run with crashes anywhere, skip never exceeds the number of lines on disk |
| CrashSafety.OnlyTornAppendsOpen | pkg/memory/jsonl.go:223-242 | with crashes only between whole writes, every line keeps its newline |
| CrashSafety.AfterIsIntended | pkg/memory/jsonl.go:218-439 | a successful operation leaves the intended history exactly if it is no append or the file ended in a newline |
| CrashSafety.CrashKeepsLiveMessages | pkg/memory/jsonl.go:218-439 | wherever any operation stops, even inside an append: the history before it or the intended one is a suffix of the one left exactly unless an append was glued to a live record; and exactly when what is left can be read |
| CrashSafety.CrashSafe | pkg/memory/jsonl.go:218-439 | after every run of operations and crashes from an empty session: the suffix guarantee, skip within the lines, and GetHistory succeeds exactly if no line over the limit was written since the last replacement |
| CrashSafety.CrashReads | pkg/memory/jsonl.go:218-439 | with small records GetHistory succeeds before and after every crash, and its result has the history before or the intended one as a suffix |
| CrashSafety.TornAppendLosesTheNext | pkg/memory/jsonl.go:223-242 | after a torn append the next append reports success and both messages are lost |
| CrashSafety.StepReadableIff | pkg/memory/jsonl.go:141-171 | for every operation stopped anywhere: the session can be read afterwards exactly when the operation itself leaves no line over the scanner limit (glued appends included) and the session could be read before or was replaced |
| CrashSafety.RunReadableIff | pkg/memory/jsonl.go:141-171 | the same over every run, torn appends included |
| CrashSafety.ReadableIffShort | pkg/memory/jsonl.go:141-171 | without torn appends the condition speaks of the written records alone |
| CrashSafety.UnreadableUntilReplaced | pkg/memory/jsonl.go:141-171 | once a line reaches the scanner limit, every read fails through every run without a replacement of the history |
| StoreRefinement.RunsStayClean | pkg/memory/jsonl.go:218-439 | over every run with small records and crashes between any two writes the file holds only decodable lines and can be read |
| StoreRefinement.StepRefines | pkg/memory/jsonl.go:218-439 | on a clean session each operation succeeds and acts like add, keep the last k, replace, set summary or nothing on (messages, summary) |
| StoreRefinement.StoreRefinesConversation | pkg/memory/jsonl.go:218-439 | every operation sequence on an empty session reads like the same sequence on (messages, summary) |
| StoreRefinement.RecordsOfLast | pkg/memory/jsonl.go:338-357 | keeping the last k lines keeps the last k messages, none for k <= 0 |
| StoreRefinement.CountIsNeverRead | pkg/memory/jsonl.go:327-361 | two sessions that differ in the stored count stay alike through every run, crashes included |
| StoreRefinement.CountIsExact | pkg/memory/jsonl.go:218-439 | without crashes the stored count is the number of lines, whatever the operations and their sizes |
| StoreRefinement.CountHeals | pkg/memory/jsonl.go:327-439 | a count made stale by a crash is set right by the next truncation, replacement or effective compaction |
| StoreRefinement.CompactionReclaims | pkg/memory/jsonl.go:402-439 | compaction leaves one line per live message and nothing else; with nothing skipped it does nothing |
| StoreRefinement.TruncationIsLogical | pkg/memory/jsonl.go:327-361 | truncation touches no line and keeps exactly the last lines asked for live |
| StoreRefinement.CrashKeepsSummary | pkg/memory/jsonl.go:306-325 | wherever an operation stops, the summary is the old one or the one being set |
| Migration.Migrator.ImportFile | pkg/memory/migration.go:70-104 | the import of one file is the given sequence of store writes, then the rename |
| Migration.Migrator.DealWith | pkg/memory/migration.go:45-107 | an entry is imported exactly when it is a legacy file, not a directory, and decodes; anything else is left alone |
| Migration.Migrator.MigrateFromJSON | pkg/memory/migration.go:31-114 | the run passes exactly the given sequence of states and counts the imported files |
| Migration.NewFormatIsNeverImported | pkg/memory/migration.go:46-56 | neither the files the store writes nor renamed legacy files are ever imported |
| Migration.RunLeaves | pkg/memory/migration.go:44-114 | a run imports the importable files in listing order and leaves exactly the stuck ones importable |
| MigrationFiles.LegacyNameIff | pkg/memory/migration.go:45-61 | a name is taken for a legacy file exactly when it is a stem with ".json" behind it and the stem does not end in ".meta" |
| MigrationFiles.StemIs | pkg/memory/migration.go:75-80 | the session is stored under the key in the file, or under the name of the file without ".json" |
| MigrationFiles.SanitizeMeans | pkg/memory/jsonl.go:92-97 | a file name has no separator in it and differs from the key only where the key has one |
| MigrationFiles.SameFileIff | pkg/memory/jsonl.go:92-97 | two keys share a file exactly when they differ only in separators and underscores |
| MigrationFiles.NoFileIsLost | pkg/memory/migration.go:103-108 | after a run every file is still there with its content; exactly the imported ones that can be renamed have the suffix ".migrated" |
| SavedSessions.ImportedAllIs | pkg/memory/migration.go:71-102 | importing files of one session in order leaves the messages of the last and the last nonempty summary |
| SavedSessions.SessionRestarts | pkg/memory/migration.go:82-107 | one session: starting over, from any point of a run, with the stuck files and those still to come gives the session of the whole run |
| Migration.LeftoversReachTheEnd | pkg/memory/migration.go:31-114 | from every state of a run, importing what it left reaches the store of the whole run, if the stuck files agree |
| Migration.RestartReachesTheSameStore | pkg/memory/migration.go:31-114 | interrupting a run after any write or rename and running again leaves the store of one uninterrupted run, if the stuck files agree |
| Migration.RestartsReachTheSameStore | pkg/memory/migration.go:31-114 | the same for any number of interruptions |
| Migration.RerunChangesNothingIff | pkg/memory/migration.go:83-108 | running a completed import again changes nothing exactly when, in every session with a stuck file, the last stuck file holds the messages of the last file and the last stuck summary, if any, is the last summary |
| Migration.RestartsAreHarmlessIff | pkg/memory/migration.go:31-114 | restarting is harmless at every point of a run exactly under that condition on the listing |
| Migration.NoneStuckAgree | pkg/memory/migration.go:104-108 | the condition holds when every file can be renamed |
| Migration.LastFileWins | pkg/memory/migration.go:71-97 | each session gets the messages and summary of the last legacy file that maps to it |
| Migration.StuckRenameChangesTheStore | pkg/memory/migration.go:104-108 | a listing that fails the condition |
| MinHeap.RootIsMinimal | pkg/utils/bm25.go:242-247 | in a heap no element is below the root |
| MinHeap.SiftDown | pkg/utils/bm25.go:255-272 | permutes the slice and restores the heap below the start position |
| MinHeap.MinHeapify | pkg/utils/bm25.go:248-252 | permutes any slice into a heap |
| MinHeap.SortByScore | pkg/utils/bm25.go:203 | permutes the selection into descending order |
| TopK.VisitLower | pkg/utils/bm25.go:190-201 | a full heap may ignore a score not above its root |
| TopK.VisitHigher | pkg/utils/bm25.go:197-199 | replacing the root by a higher score keeps the k best of what was visited |
| TopK.SelectTop | pkg/utils/bm25.go:187-203 | for every iteration order: min(k, n) different documents, descending, none left out that scores above one returned |
| TopK.RankingIsUnique | pkg/utils/bm25.go:187-203 | any two answers have the same scores in the same places |
| Bm25.Dedupe | pkg/utils/bm25.go:230-240 | query terms without repetitions, in order of first occurrence |
| Bm25.UniqueIsASet | pkg/utils/bm25.go:228-240 | deduplication keeps every term, each once |
| Bm25.CountTerms | pkg/utils/bm25.go:126-129 | term frequencies are multiplicities |
| Bm25.BM25Engine.DocsWithMeans | pkg/utils/bm25.go:156-163 | a posting list holds exactly the documents with the term, ascending |
| Bm25.BM25Engine.IndexDocs | pkg/utils/bm25.go:118-136 | the first loop computes frequencies, document counts and total length of the whole corpus |
| Bm25.BM25Engine.BuildPosting | pkg/utils/bm25.go:156-163 | the inverted index, for every iteration order of the frequency maps |
| Bm25.BM25Engine.AddTerm | pkg/utils/bm25.go:175-180 | one pass over a posting list adds the term to the direct scores of all documents |
| Bm25.BM25Engine.ScoreAll | pkg/utils/bm25.go:112-181 | index scoring gives exactly the documents with a query term, each with its direct per-document sum |
| Bm25.BM25Engine.Search | pkg/utils/bm25.go:97-213 | the results show a best-k ranking of the direct scores, for all queries, corpora and k |
| Bm25.BM25Engine.BestMeans | pkg/utils/bm25.go:97-213 | min(k, matches) results for different documents, each with its direct score, best first, and no omitted match scores above one returned |
| Bm25.BM25Engine.ScoresAreUnique | pkg/utils/bm25.go:97-213 | two answers to one query show the same scores, whatever the iteration orders were |
| Bm25Laws.Formula | pkg/utils/bm25.go:112-181 | the weight of an occurring term, from the corpus alone: log((N + 1) / (df + 1/2)) times f (k1 + 1) / (f + k1 (1 - b + b len / average length)) |
| Bm25Laws.RarerWeighsMore | pkg/utils/bm25.go:141-147 | a rarer term weighs more, and every occurring term has positive weight |
| Bm25Laws.LengthTerm | pkg/utils/bm25.go:149-154 | the length term is k1 at average length and grows linearly with the length |
| Bm25Laws.FrequencyTerm | pkg/utils/bm25.go:176-179 | the frequency term is 1 for one occurrence at average length, positive, and at most k1 + 1 |
| Bm25Laws.FrequencyTermGrows | pkg/utils/bm25.go:176-179 | it grows with the frequency and shrinks with the length |
| Bm25Laws.PositiveIffMatches | pkg/utils/bm25.go:168-181 | a document scores above zero exactly when it contains a query term |
| ToolRegistry.Registry.PromoteTools | pkg/tools/registry.go:70-87 | sets the time to live of the named hidden tools and changes nothing else |
| ToolRegistry.Registry.TickTTL | pkg/tools/registry.go:90-98 | one tick for every hidden tool that has time left, in any order |
| ToolRegistry.Registry.SnapshotHiddenTools | pkg/tools/registry.go:121-137 | each hidden tool once, with the version it belongs to |
| ToolRegistry.Registry.Get | pkg/tools/registry.go:139-151 | found exactly when the tool is core or its time to live is positive |
| ToolRegistry.TtlKeepsHidden | pkg/tools/registry.go:70-98 | promotion and ticks do not change the search corpus |
| ToolRegistry.PromotionLasts | pkg/tools/registry.go:70-98 | a hidden tool promoted for n rounds is callable for exactly n ticks |
| ToolRegistry.HiddenMeans | pkg/tools/registry.go:121-137 | the search corpus holds name and description of exactly the tools that are not core |
| ToolHistory.RegisteredStays | pkg/tools/registry.go:33-98 | after every history a name stands for the tool last registered under it |
| ToolHistory.TtlSincePromotion | pkg/tools/registry.go:70-98 | the time to live is that of the last promotion less the ticks since, down to zero |
| ToolHistory.CallableIff | pkg/tools/registry.go:33-151 | after every history a registered tool is callable exactly if it is core, or was promoted since it was last registered, the last time for more rounds than ticks have passed |
| EngineCache.RunKeepsInv | pkg/tools/search_tool.go:249-279 | every state of every interleaving of searches, registrations, promotions and ticks satisfies the cache invariant |
| EngineCache.ReturnedEngineIsCurrent | pkg/tools/search_tool.go:249-279 | a returned engine indexes exactly the hidden tools of a version current during the call; nil means that version had none |
| EngineCache.HistoryIsFaithful | pkg/tools/registry.go:33-66 | the versions the result above speaks of are the real past registry contents |
| EngineCache.TtlNeverInvalidates | pkg/tools/search_tool.go:251-253 | promotion and ticks never outdate the cached engine |
| SearchTool.RegistryKeepsCacheOk | pkg/tools/search_tool.go:249-279 | no registry operation makes a cached engine wrong, only outdated; promotion and ticks not even that |
| SearchTool.BM25SearchTool.GetOrBuildEngine | pkg/tools/search_tool.go:249-279 | returns an engine over the current hidden tools, null exactly without any, and reuses the cached one while the version stands |
| SearchTool.BM25SearchTool.BuildEngine | pkg/tools/search_tool.go:236-245 | the engine searches the name and the description of every document |
| SearchTool.BM25SearchTool.Search | pkg/tools/search_tool.go:121-140 | the names of the best matches among the current hidden tools; every one of them has a query term in its name or description, and if no more tools than the maximum have one, they are exactly those |
| SearchTool.BM25SearchTool.AnswersAreHidden | pkg/tools/search_tool.go:121-140 | every name answered is a hidden tool registered now, although the engine may be an old one |
| SearchTool.BM25SearchTool.AnswerFinds | pkg/tools/search_tool.go:121-245 | every answer read off the registry alone: different tools, at most the maximum, each with a query term in name or description, and all of those if they are not more |
| SearchTool.BM25SearchTool.Execute | pkg/tools/search_tool.go:111-203 | a missing or blank query changes nothing; otherwise exactly the tools found, as above, are promoted, are callable afterwards, and the cache stays valid |
| Trigrams.CodeIsInjective | pkg/skills/search_cache.go:181 | different three-byte windows have different codes |
| Trigrams.DedupeInPlace | pkg/skills/search_cache.go:187-194 | keeps exactly the distinct values, in order, in place |
| Trigrams.BuildTrigrams | pkg/skills/search_cache.go:175-196 | the strictly increasing list of exactly the codes of the three-byte windows |
| Trigrams.TrigramsAreUnique | pkg/skills/search_cache.go:175-196 | there is only one such list |
| Trigrams.TrigramsMean | pkg/skills/search_cache.go:175-196 | byte by byte: the list holds exactly the numbers whose three digits to base 256 are consecutive bytes of the text |
| Trigrams.CountCommon | pkg/skills/search_cache.go:204-216 | the merge loop counts the common values |
| Trigrams.JaccardSimilarity | pkg/skills/search_cache.go:199-220 | the merge computes |A and B| / |A or B| of the underlying sets |
| Trigrams.SimilarityIsRatio | pkg/skills/search_cache.go:199-220 | the similarity times the number of all values is the number of common values; 1 for two empty sets |
| Trigrams.SimilarityLaws | pkg/skills/search_cache.go:199-220 | symmetric, in [0, 1], 1 exactly for equal sets, 0 exactly for disjoint sets that are not both empty |
| Trigrams.ShortTextsAreAlike | pkg/skills/search_cache.go:175-202 | any two texts shorter than three bytes have similarity 1 |
| LruOrder.MoveToEnd | pkg/skills/search_cache.go:158-166 | moves a key to the end and keeps the order of the others |
| LruOrder.TouchOk | pkg/skills/search_cache.go:158-166 | using a key again keeps the list in order of last use |
| LruOrder.DropOthers | pkg/skills/search_cache.go:144-156 | drops exactly the expired keys, from map and list alike |
| LruOrder.MakeRoom | pkg/skills/search_cache.go:115-120 | drops the oldest key, if there is no room |
| LruOrder.EvictsLeastRecentlyUsed | pkg/skills/search_cache.go:112-132 | a full cache gives up the least recently used unexpired key and nothing else |
| SearchCache.Cache.EvictExpiredLocked | pkg/skills/search_cache.go:144-156 | keeps exactly the unexpired entries, in order |
| SearchCache.Cache.Put | pkg/skills/search_cache.go:93-133 | the whole new state: what expired is gone, at most the least recently used key is evicted, the rest is untouched |
| SearchCache.PutKeeps | pkg/skills/search_cache.go:93-156 | an expired entry goes; an unexpired one is lost only if the cache is full of unexpired entries, the key is new among them, and no other was used longer ago |
| SearchCache.Cache.BestMatch | pkg/skills/search_cache.go:71-83 | an entry unexpired during the call and at least as alike as every unexpired one, for every iteration order |
| SearchCache.Cache.Get | pkg/skills/search_cache.go:51-90 | a hit is the last stored value of the exact key or of a best entry at least 0.7 alike, unexpired when the call began, and becomes the most recently used; a miss means no unexpired entry is alike enough |
| SearchCache.Cache.SizeIsBounded | pkg/skills/search_cache.go:136-140 | map and list have the same size, at most the maximum |
| Cooldown.StandardTable | pkg/providers/cooldown.go:176-189 | the documented table: 1, 5 and 25 minutes, then an hour |
| Cooldown.BillingTable | pkg/providers/cooldown.go:191-207 | the documented table: 5, 10 and 20 hours, then a day |
| Cooldown.BackoffIsMonotone | pkg/providers/cooldown.go:176-207 | both backoffs grow with the count and are capped |
| Cooldown.AvailableIff | pkg/providers/cooldown.go:86-108 | available exactly from the later of the two ends on |
| Cooldown.RestartKeepsBounds | pkg/providers/cooldown.go:49-53 | when the window reset clears the counters, every earlier cooldown is over |
| Cooldown.FailureNeverShortens | pkg/providers/cooldown.go:42-66 | a failure keeps counters and bounds consistent and moves neither end earlier, even across a window reset |
| Cooldown.FailureBlocks | pkg/providers/cooldown.go:42-66 | after a failure the provider is unavailable for at least a minute |
| Cooldown.SuccessClears | pkg/providers/cooldown.go:69-83 | after a success the provider is available at once |
| Cooldown.CooldownTracker.MarkFailure | pkg/providers/cooldown.go:42-66 | changes exactly one entry, by the failure that the histories below are made of, and keeps the invariant of all |
| Cooldown.CooldownTracker.MarkSuccess | pkg/providers/cooldown.go:69-83 | clears an existing entry and creates none |
| Cooldown.CooldownTracker.IsAvailable | pkg/providers/cooldown.go:86-108 | unknown providers are available, others exactly from the later of their two ends on |
| Cooldown.CooldownTracker.CooldownRemaining | pkg/providers/cooldown.go:112-139 | the time to the later of the two ends, zero exactly when the provider is available |
| Cooldown.HistoryOk | pkg/providers/cooldown.go:42-83 | over every history with a monotone clock: error count equals the sum of the failure counts, and no cooldown outlives the last failure by more than its backoff |
| Cooldown.StreakCounts | pkg/providers/cooldown.go:42-83 | over every history the counters are those of the current streak: the failures since the last success or the last gap of more than 24 hours |
| Cooldown.BackoffOfStreak | pkg/providers/cooldown.go:42-66 | over every history that ends in a failure at t: not for billing, the cooldown ends at t plus the backoff of the streak length; for billing, the provider is disabled until t plus the backoff of the billing failures in the streak; the other end stays |
| Cooldown.EndsOfHistory | pkg/providers/cooldown.go:42-83 | each end after every history is the one set by the newest failure that governs it, by the streak at that failure |
| Cooldown.UngovernedEnds | pkg/providers/cooldown.go:42-83 | an end that no failure governs since the last success is not set |
| Cooldown.CooldownsOnlyGrow | pkg/providers/cooldown.go:42-66 | over every run of failures without success, both ends only move later |
| Fallback.FallbackChain.TakeTurn | pkg/providers/fallback.go:114-197 | one pass of the loop: verdict, call and tracker, which TurnDecides tells case by case |
| Fallback.FallbackChain.Execute | pkg/providers/fallback.go:101-207 | result, tracker and calls are those of the first turn that stops the run, which TurnDecides tells case by case |
| Fallback.RunStarts | pkg/providers/fallback.go:101-112 | without candidates nothing happens; otherwise the first one has a turn, with the tracker as given |
| Fallback.TurnDecides | pkg/providers/fallback.go:113-206 | every turn taken decides by itself: cancelled before, it ends the run; cooling down, it is passed over; an answer ends it with this response, provider and model and clears the cooldown; a failure with the run aborted meanwhile, an unclassified and a format failure end it with the tracker as it was; every other failure is recorded and the next candidate has its turn |
| Fallback.CallsMeans | pkg/providers/fallback.go:113-150 | the calls made are exactly the turns with an available provider, in candidate order |
| Fallback.CallsInOrderAndAvailable | pkg/providers/fallback.go:113-150 | candidates are called in order, never while their provider is cooling down |
| Fallback.ReportsAreComplete | pkg/providers/fallback.go:120-206 | success at index i reports exactly candidates 0 to i-1 and clears the cooldown; exhaustion reports all; an attempt is a skip exactly when the provider was cooling down at its check, and otherwise carries the reason of the failure |
| Fallback.UnrecordedFailures | pkg/providers/fallback.go:161-184 | unclassified, non-retriable and cancelled turns leave the tracker untouched |
| Fallback.RunNeverShortens | pkg/providers/fallback.go:113-206 | during a run no provider becomes available earlier |
| Fallback.FailedProviderCoolsDown | pkg/providers/fallback.go:186-197 | a provider that failed retriably is not called again in the run until its new cooldown, at least a minute, has passed |
| RingBuffers.RingBuffer.Write | pkg/audio/ringbuffer.go:69-83 | the buffer then holds the last elements of its contents and the data, as many as fit |
| RingBuffers.RingBuffer.Read | pkg/audio/ringbuffer.go:85-101 | removes and copies the longest prefix that fits |
| RingBuffers.RingBuffer.Peek | pkg/audio/ringbuffer.go:103-119 | copies the same prefix and changes nothing |
| RingBuffers.WindowPut | pkg/audio/ringbuffer.go:69-83 | one element put at the write position, wrap-around and overwriting included |
| RingBuffers.WindowDrop | pkg/audio/ringbuffer.go:85-101 | advancing the read position drops a prefix |
| Vad.NormalizeFrames | pkg/audio/vad_types.go:64-88 | both frame counts are positive whatever the options, and follow the millisecond settings when these are set and reach a window |
| Vad.WindowsCoverStream | pkg/audio/vad_silero_ort.go:136-143 | windows followed by the waiting bytes are the stream |
| Vad.CutsConcat | pkg/audio/vad_silero_ort.go:131-143 | bytes that arrive later only complete the window begun |
| Vad.FeedIsConsumeIff | pkg/audio/vad_silero_ort.go:131-143 | a call loses no byte exactly when the waiting bytes and the frame fit into three windows |
| Vad.FeedAllIsConsumeIff | pkg/audio/vad_silero_ort.go:124-209 | for every sequence of accepted frames: the detector is a function of the byte stream, and no byte is lost, exactly when each frame fits behind the bytes its predecessors leave waiting |
| Vad.SplitMattersIff | pkg/audio/vad_silero_ort.go:124-209 | two splits of one stream, the first of which fits, give the same detector exactly when the second fits |
| Vad.SplitDoesNotMatter | pkg/audio/vad_silero_ort.go:124-209 | in particular any two splits into frames of at most two windows give the same inputs, answers, events, durations and waiting bytes |
| Vad.InputsAreWindows | pkg/audio/vad_silero_ort.go:150-168 | every inference input is the window behind 64 samples of left context, zeros at the start |
| Vad.EventsAreExact | pkg/audio/vad_silero_ort.go:174-206 | starts and ends alternate, and each happens exactly when its consecutive qualifying windows since the last event reach the configured number |
| Vad.DurationsAreExact | pkg/audio/vad_silero_ort.go:144-206 | every event carries the duration of the windows processed by then |
| Vad.RunMeans | pkg/audio/vad_silero_ort.go:174-206 | a run of length n is n consecutive qualifying windows |
| VadMeaning.EventsMean | pkg/audio/vad_silero_ort.go:174-206 | in terms of the probabilities alone: an event comes at the first moment since the one before when as many windows as configured are at or above the positive threshold (a start) or below the negative one (an end), without a gap; none is missing; its time is that of all windows so far |
| VadMeaning.InputMeans | pkg/audio/vad_silero_ort.go:150-168 | input k is the last 64 samples of window k - 1, zeros at the start, followed by window k |
| Vad.DetectorReadsStream | pkg/audio/vad_silero_ort.go:124-209 | inputs, events and waiting bytes of a detector, read off the byte stream alone |
| Vad.OverflowLosesBytes | pkg/audio/vad_silero_ort.go:131-143 | a call that overflows the buffer drops exactly the oldest bytes and leaves none waiting |
| VadDetector.SileroDetector.constructor | pkg/audio/vad_silero_ort.go:65-115 | a fresh detector with the constants its sample rate and options call for |
| VadDetector.SileroDetector.BytesToFloat32 | pkg/audio/utils.go:27-45 | little-endian 16-bit samples as fractions |
| VadMeaning.SampleDecodes | pkg/audio/utils.go:40-43 | every 16-bit sample is decoded from its two bytes, low byte first, as a fraction of 32768 |
| VadMeaning.WindowDecodes | pkg/audio/utils.go:27-45 | a whole window of encoded samples is decoded in order |
| Vad.ConfigFor | pkg/audio/vad_silero_ort.go:65-97 | 32 ms windows at both sample rates, the thresholds as given, and frame counts from the millisecond settings |
| VadDetector.SileroDetector.BuildInput | pkg/audio/vad_silero_ort.go:150-163 | fills the inference buffer with context and samples |
| VadDetector.SileroDetector.React | pkg/audio/vad_silero_ort.go:174-206 | the hysteresis switch |
| VadDetector.SileroDetector.Process | pkg/audio/vad_silero_ort.go:124-209 | one call acts as specified on the whole detector state, and refuses frames that are not whole milliseconds |
| ChainBuffers.ChainBuffer.Write | pkg/stream/chain_buffer.go:31-57 | appends the bytes to the contents, for callers that leave a written slice alone |
| ChainBuffers.ChainBuffer.Read | pkg/stream/chain_buffer.go:60-114 | removes and copies exactly the longest prefix that fits; bytes written since the last reset are the bytes read followed by the contents; the loop ends |
| ChainBuffers.ChainBuffer.Peek | pkg/stream/chain_buffer.go:135-172 | the same prefix, without consuming it |
| ChainBuffers.ChainBuffer.Reset | pkg/stream/chain_buffer.go:124-132 | empties the buffer |
| AudioStreams.AudioStream.Push | pkg/stream/audio.go:52-80 | all or nothing: a full buffer refuses data and end mark, otherwise both are taken |
| AudioStreams.AudioStream.Pull | pkg/stream/audio.go:88-110 | the oldest bytes in order; the end is reported exactly when it is marked and every pushed byte was pulled |
| AudioStreams.AudioStream.Close | pkg/stream/audio.go:158-161 | marks the end unless the buffer is full |
| Splitter.SentenceSplitter.FindSentenceEnd | pkg/speech/splitter.go:72-100 | the first end mark with the marks and spaces after it, a cut in 1..len; none exactly without an end mark |
| Splitter.SentenceSplitter.TryExtractSentence | pkg/speech/splitter.go:51-69 | cuts the first sentence and the blanks after it |
| Splitter.SentenceSplitter.Write | pkg/speech/splitter.go:27-48 | a sentence, a forced cut or nothing; emitted sentences and buffer equal all tokens up to white space |
| Splitter.ByteLenCounts | pkg/speech/splitter.go:34-42 | the length compared with the limits is that of the UTF-8 encoding: one byte per character and one more for each limit it reaches |
| Splitter.SentenceSplitter.Flush | pkg/speech/splitter.go:103-114 | hands out the trimmed rest; the emitted text then equals all tokens up to white space |
| Splitter.KeepsText | pkg/speech/splitter.go:58-66 | cutting blanks between sentences loses only white space |
| Text.TrimKeepsSqueeze | pkg/speech/splitter.go:61-64 | trimming white space changes nothing else |
| Text.TrimSpaceMeans | pkg/speech/splitter.go:103-114 | what is left has no white space at either end, and nothing but white space is cut off |

## Left out

Contracts that say less than one might expect:

- AgentLoop.Agent.RunLLMIteration: does not itself speak of the predecessor rule, because a blank message or a compression can break it; AgentLoop.TurnPredecessorsIff says exactly when it holds.
- AgentLoop.Agent.CallLLM: of the error of a fallback chain with several candidates it says only that its kind, if it has one, is that of one of the failures; which one depends on the wording of the error messages.
- AgentLoop.Agent.CompressAndRebuild: on a session that other turns use at the same time (`shared`), the list may be rebuilt from any history, as those turns may store anything in between.
- ChainBuffers.ChainBuffer.Write: the code keeps the caller's slice, and its comment forbids changing it afterwards; in the model a chunk is an immutable sequence, so a caller that breaks this rule is outside the model.
- Sanitizer.SanitizedIsWellFormed: does not say that every tool message answers a call, because the sanitizer keeps a tool message with a foreign id inside a run.
- SearchCache.Cache.Get: which of several equally alike entries is returned stays open, as the map order decides it; an entry that expires during the call may or may not be considered, as the clock is read per entry.
- TopK.SelectTop: the order of equal scores stays open, as the sort is not stable.
- Migration.RestartsReachTheSameStore: assumes that nothing else writes in between; a target name that exists already is not modelled.
- Fallback.FallbackChain.Execute: answers, errors and cancellations of the outside world are parameters, one set per candidate; other runs on the same tracker in between are not modelled.

What the models do not capture:

- Session log: I/O errors, created and updated times, and the JSON text itself (an entry carries the size of its encoding); one session at a time, so two keys that share a file are not distinguished except in Migration; a crash inside the atomic rewrite of a file is a crash before or after it.
- Legacy import: unreadable files count as undecodable; store errors, which stop the import, do not occur.
- Agent loop: the contents of the system prompt and its cache, media, reasoning channels and stored reasoning, event callbacks, waiting between retries; what tools do (results are arbitrary, and parallel executions are one after the other in any order); of background summarization only what it does to the stored history and summary; one turn at a time runs on a session unless it is marked as shared.
- Provider messages: arguments and extra content of tool calls, which no modelled branch reads.
- Search engine: tokenization and the logarithm are parameters; division is total, so not-a-number and infinite scores are outside the model; documents and terms are unbounded.
- Search tool: the regular-expression search, result formatting, and the variant that rebuilds the engine on every call.
- Engine cache: weak memory orders; the steps of a thread interleave in one global order.
- Similarity cache: query normalization is a parameter; result lists are values, so the copies the code makes are not visible.
- Cooldowns: error messages and durations inside attempts; provider error classification is part of the world.
- Fallback: candidate resolution and the image variant, which has no cooldowns and the same loop shape.
- Voice activity: 16-bit mono audio only; the model is a deterministic function of all inputs so far that never fails; the early exit after a short read cannot occur and is dropped.
- Byte streams: filters.
- Sentence splitter: tokens that split a character in the middle, and other invalid UTF-8; the punctuation class is a parameter; Reset.
- Integer widths: counters are unbounded; posting lists and versions never wrap.
- Library sorts: `sort.Slice` and `slices.Sort` are stand-ins of which only order and permutation are used.
