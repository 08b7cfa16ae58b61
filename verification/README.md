# OPEX: models and proofs

OPEX is an agent platform: a Rust core and model catalog, a Python service (toolgate) for speech, images, video and
file handlers, a Russian text-to-speech server, and a TypeScript process that connects chat channels. This project
models sixteen of its small stateful algorithms in Dafny and proves what each of them is there to guarantee.

`dafny verify dfyconfig.toml` checks everything. One module stands for one component:

| module | component |
|---|---|
| `Catalog`, `CatalogLoaders` | the model catalog and its two loaders |
| `HandlerRegistry` | file handlers with hot reload |
| `ShutdownDrain` | the shutdown drain and the agent reload that races it |
| `TermFixer`, `TermCandidates` | term replacement in transcripts, and what prepares it |
| `WordPacking` | cutting text into speech-synthesis chunks |
| `Numerals` | numbers as Russian words |
| `SplitText` | message splitting |
| `Bridge` | the pending promises between channel drivers and the core |
| `ImageBudget` | the hourly image budget |
| `ProviderCache` | the provider configuration cache |
| `LineFramer` | the IRC line framer |
| `Timecodes` | timecoded transcripts, printed and stripped |
| `Reconcile` | channel sessions kept in step with the database |
| `FramePlacement` | frame times away from scene cuts |
| `Common`, `Seqs`, `Names`, `PyText`, `Utf8` | shared vocabulary: options, trimming, sequence facts, name order, Python text operations, decoding of UTF-8 |

Code that updates fields is a class whose methods are proved against functions on values; the theorems are about those
functions. Protocols are state machines over their steps. Clock readings, HTTP responses, directory contents,
snapshots and interleavings are inputs. Floats are reals. Every lemma carries `{:induction false}`: what is proved by
induction says so in its body.

## Where the code and its promises part

* `shutdown.rs:76-77` promises that no agent survives the drain. One survives exactly when an agent is inserted after
  step 4 took the map (`ShutdownDrain.NoSurvivorIff`), and every process has a run in which that happens
  (`SurvivorReachable`).
* Hot reload differs from a full rescan exactly when two workspace files declare one id in certain positions
  (`ReloadEqualsRescanIff`, `RemoveEqualsRescanIff`; `SharedIdDrifts` is an input), or when the watcher, which looks
  into subdirectories too, reports a loadable file that the scan never lists: one below the directory or with a
  skipped name (`SkippedNameReloadAgreesIff`). Over a run the two agree throughout exactly when every change met its
  condition where it was made (`HotReloadTracksFolderIff`).
* The dictionary of `apply_replacements` may give a match to another item than the one whose variant the engine
  matched, because the engine's folding and `casefold` differ: exactly when the first variant with the match's
  casefold is not the one matched (`OwnerIsMatchIff`). The deduplication before it makes casefolds distinct and the
  outcome determined (`PipelineDeterminesSpans`), but does not rule this out (`OtherOwnerHappens` is an input).
* A model id with white space right before its tag is stored under an id that lookup trims away. The id as inserted
  always finds its row; the stored id finds it exactly when there is no such blank (`StoredIdFound`,
  `StoredIdFoundIff`; `StoredIdLostWitness` is an input).
* `_split` may return a part over the limit that is no single word: exactly when the text is over the limit and all
  white space (`WordPacking.Split`, `BlankTextHappens`).
* `num_to_words` raises IndexError from 10^12 on (`Numerals.NumToWords`).
* `splitText` can return empty chunks: the only chunk of an empty message, and otherwise exactly where what remains is
  over the limit, no code block is kept and all before the window's boundary is white space (`EmptyChunkIff`,
  `EmptyChunkHappens`). With a limit of 0, which no caller passes, its loop makes no progress on a non-empty text
  (`ZeroLimitMakesNoProgress`); the model of the loop requires at least 1.
* A code block that `splitText` keeps whole may have an odd number of fences: exactly when back-quotes left over at
  the window's end make a fence with one or two that open the rest (`KeptBlockIsBalancedIff`,
  `UnbalancedBlockHappens`).
* The budget is per window; an hour can see twice as much, and no more (`TwiceBudgetPerHour`, `TwiceBudgetHappens`).
  Every hour keeps the budget exactly when each accepted request, with those before it in its window and those of the
  window before that are not yet an hour old, stays within it (`EveryHourIff`).
* A start one second or more before zero is printed as `[-1:59]`, which the reader does not take for a timecode, and
  breaks inside a text may not come back: `Timecodes.StripRestoresIff` has the exact condition, `NegativeStartHappens`
  an input. `strip_transcript_timecodes` raises exactly when a timecode has a minute digit that `int` refuses, such as
  a superscript one (`StripTotalIff`).
* The IRC handler decodes each fragment by itself; the lines are those of the whole stream exactly when no cut falls
  inside a character (`LineFramer.ByteFragmentsIff`).
* A failed fetch of the channel list counts as an empty list and stops every session; it is harmless exactly when
  there is none (`Reconcile.FailedFetchHarmlessIff`, `FailedFetchHappens`).
* A channel of unknown type with a credential makes a run throw. In the first run that ends the process, with the
  sessions started before it still running (`Reconcile.StartupCrashesIff`).
* `_avoid_cuts` says that a narrow window prefers the shift from the left cut; that shift never survives
  (`NarrowCountsFromRight`). A cut at the very candidate closes the window on both sides, so such a candidate stays
  within the gap of it even with room around (`CutAtTime`).

Smaller remarks stand beside these: corrected frame times can change their order, which is why they are sorted
(`FramePlacement.OrderCanFlip`); they stay in the video (`StaysInVideo`), a wide window's midpoint is its safest place
(`MidpointIsSafest`), with all cuts in the video there is room exactly when the window is wider than two gaps
(`RoomInVideo`), and uncorrected times are spaced evenly (`EvenlySpaced`); the running controllers are those of the
active sessions, one each (`Reconcile.LiveAreActive`), and starting a channel that is active would leave a loop that
nothing can stop (`Reconcile.OverwriteLeaks`).

## Model

| member | source | states |
|---|---|---|
| `Catalog.NormalizeIdempotentIff` | crates/opex-catalog/src/aliases.rs:8-16 | normalising a second time changes a model id exactly when white space stands right before the colon of its tag |
| `Catalog.Upsert` | crates/opex-catalog/src/lib.rs:317-344 | the branches on priority and context leave the map with the combined row in the slot and every other slot alone |
| `Catalog.CombineIsSlot` | crates/opex-catalog/src/lib.rs:299-344 | combining keeps a slot what its history says: the earliest best row, with the join of all reported capabilities |
| `Catalog.RecordKeepsExact` | crates/opex-catalog/src/lib.rs:209-215 | one insertion keeps every exact slot the summary of all rows so far |
| `Catalog.RecordKeepsLoose` | crates/opex-catalog/src/lib.rs:217-225 | one insertion, into one or two loose slots, keeps every loose slot the summary of all rows so far |
| `Catalog.InsertionOrderIrrelevant` | crates/opex-catalog/src/lib.rs:313-316 | the same rows in any two orders give the same slots, with the same source, context and capabilities |
| `Catalog.SlotUnique` | crates/opex-catalog/src/lib.rs:317-344 | the history determines a slot entirely; output and cost are those of the earliest of the best rows |
| `Catalog.OrderFreeIff` | crates/opex-catalog/src/lib.rs:313-344 | every order of the same rows leaves a slot the same, output and cost included, exactly when all its best rows report the same output and cost |
| `Catalog.LooseJoinsExact` | crates/opex-catalog/src/lib.rs:209-225 | each loose slot is the join, on source, context and capabilities, of all exact slots whose id, or part after the first slash, is its id |
| `Catalog.AcceptedIsFound` | crates/opex-catalog/src/lib.rs:258-288 | a model id accepted once is found by lookup for every provider type and vendor hint, whatever is inserted later |
| `Catalog.VendorRowFound` | crates/opex-catalog/src/lib.rs:248-273 | with its vendor named, an accepted model is answered from its own exact slot, for every provider type and whatever resellers list |
| `Catalog.LookupOrderIrrelevant` | crates/opex-catalog/src/lib.rs:258-288 | every lookup answers alike, up to output and cost, in catalogs built from the same rows in different orders |
| `Catalog.StoredIdFound` | crates/opex-catalog/src/lib.rs:209-288 | without a blank before its tag, an accepted row is found by its stored id too, in every later catalog |
| `Catalog.StoredIdFoundIff` | crates/opex-catalog/src/lib.rs:209-288 | in a catalog of one accepted row, the stored id finds it exactly when no blank precedes the tag of the id it was inserted under |
| `Catalog.StoredIdLostWitness` | crates/opex-catalog/src/aliases.rs:8-16 | such an id exists: a letter, a blank, a colon and a tag |
| `Catalog.ModelCatalog.Insert` | crates/opex-catalog/src/lib.rs:209-225 | the object's indexes keep summarising its history, to which an accepted row is added; a row with an empty id changes nothing |
| `CatalogLoaders.LoadModelsDev` | crates/opex-catalog/src/models_dev.rs:15-89 | the loader inserts exactly the rows with a usable context, with these defaults, and returns their number |
| `CatalogLoaders.LoadOpenRouter` | crates/opex-catalog/src/openrouter.rs:12-67 | the loader inserts exactly the rows with an id and a usable context, split at the first slash, and returns their number |
| `CatalogLoaders.MdRowsIff` | crates/opex-catalog/src/models_dev.rs:20-62 | the rows inserted from a models.dev payload are exactly those of listed models with a window of at least 1000 |
| `CatalogLoaders.OrRowsIff` | crates/opex-catalog/src/openrouter.rs:17-65 | the rows inserted from an OpenRouter payload are exactly those of elements with an id and a window of at least 1000 |
| `CatalogLoaders.LoadersCommute` | crates/opex-catalog/src/lib.rs:313-316 | running the two loaders in either order gives the same answer, up to output and cost, to every lookup |
| `CatalogLoaders.ModelsDevWins` | crates/opex-catalog/src/openrouter.rs:1-6 | after both loaders, in either order, a slot that models.dev feeds carries the largest window models.dev reports for it |
| `HandlerRegistry.ReloadKeepsValid` | toolgate/handlers/loader.py:112-152 | in every state, clashes and broken files included: paths map to distinct ids, exactly those served at workspace tier, every builtin id is served, and what is not at workspace tier is the pristine builtin |
| `HandlerRegistry.LoadAllMeans` | toolgate/handlers/loader.py:63-107 | a full scan serves workspace files first-declared-wins and builtins last-declared-wins, and satisfies the invariant |
| `HandlerRegistry.ReloadEqualsRescanIff` | toolgate/handlers/loader.py:112-135 | after a change of one file, its reload event leaves what a full scan would build exactly under a condition on the ids that other files declare |
| `HandlerRegistry.RemoveEqualsRescanIff` | toolgate/handlers/loader.py:137-152 | after a removal, its event leaves what a full scan would build exactly unless the file was serving an id that another file declares too |
| `HandlerRegistry.HotReloadTracksFolder` | toolgate/handlers/loader.py:63-152 | over any run of single-file changes during which no two files declare one id, the hot-reloaded registry equals the rescanned one |
| `HandlerRegistry.HotReloadTracksFolderIff` | toolgate/handlers/loader.py:63-152 | over any run of single-file changes, the hot-reloaded registry equals the rescanned one after every prefix exactly when every change met the exact condition where it was made |
| `HandlerRegistry.SharedIdDrifts` | toolgate/handlers/loader.py:137-152 | of two files with one id, removing the one that serves it leaves another registry than a rescan |
| `HandlerRegistry.SkippedNameReloadAgreesIff` | toolgate/handlers/loader.py:63-135 | reloading a file that the scan never lists, in a subdirectory or with a skipped name, stays in agreement with the scan exactly when that file would not register |
| `HandlerRegistry.ManifestListUnique` | toolgate/handlers/loader.py:154-186 | the manifest list sorted by (order, id), and so its hash, is the same for every dictionary order |
| `HandlerRegistry.HandlerRegistry.ReloadFile` | toolgate/handlers/loader.py:112-135 | the method on the three dictionaries is the reload of the model, and a missing file changes nothing |
| `HandlerRegistry.HandlerRegistry.Manifests` | toolgate/handlers/loader.py:154-157 | the method returns the sorted manifest list, in whatever order the dictionary yields its ids |
| `ShutdownDrain.RunInv` | crates/opex-core/src/shutdown.rs:78-139 | in every interleaving each handle is in exactly one of map, reloader, drainer list and shut down, is shut down once at most, and no lock is held while waiting or shutting down |
| `ShutdownDrain.CancelledBeforeStopped` | crates/opex-core/src/shutdown.rs:88-121 | every handle of the snapshot is cancelled before the drainer shuts anything down |
| `ShutdownDrain.TakenAreShutDown` | crates/opex-core/src/shutdown.rs:126-138 | every handle in the map when step 4 takes the write lock ends shut down |
| `ShutdownDrain.NoSurvivorIff` | crates/opex-core/src/shutdown.rs:76-77 | with both tasks at rest no agent survives exactly when the run has no insertion after the step that took the map |
| `ShutdownDrain.SurvivorReachable` | crates/opex-core/src/main.rs:1740-1761 | from every initial state there is a run, to both tasks at rest, in which an agent inserted after the drain took the map is in it and was never shut down |
| `ShutdownDrain.LateInsertSurvives` | crates/opex-core/src/main.rs:1752-1760 | a handle that waits to be inserted while the drain finishes survives it |
| `ShutdownDrain.NeverStuck` | crates/opex-core/src/shutdown.rs:88-133 | a task that is not at rest can step, unless the other one holds the lock, whose next step leaves it free |
| `ShutdownDrain.FailedReloadRestores` | crates/opex-core/src/main.rs:1763-1773 | an undisturbed reload whose creation fails leaves map and guards as they were, whether or not there was such an agent |
| `TermFixer.SpansAreChosen` | toolgate/term_fixer.py:218-230 | the engine's matches are apart, word-bounded, longest at their start and first among equals, and nothing that could match starts outside them |
| `TermFixer.ChosenUnique` | toolgate/term_fixer.py:225-230 | that description determines the spans and their alternatives |
| `TermFixer.OwnerIsMatchIff` | toolgate/term_fixer.py:224-247 | every match has an owner, by the dictionary of casefolds or else by the engine; it is the alternative matched exactly when no alternative has the match's casefold or this is the first that has it |
| `TermFixer.OtherOwnerHappens` | toolgate/term_fixer.py:233-243 | a match whose casefold is that of a longer variant of another item goes to that item, although all variants have distinct casefolds |
| `TermFixer.OnlySpansChange` | toolgate/term_fixer.py:234-258 | a rewriting that succeeds is the gaps of the text, untouched and in order, around one piece for each span; the text is the same gaps around what the spans cover |
| `TermFixer.AnnotatedOnce` | toolgate/term_fixer.py:251-256 | in a pass that succeeds, every low-confidence item with a span is annotated at exactly one, its first; its other spans come out as found |
| `TermFixer.FailsIff` | toolgate/term_fixer.py:248-249 | the pass fails exactly when the correction of some span's item is not a string |
| `TermFixer.ApplyReplacements` | toolgate/term_fixer.py:209-265 | the result is the one-pass rewriting and the flags rise exactly for items with a chosen span; on failure the text comes back and no flag is set |
| `TermCandidates.CleanVariants` | toolgate/term_fixer.py:102-124 | the result holds the first usable input of each spelling, in order, up to the cap, and misses none before it |
| `TermCandidates.DedupedHasOneOwner` | toolgate/term_fixer.py:511-520 | after deduplication every spelling belongs to one candidate, once, and was its own before |
| `TermCandidates.FirstOwnerKeeps` | toolgate/term_fixer.py:508-519 | the first candidate to list a spelling keeps it |
| `TermCandidates.DedupVariants` | toolgate/term_fixer.py:511-520 | the loops with the shared set compute that deduplication |
| `TermCandidates.SanitizeVerdicts` | toolgate/term_fixer.py:160-201 | the loop yields the corrections of the first verdict of each candidate id that passes every limit, in order |
| `TermCandidates.AcceptedIdsDistinct` | toolgate/term_fixer.py:167-177 | each accepted item carries the variants of the candidate with its own id, and no id is accepted twice |
| `TermCandidates.PipelineDeterminesSpans` | toolgate/term_fixer.py:508-520 | whatever the verdicts say, the items that reach the replacement have variants with distinct casefolds and one set of spans that meets the description; a span goes to the item whose variant was matched exactly when no other variant has its casefold |
| `TermCandidates.PipelineNeverFails` | toolgate/term_fixer.py:180-200 | whatever the verdicts say, every correction that reaches the replacement is a string, so that the pass never fails |
| `WordPacking.GreedyIsMinimal` | docker/tts-silero/server.py:69-81 | no packing of the same words into fitting groups has fewer groups than the greedy one |
| `WordPacking.ByWords` | docker/tts-silero/server.py:69-81 | a sentence over the limit becomes a contiguous grouping of its words, each group within the limit or a single word, in the fewest groups possible |
| `WordPacking.SentencesKeepWords` | docker/tts-silero/server.py:86 | splitting at sentence ends loses no word |
| `WordPacking.Split` | docker/tts-silero/server.py:84-94 | the parts have the words of the text, no two neighbours would fit into one, and all fit (or are single words) exactly when the text has a word or fits itself |
| `WordPacking.BlankTextHappens` | docker/tts-silero/server.py:84-94 | for every limit there is a text over it without a word, which is returned whole |
| `Numerals.NumToWords` | toolgate/normalize.py:84-105 | words come out exactly for absolute values below 10^12, and the reader of Russian numerals reads them back to the number |
| `Numerals.ReadsBack` | toolgate/normalize.py:84-105 | reading the printed numeral gives the number back |
| `Numerals.ReaderAcceptsOnlyPrinted` | toolgate/normalize.py:51-105 | the reader accepts no other words: what it reads is the printed form of what it returns |
| `Numerals.GroupReadsBack` | toolgate/normalize.py:51-81 | a group below 1000 reads back in its gender, and its last word asks for the declension that is computed from the number |
| `SplitText.SplitText` | channels/src/drivers/common.ts:12-82 | for a limit of at least 1 the loop ends, the chunks with what is dropped after each make up the text, and each is the prescribed cut of what remained |
| `SplitText.GoodCutUnique` | channels/src/drivers/common.ts:24-79 | the prescription leaves one choice of chunk and dropped text |
| `SplitText.NothingLost` | channels/src/drivers/common.ts:21-81 | every prefix of the chunks, each followed by its gap, is a prefix of the text |
| `SplitText.ChunksBounded` | channels/src/drivers/common.ts:8-11 | only white space is dropped; chunks are within the limit, or twice the limit with code blocks preserved |
| `SplitText.EmptyChunkIff` | channels/src/drivers/common.ts:12-82 | any chunk of the result is empty exactly when what remained was empty, or was over the limit with no code block to keep and only white space before the window's boundary |
| `SplitText.EmptyChunkHappens` | channels/src/drivers/common.ts:49-56 | a message that starts with a blank paragraph has an empty first chunk |
| `SplitText.ZeroLimitMakesNoProgress` | channels/src/drivers/common.ts:24-79 | with a limit of 0 the cut of a non-empty text takes and drops nothing |
| `SplitText.KeptBlockIsBalancedIff` | channels/src/drivers/common.ts:32-47 | a kept code block has an even number of fences exactly when the back-quotes left over at the window's end make no fence with one or two that open the rest |
| `SplitText.UnbalancedBlockHappens` | channels/src/drivers/common.ts:32-47 | a text whose kept block has three fences |
| `Bridge.RunInv` | channels/src/bridge.ts:84-343 | over every run each promise is pending in the one table of its kind or settled by one call with an outcome of its kind |
| `Bridge.ClearAllSettlesAll` | channels/src/bridge.ts:328-343 | disconnecting settles everything issued before: messages rejected, access denied, pairing calls answered empty or failed; what was settled stays |
| `Bridge.TimerSettles` | channels/src/bridge.ts:97-103 | when its timer has fired, a promise is settled |
| `Bridge.FrameIsLocal` | channels/src/bridge.ts:266-325 | a frame changes nothing about another id and calls no other id's listeners |
| `Bridge.SettledStays` | channels/src/bridge.ts:84-343 | no event changes how a promise was settled |
| `Bridge.AllowedOnlyByFrame` | channels/src/bridge.ts:296-303 | a check that came out allowed was settled by an access result with its own id and allowed set, which arrived while it was pending |
| `Bridge.BridgeHandle.HandleOutbound` | channels/src/bridge.ts:266-325 | the dispatch on the four maps is the model's step for the frame |
| `Bridge.BridgeHandle.ClearAllPending` | channels/src/bridge.ts:328-343 | the four loops and clears are the model's disconnection step |
| `ImageBudget.WindowWithinBudget` | toolgate/routers/imagegen.py:54-75 | for a clock that does not go back, windows start an hour apart or more, the counter counts the current window's requests, and no window has more than the budget |
| `ImageBudget.TwiceBudgetPerHour` | toolgate/routers/imagegen.py:23-75 | no closed interval of 3600 seconds, wherever it starts, holds more than twice the budget |
| `ImageBudget.TwiceBudgetHappens` | toolgate/routers/imagegen.py:54-75 | for every budget a run meets that bound |
| `ImageBudget.EveryHourIff` | toolgate/routers/imagegen.py:23-75 | every hour keeps the budget exactly when for each accepted request its window so far and the requests of the window before that are not yet an hour old are together within the budget |
| `ImageBudget.Limiter.Admit` | toolgate/routers/imagegen.py:46-75 | the head of the handler answers and updates its two globals as the model does; a malformed size costs nothing |
| `ProviderCache.SuccessIsCurrent` | toolgate/registry.py:162-216 | with a tag that determines the configuration, a 200 or 304 leaves the cache equal to the server's configuration and the instances built from it; anything else changes nothing |
| `ProviderCache.RunInv` | toolgate/registry.py:162-261 | in every run the tag that would be sent and the instances belong to the cached configuration |
| `ProviderCache.CacheIsLastFetch` | toolgate/registry.py:162-216 | the cache is that of the last successful fetch, at its time |
| `ProviderCache.RequestsApart` | toolgate/registry.py:171-178 | with providers cached, a request leaves at least 30 seconds after every earlier successful one |
| `ProviderCache.ServedIsFresh` | toolgate/registry.py:162-178 | while no request fails, what is served is what Core has now or had less than 30 seconds ago |
| `ProviderCache.Respond` | crates/opex-core/src/gateway/handlers/providers.rs:708-738 | Core's endpoint answers as sections 13.1.2 and 15.4.5 of RFC 9110 ask: 304 only to its current tag, else the configuration under its tag |
| `ProviderCache.SharedTagGoesStale` | toolgate/registry.py:196-199 | why the tag must determine the configuration: a shared tag makes a 304 keep the wrong one |
| `ProviderCache.ServedIff` | toolgate/registry.py:223-235 | a capability is served exactly when its active id has an instance or a provider of its own starts; the one served is of another capability exactly when the active id names such a provider |
| `ProviderCache.ProviderRegistry.Refresh` | toolgate/registry.py:162-216 | the method's branches on the time to live and the response are the model's refresh |
| `ProviderCache.ProviderRegistry.InstantiateAll` | toolgate/registry.py:242-261 | in whatever order the loop takes the providers, instances are those of the enabled ones with a known driver that accepts them |
| `ProviderCache.ProviderRegistry.GetActive` | toolgate/registry.py:223-235 | the id chosen is the active one with an instance, or the least of the capability's own |
| `LineFramer.SplitIff` | channels/src/drivers/irc.ts:134 | splitting gives the one way to write a text as CRLF-free lines joined by CRLF |
| `LineFramer.SplitAppend` | channels/src/drivers/irc.ts:131-135 | splitting two texts together is splitting the first, and then its rest together with the second, also when the cut falls between CR and LF |
| `LineFramer.FragmentsDoNotMatter` | channels/src/drivers/irc.ts:131-135 | however the decoded text is cut, the actions taken and the buffer left are those of the text in one piece |
| `Utf8.DecodeEachIff` | channels/src/drivers/irc.ts:132 | the fragments decoded one by one make up the decoded stream exactly when every cut is a boundary of its decoding, and are longer otherwise |
| `LineFramer.ByteFragmentsIff` | channels/src/drivers/irc.ts:131-135 | decoding each byte fragment by itself gives the lines of the stream decoded whole exactly when no cut falls inside a character; then the actions and the buffer are those of the stream in one piece |
| `LineFramer.NoLineWaits` | channels/src/drivers/irc.ts:131-135 | after every fragment the lines acted on and the buffer make up the stream, and the buffer holds no complete line |
| `LineFramer.PingAnswered` | channels/src/drivers/irc.ts:137-144 | after any fragments, every completed PING of the stream has been answered by one PONG with its parameters, at its place |
| `LineFramer.Socket.OnData` | channels/src/drivers/irc.ts:131-155 | the handler decodes the bytes of its fragment, updates the buffer and acts on the lines as the model does |
| `Timecodes.ReadIsMarked` | toolgate/transcript.py:13-29 | a line has a minute, or raises, exactly when it is white space, a bracketed minute and two-digit second in any digits, and a rest; other lines stay as they are |
| `Timecodes.RefusedIff` | toolgate/transcript.py:13-29 | reading a line raises exactly when its marker has a minute digit without a decimal value |
| `Timecodes.LineReads` | toolgate/transcript.py:13-29 | a printed line gives its minute and its text back exactly when its start second is not negative |
| `Timecodes.StripRestoresIff` | toolgate/transcript.py:32-45 | stripping the folded transcript returns the texts exactly when every segment with a text starts later than a second before zero, breaks it with line feeds only and has no later line that looks like a printed one |
| `Timecodes.StripTotalIff` | toolgate/transcript.py:32-45 | stripping a text returns exactly when no line of it has such a marker |
| `Timecodes.NegativeStartHappens` | toolgate/transcript.py:13-29 | a segment that starts a minute before zero is printed with a stamp that stripping leaves in place |
| `Timecodes.MinutesReadBack` | toolgate/providers/stt_openai.py:27-37 | at the first line of each segment the reader finds start div 60 for starts of any size, and nothing for negative ones |
| `Timecodes.FoldSegments` | toolgate/providers/stt_openai.py:27-37 | the loop appends one printed line per segment with a text |
| `Timecodes.ToTimestampedText` | toolgate/providers/stt_openai.py:40-51 | the lines joined, or the plain text when no segment has one |
| `Timecodes.StripTranscriptTimecodes` | toolgate/transcript.py:32-45 | the loop strips every line of the text, and fails where reading one raises |
| `Reconcile.RunInv` | channels/src/index.ts:83-227 | through the first run, overlapping polls, restarts, thrown types, a crash and shutdown loops, one reconcile run at most is under way, running controllers match active sessions, and a shutdown loop has no session behind it |
| `Reconcile.ExitLeavesNothing` | channels/src/index.ts:219-227 | when a shutdown loop has come to its end, and the process exits without a crash, no session is active and no loop running, whatever was started while it waited |
| `Reconcile.Progress` | channels/src/index.ts:155-189 | from every phase a run under way can go on; each step brings it nearer to its end and does not change where that is |
| `Reconcile.UninterruptedRun` | channels/src/index.ts:155-189 | every run that nothing interrupts ends after finitely many steps, where the sequential form says, thrown or not |
| `Reconcile.ReconciledMeans` | channels/src/index.ts:155-189 | exactly when a run throws, and what each channel of the snapshot has after it: the same session, a new one or none |
| `Reconcile.StartupCrashesIff` | channels/src/index.ts:208-235 | left alone, the first run ends where the sequential form does; when that throws the process has crashed with the sessions started so far, and otherwise polling begins |
| `Reconcile.ActiveAfterReconcile` | channels/src/index.ts:155-189 | with known types, active are exactly the channels of the snapshot with a credential, or active before and not to be restarted |
| `Reconcile.FailedFetchHarmlessIff` | channels/src/index.ts:60-75 | a run whose fetch failed ends with every session stopped, and changes nothing exactly when none was active |
| `Reconcile.FailedFetchHappens` | channels/src/index.ts:60-75 | with one session active, a failed fetch stops it |
| `Reconcile.ReconcileTwice` | channels/src/index.ts:155-189 | repeating a snapshot with nothing pending changes nothing, even when it throws |
| `Reconcile.ChannelManager.Reconcile` | channels/src/index.ts:144-153 | a poll during a run does nothing; otherwise the loops compute the sequential form, and the guard opens again even after a throw |
| `FramePlacement.ClearIff` | toolgate/video_helpers.py:243-273 | wherever the cuts are, the corrected time is farther than the gap from every cut exactly when the time was, or there is room: a window wider than two gaps, and a gap before the video's end that the time is clamped to |
| `FramePlacement.KeptCovers` | toolgate/video_helpers.py:310-316 | every candidate is within a second of a kept one: nothing more could have been kept |
| `FramePlacement.Place` | toolgate/video_helpers.py:276-317 | the times are sorted, a second apart or more, in the video, at least one and at most count and duration plus one, and are the kept candidates; a duration that is not positive is an error |
| `FramePlacement.FramesClear` | toolgate/video_helpers.py:308-317 | every frame is clear of all cuts when each candidate had none near or room to move |
| `FramePlacement.UniformKeptIff` | toolgate/video_helpers.py:278-286 | without cuts all frames are kept exactly when there is one, or each has a second or more |

## Left out

- Catalog: provider metadata (`insert_provider`, the preset picker), the process-wide lock and the interning of
  unmapped provider types. JSON values are records with optional fields; a cost is absent unless both rates parse.
- Catalog: `to_ascii_lowercase` is exact; letters outside ASCII are left alone there as here.
- HandlerRegistry: descriptor parsing and module import are inputs (`Source`), a handler's code is a string, paths are
  file names of one directory, and the hash of the manifest list is not computed. Listings are given sorted.
- ShutdownDrain: one drainer and one reloader that performs any number of reloads. The guard map's own lock is one
  step, and waiting for an engine to become idle always ends, by timeout if need be.
- TermFixer: the regular expression engine is its matching rule for an alternation of literals, with a case folding
  per character. Glossary, prompts and searches are not modelled.
- TermCandidates: the checks of a single candidate outside its variants (`normalize_candidate`), windows and caps on
  the number of candidates.
- WordPacking: speech synthesis and accents. Lengths are in characters of the model's strings.
- Numerals: words are tokens rather than spellings; joining them with blanks loses nothing because none contains one.
- SplitText: UTF-16 surrogate pairs, and negative limits.
- Bridge: a promise is named by the id of the request that created it; ids come from a counter shared by all bridges,
  whose other users are the event `ForeignId`. Payloads that the bridge only forwards are not carried.
- ImageBudget: the provider call behind the budget; a request that fails later has still used its unit.
- ProviderCache: a class either accepts given settings or not, each time alike; the two locks are atomic steps, and
  the authorization header is not modelled.
- LineFramer: the patterns for messages and CTCP requests get the line unread (`Match`), and reconnecting is not
  modelled.
- Timecodes: the streaming reader of segments is not modelled.
- Reconcile: acknowledgements are points where other activity may come in. A Map keeps the holes of deleted entries,
  which an engine closes up unseen; the health report is not modelled. The process goes on when a later poll throws;
  what a runtime does about that unhandled rejection is not part of the model. A session loop runs until its
  controller is aborted.
- FramePlacement: probing, cut detection and frame extraction are inputs or follow afterwards; an unreadable frame is
  skipped, which keeps order and distance.
- The Telegram busy queue, reconnect backoff, provider tables, regular-expression pipelines, SQL, OAuth and HTTP
  plumbing.
