# Verified model of the PIH text, CUDA and verifier core

PIH serves language models through native plugins.  This project models the parts of it whose
correctness is hardest to see from the code, and proves what they promise.

- **Completions.**  The streaming decoder of DeepSeek completions is a class whose state is proved to be
  a one-pass reading of everything fed so far.  From that follow independence of the chunking, exact
  agreement with the strict parser, and what a truncated turn may leave out.  The DSML printer and parser
  undo each other exactly on clean input, and message preprocessing conserves its blocks.
- **Tokenizer.**  Admission, isolated splitting, greedy byte-pair merging, decoding and incremental UTF-8
  decoding.  Merging is proved to be local, which gives the exact condition under which decoding undoes
  encoding, and an admitted inventory that does not meet it.
- **CUDA provider.**  A class over the provider's maps with a ghost driver beside it, and what holds after
  every run of calls under any pattern of failures: ownership, lifecycle, quarantine, containment of copies.
- **Worker pool.**  All interleavings of one serving thread and its workers.
- **Verifiers.**  Typed hash preimages and what a closure root binds, the shard layout and its two readers,
  the paired performance verdict, and the dependency worklist.

`Scan` in `CompletionScan`, `Merges` in `BytePairMerging`, `Sort` in `StableSort`, `ExactCover` in
`PayloadRanges`, `Dominates` in `PairedEvidence` and `Reachable` in `ReleaseClosure` are reference
definitions that the code is compared with; they do not follow its control flow.  So are the reader of
argument objects in `ToolArguments`, the order of results in `MessageOrder`, greedy merging by the list of
merges in `TokenizerTables`, the placement of copies in `CudaCopies` and the sums over requests in
`EvidenceTotals`: they state what tables, orders, ranges and totals mean from the inputs alone.

Exceptions, error statuses and refusals are values: `None`, `Err`, a status or a verdict.  Bytes are numbers
below 256, and 64-bit arithmetic is written out where the code relies on it.

Where the code falls short of a property, a concrete input shows it and the exact condition is proved instead:

- a provider tracks every grant if and only if the driver never answers with handle zero
  (`ZeroHandleLeaks`, `TracksEverythingExactly`);
- a call follows a null pointer if and only if it hands a null context to one of the four lifecycle functions
  that do not test it, or releases an empty block into a slot whose allocator was never created
  (`NullContextIsFollowed`, `EmptySlotIsFollowed`, `UndefinedExactly`);
- pieces decode back if and only if no token shares its id with other text (`AdmissionIsNotEnough`,
  `PiecesRoundTripExactly`);
- grouped decoding agrees with whole decoding if and only if the whole fits and only silent tokens follow a
  stop, or the whole and some group do not fit (`StopHidesLaterGroups`, `WholeCanBeTooLarge`,
  `GroupsDecodeTogether`);
- a turn survives printing and parsing if and only if it is UTF-8 within the limit and its parts are clean
  (`DelimiterInValueIsLost`, `TurnRoundTrips`, and `HistoryRoundTrips` for the printer's own input).

The status `Undefined` of the provider stands for what the code does not define: it follows a pointer that is
null.  Runs may make any call at any time; where it matters that the entry point hands out the pointers to all
other functions, `Possible` says so.  Behind an undefined call a run of the model goes on as if nothing had happened, which
the code does not promise.

## Model

| member | source | states |
|---|---|---|
| `Markers.MarkersAreAntichain` | plugins/common/deepseek_completion_decoder.cpp:10-13 | no marker is a prefix of another |
| `Markers.StopsDoNotOverlap` | plugins/common/deepseek_completion_decoder.cpp:10-13 | no EOS, tool-call opening or think terminator begins inside a marker or runs across its end |
| `Markers.DsmlInside` | plugins/common/deepseek_completion_decoder.cpp:47-48 | the tool-call opening is the only marker with the DSML token strictly inside it, and a proper prefix that holds it has at least 13 bytes |
| `CompletionScan.ScanMarker` | plugins/common/deepseek_completion_decoder.cpp:59-67 | at a marker the reference reading is determined by that marker and the phase |
| `CompletionScan.ScanResumes` | plugins/common/deepseek_completion_decoder.cpp:41-69 | the reference reading of a longer text resumes the reading of its front, wherever the front ends |
| `CompletionScan.ScanConserves` | plugins/common/deepseek_completion_decoder.cpp:35-69 | a successful reading splits the text into reasoning, terminator, content and a remainder that is held text, a tool block or EOS: nothing lost, added or reordered |
| `CompletionScan.ScanEmitsPlain` | plugins/common/deepseek_completion_decoder.cpp:41-59 | no marker stands or can begin at an emitted position |
| `CompletionAgreement.AnswerAgrees` | plugins/common/deepseek_encoding.cpp:331-341 | the strict parse of an answer and the reading of the same text agree on content and calls, and otherwise the parse fails or its content holds a structural token |
| `CompletionAgreement.ParserAgrees` | plugins/common/deepseek_encoding.cpp:324-344 | the strict parser returns exactly what the finished reference reading gives, for every UTF-8 text within 8 MiB |
| `CompletionDecoder.FirstMarker` | plugins/common/deepseek_completion_decoder.cpp:42-46 | finds the earliest occurrence of any of the six markers and misses none before it |
| `CompletionDecoder.LongestPrefix` | plugins/common/deepseek_completion_decoder.cpp:51-53 | the longest suffix above a given length that is a proper prefix of one marker |
| `CompletionDecoder.Retained` | plugins/common/deepseek_completion_decoder.cpp:49-54 | the held suffix can still become a marker, and no longer suffix can |
| `CompletionDecoder.NextEvent` | plugins/common/deepseek_completion_decoder.cpp:42-60 | one pass of the loop: how far plain text reaches and which marker follows, tied to the reference reading of the whole held text |
| `CompletionDecoder.DeepSeekCompletionDecoder.constructor` | plugins/common/deepseek_completion_decoder.h:10 | a new decoder holds the reading of the empty text |
| `CompletionDecoder.DeepSeekCompletionDecoder.Emit` | plugins/common/deepseek_completion_decoder.cpp:14-40 | moves a front of the held text to reasoning or content and to the delta; together the texts stay within 8 MiB, so no append is ever refused |
| `CompletionDecoder.DeepSeekCompletionDecoder.Consume` | plugins/common/deepseek_completion_decoder.cpp:41-69 | the marker loop leaves phase, held text, reasoning, content and delta as the one-pass reading does, or reports its error |
| `CompletionDecoder.DeepSeekCompletionDecoder.Feed` | plugins/common/deepseek_completion_decoder.cpp:27-70 | a feed succeeds and ends exactly as the reading that goes on from the held text; the invariant that the state is the reading of everything fed is kept |
| `CompletionDecoder.DeepSeekCompletionDecoder.Finish` | plugins/common/deepseek_completion_decoder.cpp:72-93 | a stopped turn yields the calls of the strict parse; a truncated one makes no calls, tells its held text or drops it when that already shows the DSML token (`TruncatedTurn` says so from the raw text); the mismatch error is never raised |
| `CompletionDecoder.NeverMismatched` | plugins/common/deepseek_completion_decoder.cpp:76-79 | in every reachable state a successful strict parse has the content and reasoning already emitted |
| `CompletionRuns.RunReadsText` | plugins/common/deepseek_completion_decoder.cpp:27-70 | a run of feeds succeeds exactly when the concatenated text has a reading, and then holds it |
| `CompletionRuns.ChunkingIndependence` | plugins/common/deepseek_completion_decoder.cpp:27-70 | for every cut into UTF-8 pieces: fails exactly when the whole fails, otherwise the same state and the same concatenated deltas |
| `CompletionRuns.StreamingRefinesStrictParser` | plugins/common/deepseek_completion_decoder.cpp:72-81 | a stopped turn, cut anyhow, succeeds if and only if the strict parser accepts the text, and yields exactly the parsed message |
| `CompletionRuns.DeltasSpellMessage` | plugins/common/deepseek_completion_decoder.cpp:69-100 | the concatenated deltas of any run are the final message |
| `CompletionRuns.TruncatedTurn` | plugins/common/deepseek_completion_decoder.cpp:82-92 | a truncated turn has no calls, its content and reasoning never hold the DSML token, and the raw text is what it tells, followed by exactly EOS, a tool block, or the whole held text if that shows the DSML token and nothing otherwise |
| `CompletionRuns.DroppedTextOpensTools` | plugins/common/deepseek_completion_decoder.cpp:84-88 | held text that is dropped is a proper prefix of the tool opening of at least 13 bytes |
| `CompletionCursor.Until` | plugins/common/deepseek_encoding.cpp:256-260 | the moving cursor finds the earliest stop, ties by the order of the list, and stands behind it |
| `CompletionCursor.ReadParameter` | plugins/common/deepseek_encoding.cpp:291-314 | reads one parameter and the tag behind it, or refuses, as the grammar function does |
| `CompletionCursor.ReadParameters` | plugins/common/deepseek_encoding.cpp:289-314 | reads all parameters of a call and builds the arguments text within 8 MiB, whose content `ArgumentsReadBack` states |
| `CompletionCursor.ReadInvoke` | plugins/common/deepseek_encoding.cpp:281-318 | reads one call, including the zero-parameter form with its extra line |
| `CompletionCursor.ReadCalls` | plugins/common/deepseek_encoding.cpp:271-321 | reads at most 128 calls up to the closing tag |
| `CompletionCursor.ReadAnswer` | plugins/common/deepseek_encoding.cpp:331-338 | reads content, an optional tool block and the final EOS |
| `CompletionCursor.ReadCompletion` | plugins/common/deepseek_encoding.cpp:324-344 | the imperative parser computes the strict parser function; the arguments it hands out read back to the parameters (`CompletionArgumentsReadBack`) |
| `ToolArguments.UnquotedBody` | plugins/common/text_json.cpp:16-45 | a reader of quoted strings, written apart, undoes the quoting of every text, whatever follows |
| `ToolArguments.ArgumentsAreObject` | plugins/common/deepseek_encoding.cpp:291-320 | the arguments text exists if and only if keys and string values are UTF-8 and the object is within 8 MiB, and is then that object |
| `ToolArguments.ArgumentsReadBack` | plugins/common/deepseek_encoding.cpp:309-311 | a reader of objects, written apart and given only the texts of the bare values, gets back keys, kinds and values in their order |
| `ToolArguments.StringArgumentsReadBack` | plugins/common/deepseek_encoding.cpp:309-311 | an object of strings reads back with nothing given |
| `ToolArguments.CompletionArgumentsReadBack` | plugins/common/deepseek_encoding.cpp:324-344 | the arguments of every call of every parsed completion read back to its parameters |
| `DsmlRenderer.RenderParameter` | plugins/common/deepseek_encoding.cpp:155-159 | appends exactly one parameter element, within the byte budget |
| `DsmlRenderer.RenderInvoke` | plugins/common/deepseek_encoding.cpp:145-161 | appends exactly one call, parameters separated by line breaks |
| `DsmlRenderer.RenderCalls` | plugins/common/deepseek_encoding.cpp:140-164 | fails exactly beyond 128 calls, for arguments that are JSON but no object, or over 1 MiB; otherwise yields the rendered block, invalid JSON wrapped as one string parameter |
| `DsmlRoundTrip.CallParses` | plugins/common/deepseek_encoding.cpp:281-318 | a rendered call with clean name and parameters parses back to itself, zero parameters included |
| `DsmlRoundTrip.BlockParses` | plugins/common/deepseek_encoding.cpp:271-321 | a rendered nonempty block followed by EOS parses back to its calls |
| `DsmlRoundTrip.ParsedCallsAreClean` | plugins/common/deepseek_encoding.cpp:271-321 | every list of calls the parser returns has distinct keys and avoids the delimiters it searched for |
| `DsmlRoundTrip.ParsedCompletionIsClean` | plugins/common/deepseek_encoding.cpp:324-344 | content and reasoning of a parsed completion hold no structural token and its calls are clean |
| `DsmlRoundTrip.TurnRoundTrips` | plugins/common/deepseek_encoding.cpp:231-238 | for every turn: printing and parsing gives back reasoning, content and calls if and only if the text is UTF-8 within 8 MiB, unshown reasoning is empty, and the parts are clean |
| `DsmlRoundTrip.RenderedIsValid` | plugins/common/deepseek_encoding.cpp:140-164 | calls whose names, keys and values are UTF-8 are printed as UTF-8 |
| `DsmlRoundTrip.DelimiterInValueIsLost` | plugins/common/deepseek_encoding.cpp:291-314 | a concrete turn, UTF-8 and small, whose parameter value holds the closing tag of a parameter does not come back, whatever JSON accepts |
| `DsmlHistory.RenderTurn` | plugins/common/deepseek_encoding.cpp:230-238 | prints an assistant message behind the prompt so far: refused exactly beyond 128 calls, for arguments that are JSON but no object, or over 1 MiB; otherwise the prompt and the assistant turn of the calls of the history |
| `DsmlHistory.HistoryRoundTrips` | plugins/common/deepseek_encoding.cpp:140-164 | for every history: parsing the printed turn gives reasoning, content, and the names and parameters of the calls if and only if the turn is UTF-8 within 8 MiB, unshown reasoning is empty, the parts are clean, and every call has an arguments text |
| `DsmlHistory.HistoryIsRetold` | plugins/common/deepseek_encoding.cpp:140-164 | when a printed history comes back, each call has its name, the members of its arguments or, when those are no JSON, their text under one string key, and arguments that read back to them |
| `DsmlNormalForm.ParsedCompletionIsValid` | plugins/common/deepseek_encoding.cpp:324-344 | content, reasoning, names, keys and values of every parsed completion are UTF-8 |
| `DsmlNormalForm.PrintingIsNormal` | plugins/common/deepseek_encoding.cpp:231-238 | for every text the parser accepts, the turn printed from its message is UTF-8, and parses to the same message if and only if it is within 8 MiB |
| `StableSort.SortIsStable` | plugins/common/deepseek_encoding.cpp:122 | the sort is ordered and keeps the order of elements that compare equal |
| `StableSort.StableOrderIsUnique` | plugins/common/deepseek_encoding.cpp:122 | any two stable orders of the same elements are equal, so the sorting algorithm does not matter |
| `MessagePreprocessing.Merge` | plugins/common/deepseek_encoding.cpp:86-106 | the merging loop, thrown exactly when some message throws |
| `MessagePreprocessing.MergingConserves` | plugins/common/deepseek_encoding.cpp:86-106 | one item per source message, in source order, across blocks and kept messages |
| `MessagePreprocessing.MergingIsThorough` | plugins/common/deepseek_encoding.cpp:94-104 | user turns stand side by side only where a text message follows a turn with a task; the content of a turn is the text it began with |
| `MessagePreprocessing.BuildOrder` | plugins/common/deepseek_encoding.cpp:110-116 | files each id under its position, refusing ids that are no strings |
| `MessagePreprocessing.OrderIsLastIndex` | plugins/common/deepseek_encoding.cpp:110-116 | an id is filed if and only if some call carries it, under the last such call |
| `MessagePreprocessing.CollectResults` | plugins/common/deepseek_encoding.cpp:119-120 | the tool results in their order |
| `MessagePreprocessing.PutInPlace` | plugins/common/deepseek_encoding.cpp:123-124 | writes results back in place, position by position |
| `MessagePreprocessing.Reorder` | plugins/common/deepseek_encoding.cpp:118-125 | collects, sorts and writes back the tool results; `ResultsFollowCalls` states the order from the messages |
| `MessagePreprocessing.ReorderingIsStable` | plugins/common/deepseek_encoding.cpp:117-126 | text blocks keep their places, results stay where results stood, ordered by the given ranks and stable, with the multiset of blocks unchanged; `ResultsFollowCalls` states the order from the messages |
| `MessagePreprocessing.AnyStableSortAgrees` | plugins/common/deepseek_encoding.cpp:122-124 | whatever stable algorithm sorts the results, the blocks come out the same |
| `MessagePreprocessing.Arrange` | plugins/common/deepseek_encoding.cpp:107-127 | the second pass in place over the merged messages |
| `MessagePreprocessing.ArrangingIsLocal` | plugins/common/deepseek_encoding.cpp:107-127 | the second pass changes only blocks of user turns, each by the order of the latest assistant calls before it |
| `MessagePreprocessing.Preprocess` | plugins/common/deepseek_encoding.cpp:83-129 | both passes behind the bound of 1 to 128 messages; `PreprocessingThrows` and `ResultsFollowCalls` state the outcome from the messages |
| `MessagePreprocessing.PreprocessingConserves` | plugins/common/deepseek_encoding.cpp:83-129 | the blocks and kept messages of the result are, as a multiset, those of the source messages |
| `MessageOrder.MergingTells` | plugins/common/deepseek_encoding.cpp:86-106 | merging throws if and only if some message does, and otherwise tells every message by one item that has its text, its id or the message itself, in order |
| `MessageOrder.MergingKeepsMembers` | plugins/common/deepseek_encoding.cpp:94-104 | every merged user turn has text, task, end marker and mask of the user message that began it, or none of them when a tool message did, and no text joins a turn with a task |
| `MessageOrder.PreprocessingThrows` | plugins/common/deepseek_encoding.cpp:83-116 | preprocessing throws if and only if there are no or more than 128 messages, or some message throws or has calls without readable ids |
| `MessageOrder.ResultsFollowCalls` | plugins/common/deepseek_encoding.cpp:107-127 | in every user turn results follow the last calls that carry their ids, in the latest assistant message with calls, an id no call carries counting as first; results with the same place keep their order and texts keep their places |
| `Utf8.UnitIsMaximalSubpart` | plugins/common/bytelevel_tokenizer.cpp:271-277 | each replaced unit is the maximal subpart that section 3.9 of the Unicode Standard prescribes |
| `Utf8.RepairFixesExactlyValid` | plugins/common/bytelevel_tokenizer.cpp:172-174 | decoding and encoding again leaves a byte string unchanged if and only if it is valid UTF-8 |
| `Utf8.RepairIsValid` | plugins/common/bytelevel_tokenizer.cpp:271-277 | the repaired text is always valid UTF-8 |
| `Utf8.WellFormedIsEncoded` | plugins/common/bytelevel_tokenizer.cpp:271-277 | every well-formed character is the encoding of its scalar value |
| `Utf8.EncodedIsWellFormed` | plugins/common/bytelevel_tokenizer.cpp:271-277 | the encoding of every scalar value is well-formed and has that value; the replacement is that of U+FFFD |
| `ByteAlphabet.FillAlphabet` | plugins/common/bytelevel_tokenizer.cpp:138-145 | the loop fills the 256 letters and a map that inverts them |
| `ByteAlphabet.UnspellSpell` | plugins/common/bytelevel_tokenizer.cpp:225-235 | every byte string comes back from its spelling in the byte alphabet |
| `BytePairMerging.PairKeyIsUnambiguous` | plugins/common/bytelevel_tokenizer.cpp:16-18 | the NUL-joined key determines both symbols as soon as they hold no NUL, whatever the other spellings hold |
| `BytePairMerging.FindBest` | plugins/common/bytelevel_tokenizer.cpp:208-213 | finds the leftmost pair of the lowest rank, or none exactly when no pair has a rank |
| `BytePairMerging.MergeSymbols` | plugins/common/bytelevel_tokenizer.cpp:207-216 | the merge loop ends in the irreducible end of a greedy run |
| `BytePairMerging.MergingIsDeterministic` | plugins/common/bytelevel_tokenizer.cpp:207-216 | greedy merging has one outcome |
| `BytePairMerging.MergingKeepsText` | plugins/common/bytelevel_tokenizer.cpp:214-215 | merging never changes the concatenation |
| `BytePairMerging.MergingStaysKnown` | plugins/common/bytelevel_tokenizer.cpp:117-118 | symbols stay in the vocabulary when every ranked pair was admitted with its concatenation |
| `BytePairLocality.StretchMergesAlone` | plugins/common/bytelevel_tokenizer.cpp:207-216 | the merges inside a stretch that survives as one symbol are the merges of that stretch alone |
| `TokenizerAdmission.FillAdded` | plugins/common/bytelevel_tokenizer.cpp:69-84 | accepts exactly the supported added tokens with distinct texts and ids |
| `TokenizerAdmission.FillVocab` | plugins/common/bytelevel_tokenizer.cpp:93-97 | accepts exactly in-range entries with distinct texts and ids |
| `TokenizerAdmission.FillRanks` | plugins/common/bytelevel_tokenizer.cpp:108-119 | accepts exactly merges of entries into an entry, without repeated keys; the rank of a pair is the place of its merge (`RanksAreListed`) |
| `TokenizerAdmission.Admit` | plugins/common/bytelevel_tokenizer.cpp:69-145 | admits an inventory if and only if every check on added tokens, entries, merges and byte letters holds, and builds its tables; `AdmissibleExactly`, `TablesAreListed` and `RanksAreListed` state both from the lists |
| `TokenizerTables.AdmissibleExactly` | plugins/common/bytelevel_tokenizer.cpp:69-145 | admission from the lists: distinct supported added tokens with the expected ones among them, distinct in-range entries with a letter for every byte, merges of entries into an entry without repeated keys, dense ids outside Qwen |
| `TokenizerTables.TablesAreListed` | plugins/common/bytelevel_tokenizer.cpp:69-97 | the tables of an admitted tokenizer hold every listed token and entry with its id and text, and nothing else |
| `TokenizerTables.RanksAreListed` | plugins/common/bytelevel_tokenizer.cpp:98-119 | a pair of symbols has a rank if and only if some merge joins it, and the rank is the place of that merge in the list |
| `TokenizerTables.EncodingFollowsList` | plugins/common/bytelevel_tokenizer.cpp:207-216 | the symbols of a piece are the outcome of joining the leftmost place of the earliest listed merge until no listed merge stands, and nothing else is |
| `TokenizerTables.EncodedIdsAreInRange` | plugins/common/bytelevel_tokenizer.cpp:148-220 | every id an admitted tokenizer encodes to is below its vocabulary size |
| `TokenizerEncoding.CharactersSpellText` | plugins/common/bytelevel_tokenizer.cpp:172-175 | the characters of a valid text concatenate to it |
| `TokenizerEncoding.Isolate` | plugins/common/bytelevel_tokenizer.cpp:184-196 | keeps every match and every gap as a piece, refusing exactly unordered or empty matches |
| `TokenizerEncoding.IsolatedCutsAtEdges` | plugins/common/bytelevel_tokenizer.cpp:184-196 | a piece ends exactly at the end of the text and at the edges of the matches, and no piece is empty |
| `TokenizerEncoding.SplitText` | plugins/common/bytelevel_tokenizer.cpp:175-199 | applies the split stages one after the other to every piece |
| `TokenizerEncoding.SplitConserves` | plugins/common/bytelevel_tokenizer.cpp:175-199 | splitting loses nothing, for any matchers |
| `TokenizerEncoding.StagesCompose` | plugins/common/bytelevel_tokenizer.cpp:175-199 | later stages cut what the first stages have left, refusals included |
| `TokenizerEncoding.LookupNeverFails` | plugins/common/bytelevel_tokenizer.cpp:217 | the vocabulary lookup behind the merge loop never fails for a sound tokenizer |
| `TokenizerEncoding.EncodePiece` | plugins/common/bytelevel_tokenizer.cpp:201-218 | the ids of one piece, refused exactly beyond 8192 bytes |
| `TokenizerEncoding.EncodePlain` | plugins/common/bytelevel_tokenizer.cpp:171-220 | the ids of a text without added tokens, refused when it is not UTF-8 or a stage fails |
| `TokenizerEncoding.EncodeText` | plugins/common/bytelevel_tokenizer.cpp:166-169 | the same behind the bound of 1 MiB |
| `TokenizerEncoding.FindSpecial` | plugins/common/bytelevel_tokenizer.cpp:152-158 | the nearest added token, the longest one at that place |
| `TokenizerEncoding.NearestIsUnique` | plugins/common/bytelevel_tokenizer.cpp:152-158 | leftmost-longest determines the added token |
| `TokenizerEncoding.LongestTokenIsTaken` | plugins/common/bytelevel_tokenizer.cpp:148-164 | where no added token begins before, and none longer at the same place, the text is encoded as its plain front, the id of that token, and the rest |
| `TokenizerEncoding.Encode` | plugins/common/bytelevel_tokenizer.cpp:148-164 | consumes the text up to each nearest added token, as the recursive reading does |
| `TokenDecoding.DecodeBytes` | plugins/common/bytelevel_tokenizer.cpp:259-269 | the bytes before the first stop, refused for an unmapped token or beyond 8 MiB |
| `TokenDecoding.FindLastStart` | plugins/common/bytelevel_tokenizer.cpp:284-285 | steps back to the last byte that is no continuation |
| `TokenDecoding.DecodeIncremental` | plugins/common/bytelevel_tokenizer.cpp:279-296 | releases everything but an unfinished last character, everything on the final call |
| `TokenDecoding.ReleaseIsSafe` | plugins/common/bytelevel_tokenizer.cpp:281-294 | releasing commutes with whatever bytes come later, ill-formed bytes included |
| `TokenDecoding.StreamedText` | plugins/common/bytelevel_tokenizer.cpp:279-296 | over any grouping of bytes the released text and the held bytes repair to the whole, and at most 3 bytes are held |
| `TokenDecoding.DecodesIffFits` | plugins/common/bytelevel_tokenizer.cpp:259-269 | ids are refused if and only if one before the first stop is unmapped or they stand for more than 8 MiB |
| `TokenDecoding.GroupsDecodeTogether` | plugins/common/bytelevel_tokenizer.cpp:259-269 | for all groups of ids: decoding one by one and decoding the concatenation agree, refusals included, if and only if the whole fits and behind a group with a stop every id before the first stop of a later group stands for no bytes, or the whole does not fit and neither does some group |
| `TokenDecoding.StreamingEqualsBatch` | plugins/common/bytelevel_tokenizer.cpp:271-296 | for every grouping of ids without a stop before the end, streaming with a final flush equals decoding the whole |
| `TokenizerRoundTrip.AdmittedIsSane` | plugins/common/bytelevel_tokenizer.cpp:69-145 | an admitted tokenizer has a letter for every byte, ranked pairs with entries, and mutually inverse tables |
| `TokenizerRoundTrip.TokenStandsAlone` | plugins/common/bytelevel_tokenizer.cpp:205-217 | every token of a piece is the encoding of the bytes it stands for, alone |
| `TokenizerRoundTrip.TokenRoundTripsExactly` | plugins/common/bytelevel_tokenizer.cpp:222-235 | one token comes back as bytes if and only if no added token with other text, and no stop, has its id |
| `TokenizerRoundTrip.TokenTextRoundTripsExactly` | plugins/common/bytelevel_tokenizer.cpp:166-236 | a UTF-8 token encoded as text decodes to its bytes under the same condition, and to its text if and only if an added token with its id is no stop and repairs to it |
| `TokenizerRoundTrip.PieceRoundTrips` | plugins/common/bytelevel_tokenizer.cpp:201-236 | a piece decodes back when no token shares its id with other text |
| `TokenizerRoundTrip.PiecesRoundTripExactly` | plugins/common/bytelevel_tokenizer.cpp:222-236 | every piece decodes back if and only if no token shares its id with other text |
| `TokenizerRoundTrip.DisjointIsHarmless` | plugins/common/bytelevel_tokenizer.cpp:102-106 | ids that merging can produce being no added ids is enough |
| `TokenizerRoundTrip.TextRoundTrips` | plugins/common/bytelevel_tokenizer.cpp:166-169 | for every such admitted tokenizer, every split and every accepted text, decoding undoes encoding |
| `TokenizerRoundTrip.MarkedTextRoundTrips` | plugins/common/bytelevel_tokenizer.cpp:148-164 | the same for text with added tokens in the families that keep their spelling |
| `TokenizerCollision.AdmissionIsNotEnough` | plugins/common/bytelevel_tokenizer.cpp:85-97 | an admitted inventory whose letter for "A" has the id of an added token encodes the text "A" and decodes nothing |
| `TokenizerCollision.StopHidesLaterGroups` | plugins/common/bytelevel_tokenizer.cpp:259-269 | groups of ids of an admitted tokenizer: a stop in the first hides the letter, or the unmapped id, of the second from the whole, but not from grouped decoding |
| `TokenizerCollision.WholeCanBeTooLarge` | plugins/common/bytelevel_tokenizer.cpp:259-269 | groups of the same tokenizer that fit one by one and are refused as a whole |
| `CudaProvider.Provider.constructor` | plugins/backend-nvidia-cuda/entrypoint.cpp:29-54 | a new provider is in phase 0, owns nothing and satisfies the invariant every method keeps |
| `CudaProvider.Provider.AllocateDevice` | plugins/backend-nvidia-cuda/entrypoint.cpp:190-249 | every outcome of a device allocation, with the driver beside it: refused, tracked, given back, or lost with ownership corrupted; the invariant is kept |
| `CudaProvider.Provider.AllocatePinnedHost` | plugins/backend-nvidia-cuda/entrypoint.cpp:297-349 | the same for pinned host memory |
| `CudaProvider.Provider.DeallocateDevice` | plugins/backend-nvidia-cuda/entrypoint.cpp:251-295 | only the exact tracked handle is released and forgotten; only the release of an empty block can meet a slot without an allocator; the invariant is kept |
| `CudaProvider.Provider.DeallocatePinnedHost` | plugins/backend-nvidia-cuda/entrypoint.cpp:351-393 | the same for pinned host memory, where the missing allocator is always refused |
| `CudaProvider.Provider.RollbackPrimaryContext` | plugins/backend-nvidia-cuda/entrypoint.cpp:104-119 | gives a retained context back; anything short of a clean rollback corrupts ownership |
| `CudaProvider.Provider.RetainPrimaryContext` | plugins/backend-nvidia-cuda/entrypoint.cpp:487-535 | counts a retained context, rolls back conflicts and counter overflow |
| `CudaProvider.Provider.ReleasePrimaryContext` | plugins/backend-nvidia-cuda/entrypoint.cpp:716-771 | refused while streams or events live; otherwise one count and one grant less |
| `CudaProvider.Provider.CreateStream` | plugins/backend-nvidia-cuda/entrypoint.cpp:563-608 | every outcome of creating a stream |
| `CudaProvider.Provider.CreateEvent` | plugins/backend-nvidia-cuda/entrypoint.cpp:610-654 | every outcome of creating an event |
| `CudaProvider.Provider.DestroyStream` | plugins/backend-nvidia-cuda/entrypoint.cpp:686-714 | the tracked stream and its grant go together |
| `CudaProvider.Provider.DestroyEvent` | plugins/backend-nvidia-cuda/entrypoint.cpp:656-684 | the tracked event and its grant go together |
| `CudaProvider.Provider.DoDrain` | plugins/backend-nvidia-cuda/entrypoint.cpp:1340-1357 | phase 4 to 5, refused with anything tracked or ownership corrupted; on success the driver holds no nonzero handle |
| `CudaProvider.Provider.DoStop` | plugins/backend-nvidia-cuda/entrypoint.cpp:1358-1368 | phase 5 to 6, or 3 to 6; on success the driver holds no nonzero handle |
| `CudaProvider.Provider.DoDispose` | plugins/backend-nvidia-cuda/entrypoint.cpp:1369-1398 | clears everything and ends in phase 7; on success the driver holds no nonzero handle |
| `CudaProvider.Provider.OwnsRange` | plugins/backend-nvidia-cuda/entrypoint.cpp:152-177 | the loop over the blocks finds one if and only if the nonempty range at a nonzero address lies inside a tracked block of its kind and device |
| `CudaProvider.Provider.DoCopyH2d` | plugins/backend-nvidia-cuda/entrypoint.cpp:395-435 | every nonempty range the driver is made to touch lies inside a block it has granted on the device |
| `CudaProvider.Provider.DoCopyAsync` | plugins/backend-nvidia-cuda/entrypoint.cpp:891-958 | every device and pinned range the driver is made to touch lies inside a granted block, device ranges on the prepared device; `AsyncCopyExactly` ties these ranges to the two sides of the call |
| `CudaProvider.Provider.DoMemsetAsync` | plugins/backend-nvidia-cuda/entrypoint.cpp:960-995 | the device range the driver is made to touch lies inside a granted block of the prepared device |
| `CudaRuns.ApplyKeeps` | plugins/backend-nvidia-cuda/entrypoint.cpp:190-393 | every call keeps tracked resources equal to the grants outstanding, owners retained, and everything empty outside phase 4 |
| `CudaRuns.OwnershipRefinement` | plugins/backend-nvidia-cuda/entrypoint.cpp:487-771 | after every run everything tracked is still granted and every stream and event has its context; unless the run corrupted ownership, the driver holds exactly what is tracked |
| `CudaRuns.DrainLeaksNothing` | plugins/backend-nvidia-cuda/entrypoint.cpp:1340-1357 | a successful drain means that the driver holds no nonzero handle |
| `CudaRuns.ZeroGrantsOfRun` | plugins/backend-nvidia-cuda/entrypoint.cpp:508-511 | the driver holds a zero handle after a run if and only if some reply was handle zero |
| `CudaRuns.TracksEverythingExactly` | plugins/backend-nvidia-cuda/entrypoint.cpp:508-511 | an uncorrupted provider tracks every grant if and only if no reply of the run was handle zero |
| `CudaRuns.ZeroHandleLeaks` | plugins/backend-nvidia-cuda/entrypoint.cpp:508-511 | a concrete run: a context answered with handle zero is lost, and the provider still drains |
| `CudaRuns.PhasesFollowLifecycle` | plugins/backend-nvidia-cuda/entrypoint.cpp:84-92 | every call moves along 0-1-2-3-4-5-6-7 or by 3-6, 1-7, 2-7 |
| `CudaRuns.RunFollowsLifecycle` | plugins/backend-nvidia-cuda/entrypoint.cpp:1247-1398 | the same over runs, with all resource maps empty outside phase 4 |
| `CudaRuns.Quarantine` | plugins/backend-nvidia-cuda/entrypoint.cpp:96-98 | once ownership is corrupted no continuation leaves phase 4 or hands out a resource |
| `CudaRuns.DisposalIsFinal` | plugins/backend-nvidia-cuda/entrypoint.cpp:1433-1446 | after disposal no continuation leaves phase 7, binds the entry point or hands out a resource |
| `CudaRuns.OwnsIsInclusion` | plugins/backend-nvidia-cuda/entrypoint.cpp:152-177 | the 64-bit offset test is interval inclusion in one tracked block, without wrap-around |
| `CudaRuns.CopiesAreContained` | plugins/backend-nvidia-cuda/entrypoint.cpp:395-435 | whatever bytes a run has the driver touch lie in one tracked, still granted block of the right device; `CudaCopies` states which bytes these are |
| `CudaCopies.AsyncCopyExactly` | plugins/backend-nvidia-cuda/entrypoint.cpp:891-958 | over every run: an asynchronous copy reaches the driver if and only if its stream belongs to the current retained context, the runtime does not object to the host side, and destination and source each lie in one granted block of the kind the direction gives them; it succeeds if and only if it then launches, and touches both sides |
| `CudaCopies.MemsetExactly` | plugins/backend-nvidia-cuda/entrypoint.cpp:960-995 | the same for a fill with a byte value whose destination lies in a granted block of the device of the context |
| `CudaCopies.UploadExactly` | plugins/backend-nvidia-cuda/entrypoint.cpp:395-435 | the same for an upload, whose destination, unless it is empty, lies in a granted block of the prepared device |
| `CudaReplies.DriverFollowsReplies` | plugins/backend-nvidia-cuda/entrypoint.cpp:190-771 | every call changes the grants outstanding by at most one, and only as the replies of the driver say |
| `CudaReplies.GrantsAreHeld` | plugins/backend-nvidia-cuda/entrypoint.cpp:190-249 | a resource the driver has granted and would not take back at once stays among the grants, whatever else fails |
| `CudaReplies.AnswersAreHonest` | plugins/backend-nvidia-cuda/entrypoint.cpp:190-771 | success means that the tracked resources changed as the call asked and in nothing else; any other answer leaves them as they were |
| `CudaStartup.StartedInOrder` | plugins/backend-nvidia-cuda/entrypoint.cpp:1247-1398 | a provider in phase 1 to 5 was entered, registered, configured, made ready and so on by calls of the run in that order |
| `CudaStartup.PreparedDeviceMatched` | plugins/backend-nvidia-cuda/entrypoint.cpp:1179-1230 | a prepared device was prepared by a call of the run whose compute capability matched |
| `CudaStartup.CountsNeverOverflow` | plugins/backend-nvidia-cuda/entrypoint.cpp:487-535 | over every run the count of a context fits in 32 bits |
| `CudaAllocators.ApplyKeepsSound` | plugins/backend-nvidia-cuda/entrypoint.cpp:190-393 | every call keeps, besides ownership, that each tracked block has its allocator, that everything is on the prepared device, and that the host stays bound while the provider is registered |
| `CudaAllocators.RunKeepsSound` | plugins/backend-nvidia-cuda/entrypoint.cpp:190-771 | the same over every run |
| `CudaAllocators.PreparationIsFixed` | plugins/backend-nvidia-cuda/entrypoint.cpp:1179-1230 | once a device is prepared it and its compute capability stay fixed over every continuation until disposal, and every device block and context ever tracked belongs to it |
| `CudaUndefined.SlotsOfRun` | plugins/backend-nvidia-cuda/entrypoint.cpp:190-249 | until disposal a device has an allocator slot if and only if the run opened it, and an allocator if and only if the run created one |
| `CudaUndefined.HostOfRun` | plugins/backend-nvidia-cuda/entrypoint.cpp:1433-1448 | the provider is still in phase 0 without a host if and only if the run never entered with valid tables, so registration always finds a host |
| `CudaUndefined.UndefinedExactly` | plugins/backend-nvidia-cuda/entrypoint.cpp:251-295 | over every run in which entry comes first: a call follows a null pointer if and only if it hands a null context to registration, configuration, readiness or disposal, or releases an empty device block while cleanup is allowed into a slot the run opened without ever creating its allocator |
| `CudaUndefined.NullContextIsFollowed` | plugins/backend-nvidia-cuda/entrypoint.cpp:1247-1398 | right behind the entry each of the four calls with a null context is possible and follows it |
| `CudaUndefined.EmptySlotIsFollowed` | plugins/backend-nvidia-cuda/entrypoint.cpp:251-295 | a concrete run releases an empty block after an allocator could not be created |
| `WorkerPool.Constructed` | plugins/common/bounded_workers.h:14-16 | accepts exactly the capacities 1 to 8192 |
| `WorkerPool.StepKeeps` | plugins/common/bounded_workers.h:19-52 | every atomic action of every thread keeps the invariant of list, threads and flags |
| `WorkerPool.CapacityAndRunsHold` | plugins/common/bounded_workers.h:19-33 | over every interleaving started and unjoined threads stay within the capacity and no function runs twice |
| `WorkerPool.JoinFinishesEverything` | plugins/common/bounded_workers.h:34-37 | when Join returns every admitted function has run exactly once and its thread is gone |
| `WorkerPool.FailureEndsAdmission` | plugins/common/bounded_workers.h:21 | once the failure flag is raised no later check admits |
| `WorkerPool.ReapedThrowerEndsAdmission` | plugins/common/bounded_workers.h:20-21 | once a worker whose function threw is reaped, that call and all later ones refuse |
| `WorkerPool.RefusalHasReason` | plugins/common/bounded_workers.h:20-22 | over every interleaving a start is refused only if some function threw or as many threads as the capacity are not joined |
| `WorkerPool.FinishedWorkersAreReaped` | plugins/common/bounded_workers.h:40-46 | a call that finds every worker finished joins and forgets them all before it decides |
| `WorkerPool.NoDeadlock` | plugins/common/bounded_workers.h:40-46 | a call under way always has some thread that can act |
| `WorkerPool.EveryActionAdvances` | plugins/common/bounded_workers.h:19-46 | every action between call and return decreases a measure, so calls return |
| `TypedRoot.IntegerBytes` | tools/verify_deepseek_artifact_closure.py:112-116 | in range if and only if the bytes exist, and they read back to the value |
| `TypedRoot.TypedRootOf` | tools/verify_deepseek_artifact_closure.py:119-159 | accepts exactly ordered valid fields under a valid domain and hashes their preimage |
| `TypedRoot.DecodeInverts` | tools/verify_deepseek_artifact_closure.py:119-159 | a decoder gives back every accepted input, whatever bytes follow |
| `TypedRoot.DecodeIsExact` | tools/verify_deepseek_artifact_closure.py:119-159 | the decoder reads nothing but preimages of accepted inputs |
| `TypedRoot.PreimagesAreUnambiguous` | tools/verify_deepseek_artifact_closure.py:119-159 | accepted inputs whose preimages are equal, or one a prefix of the other, are equal |
| `ArtifactClosure.ObjectRootBinds` | tools/verify_deepseek_artifact_closure.py:162-177 | equal object roots mean the same object, or the two named preimages or contents collide; every hash function |
| `ArtifactClosure.VerifyClosure` | tools/verify_deepseek_artifact_closure.py:665-737 | accepts exactly nonempty valid members within the size bounds and computes the closure root |
| `ArtifactClosure.ClosureRootBinds` | tools/verify_deepseek_artifact_closure.py:616-640 | equal closure roots mean the same files in the same order, byte for byte, or two different strings at the same place of the finite lists of hashed strings have one digest; every hash function |
| `ShardLayout.CheckedAdd` | tools/verify_deepseek_v4_flash_0731_target_layout.py:128-137 | refuses exactly negative operands and sums beyond 64 bits |
| `ShardLayout.CheckedMul` | tools/verify_deepseek_v4_flash_0731_target_layout.py:140-149 | the quotient test refuses exactly negative operands and products beyond 64 bits |
| `ShardLayout.TensorPayloadBytes` | tools/verify_deepseek_v4_flash_0731_target_layout.py:178-189 | refuses exactly invalid types and shapes and byte counts beyond 64 bits |
| `ShardLayout.WidthsAreNamed` | tools/verify_deepseek_safetensors_semantic_closure.py:71-82 | the supported types are exactly ten names, each as wide as the number in its name says |
| `ShardLayout.CompileShard` | tools/verify_deepseek_v4_flash_0731_target_layout.py:621-710 | the shard is laid out if and only if the bounds hold: offsets, padded header, file ranges |
| `ShardLayout.PlaceInFile` | tools/verify_deepseek_v4_flash_0731_target_layout.py:647-657 | the file ranges, refused exactly when the file would exceed 64 bits |
| `ShardLayout.LayoutCovers` | tools/verify_deepseek_v4_flash_0731_target_layout.py:626-657 | data ranges cover the payload and file ranges cover the file behind the header, each byte exactly once |
| `ShardLayout.PrefixAgrees` | tools/verify_deepseek_safetensors_semantic_closure.py:350-374 | the padded header is 8-byte aligned and the header parser finds the payload size the layout computed |
| `ShardLayout.HeaderIsEncoded` | tools/verify_deepseek_v4_flash_0731_target_layout.py:637-641 | behind the length stands the encoded header, filled up with spaces |
| `ShardLayout.TensorsAgree` | tools/verify_deepseek_safetensors_semantic_closure.py:287-321 | every placed tensor passes the checks of a parsed tensor |
| `ShardLayout.WalkRecords` | tools/verify_deepseek_v4_flash_0731_runtime_artifact.py:543-554 | the cursor walk accepts if and only if the ranges cover the file exactly and the widths match |
| `ShardLayout.ConsumersAccept` | tools/verify_deepseek_v4_flash_0731_runtime_artifact.py:543-554 | in whatever order tensors and records are read back, both readers accept a compiled shard |
| `PayloadRanges.Walk` | tools/verify_deepseek_safetensors_semantic_closure.py:340-347 | the cursor reaches the end if and only if the sorted ranges tile |
| `PayloadRanges.CoverTiles` | tools/verify_deepseek_safetensors_semantic_closure.py:332-347 | sorted ranges that cover exactly tile |
| `PayloadRanges.TilesCover` | tools/verify_deepseek_safetensors_semantic_closure.py:332-347 | ranges that tile put every byte into exactly one of them |
| `PayloadRanges.ValidateContiguousRanges` | tools/verify_deepseek_safetensors_semantic_closure.py:332-347 | accepts if and only if every payload byte lies in exactly one tensor and no other byte in any |
| `PairedEvidence.BuildSchedule` | tools/verify_deepseek_m5_optimization_evidence.py:824-851 | the alternating schedule with its ordinals, and the two baselines |
| `PairedEvidence.ZipPairsSameOrdinal` | tools/verify_deepseek_m5_optimization_evidence.py:1220-1224 | the k-th control and k-th candidate capture belong to pair k + 1, whichever ran first |
| `EvidenceTotals.ScheduleAlternates` | tools/verify_deepseek_m5_optimization_evidence.py:824-851 | every pair runs both roles in neighbouring slots, the role that runs first changes from pair to pair, control first of all, and the baselines come last |
| `PairedEvidence.CheckIntervals` | tools/verify_deepseek_m5_optimization_evidence.py:1497-1505 | comparing neighbours accepts if and only if all intervals are nonempty and pairwise disjoint |
| `PairedEvidence.Measure` | tools/verify_deepseek_m5_optimization_evidence.py:1166-1202 | the totals over the completed requests |
| `EvidenceTotals.TotalsAreSums` | tools/verify_deepseek_m5_optimization_evidence.py:1166-1202 | each total is the sum of its quantity over the completed requests |
| `EvidenceTotals.ScoresAreExact` | tools/verify_deepseek_m5_optimization_evidence.py:1166-1214 | the scores are the throughputs and mean latencies of the completed requests, and are measurable exactly when no denominator is zero |
| `EvidenceTotals.AggregateIsTotal` | tools/verify_deepseek_m5_optimization_evidence.py:1217-1322 | the aggregate of all runs is the total of all their requests |
| `PairedEvidence.RatioIsExact` | tools/verify_deepseek_m5_optimization_evidence.py:1206-1214 | the cross product has the sign of the difference of the exact ratios |
| `PairedEvidence.CompareIsExact` | tools/verify_deepseek_m5_optimization_evidence.py:1276-1301 | every comparison has the sign of the difference of the exact scores, throughputs up and latencies down |
| `PairedEvidence.CompareRequests` | tools/verify_deepseek_m5_optimization_evidence.py:1245-1259 | two observations match request by request |
| `PairedEvidence.Derive` | tools/verify_deepseek_m5_optimization_evidence.py:1217-1322 | the four flags give the verdict: refused, not evaluated, insufficient, better or not |
| `PairedEvidence.VerdictIsDominance` | tools/verify_deepseek_m5_optimization_evidence.py:1302-1315 | observed better if and only if no metric of any pair is worse and some metric of some pair is better, as exact ratios |
| `EvidenceTotals.VerdictFromRequests` | tools/verify_deepseek_m5_optimization_evidence.py:1217-1322 | the verdict from the requests alone: none when sums overflow, not evaluated when some pair was not answered alike, insufficient when some pair cannot be measured, better if and only if no pair is worse in a throughput or mean latency and some pair is better, and otherwise not better |
| `PairedEvidence.BetterIsIrreflexive` | tools/verify_deepseek_m5_optimization_evidence.py:1302-1315 | nothing is observed better than itself |
| `PairedEvidence.BetterIsTransitive` | tools/verify_deepseek_m5_optimization_evidence.py:1302-1315 | observed better is transitive |
| `PairedEvidence.BetterIsAsymmetric` | tools/verify_deepseek_m5_optimization_evidence.py:1302-1315 | observed better is asymmetric |
| `PairedEvidence.VerifyReceipt` | tools/verify_deepseek_m5_optimization_evidence.py:1492-1509 | a verdict only for captures that follow the schedule without overlap |
| `ReleaseClosure.VersionsProvide` | tools/verify_native_release.py:107-108 | an export with a default version provides the versioned and the plain name and nothing else |
| `ReleaseClosure.ClosedIsReachable` | tools/verify_native_release.py:97-106 | a closed set of reachable names is the set of all reachable names |
| `ReleaseClosure.Close` | tools/verify_native_release.py:96-108 | the worklist ends on cyclic graphs, with a reachable missing name or a closed set |
| `ReleaseClosure.Resolve` | tools/verify_native_release.py:96-112 | on success the dependencies are exactly the names reachable through NEEDED and export every strong import; a missing name is reachable; unresolved imports are exactly those nothing reachable exports |

## Left out

- JSON parsing and printing: whether a text parses, what an arguments text decodes to and how a header is encoded are functions given from outside; quoting of strings follows `plugins/common/text_json.cpp`.
- SHA-256: any function from byte strings to digests; the binding results name the strings that would have to collide.
- ICU regular expressions: matchers are arbitrary functions from characters to spans; the White_Space property is written out.
- CUDA driver and runtime: every reply, failure and rollback outcome is a parameter of the call, and the device object of a nonnegative ordinal can always be made; in-flight work and memory contents are not modelled.
- CUDA calls that own nothing: binding, activation, address validation on its own, event recording and queries, synchronisation.
- The ABI wrappers: structure sizes, exceptions contained at the boundary, and null contexts of the preparation, memory, resource and copy calls, which all refuse them first; null contexts of the lifecycle calls are modelled.
- The mutex of the provider: every call is one step.
- CompletionDecoder.DeepSeekCompletionDecoder.Feed: says nothing about the state after an error, because the header demands that such a decoder is discarded.
- ArtifactClosure.VerifyClosure: leaves out the checks on the content of the config and the index and on the exact set of shards (lines 687-711 of `tools/verify_deepseek_artifact_closure.py`), because they compare parsed JSON with frozen values and have no part in what the root binds.
- DsmlHistory.RenderTurn: always prints the end marker, because a message that asks to leave it out cannot be parsed again.
- WorkerPool.StepKeeps: the list is a value in a state machine rather than an object updated in place, because its flags are shared between threads; the weaker memory orders are read as atomic steps.
- TokenizerRoundTrip.TextRoundTrips: one direction only, because whole texts can round-trip by coincidence when several tokens are misread; the exact condition is proved for pieces as bytes and for single tokens as text.
- TokenizerRoundTrip.MarkedTextRoundTrips: not for Qwen, whose decoding drops special tokens.
- MessagePreprocessing.Preprocess: a message has the members preprocessing reads; other members and duplicate keys are not modelled.
- The rest of EncodeDeepSeekMessages: prompts, tool instructions, tasks and reasoning effort around the assistant turn.
- TokenizerAdmission.Admit: leaves out the pre-tokenizer settings and patterns (lines 120-137 of `plugins/common/bytelevel_tokenizer.cpp`), which are compared with fixed values; the stages themselves are arbitrary matchers.
- Tokenizer options and file handling: the checks on model type, normaliser, decoder and pre-tokenizer settings, and the frozen digest of one family.
- ShardLayout.CompileShard: leaves out the refusal of a tensor name already placed in this or an earlier shard, because names play no part in the geometry.
- ShardLayout.PrefixAgrees: leaves out that the shard name is one of the frozen set, because names play no part in the geometry.
- ShardLayout.TensorsAgree: leaves out the grammar of tensor names, because names play no part in the geometry.
- Semantic reading of Safetensors headers beyond lengths and ranges, and the payload digests of the runtime verifier.
- Peak memory figures, command descriptors and invocation ids of the performance evidence.
- File identity, symbolic links, leases and atomic replacement in all tools, and command-line handling.
- Frozen geometry tables, pinned roots, Qwen receipts and the source inventory chain, which repeat the ideas proved here.
