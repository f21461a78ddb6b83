# Vera chat client: content parsing and the chat session, in Dafny

This project models the core of the Vera medical chat client. It covers:

- the content parser (`utils/content-parser.ts`). It turns the model's tagged answer
  text into display sections, balances and trims half-received text while it streams,
  turns `[doi: …]` markers into links, classifies server-sent events, and merges a new
  parse with the collapse state of the sections already shown.
- the section tables (`constants/section-types.ts`).
- the chat session hook (`hooks/use-chatbot-state.ts`). It is modelled as a transition
  system: a `Session` record holds everything the hook keeps in React state and refs, and
  `ChatbotState.Step` applies one event. The events are an action (submit, cancel, reset,
  the done-effect, unmount), a transport event (open, message, error, close), or the
  firing of a timer (display refresh, reconnect, completion).

Modules follow the program's structure:

- `Strings`: trimming, ASCII case mapping, decimal rendering.
- `SectionTypes`, `Sections`: the tables and records of `constants/section-types.ts` and `types.d.ts`.
- `JsValues`: decoded JSON values with JavaScript truthiness, `||` and property access.
- `Doi`, `TagParser`, `StreamingText`, `SectionMerge`, `SseNode`: the parser's functions.
- `TagProperties`: what a lone tag, or one tag after untagged text, parses to, including `<drug>X</drug>` and `Intro <drug>X</drug>`, and why a closer that differs from its opener leaves the text an answer.
- `ChatbotState`: the hook's handlers and the event step.
- `ChatbotProperties`: the session invariant and the behaviour of each event.

The tag regex `/<(\w+)>([\s\S]*?)<\/\1>/g` is modelled as a left-to-right scan
(`TagParser.MatchAt`, `TagParser.Scan`). The scan splits the text into plain and tagged
segments that tile it exactly. The source first collects the matches and then builds
sections from them; the model does both in one pass over the segments.
`TagParser.ScanSegmentsFit` ties the segments to the regex in both directions: every
tagged segment is the match at its offset, and the regex matches nowhere inside an
untagged one. With the tiling (`TagParser.SegmentsTile`: the segments spell the text, no
untagged segment is empty, and no two untagged segments are adjacent) this fixes the
segments to the leftmost, non-overlapping matches the global regex visits, with each run
of text between two of them as one untagged segment. `TagParser.ParseFollowsSegments`
states only that the parse is the numbered sections of those segments, so the source's
whole-text fallback adds nothing.

## Model

| member | source | states |
|---|---|---|
| Strings.Trim | utils/content-parser.ts:101 | the trimmed text has no white space at either end and is no longer than the input |
| Strings.TrimIsInfix | utils/content-parser.ts:132 | the trimmed text is a contiguous part of the input; only white space lies before and after it |
| Strings.TrimEmptyIffBlank | utils/content-parser.ts:69-71 | trimming gives the empty string exactly when the text is all white space |
| Strings.TrimOfTrimmed | hooks/use-chatbot-state.ts:191-193 | trimming text that is already trimmed changes nothing |
| Strings.NatToStringRoundTrip | utils/content-parser.ts:104 | the decimal rendering of a section position reads back as that position |
| Strings.NatToStringInjective | utils/content-parser.ts:120 | different positions give different decimal strings |
| Strings.DashJoinInjective | utils/content-parser.ts:257 | when the left parts hold no '-', joining two parts with '-' determines both parts |
| SectionTypes.LookupConfig | constants/section-types.ts:15-31 | a configuration exists exactly for the three stream tags; its type is named by the key and is never answer or unknown |
| SectionTypes.KnownTagTable | constants/section-types.ts:15-31 | guideline, drug and think map to "Guidelines", "Drug Information" and "Reasoning", all open by default |
| SectionTypes.StreamTagsAreConfigKeys | constants/section-types.ts:41-45 | the stream tags are exactly the configuration keys, without repeats, all non-empty and lower case |
| SectionTypes.ConfigDefaultsAgree | constants/section-types.ts:33-39 | each configuration's own default collapse state agrees with the default-collapse table for its type |
| SectionTypes.StreamTagShapes | constants/section-types.ts:41-45 | stream tags are 1 to 9 lower-case ASCII letters, and no two share a length |
| SectionTypes.TypeNameProperties | types.d.ts:35 | section type names contain no '-', and different types have different names |
| JsValues.Or | utils/content-parser.ts:189 | `a \|\| b` is truthy exactly when one operand is, is `a` whenever `a` is truthy, and is `b` whenever `a` is falsy |
| JsValues.Get | hooks/use-chatbot-state.ts:207 | reading a property fails exactly on null and undefined; on an object it is the property's value, or undefined when the object has no such key; on any other value it is undefined |
| JsValues.ToJsStringOfTruthy | hooks/use-chatbot-state.ts:237-238 | a truthy non-array chunk adds at least one character to the buffer; a string chunk adds itself |
| Sections.SectionIdInjective | utils/content-parser.ts:120 | a section id determines both the section type and the position |
| Doi.DoiMatchAt | utils/content-parser.ts:16 | a marker match opens with `[doi:` in any case and ends at the first `]` after it, with at least one character between |
| Doi.ConvertCopiesPrefix | utils/content-parser.ts:18-21 | text before the first marker is copied unchanged |
| Doi.ConvertAtFirstMatch | utils/content-parser.ts:18-21 | at the first marker, the output is the text before it, a link built from the trimmed identifier, then the conversion of what follows the `]` |
| Doi.ConvertIdentityWithoutMarkers | utils/content-parser.ts:15-22 | text without a marker is returned unchanged |
| TagParser.GetSectionTitle | utils/content-parser.ts:6-12 | an unknown tag's title is the tag with its first letter upper-cased and the rest kept; a configured type takes its configured title |
| TagParser.FindFrom | utils/content-parser.ts:75 | the lazy body stops at the first closing tag after the opener; none found means the closer never occurs |
| TagParser.MatchAt | utils/content-parser.ts:75 | a match spans `<name>` + body + `</name>` with a non-empty word-character name, and its body does not contain its own closer. Conversely, with no match no `<name>body</name>` with a word name starts there. With a match, every such occurrence has the match's name, and the match's body is a prefix of that occurrence's body: the lazy body is the shortest |
| TagParser.MatchAtIffTag | utils/content-parser.ts:75 | the regex matches at a position exactly when some `<name>body</name>` with a word-character name starts there |
| TagParser.ScanTiles | utils/content-parser.ts:88-95 | the segments the scan produces spell out the scanned text exactly |
| TagParser.ScanSegmentsFit | utils/content-parser.ts:88-95 | every tagged segment the scan emits is the regex match at its offset in the text (same name, same body, same end), and the regex matches at no position inside an untagged segment it emits |
| TagParser.SegmentsAreMatches | utils/content-parser.ts:88-95 | the tagged segment at index i of the whole text is the regex match at the offset that the segments before it span |
| TagParser.PlainSegmentsHaveNoMatch | utils/content-parser.ts:75-95 | at every position inside an untagged segment of the whole text the regex finds no match, so no tag the source would turn into a section stays in answer text |
| TagParser.SegmentsTile | utils/content-parser.ts:97-142 | the segments spell out the whole text, no plain segment is empty, and a plain segment is always followed by a tagged one or ends the list, so the text between two matches is one segment |
| TagParser.BodiesEmptyIffBlank | utils/content-parser.ts:100-142 | the segments produce no section exactly when the text they spell is all white space |
| TagParser.ParseTaggedContent | utils/content-parser.ts:68-156 | no sections exactly for blank text; ids are type and position; answer sections are titled "Answer", open and non-empty; every section has its type's default collapse state |
| TagParser.ParseFollowsSegments | utils/content-parser.ts:144-153 | the parse is the numbered sections of the segments, so the whole-text fallback never adds anything |
| TagParser.ParseIdsDistinct | utils/content-parser.ts:104-135 | no two sections of one parse share an id |
| TagParser.ParseWithoutTags | utils/content-parser.ts:130-142 | non-blank text without a tag match becomes one open answer section holding the converted trimmed text |
| TagParser.TaggedSegmentSection | utils/content-parser.ts:113-125 | each tagged segment becomes the section right after those of the earlier segments. A known lower-cased name gives its configured type and title; any other name gives the unknown type and the capitalised name. The content is the trimmed body with citations linked, the collapse state is the type's default, and the id is type and position |
| TagProperties.SingleTagMatch | utils/content-parser.ts:75 | on a lone `<name>body</name>` whose body has no '<', the regex matches the whole text with that name and body |
| TagProperties.ParseSingleTag | utils/content-parser.ts:68-156 | a lone tag whose body has no '<' becomes exactly one section. Its type and title come from the name, its content is the trimmed body with citations linked, its id is `${type}-0`, and it has its type's default collapse state |
| TagProperties.TagMatch | utils/content-parser.ts:75 | after any text `pre`, a tag `<name>body</name>` whose body has no '<' is matched by the regex at `|pre|` with that name and body, ending at the end of the text |
| TagProperties.PrefixedTagSegments | utils/content-parser.ts:75-95 | untagged text with no '<' followed by such a tag splits into that text (when non-empty) and the tag |
| TagProperties.ParsePrefixedTag | utils/content-parser.ts:68-156 | such a text parses to an `answer-0` section holding the trimmed prefix with citations linked (dropped when the prefix is blank), then one section for the tag, numbered after it, with its type, title, trimmed body and default collapse state |
| TagProperties.ParseIntroDrugExample | utils/content-parser.ts:68-156 | `Intro <drug>X</drug>` parses to the open "Answer" section `answer-0` with content `Intro`, then the open drug section `drug-1` titled "Drug Information" with content `X` |
| TagProperties.ParseDrugExample | utils/content-parser.ts:68-156 | `<drug>X</drug>` parses to the single open section `drug-0` of type drug, titled "Drug Information", with content `X` |
| TagProperties.MismatchHasNoTag | utils/content-parser.ts:75 | in `<v>x</t>` with distinct word names and no '<' in x, no `<name>body</name>` with a word name occurs at the start: the `\1` back-reference demands the closer `</v>`, and the only closer is `</t>` |
| TagProperties.NoMatchInMismatch | utils/content-parser.ts:75 | the tag regex matches at no position of such a text |
| TagProperties.MismatchedTagStaysAnswer | utils/content-parser.ts:68-156 | such a text, `<Drug>X</drug>` among them, parses to the single open "Answer" section `answer-0` holding the whole trimmed text with citations linked |
| TagParser.TagClassification | utils/content-parser.ts:114-117 | a tag is unknown exactly when its lower-cased name is no stream tag; known tags get their configured type and title, unknown ones the capitalised name |
| StreamingText.PartialTagStart | utils/content-parser.ts:49 | the trailing partial-tag pattern can match at one position at most, and this is that position |
| StreamingText.Sanitize | utils/content-parser.ts:44-61 | the result is a prefix of the text; text is removed only at a droppable partial tag, and nothing is removed when there is none |
| StreamingText.SanitizeDropsOnlyPartialTag | utils/content-parser.ts:49-57 | at most 11 characters are removed, and none of them is '>' |
| StreamingText.CountAppend | utils/content-parser.ts:31-32 | case-insensitive tag counts add up over a concatenation whose second part starts with '<' |
| StreamingText.CloserMatchesOwnTag | utils/content-parser.ts:29-30 | a closing stream tag matches a closing pattern, case-insensitively, only for its own tag |
| StreamingText.BalanceAppendsDeficits | utils/content-parser.ts:25-41 | balancing appends, tag by tag, as many closers as the text lacks |
| StreamingText.BalanceClosesEveryTag | utils/content-parser.ts:28-38 | after balancing, each stream tag has at least as many closers as openers; openers are unchanged |
| StreamingText.BalanceKeepsBalanced | utils/content-parser.ts:33-37 | text whose tags are already closed is unchanged by balancing |
| StreamingText.ParseStreamingSections | utils/content-parser.ts:159-169 | no sections exactly when the sanitized text is blank; every section has its default collapse state |
| StreamingText.ParseStreamingOfCompleteText | utils/content-parser.ts:159-169 | for complete text with every tag closed, the streaming parse equals the final parse |
| StreamingText.MixedCaseOpenerStaysAnswer | utils/content-parser.ts:25-41 | `<Drug>X` while streaming gets the closer `</drug>`, which the case-sensitive back-reference does not accept, so the tags stay visible inside an answer section |
| SectionMerge.MergeKeyInjective | utils/content-parser.ts:257 | two merge keys are equal exactly when type and title are |
| SectionMerge.IndexByKeyFindsLast | utils/content-parser.ts:255-259 | the map from existing sections holds a key exactly when some existing section has that type and title, and then holds the last such section |
| SectionMerge.MergeSections | utils/content-parser.ts:246-276 | with nothing shown, the new list comes back as is; otherwise there are as many sections as new ones, with the same id, type, title and content |
| SectionMerge.MergeCarriesLastCollapse | utils/content-parser.ts:262-275 | each merged section takes the collapse state of the last shown section with its type and title, or keeps its own |
| SectionMerge.MergeIdempotent | utils/content-parser.ts:246-276 | merging the same shown sections again changes nothing |
| SectionMerge.MergeOverDefaults | utils/content-parser.ts:262-275 | when all sections keep their default collapse state, the merge returns the new list itself |
| SseNode.StepOf | utils/content-parser.ts:196-201 | a step fails exactly for null or undefined. Missing flags become `false` and missing text becomes the empty string, with truthiness kept. A truthy text, a truthy `isActive` and a truthy `isCompleted` are kept as they are, and the extra information is `info \|\| extraInfo` |
| SseNode.StepsOf | utils/content-parser.ts:195-202 | the list fails exactly when one element fails; otherwise it maps element by element, in order |
| SseNode.ParseSSENode | utils/content-parser.ts:175-240 | falsy data gives no node; STREAM and SEARCH_REASONING give text (empty when the content is falsy); a non-array step payload gives an empty list; a step payload that is an array gives a node exactly when every element reads as a step, and then the list of those steps in order; SUGGEST gives suggestions carrying `content \|\| []`; other values give text exactly when `content`, `text` or `chunk` is truthy, and that text is `content \|\| text \|\| chunk` |
| SseNode.NoNodeCases | utils/content-parser.ts:175-240 | the exact set of inputs that yield no node |
| SseNode.StepsNodeFollowsList | utils/content-parser.ts:192-206 | a step-list node keeps the list's length and order, its i-th step is the i-th element read as a step, and a step is completed exactly when its flag is the boolean `true` |
| SseNode.StreamChunkExample | utils/content-parser.ts:181-190 | the decoded object `{type: "NodeChunk", content: {nodeName: "STREAM", content: "hi"}}` is the text `hi` |
| ChatbotState.BatchDelay | hooks/use-chatbot-state.ts:149-151 | the refresh lands exactly 25 ms after the last one while that moment is still ahead, and at once when it has passed; with a clock that has not gone backwards the delay is at most 25 ms |
| ChatbotState.UpdateDisplay | hooks/use-chatbot-state.ts:129-141 | a refresh changes only the shown sections, and only to a non-empty streaming parse of the buffer |
| ChatbotState.Payload | hooks/use-chatbot-state.ts:181-195 | a line carries a non-empty, trimmed payload, and blank lines and comments carry none. An unprefixed line carries its trimmed text. A `data: ` line carries its trimmed remainder, or nothing when that is empty |
| ChatbotProperties.CommitKeepsDefaults | hooks/use-chatbot-state.ts:88-100 | a commit keeps sections at their default collapse state, and merging over stale or current sections gives the same list |
| ChatbotProperties.InitialIsValid | hooks/use-chatbot-state.ts:49-64 | the session at mount satisfies the invariant |
| ChatbotProperties.RetryDelaysDouble | hooks/use-chatbot-state.ts:31 | the retry delays are 1000 ms times 2^attempt |
| ChatbotProperties.StepPreservesValid | hooks/use-chatbot-state.ts:161-309 | every event keeps the invariant: retry bounds, reconnect delays, the completion timer's connection, the history bound, filed pairs and default collapse states |
| ChatbotProperties.RunPreservesValid | hooks/use-chatbot-state.ts:312-372 | any sequence of events from a valid session keeps the invariant |
| ChatbotProperties.HistoryBounded | hooks/use-chatbot-state.ts:318-321 | from mount, the history never holds more than 100 pairs, and each has a trimmed question and sections |
| ChatbotProperties.FlagsExclusive | hooks/use-chatbot-state.ts:375-377 | `canAsk` and `isBusy` are never both true, and `canStop` equals `isBusy` |
| ChatbotProperties.SkippedLinesChangeNothing | hooks/use-chatbot-state.ts:183-188 | blank lines and SSE comments leave the session unchanged |
| ChatbotProperties.DataPrefixStripped | hooks/use-chatbot-state.ts:185-196 | for a trimmed, non-empty X, the line `data: X` carries X, and the bare line X carries X itself when it neither starts with ':' nor with `data: ` |
| ChatbotProperties.MalformedLinesChangeNothing | hooks/use-chatbot-state.ts:267-269 | a line that fails to decode, or decodes to null, leaves the session unchanged |
| ChatbotProperties.DoneLineFinishes | hooks/use-chatbot-state.ts:197-202 | `[DONE]` commits the buffer, releases the connection and every timer, and sets "done" with history and question unchanged |
| ChatbotProperties.CloseFinishes | hooks/use-chatbot-state.ts:298-302 | closing the stream finishes in the same way |
| ChatbotProperties.DoneNodesFinish | hooks/use-chatbot-state.ts:212-230 | a `Done` node, and an `END` node with a missing or falsy answer, finish |
| ChatbotProperties.EndAnswerReplacesBuffer | hooks/use-chatbot-state.ts:220-230 | an `END` node with a string answer discards the buffer, and the shown sections become the merge of that answer's parse |
| ChatbotProperties.SavingOnlyCommits | hooks/use-chatbot-state.ts:206-210 | a "saving" status only commits the buffer |
| ChatbotProperties.StreamChunkAppends | hooks/use-chatbot-state.ts:236-241 | a truthy text chunk is appended to the buffer, and exactly one refresh is pending. A newly armed refresh lands 25 ms after the previous one, or at once when that moment has passed. The shown sections wait for it |
| ChatbotProperties.StreamNodeIsText | utils/content-parser.ts:185-190 | a STREAM node chunk with truthy content is text carrying that content |
| ChatbotProperties.StepsNodeIsList | utils/content-parser.ts:192-206 | a SEARCH_STEPS node chunk whose payload is an array of steps is the step list read element by element |
| ChatbotProperties.SuggestNodeChangesNothing | hooks/use-chatbot-state.ts:231-266 | a SUGGEST node chunk is parsed as suggestions and leaves the whole session unchanged, since the listener's switch has no case for it |
| ChatbotProperties.StreamMessageAppends | hooks/use-chatbot-state.ts:180-241 | a message line that decodes to a STREAM node chunk with truthy content appends that content's string form to the buffer, leaves a refresh pending, and leaves the shown sections alone |
| ChatbotProperties.StepsMessageArrives | hooks/use-chatbot-state.ts:180-264 | a message line that decodes to a SEARCH_STEPS node chunk with an array of steps replaces the shown steps by that list, read element by element, and arms the completion timer when all of them are completed and completion has not started |
| ChatbotProperties.CompletedStepsArmOnce | hooks/use-chatbot-state.ts:243-264 | a step list always replaces the shown steps; a non-empty, all-completed list arms the 500 ms completion timer once, and later lists do not re-arm it |
| ChatbotProperties.CompletionTimerFinishes | hooks/use-chatbot-state.ts:256-262 | in a reachable session the completion timer always finds its connection, so it finishes |
| ChatbotProperties.BatchRefresh | hooks/use-chatbot-state.ts:153-157 | a refresh records its time, clears its timer, and shows the streaming parse when it is non-empty |
| ChatbotProperties.TransportNeedsConnection | hooks/use-chatbot-state.ts:167-173 | transport events do nothing when no connection is held |
| ChatbotProperties.OpenResetsRetries | hooks/use-chatbot-state.ts:175-178 | opening sets "streaming" and resets the retry counter |
| ChatbotProperties.ErrorWithinBudgetRetries | hooks/use-chatbot-state.ts:273-284 | an error within the budget cleans up and schedules attempt a+1 of the same question after 1000·2^a ms, with counter and notice |
| ChatbotProperties.ErrorBeyondBudgetGivesUp | hooks/use-chatbot-state.ts:285-295 | beyond the budget, an answer that has arrived is committed and the session is "done" with the partial-save notice; with nothing arrived it is "error" |
| ChatbotProperties.RetryReconnects | hooks/use-chatbot-state.ts:282-284 | the reconnect timer opens a connection for the scheduled question and attempt |
| ChatbotProperties.ConstructorFailureReported | hooks/use-chatbot-state.ts:303-306 | a connection that cannot be constructed reports the failure with status "error" and leaves the connection handle as it was |
| ChatbotProperties.SubmitBehaviour | hooks/use-chatbot-state.ts:312-336 | blank input is ignored; a full history only sets the error; otherwise the interaction starts afresh at attempt 0, and old timers are not closed |
| ChatbotProperties.CanAskStartsConnection | hooks/use-chatbot-state.ts:375 | when asking is allowed, a non-blank question makes the session busy |
| ChatbotProperties.DoneEffectFiles | hooks/use-chatbot-state.ts:339-345 | "done" with a question and sections files exactly that pair and goes idle; otherwise nothing changes |
| ChatbotProperties.CancelFiles | hooks/use-chatbot-state.ts:348-355 | cancel files the committed answer when there is one and always ends idle, disconnected and cleared |
| ChatbotProperties.RepeatedCancelFilesNothing | hooks/use-chatbot-state.ts:348-355 | a second cancel files nothing |
| ChatbotProperties.UnmountClosesEverything | hooks/use-chatbot-state.ts:368-372 | unmount closes the connection and every timer and changes nothing else |
| ChatbotProperties.ResetClearsAll | hooks/use-chatbot-state.ts:358-365 | reset empties the history and the interaction, and clears the error, the counter and every handle |
| ChatbotProperties.CapturedSectionsOnlyAffectGiveUp | hooks/use-chatbot-state.ts:273-296 | when captured and shown sections are both empty or both non-empty, the error listener over captured sections behaves as the model does |
| ChatbotProperties.StaleGiveUpDropsSavedAnswer | hooks/use-chatbot-state.ts:287-294 | as written: a final error after a "saving" commit, with no sections captured, ends in "error", and the shown answer is never filed |
| ChatbotProperties.GiveUpFilesSavedAnswer | hooks/use-chatbot-state.ts:287-290 | reading the shown sections, the same final error ends "done" with the partial-save notice, and the answer is filed |

## Left out

- The `EventSource` transport, URL building and `encodeURIComponent` are left out. A connection is a record of question and attempt. Open, message, error and close are events.
- `Date.now()` and `setTimeout` are left out. The current time and a filing stamp are event parameters, and a timer is a pending handle that a later event fires. A fired timer's handle is cleared; the source leaves the reconnect and completion refs set, but they are only ever read by `clearTimeout`.
- `JSON.parse` is a parameter `decode` from string to an optional value; a parse error is `None`.
- Numbers in decoded values are integers. Floating-point numbers and their string forms are not modelled.
- The mock history is empty in the source and is taken as empty.
- Error messages are an `ErrorKind` with the attempt and delay, not the formatted strings.
- `console` logging is left out.
- Orphaned connections and timers are not modelled. `submit` neither closes an open connection nor clears the timers, and a second all-completed step list overwrites the completion handle. The model keeps one connection and one handle per timer, and only the held connection's events act.
- React render batching is left out. Each event updates the session at once.
- The listeners close over `currentSections` at submit time. The merge over those stale sections is modelled as a merge over the shown ones, and `ChatbotProperties.CommitKeepsDefaults` proves the two agree: all sections keep their default collapse state, and the hook has no collapse toggle. The give-up test does depend on the stale value; see Findings.
- ChatbotState.HandleEnd: an `END` node whose answer is truthy but not a string is taken as having no effect. In the source it is stored in the buffer, and the commit then throws inside the listener's `try`. Because the buffer assignment has already happened, the model is weaker than the source there.
- The SUGGEST node is classified but ignored by the session, as in the source (`ChatbotProperties.SuggestNodeChangesNothing`); its suggestions are not interpreted further.
- Case mapping is ASCII only. Tag names are `\w` characters, and the `/i` regexes in non-unicode mode fold only ASCII letters.
- ChatbotState.BatchDelay: the bound of at most 25 ms holds only when the clock has not gone backwards since the last refresh. The landing time of the refresh holds for any clock.
- The UI components, styles and `app/` screens are not part of this model.

## Findings

| source | as written | input that shows it | evidently intended | confidence | as-written member | corrected member |
|---|---|---|---|---|---|---|
| hooks/use-chatbot-state.ts:287 | after the last retry, the error listener tests `currentSections.length > 0` on the sections captured when `submit` ran | submit from a cleared session, a STREAM chunk, a `Status` "saving" message (the buffer is committed and emptied), then four transport errors with nothing new arriving | the answer that is shown is kept: status "done", the partial-save notice, and the done-effect files it | not executed | ChatbotState.HandleTransportErrorAsWritten, shown by ChatbotProperties.StaleGiveUpDropsSavedAnswer | ChatbotState.HandleTransportError, proved by ChatbotProperties.GiveUpFilesSavedAnswer |
