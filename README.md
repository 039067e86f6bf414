# LegalEase core, modelled in Dafny

LegalEase is a Next.js application that explains Indian legal documents to
their recipients. A user uploads a notice, and a text-generation model
returns a structured analysis: sections, risk, a timeline and next steps.
The app also compares how one Motor Vehicles Act section applies in two
states, answers questions in a chat, and offers some supporting pages:

- a law of the day with bookmarks;
- a directory of verified lawyers with a contact dialog;
- state-law quizzes;
- admin pages for the lawyers and the quiz questions.

This project models the deterministic logic of those pieces, one Dafny module per source file:

- the three API route handlers, which validate input, build the prompt and shape the model's reply;
- the catalogue queries over the law library and the lawyer directory;
- the list editing of the two admin pages, including persistence of custom entries;
- the small state machines of the analysis, chat, compare and contact screens;
- the pure helpers of the result components: progress steps, next-step grouping, the timeline, the upload validator and the state-comparison table;
- the record types of `lib/types.ts`, with a JSON encoding and a checked decoding.

Everything from outside the logic is an explicit input:

- the model's completion, or its failure;
- `JSON.parse`, as a function parameter;
- `Math.random`, as a real in [0, 1);
- `Date.now` and the day of the year, as naturals;
- the value found in browser storage, as an optional value.

Components whose handlers update their state step by step are classes, with the React state as fields and each handler as a method. Pure computations are functions.

Shared modules:

- `Wrappers`: the `Option` type.
- `Seqs`: JavaScript's `filter`, `find`, `findIndex`, `Set` de-duplication and the includes-then-filter-or-append toggle, with the order facts about them.
- `JsStrings`: `trim`, ASCII `toLowerCase`, `includes`, `startsWith`, `endsWith` and decimal rendering of naturals.
- `Json`: JSON values with truthiness, property lookup and object spread.
- `Http`: the JSON response and the outcome of a model call.

Behaviour of the code worth noting:

- the analyze route accepts an empty (zero-byte) file;
- the chat route accepts an empty `messages` array;
- the analyze page's 500 ms results timer is never cleared. A reset in that window therefore ends on the results screen with no analysis (`AnalyzePage.ResetBeforeResults`).

## Model

| member | source | states |
|---|---|---|
| Types.ParseLevel | lib/types.ts:4 | a string is a level exactly when it is "low", "medium" or "high", and it then names that level |
| Types.ParseLevelName | lib/types.ts:4 | reading a level's name gives the level back |
| Types.EncodeAnalysis | lib/types.ts:34-46 | the JSON object of an analysis has all eleven properties |
| Types.EncodeAnalysisFields | lib/types.ts:34-46 | each property of the JSON object holds the corresponding field of the analysis |
| Types.DecodeList | lib/types.ts:40-45 | a list decodes exactly when every element decodes, and the decoded list is the elements' values in order |
| Types.DecodeDetails | lib/types.ts:11-19 | extracted details decode exactly when the value is an object whose every property is a string, with the same keys |
| Types.DecodeAnalysis | lib/types.ts:34-46 | a value decodes as an analysis only when all eleven properties are present |
| Types.ListRoundTrip | lib/types.ts:40-45 | encoding a list and decoding it gives the list back when that holds for its elements |
| Types.SectionRoundTrip | lib/types.ts:1-9 | a legal section survives encoding and decoding |
| Types.TimelineStepRoundTrip | lib/types.ts:21-25 | a timeline step, with or without a deadline, survives encoding and decoding |
| Types.NextStepRoundTrip | lib/types.ts:27-32 | a next step survives encoding and decoding |
| Types.SectionsRoundTrip | lib/types.ts:40 | a list of sections survives encoding and decoding |
| Types.TimelineRoundTrip | lib/types.ts:43 | a timeline survives encoding and decoding |
| Types.NextStepsRoundTrip | lib/types.ts:44 | a list of next steps survives encoding and decoding |
| Types.DetailsRoundTrip | lib/types.ts:11-19 | extracted details, with any keys, survive encoding and decoding |
| Types.AnalysisRoundTrip | lib/types.ts:34-46 | a document analysis survives encoding and decoding |
| Types.DecodeFromFields | lib/types.ts:34-46 | an object whose eleven properties decode to an analysis's fields decodes to that analysis |
| Json.Prop | app/api/chat/route.ts:34 | a property is present exactly when the value is an object with that key, and it is that key's value |
| Json.Truthy | app/api/analyze/route.ts:172-174 | JavaScript truthiness of a parsed value: `null`, `false`, `0` and `""` are falsy, everything else truthy; the `||` fallbacks of the merge are stated through it |
| Json.Indexed | app/api/analyze/route.ts:170-173 | the properties a spread copies out of an array-like value: one decimal index key per element, holding that element, and no other kind of key |
| Json.Spread | app/api/analyze/route.ts:170-173 | spreading an object copies its properties, `null`, booleans and numbers copy nothing, arrays and strings copy their elements under index keys |
| Json.Overlay | app/api/analyze/route.ts:167-173 | a two-object spread has every key of either object, the second object winning on a clash |
| Http.ErrorResponse | app/api/analyze/route.ts:11 | an error response carries the status and a body whose only property is `error`, holding the message |
| AnalyzeRoute.LastIndex | app/api/analyze/route.ts:125 | the last position of a character, or none when the character is absent |
| AnalyzeRoute.BraceBounds | app/api/analyze/route.ts:125 | the greedy pattern matches exactly when some `{` precedes some `}`, and then spans from the first `{` to the last `}` |
| AnalyzeRoute.BraceSpan | app/api/analyze/route.ts:125-127 | the matched text is that span, and it starts with `{` and ends with `}` |
| AnalyzeRoute.BraceSpanOfWrapped | app/api/analyze/route.ts:124-127 | a reply holding one object with no `{` before it and no `}` after it yields exactly that object |
| AnalyzeRoute.DefaultAnalysis | app/api/analyze/route.ts:143-164 | the default object has all eleven analysis properties and `ipcSections` |
| AnalyzeRoute.Merge | app/api/analyze/route.ts:167-175 | the merged object has every analysis property; its details are the default details overlaid with the model's, and `ipcSections` is the model's when truthy, else empty |
| AnalyzeRoute.MergeKeys | app/api/analyze/route.ts:167-175 | the merged object's keys are the default keys plus the model's keys |
| AnalyzeRoute.MergePrecedence | app/api/analyze/route.ts:167-169 | every field the model supplies, other than details and `ipcSections`, wins over the default |
| AnalyzeRoute.MergeDefaultSurvives | app/api/analyze/route.ts:167-169 | every default field the model does not supply survives |
| AnalyzeRoute.MergeKeepsFields | app/api/analyze/route.ts:167-169 | a reply with all analysis fields keeps the ten fields other than the details unchanged |
| AnalyzeRoute.MergeEmpty | app/api/analyze/route.ts:143-175 | an empty reply object is read as the default document analysis |
| AnalyzeRoute.DefaultIsEncodedDefault | app/api/analyze/route.ts:143-164 | the default object encodes the default document analysis, field by field |
| AnalyzeRoute.EmptyDetails | app/api/analyze/route.ts:170-173 | with no details from the model, the merged details are the default details |
| AnalyzeRoute.OverlayNothing | app/api/analyze/route.ts:172 | spreading an empty object over details changes nothing |
| AnalyzeRoute.DefaultsArePassedThrough | app/api/analyze/route.ts:167-169 | with nothing from the model, every field other than the details is the default |
| AnalyzeRoute.MergeEncoded | app/api/analyze/route.ts:167-175 | a complete, well-typed reply comes back unchanged except that its details are laid over the default details |
| AnalyzeRoute.MergedDetails | app/api/analyze/route.ts:170-173 | the merged details of a well-typed reply encode the default details overridden by the reply's |
| AnalyzeRoute.OverlayEncoded | app/api/analyze/route.ts:170-173 | overlaying encoded details encodes the combined details |
| AnalyzeRoute.DecodeIgnoresExtraFields | app/api/analyze/route.ts:174 | extra properties such as `ipcSections` do not change how the analysis reads |
| AnalyzeRoute.AnalyzePost | app/api/analyze/route.ts:5-182 | the model is called exactly for an uploaded file, with its bytes and its type or PDF; 400 with "No file provided" exactly for a missing or empty field; an unreadable form and a plain string field give 500 with their error message; 200 exactly when the reply holds a brace span that parses, and then the response is that of `Respond` |
| AnalyzeRoute.Respond | app/api/analyze/route.ts:119-180 | 200 exactly when the span parses, and the response is then `{success: true, analysis}` with the parsed object merged over the defaults; a failed parse is a 500 echoing the raw reply; a thrown error is a 500 with its message, or "Analysis failed" when it has none |
| AnalyzeRoute.ParseFailure | app/api/analyze/route.ts:131-139 | the parse failure is a 500 carrying the error text and the raw reply |
| AnalyzeRoute.Success | app/api/analyze/route.ts:177 | the success response is a 200 with `success: true` and the analysis |
| CompareRoute.StripFences | app/api/compare/route.ts:60-69 | the cleaned reply is no longer than the reply and has no surrounding white space left |
| CompareRoute.CleanResponseText | app/api/compare/route.ts:60-69 | the handler's reassignments of `cleanedText` compute the stripped reply |
| CompareRoute.StripJsonFence | app/api/compare/route.ts:61-62 | a reply fenced as a `json` code block yields its trimmed contents |
| CompareRoute.StripBareFence | app/api/compare/route.ts:61-68 | a reply fenced as an untagged code block yields its trimmed contents, less a leading `json` tag |
| CompareRoute.StripUntagged | app/api/compare/route.ts:63-68 | an untagged fence whose contents do not start with `json` yields the trimmed contents |
| CompareRoute.StripUnfenced | app/api/compare/route.ts:60-69 | a reply without a fence at either end is only trimmed |
| CompareRoute.ComparePost | app/api/compare/route.ts:6-78 | an unreadable or `null` body is a 500; 400 exactly when `section`, `state1` or `state2` is falsy; the model is asked otherwise, with the client's values; 200 exactly when the stripped reply parses, returning the parsed value unchanged |
| ChatRoute.ToContent | app/api/chat/route.ts:41-44 | a message becomes a `user` turn exactly when its role is `"user"`, otherwise a `model` turn, carrying its `content` |
| ChatRoute.History | app/api/chat/route.ts:41-44 | one turn per message, in order, each with role `user` or `model` |
| ChatRoute.ContextPrompt | app/api/chat/route.ts:47-50 | the first turn starts with the system prompt, and carries the serialised analysis exactly when a truthy `documentContext` is sent |
| ChatRoute.BuildCall | app/api/chat/route.ts:52-73 | the call holds the prompt turn, the acknowledgement turn and then every message's turn in order, with the fixed model and settings; every turn is `user` or `model` |
| ChatRoute.ChatPost | app/api/chat/route.ts:32-82 | 400 exactly when `messages` is missing or not an array; the model is called exactly when the body is readable, the array is there and no message is `null`; 200 exactly on a reply, whose text is the reply or the apology when it is empty |
| JsStrings.TrimStart | app/chat/page.tsx:51 | drops exactly the leading white space |
| JsStrings.TrimEnd | app/chat/page.tsx:51 | drops exactly the trailing white space |
| JsStrings.Trim | app/chat/page.tsx:51 | the trimmed text neither starts nor ends with white space, and is empty exactly when the text is all white space |
| JsStrings.TrimIsSlice | app/api/compare/route.ts:60 | the trimmed text is, character by character, the part of the text that follows its leading white space |
| JsStrings.TrimDropsOnlySpace | app/api/compare/route.ts:60 | everything trimming drops, before and after the kept part, is white space |
| JsStrings.IsWhitespace | app/api/compare/route.ts:60 | the ECMAScript white-space and line-terminator code points that `trim` removes |
| JsStrings.StartsWith | app/api/compare/route.ts:61-63 | `startsWith`: the text begins with the prefix |
| JsStrings.EndsWith | app/api/compare/route.ts:66 | `endsWith`: the text ends with the suffix |
| JsStrings.Includes | app/chat/page.tsx:68-74 | `includes`: the text occurs somewhere in the other; IncludesAt, IncludesWitness and IncludesSuffixOfMatch tie it to a match position |
| JsStrings.TrimUnchanged | app/api/compare/route.ts:69 | a text without surrounding white space is its own trim |
| JsStrings.TrimIdempotent | app/api/compare/route.ts:60-69 | trimming twice is trimming once |
| JsStrings.IncludesEmpty | app/chat/page.tsx:68 | every text includes the empty string |
| JsStrings.IncludesAt | app/chat/page.tsx:68 | a text includes every piece that sits at one of its positions |
| JsStrings.IncludesWitness | app/chat/page.tsx:68 | a text that includes a piece has it at some position |
| JsStrings.IncludesSuffixOfMatch | app/chat/page.tsx:68 | a text that includes `a + b` includes `b` |
| JsStrings.LowerChar | app/chat/page.tsx:68 | capital ASCII letters become small letters, every other character is kept |
| JsStrings.Lower | app/chat/page.tsx:68 | lower-casing keeps the length and lowers each character in place |
| JsStrings.LowerIdempotent | app/chat/page.tsx:68 | lower-casing twice is lower-casing once |
| JsStrings.NatToString | app/chat/page.tsx:54 | the decimal rendering is one or more digits, a single digit exactly below ten |
| JsStrings.NatToStringInjective | app/chat/page.tsx:54 | distinct clock values give distinct message ids |
| JsStrings.NatToStringInjectiveAll | app/chat/page.tsx:54 | the decimal rendering is injective on all non-negative integers |
| ChatPage.ReplyPrecedence | app/chat/page.tsx:68-80 | the keyword tests apply in order: "279" first, then "fine" or "pay", then "contest" or "challenge" |
| ChatPage.SectionTestIsJust279 | app/chat/page.tsx:68 | the section reply is chosen exactly when the lower-cased text includes "279" |
| ChatPage.NoKeywordGeneric | app/chat/page.tsx:77-80 | a text with none of the keywords gets the generic reply |
| ChatPage.ChooseReply | app/chat/page.tsx:68-80 | the canned reply for a sent text; ReplyPrecedence, SectionTestIsJust279 and NoKeywordGeneric state which reply each kind of text gets |
| ChatPage.UserMessage | app/chat/page.tsx:53-58 | the sent message is a user message carrying the input as typed |
| ChatPage.AssistantMessage | app/chat/page.tsx:82-87 | the reply message is an assistant message carrying the reply chosen for the sent text |
| ChatPage.ChatPage.constructor | app/chat/page.tsx:29-39 | the history starts with the greeting alone, the input is empty and nothing is pending |
| ChatPage.ChatPage.SetInput | app/chat/page.tsx:38 | typing replaces the input |
| ChatPage.ChatPage.HandleSuggestedQuestion | app/chat/page.tsx:94-96 | a suggested question only fills the input |
| ChatPage.ChatPage.SuggestionsVisible | app/chat/page.tsx:201 | the suggested questions show exactly while the history has at most two messages |
| ChatPage.ChatPage.HandleSend | app/chat/page.tsx:50-63 | a blank input changes nothing; otherwise the user message is appended, the input cleared, typing starts and a reply for the sent text is scheduled; the greeting stays first |
| ChatPage.ChatPage.ReplyTimer | app/chat/page.tsx:65-91 | the oldest scheduled reply appends one assistant message answering its text and stops typing; the greeting stays first |
| Seqs.Filter | app/law-of-the-day/page.tsx:105 | `filter` keeps exactly the elements satisfying the predicate, in order, never more than there were |
| Seqs.FilterConcat | lib/laws-database.ts:610 | filtering distributes over concatenation |
| Seqs.FilterKeepsAll | components/analyze/state-comparison-modal.tsx:97 | a predicate every element satisfies keeps the list unchanged |
| Seqs.FilterKeepsNone | components/analyze/state-comparison-modal.tsx:97 | a predicate no element satisfies leaves nothing |
| Seqs.FilterMonotone | app/law-of-the-day/page.tsx:105 | a stronger predicate keeps a subsequence of what a weaker one keeps |
| Seqs.FilterExt | app/law-of-the-day/page.tsx:103 | predicates that agree on the elements filter alike |
| Seqs.FirstIndex | components/analyze/analysis-progress.tsx:25 | `findIndex`: the first index whose element satisfies the predicate, or none when no element does |
| Seqs.Find | app/quiz/page.tsx:50 | `find`: present exactly when some element satisfies the predicate, and then it is the first such element |
| Seqs.PositionOf | app/quiz/page.tsx:47 | the index of the first occurrence of a member |
| Seqs.PositionOfPrefix | app/quiz/page.tsx:47 | appending leaves the first occurrence of an element already present where it was |
| Seqs.Toggle | components/analyze/next-steps.tsx:18 | the element's membership flips and no other element's changes; removal drops every copy of it and keeps every other element as often as before, in order; addition appends it at the end |
| Seqs.FilterOutMultiset | components/analyze/next-steps.tsx:18 | filtering out one value removes all its copies and keeps the multiplicity of every other value |
| Seqs.ToggleTwiceAbsent | app/law-of-the-day/page.tsx:81 | adding then removing an absent element gives back the original list |
| Seqs.Distinct | app/quiz/page.tsx:47 | `[...new Set(xs)]`: the same members, no repeats, in the original order |
| Seqs.DistinctFirstOccurrenceOrder | app/quiz/page.tsx:47 | the distinct elements come in the order of their first occurrences |
| Seqs.SubseqRefl | app/law-of-the-day/page.tsx:102-103 | a list is a subsequence of itself |
| Seqs.SubseqLength | app/law-of-the-day/page.tsx:105 | a subsequence is no longer than its source |
| Seqs.SubseqMembers | app/law-of-the-day/page.tsx:105 | every element of a subsequence is in its source |
| Seqs.SubseqTrans | app/law-of-the-day/page.tsx:105 | the subsequence relation is transitive |
| Seqs.SubseqSnoc | app/law-of-the-day/page.tsx:105 | appending the same element to both sides keeps the relation |
| Seqs.SubseqSnocRight | app/law-of-the-day/page.tsx:105 | appending to the source keeps the relation |
| Seqs.SubseqDropsMember | components/analyze/next-steps.tsx:18 | a subsequence missing a member of its source is strictly shorter |
| ComparePage.CloseFrom | app/compare/page.tsx:99 | the lazy capture begun at a position stops at a `**` at or after it, and cannot stop with fewer than two characters left |
| ComparePage.CloseFromScan | app/compare/page.tsx:99 | the capture crosses no line terminator and no earlier `**` |
| ComparePage.FirstMatch | app/compare/page.tsx:99 | a match found starts with `**` at or after the position and closes where the lazy capture stops |
| ComparePage.FirstMatchLeftmost | app/compare/page.tsx:99 | the match found is the leftmost one, and when none is found no position after the start opens a match |
| ComparePage.SplitFrom | app/compare/page.tsx:99 | splitting with one capturing group gives an odd number of parts |
| ComparePage.SplitAfter | app/compare/page.tsx:99 | the parts after a match are odd in number too |
| ComparePage.SplitBold | app/compare/page.tsx:99 | the split of the whole text has an odd number of parts |
| ComparePage.Tagged | app/compare/page.tsx:100-110 | one node per part |
| ComparePage.TaggedAt | app/compare/page.tsx:100-110 | each node carries its part's text, and exactly the odd-indexed nodes are bold |
| ComparePage.TaggedConcat | app/compare/page.tsx:100-110 | tagging after an even number of parts keeps the parity of the rest |
| ComparePage.TaggedPair | app/compare/page.tsx:100-110 | a text and a capture become a plain node and a bold node |
| ComparePage.ParseMarkdownBold | app/compare/page.tsx:98-111 | the rendering has an odd number of pieces, bold exactly at odd indices |
| ComparePage.MarkupConcat | app/compare/page.tsx:98-111 | the markup of joined pieces is the joined markup |
| ComparePage.MatchBounds | app/compare/page.tsx:99 | a match closes at least two characters after it opens, with both `**` inside the text |
| ComparePage.SplitStep | app/compare/page.tsx:99 | a match splits off the text before it and its capture, and splitting resumes after its closing `**` |
| ComparePage.ParseStep | app/compare/page.tsx:99-110 | a match contributes a plain piece and a bold piece, and the rendering resumes after its closing `**` |
| ComparePage.MarkupRestoresText | app/compare/page.tsx:98-111 | wrapping the bold pieces back in `**` and joining all pieces gives the original text: the rendering loses nothing |
| ComparePage.MarkupOfTagged | app/compare/page.tsx:100-110 | the markup of the tagged parts is the parts joined with `**` around each capture |
| ComparePage.MarkupOfStep | app/compare/page.tsx:100-110 | the markup of a plain piece, a bold piece and the rest |
| ComparePage.RebuildSplit | app/compare/page.tsx:99 | joining the split parts with `**` around each capture gives the text back |
| ComparePage.RebuildPair | app/compare/page.tsx:99 | joining a text, a capture and the rest |
| ComparePage.Reassemble | app/compare/page.tsx:99 | putting the stars of a match back around its capture gives the text again |
| ComparePage.CaptureShape | app/compare/page.tsx:99 | a capture lies on one line and holds no `**` of its own |
| ComparePage.NoStarsNoIncludes | app/compare/page.tsx:99 | a text with `**` at no position does not include `**` |
| ComparePage.CapturesFrom | app/compare/page.tsx:99 | every odd-indexed part of the split is a single-line capture without `**` |
| ComparePage.BoldPiecesAreSingleLine | app/compare/page.tsx:98-111 | every bold piece lies on one line and holds no `**` |
| ComparePage.SinglePieceIffNoMatch | app/compare/page.tsx:98-111 | the text renders as one plain piece exactly when no complete `**…**` on one line occurs in it |
| ComparePage.NoStarsStaysPlain | app/compare/page.tsx:98-111 | a text without `**` is left as it is |
| ComparePage.Section.Caption | app/compare/page.tsx:59-78 | a section's label is longer than its value, so it is never empty |
| ComparePage.LabelInFallback | app/compare/page.tsx:129 | the posted label is the label of the first section with the chosen value, or the raw value when no section has it |
| ComparePage.LabelIn | app/compare/page.tsx:129 | the label shown for a selection in a section list; LabelInFallback states it is the caption of the first entry with that value, or the raw value |
| ComparePage.SectionLabel | app/compare/page.tsx:129 | the posted section label, looked up in the section list; SectionLabelFallback states its fallback |
| ComparePage.SectionLabelFallback | app/compare/page.tsx:129 | the same for the page's section list |
| ComparePage.StateOptions | app/compare/page.tsx:248-251 | one selector item per listed state, in list order |
| ComparePage.PickableIffNotOther | app/compare/page.tsx:248-268 | a state can be picked exactly when it is listed and is not the other selector's choice |
| ComparePage.SeverityColor | app/compare/page.tsx:156-165 | destructive exactly for "high", outline exactly for "medium", secondary for everything else |
| ComparePage.SeverityIconFor | app/compare/page.tsx:167-176 | the badge icon for a severity; IconMatchesColor states it switches on the same cases as the colour |
| ComparePage.IconMatchesColor | app/compare/page.tsx:156-176 | the icon and the colour switch on the same cases |
| ComparePage.ComparePage.constructor | app/compare/page.tsx:114-119 | nothing chosen, not loading, no error, no comparison, nothing posted |
| ComparePage.ComparePage.SelectSection | app/compare/page.tsx:226 | choosing a section records it |
| ComparePage.ComparePage.SelectState1 | app/compare/page.tsx:243-251 | only a state not chosen in the second selector can be picked; the two choices stay different |
| ComparePage.ComparePage.SelectState2 | app/compare/page.tsx:259-268 | only a state not chosen in the first selector can be picked; the two choices stay different |
| ComparePage.ComparePage.HandleCompare | app/compare/page.tsx:121-140 | nothing happens unless all three choices are made; then loading starts, error and comparison clear, and the section, its label and both states are posted |
| ComparePage.ComparePage.FinishCompare | app/compare/page.tsx:142-153 | an ok response whose body parses becomes the comparison; anything else sets the fixed error; loading ends either way |
| ComparePage.CompareRound | app/compare/page.tsx:121-154 | a full round shows the parsed body and no error on success, and the error and no results on failure |
| AnalyzePage.ErrorMessage | app/analyze/page.tsx:48-50 | the message of a failed response is its `error` text when truthy, "Analysis failed" otherwise, and the null-read error for a `null` body |
| AnalyzePage.HandleOutcome | app/analyze/page.tsx:41-67 | the analysis is kept exactly when the response is ok and `success` and `analysis` are truthy; a network or body error shows its own message; any other ok body shows "Invalid response from server" |
| AnalyzePage.Advance | app/analyze/page.tsx:29-35 | a tick never lowers the progress, never passes 90, and adds `random * 8` unless it reaches the cap |
| AnalyzePage.AnalyzePage.constructor | app/analyze/page.tsx:16-20 | the page starts on the upload screen at 0% with no file, analysis or error |
| AnalyzePage.AnalyzePage.HandleFileUpload | app/analyze/page.tsx:22-35 | the file is kept, the page is analysing from 0% with no error, and the interval starts |
| AnalyzePage.AnalyzePage.Tick | app/analyze/page.tsx:29-35 | while the interval runs the shown progress follows the running total, never falls and stays within 90 |
| AnalyzePage.AnalyzePage.HandleResponse | app/analyze/page.tsx:46-67 | the interval stops; a success sets 100%, keeps the analysis and sets the results timer; a failure shows the error screen with its message |
| AnalyzePage.AnalyzePage.ResultsTimer | app/analyze/page.tsx:58 | the pending timer switches to the results screen |
| AnalyzePage.AnalyzePage.HandleReset | app/analyze/page.tsx:70-76 | back to the upload screen at 0% with nothing kept |
| AnalyzePage.SuccessfulRun | app/analyze/page.tsx:22-68 | however many ticks happen first, a successful request ends on the results screen with the analysis, at 100% and with no error |
| AnalyzePage.ResetBeforeResults | app/analyze/page.tsx:58-76 | a reset in the 500 ms before the results leaves the page on the results screen with no analysis, because the timer is not cleared |
| AnalysisProgress.StepsIncreasing | components/analyze/analysis-progress.tsx:16-23 | the six thresholds strictly increase |
| AnalysisProgress.FirstAhead | components/analyze/analysis-progress.tsx:25 | `findIndex` (as `Seqs.FirstIndex`) gives the first step whose threshold is still ahead, every earlier one being reached, or none when all are reached |
| AnalysisProgress.ActiveStep | components/analyze/analysis-progress.tsx:25-26 | the active step is always one of the six |
| AnalysisProgress.ActiveSplitsSteps | components/analyze/analysis-progress.tsx:25-72 | steps before the active one are completed and steps after it are not; the active one is completed exactly at 100 or more |
| AnalysisProgress.CompletionMonotone | components/analyze/analysis-progress.tsx:71 | more progress never un-completes a step |
| AnalysisProgress.ActiveStepMonotone | components/analyze/analysis-progress.tsx:25-26 | more progress never moves the active step back |
| DocumentUploader.Validate | components/analyze/document-uploader.tsx:48-59 | a file is accepted exactly when its type is one of the four listed and it is at most 10 MB; a wrong type is reported as such, otherwise an oversize file gets the size message |
| DocumentUploader.SizeLimitIsInclusive | components/analyze/document-uploader.tsx:54-57 | exactly 10 MB passes, one byte more is refused with the size message |
| DocumentUploader.TypeCheckedBeforeSize | components/analyze/document-uploader.tsx:50-53 | a file both of the wrong type and too large gets the type message |
| DocumentUploader.OutcomeOf | components/analyze/document-uploader.tsx:34-37 | only the first file is looked at: it is handed on iff it validates, otherwise its rejection message is the error; no file means no upload and no error |
| DocumentUploader.LaterFilesIgnored | components/analyze/document-uploader.tsx:35-36 | files after the first never change the outcome |
| DocumentUploader.DocumentUploader.constructor | components/analyze/document-uploader.tsx:17-18 | not dragging, no error, nothing uploaded |
| DocumentUploader.DocumentUploader.HandleDragOver | components/analyze/document-uploader.tsx:20-23 | dragging starts |
| DocumentUploader.DocumentUploader.HandleDragLeave | components/analyze/document-uploader.tsx:25-27 | dragging stops |
| DocumentUploader.DocumentUploader.ValidateAndUpload | components/analyze/document-uploader.tsx:48-59 | an accepted file is appended to the uploads with the error untouched; a refused one sets the error to its message and uploads nothing |
| DocumentUploader.DocumentUploader.HandleDrop | components/analyze/document-uploader.tsx:29-38 | dragging stops and the error and uploads become those of `OutcomeOf` on the dropped files |
| DocumentUploader.DocumentUploader.HandleFileSelect | components/analyze/document-uploader.tsx:40-46 | a null list behaves as an empty one; otherwise the error and uploads become those of `OutcomeOf` |
| NextSteps.FromNextStep | lib/types.ts:29-34 | a well-typed next step always has a priority the card groups |
| NextSteps.ActionItems | components/analyze/next-steps.tsx:22-37 | a non-empty list is used as given; an absent or empty one is replaced by the four default actions |
| NextSteps.WithPriority | components/analyze/next-steps.tsx:40-42 | the actions of one priority, in list order, and no others |
| NextSteps.Unrecognised | components/analyze/next-steps.tsx:40-42 | the actions whose priority is none of high, medium and low |
| NextSteps.GroupSizesAddUp | components/analyze/next-steps.tsx:40-42 | every action is in exactly one group or in none: the group sizes and the ungrouped count add up to the list's length |
| NextSteps.GroupsCoverRecognised | components/analyze/next-steps.tsx:40-42 | with only recognised priorities, the three groups together hold every action |
| NextSteps.FallbackIffNoneRecognised | components/analyze/next-steps.tsx:132 | the fallback card shows exactly when no action has a recognised priority |
| NextSteps.DefaultGroups | components/analyze/next-steps.tsx:22-42 | the defaults form two high-priority actions then two medium ones, and no low ones |
| NextSteps.SplitGroups | components/analyze/next-steps.tsx:40-42 | two runs of different priorities group as themselves |
| NextSteps.RenderActionItems | components/analyze/next-steps.tsx:44-46 | one row per action, in order, whose id is the start index plus its position |
| NextSteps.RowIdIsPosition | components/analyze/next-steps.tsx:92-125 | across the three cards, each row's id is its overall position |
| NextSteps.RowsNumbered | components/analyze/next-steps.tsx:92-125 | the high, medium and low rows are numbered on from one another |
| NextSteps.NumberedThree | components/analyze/next-steps.tsx:92-125 | three runs each numbered on from the previous are numbered throughout |
| NextSteps.RenderedNumbered | components/analyze/next-steps.tsx:44-46 | rendered rows are numbered from their start index |
| NextSteps.NumberedConcat | components/analyze/next-steps.tsx:108 | a run followed by one numbered on from its end is numbered throughout |
| NextSteps.RowIdsUnique | components/analyze/next-steps.tsx:44-125 | no two rows share an id, so each check mark belongs to one row |
| NextSteps.NextStepsCard.constructor | components/analyze/next-steps.tsx:15 | nothing checked |
| NextSteps.NextStepsCard.ToggleItem | components/analyze/next-steps.tsx:17-19 | the clicked row's mark flips and no other row's mark changes |
| NextSteps.ToggleTwice | components/analyze/next-steps.tsx:17-19 | two clicks on a row restore every mark, and restore the list itself when the row was unchecked |
| LegalTimeline.StepsShown | components/analyze/legal-timeline.tsx:14-37 | a non-empty timeline is shown as given; an absent or empty one is replaced by the four default steps, so the card is never empty |
| LegalTimeline.DefaultsHaveDeadlines | components/analyze/legal-timeline.tsx:14-35 | every default step names a deadline |
| LegalTimeline.GetIcon | components/analyze/legal-timeline.tsx:40-46 | the first step gets the document icon, else the last the gavel, else the second the mail and the third the search icon, any other the building |
| LegalTimeline.GetStatus | components/analyze/legal-timeline.tsx:49-53 | the step status by position; ExactlyOneCurrent and StatusOrder state that the first is completed, the second current and the rest upcoming |
| LegalTimeline.GavelOnlyOnLast | components/analyze/legal-timeline.tsx:40-46 | with two or more steps the gavel marks exactly the last one |
| LegalTimeline.ExactlyOneCurrent | components/analyze/legal-timeline.tsx:49-53 | only the first step is completed; with two or more steps exactly the second is current, a single step has no current one |
| LegalTimeline.StatusOrder | components/analyze/legal-timeline.tsx:49-53 | statuses along the list never go back from upcoming to current to completed |
| StateComparisonModal.GetStateData | components/analyze/state-comparison-modal.tsx:31-65 | a listed state gets its table entry, any other the generic fallback |
| StateComparisonModal.TableCoversListedStates | components/analyze/state-comparison-modal.tsx:24-63 | the table's keys are exactly the six states the selector lists |
| StateComparisonModal.StateDataAlwaysFilled | components/analyze/state-comparison-modal.tsx:31-65 | every state, listed or not, gets a non-empty penalty and notes and a medium or low severity |
| StateComparisonModal.ComparisonChoices | components/analyze/state-comparison-modal.tsx:96-98 | the choices keep the list's order and are the listed states other than the document's own |
| StateComparisonModal.ChoiceCount | components/analyze/state-comparison-modal.tsx:96-98 | a listed state leaves five choices; any other state leaves all six, in order |
| StateComparisonModal.DropOne | components/analyze/state-comparison-modal.tsx:96-97 | filtering one member out of a repeat-free list removes exactly one element |
| StateComparisonModal.StateComparisonModal.constructor | components/analyze/state-comparison-modal.tsx:27-28 | no state chosen, dialog closed |
| StateComparisonModal.StateComparisonModal.CompareData | components/analyze/state-comparison-modal.tsx:68 | absent exactly while no state is chosen, else that state's data |
| StateComparisonModal.StateComparisonModal.SetOpen | components/analyze/state-comparison-modal.tsx:71 | the dialog's open flag becomes the given one |
| StateComparisonModal.StateComparisonModal.SetCompareState | components/analyze/state-comparison-modal.tsx:91-102 | only an offered choice is taken; the chosen state is never the document's own |
| LawsDatabase.LawOfTheDay | lib/laws-database.ts:589-596 | the entry at the day of the year modulo the library's length; an empty library has none |
| LawsDatabase.LawOfTheDayPeriodic | lib/laws-database.ts:594 | the law of the day repeats after as many days as the library has entries |
| LawsDatabase.ModUnique | lib/laws-database.ts:594 | a remainder below the divisor is the one `%` gives |
| LawsDatabase.MulMonotone | lib/laws-database.ts:594 | multiplying by a natural keeps order |
| LawsDatabase.LawOfTheDayChangesDaily | lib/laws-database.ts:589-596 | with two or more distinct entries, consecutive days show different laws |
| LawsDatabase.Candidates | lib/laws-database.ts:600-603 | the pool is the whole library, minus the excluded id's entries when that id is a non-empty string |
| LawsDatabase.RandomLaw | lib/laws-database.ts:599-606 | an entry is drawn exactly when the pool is non-empty; it comes from the library and never has the excluded id |
| LawsDatabase.FloorIndex | lib/laws-database.ts:604 | `Math.floor(Math.random() * n)` is a valid index for a non-empty pool |
| LawsDatabase.RandomLawAvoidsCurrent | lib/laws-database.ts:599-606 | excluding an entry of a library of two or more distinct ids always yields a different law |
| LawsDatabase.LawsByCategory | lib/laws-database.ts:609-611 | the entries of one category, in library order, and no others |
| LawsDatabase.CategoryCounts | lib/laws-database.ts:614-622 | each category with entries maps to its number of entries; empty categories have no key |
| LawsDatabase.CountedStep | lib/laws-database.ts:616-619 | one step of the reduce keeps every count equal to the size of its category among the entries seen |
| LawsDatabase.CountStep | lib/laws-database.ts:617 | one more entry adds one to its own category's count and nothing to the others |
| LawsDatabase.CountInConcat | lib/laws-database.ts:614-622 | category counts add over concatenation |
| LawsDatabase.CategoryCountsTotal | lib/laws-database.ts:614-622 | the six category counts add up to the library's size |
| LawOfTheDayPage.FilteredLaws | app/law-of-the-day/page.tsx:102-103 | the "all" tab shows the whole library, any other tab the library's entries whose category key is the tab's value, in order |
| LawOfTheDayPage.CategoryTabIsLawsByCategory | app/law-of-the-day/page.tsx:102-103 | a category tab shows exactly `getLawsByCategory` of that category |
| LawOfTheDayPage.CategoryNameInjective | app/law-of-the-day/page.tsx:103 | distinct categories have distinct keys |
| LawOfTheDayPage.SavedLawEntries | app/law-of-the-day/page.tsx:105 | the bookmarked entries, in library order, and nothing else |
| LawOfTheDayPage.UnknownSavedIdsIgnored | app/law-of-the-day/page.tsx:105 | a stored id no entry carries changes nothing in the bookmark panel |
| LawOfTheDayPage.SaveToastMessage | app/law-of-the-day/page.tsx:85-89 | the saved message exactly when the id is now bookmarked, the removed message exactly when it is not |
| LawOfTheDayPage.SaveTwiceRestores | app/law-of-the-day/page.tsx:81 | bookmarking then un-bookmarking a law gives back the original list |
| LawOfTheDayPage.LawOfTheDayPage.constructor | app/law-of-the-day/page.tsx:63-67 | no law, no bookmarks, not refreshing, the "all" tab, library closed |
| LawOfTheDayPage.LawOfTheDayPage.Mount | app/law-of-the-day/page.tsx:69-78 | the law of the day is shown and stored bookmarks, when present, replace the empty list |
| LawOfTheDayPage.LawOfTheDayPage.HandleSaveLaw | app/law-of-the-day/page.tsx:80-91 | the id is toggled in the bookmarks, the new list is stored, and the toast says saved exactly when the id was not bookmarked before |
| LawOfTheDayPage.LawOfTheDayPage.StartRandomLaw | app/law-of-the-day/page.tsx:93-94 | the refresh spinner starts |
| LawOfTheDayPage.LawOfTheDayPage.FinishRandomLaw | app/law-of-the-day/page.tsx:95-99 | the new law is a random one excluding the current id, so never the same law when that id is non-empty, and the spinner stops |
| LawOfTheDayPage.LawOfTheDayPage.SelectCategory | app/law-of-the-day/page.tsx:262 | the chosen tab becomes selected |
| LawOfTheDayPage.LawOfTheDayPage.ToggleLibrary | app/law-of-the-day/page.tsx:144 | the bookmark panel flips |
| LawyersDatabase.LawyerById | lib/lawyers-database.ts:293-295 | a lawyer is found exactly when one in the directory has the id, and the one found is the first lawyer with that id |
| LawyersDatabase.FilterLawyers | lib/lawyers-database.ts:297-310 | the lawyers passing every non-empty filter (state, practice area, fee type, language), in directory order, and no others |
| LawyersDatabase.Matches | lib/lawyers-database.ts:304-308 | a lawyer passes each filter that is given and non-empty; NoFiltersListAll and RefiningNarrows state what that means for the list |
| LawyersDatabase.NoFiltersListAll | lib/lawyers-database.ts:303-309 | with no non-empty filter the whole directory is listed |
| LawyersDatabase.RefiningNarrows | lib/lawyers-database.ts:303-309 | adding filters only removes lawyers from the list and keeps its order |
| LawyersPage.PageFilter | app/lawyers/page.tsx:45-72 | the listed lawyers are those whose name, firm, a practice area or city contains the search ignoring case (any lawyer when it is empty) and that pass every select not set to "all", in directory order |
| LawyersPage.SearchMatches | app/lawyers/page.tsx:48-56 | the search test: an empty search passes everyone, else name, firm, a practice area or city must contain the lower-cased query |
| LawyersPage.SelectMatches | app/lawyers/page.tsx:58-68 | the four select tests, each passing everyone when set to "all" |
| LawyersPage.PageAgreesWithDirectory | app/lawyers/page.tsx:58-68 | without a search the page lists exactly what `filterLawyers` gives for the same selections |
| LawyersPage.SearchNarrows | app/lawyers/page.tsx:48-56 | typing a search only removes lawyers from the list and keeps its order |
| LawyersPage.ActiveSelections | app/lawyers/page.tsx:74-76 | the select values other than "all", in the order state, practice area, fee type, language: one entry per select so set, and nothing else |
| LawyersPage.ActiveFiltersCount | app/lawyers/page.tsx:74-76 | the number of the four selects not set to "all" (so at most four), zero exactly when every select is "all" |
| LawyersPage.NoActiveSelections | app/lawyers/page.tsx:74-76 | no active value exactly when every select is "all" |
| LawyersPage.LawyersPage.constructor | app/lawyers/page.tsx:36-43 | empty search, every select "all", panels closed, no lawyer chosen |
| LawyersPage.LawyersPage.FilteredLawyers | app/lawyers/page.tsx:45-72 | the page's list for its current search and selections |
| LawyersPage.LawyersPage.ClearFilters | app/lawyers/page.tsx:78-83 | every select back to "all", so no active filter; the search and everything else unchanged |
| LawyersPage.LawyersPage.HandleContact | app/lawyers/page.tsx:85-88 | the contact dialog opens for that lawyer; the filters are unchanged |
| LawyersPage.FeeLabel | app/lawyers/page.tsx:332-336 | "Free" exactly for pro-bono, "Low Cost" exactly for low-cost, "Private" for any other key |
| LawyersPage.FeeLabelsDistinct | app/lawyers/page.tsx:332-336 | the directory's three fee types get three different badges |
| LawyersAdmin.GenerateId | app/lawyers/admin/page.tsx:20 | every generated id is a custom one |
| LawyersAdmin.CustomOnly | app/lawyers/admin/page.tsx:35-38 | exactly the lawyers with a `custom-` id, in list order |
| LawyersAdmin.EmptyLawyer | app/lawyers/admin/page.tsx:40-63 | a fresh lawyer has a custom id and is marked verified |
| LawyersAdmin.ReplaceById | app/lawyers/admin/page.tsx:84 | the list keeps its length; every entry with the edited id is replaced and every other entry kept |
| LawyersAdmin.Apply | app/lawyers/admin/page.tsx:101-105 | an edit of one field never changes the id |
| LawyersAdmin.ApplyAll | app/lawyers/admin/page.tsx:101-105 | a spread of several updates never changes the id |
| LawyersAdmin.ReloadRestores | app/lawyers/admin/page.tsx:29-38 | saving then reloading gives back the directory followed by the added lawyers |
| LawyersAdmin.EditOfDirectoryLawyerNotStored | app/lawyers/admin/page.tsx:77-91 | saving an edit of a directory lawyer leaves what is stored unchanged, so the edit is lost on reload |
| LawyersAdmin.CustomOnlyPointwise | app/lawyers/admin/page.tsx:36 | lists that agree at every custom position store the same lawyers |
| LawyersAdmin.LawyersAdmin.constructor | app/lawyers/admin/page.tsx:23-26 | an empty list, nothing edited, dialog closed |
| LawyersAdmin.LawyersAdmin.Load | app/lawyers/admin/page.tsx:29-33 | the list becomes the directory followed by the stored lawyers (none when absent) |
| LawyersAdmin.LawyersAdmin.SaveCustomLawyers | app/lawyers/admin/page.tsx:35-38 | storage holds the custom lawyers of the given list; nothing else changes |
| LawyersAdmin.LawyersAdmin.HandleAddNew | app/lawyers/admin/page.tsx:65-69 | the dialog opens in add mode on a fresh lawyer |
| LawyersAdmin.LawyersAdmin.HandleEdit | app/lawyers/admin/page.tsx:71-75 | the dialog opens in edit mode on the lawyer |
| LawyersAdmin.LawyersAdmin.HandleSave | app/lawyers/admin/page.tsx:77-91 | with nothing edited nothing changes; otherwise the lawyer is appended (add mode) or replaced by id (edit mode), storage holds the custom lawyers of the new list, and the dialog closes |
| LawyersAdmin.LawyersAdmin.HandleDelete | app/lawyers/admin/page.tsx:93-97 | every lawyer with the id is dropped, the order kept, and storage holds the custom lawyers of the new list |
| LawyersAdmin.LawyersAdmin.UpdateEditingLawyer | app/lawyers/admin/page.tsx:101-105 | the updates are applied to the lawyer being edited, if any |
| LawyersAdmin.LawyersAdmin.TogglePracticeArea | app/lawyers/admin/page.tsx:107-113 | the area's membership flips in the edited lawyer's areas, nothing else changes |
| LawyersAdmin.LawyersAdmin.ToggleLanguage | app/lawyers/admin/page.tsx:115-121 | the language's membership flips in the edited lawyer's languages, nothing else changes |
| LawyerContactModal.ApplyEdit | components/lawyers/lawyer-contact-modal.tsx:100-170 | each input changes its own field, and no input ever sets `attachDocument` |
| LawyerContactModal.SendNeedsConsent | components/lawyers/lawyer-contact-modal.tsx:296-303 | the send button is enabled exactly with the contact and terms consents, the document consent when a summary is included, and no send under way |
| LawyerContactModal.SendEnabled | components/lawyers/lawyer-contact-modal.tsx:297-302 | the send button's enabled state; SendNeedsConsent states it as the consents required and no send under way |
| LawyerContactModal.ContactModal.constructor | components/lawyers/lawyer-contact-modal.tsx:24-39 | the form step, an empty form, no consents, not sending |
| LawyerContactModal.ContactModal.EditForm | components/lawyers/lawyer-contact-modal.tsx:104 | the form becomes the edited one and `attachDocument` stays false |
| LawyerContactModal.ContactModal.SetConsent | components/lawyers/lawyer-contact-modal.tsx:238-266 | the consents become the ticked ones |
| LawyerContactModal.ContactModal.SubmitForm | components/lawyers/lawyer-contact-modal.tsx:41-44 | a form whose required inputs are filled moves to the consent step; otherwise the browser blocks the submit and nothing moves |
| LawyerContactModal.ContactModal.Back | components/lawyers/lawyer-contact-modal.tsx:292 | back to the form step |
| LawyerContactModal.ContactModal.ClickSend | components/lawyers/lawyer-contact-modal.tsx:294-303 | an enabled button starts the send; a disabled one changes nothing |
| LawyerContactModal.ContactModal.FinishSend | components/lawyers/lawyer-contact-modal.tsx:48-51 | the send ends on the success step |
| LawyerContactModal.ContactModal.Close | components/lawyers/lawyer-contact-modal.tsx:54-71 | back to the form step with an empty form and no consents, and the parent's `onClose` is called once more |
| LawyerContactModal.HappyPath | components/lawyers/lawyer-contact-modal.tsx:41-52 | filling the form, consenting and sending ends on the success step |
| QuizPage.FilteredPacks | app/quiz/page.tsx:45 | every pack for "all", otherwise exactly the packs of the chosen state, in order |
| QuizPage.PackStates | app/quiz/page.tsx:47 | the state of each pack, position by position |
| QuizPage.States | app/quiz/page.tsx:47 | every state some pack has, each exactly once |
| QuizPage.StatesInFirstOccurrenceOrder | app/quiz/page.tsx:47 | the states are listed in the order the packs first mention them |
| QuizPage.Percentage | app/quiz/page.tsx:56 | the score as a percentage of the total, rounded half up; no number for a zero total |
| QuizPage.PercentageBounds | app/quiz/page.tsx:56 | for a score within a non-zero total the percentage lies in 0..100, and a full score gives 100 |
| QuizPage.LessFromMul | app/quiz/page.tsx:56 | a positive factor can be cancelled from a strict inequality |
| QuizPage.GetPackStatus | app/quiz/page.tsx:49-60 | not completed exactly when no stored result is for the pack; otherwise the score, total and percentage of the first such result |
| QuizPage.StatusIgnoresLaterResults | app/quiz/page.tsx:50 | results stored after a pack's first result do not change its status |
| QuizPage.PrefixFirstIndex | app/quiz/page.tsx:50 | appending never moves a first match that already exists |
| QuizPage.LoadProgress | app/quiz/page.tsx:34-43 | nothing stored keeps empty progress; each missing field of a stored record falls back to an empty list or 0 |
| QuizPage.LoadStoredProgress | app/quiz/page.tsx:36-42 | loading a complete stored record gives it back |
| QuizPage.EarnedBadgeList | app/quiz/page.tsx:171-172 | the badge-list entries whose id is earned, in badge-list order; none when nothing is earned |
| QuizAdmin.QuestionList.constructor | app/quiz/admin/page.tsx:44 | a new array holds the given questions |
| QuizAdmin.QuestionList.Upsert | app/quiz/admin/page.tsx:47-52 | the array's contents become the list with the question saved into it, in the same array object |
| QuizAdmin.UpsertById | app/quiz/admin/page.tsx:47-52 | the saved question is always present; an existing id keeps the length and the question takes that place, a new id is appended, and entries with other ids stay where they were |
| QuizAdmin.UpsertKeepsIdsUnique | app/quiz/admin/page.tsx:47-52 | saving keeps ids unique, and every question afterwards is the saved one or one of the earlier questions with another id |
| QuizAdmin.RemoveById | app/quiz/admin/page.tsx:63 | the questions with other ids, in order |
| QuizAdmin.DeleteUndoesAdd | app/quiz/admin/page.tsx:47-63 | deleting a question just added under a new id gives back the list before it |
| QuizAdmin.MergedQuestions | app/quiz/admin/page.tsx:33-39 | the pack's built-in questions followed by its custom ones, each missing list counting as empty |
| QuizAdmin.NewQuestion | app/quiz/admin/page.tsx:119-129 | a `custom-` id, four empty options, answer 0, and the pack's difficulty or beginner |
| QuizAdmin.NewQuestionNotSavable | app/quiz/admin/page.tsx:330-334 | a fresh question cannot be saved before it is filled in |
| QuizAdmin.SaveEnabled | app/quiz/admin/page.tsx:330-334 | the save button is enabled exactly when the question, every option and the explanation are non-empty; NewQuestionNotSavable and SavableOptionsNonEmpty build on it |
| QuizAdmin.SavableOptionsNonEmpty | app/quiz/admin/page.tsx:330-334 | a savable question has no empty option |
| QuizAdmin.ItemsOf | app/quiz/admin/page.tsx:22 | the contents of the dictionary of arrays, pack by pack, with the same packs |
| QuizAdmin.UpsertInPack | app/quiz/admin/page.tsx:47-52 | writing into one pack's array changes that pack's contents only, since no other pack shares the array |
| QuizAdmin.QuizAdmin.constructor | app/quiz/admin/page.tsx:18-22 | no pack selected, no questions, no dialog, no custom questions |
| QuizAdmin.QuizAdmin.Load | app/quiz/admin/page.tsx:25-30 | a stored dictionary becomes the custom questions, each pack with an array of its own; nothing stored changes nothing |
| QuizAdmin.QuizAdmin.SelectPack | app/quiz/admin/page.tsx:103 | the chosen pack becomes selected, nothing else changes |
| QuizAdmin.QuizAdmin.RefreshQuestions | app/quiz/admin/page.tsx:33-39 | with a pack selected, the list becomes its merged questions; otherwise it stays |
| QuizAdmin.QuizAdmin.AddNew | app/quiz/admin/page.tsx:117-130 | the dialog opens in add mode on the fresh question |
| QuizAdmin.QuizAdmin.Edit | app/quiz/admin/page.tsx:174 | the dialog opens on the question; the add flag stays as it was |
| QuizAdmin.QuizAdmin.CloseDialog | app/quiz/admin/page.tsx:198-201 | no question edited, not adding |
| QuizAdmin.QuizAdmin.HandleSaveQuestion | app/quiz/admin/page.tsx:41-58 | the selected pack's list gets the question, replaced by id or appended, in the same array when the pack had one; no other pack changes; the whole dictionary is stored and the dialog closes |
| QuizAdmin.QuizAdmin.SaveIntoPack | app/quiz/admin/page.tsx:42-52 | the selected pack's contents become the list with the question saved into it; the dictionary object is kept when the pack had an array |
| QuizAdmin.QuizAdmin.Store | app/quiz/admin/page.tsx:55 | storage holds the dictionary's current contents |
| QuizAdmin.QuizAdmin.PackList | app/quiz/admin/page.tsx:43-45 | the selected pack's array, a new empty one added when missing; the contents otherwise unchanged |
| QuizAdmin.QuizAdmin.HandleDeleteQuestion | app/quiz/admin/page.tsx:60-67 | when the pack has a custom list, it is replaced by a new array without the id and the dictionary is stored; otherwise nothing changes |
| QuizAdmin.SavedQuestionIsEditable | app/quiz/admin/page.tsx:149 | after saving, the question is offered for edit and delete |
| QuizAdmin.OffersEdit | app/quiz/admin/page.tsx:149 | edit and delete are offered exactly for a question in the pack's custom list; SavedQuestionIsEditable and DeletedQuestionNotEditable state how saving and deleting change it |
| QuizAdmin.DeletedQuestionNotEditable | app/quiz/admin/page.tsx:149 | after deleting, no question with that id is offered for edit |
| SavedCasesPage.SampleCases | app/saved-cases/page.tsx:38-66 | the page starts with three sample cases |
| SavedCasesPage.RemoveCase | app/saved-cases/page.tsx:68-70 | every case with the id goes; the rest remain, in order |
| SavedCasesPage.RemoveAbsentCase | app/saved-cases/page.tsx:68-70 | deleting an id no case carries changes nothing |
| SavedCasesPage.FilteredCases | app/saved-cases/page.tsx:72-76 | the cases whose file name or document type contains the query, ignoring case, in order |
| SavedCasesPage.EmptySearchShowsAll | app/saved-cases/page.tsx:72-76 | an empty search shows every case |
| SavedCasesPage.SearchIgnoresQueryCase | app/saved-cases/page.tsx:74-75 | the query's letter case never changes the result |
| SavedCasesPage.RiskColor | app/saved-cases/page.tsx:78-87 | destructive exactly for high, outline exactly for medium, secondary otherwise |
| SavedCasesPage.GetRiskIcon | app/saved-cases/page.tsx:89-97 | the warning icon exactly for high and medium |
| SavedCasesPage.IconAgreesWithColor | app/saved-cases/page.tsx:78-97 | the warning icon goes exactly with the two non-neutral badge variants |
| SavedCasesPage.SectionBadges | app/saved-cases/page.tsx:184-193 | with more than two sections, the first two and "+n more" with n the number of the rest; with two or fewer, every section and no count |
| SavedCasesPage.SavedCasesPage.constructor | app/saved-cases/page.tsx:35-66 | an empty search over the sample cases |
| SavedCasesPage.SavedCasesPage.DeleteCase | app/saved-cases/page.tsx:68-70 | the list loses the cases with the id and no case with it remains |
| SavedCasesPage.SavedCasesPage.SetSearchQuery | app/saved-cases/page.tsx:142 | the search becomes the typed text |
| SavedCasesPage.SavedCasesPage.Shown | app/saved-cases/page.tsx:72-76 | the cases on screen are the saved ones matching the search, in order |

## Left out

- The call to the generation SDK, the API key and the module-level client. The completion text, or the error the call throws, is an input of each handler.
- Request decoding (`request.formData`, `request.json`, `file.arrayBuffer`, base64) and the pages' `fetch` calls. The form fields, the JSON body and the fetch outcome are input values.
- `JSON.parse` and `JSON.stringify`. They are function parameters; only the two patterns the code implements itself are modelled concretely: the first-`{`-to-last-`}` span and the `**…**` split.
- The regular expressions. Each is written out as the scan it performs: the greedy brace span, the non-greedy bold capture, and the fence prefixes and suffixes.
- Browser storage. What is read is an optional input value, and what is written is a field holding the stored value. The language context and the storage of other pages are not part of this model.
- Timers and intervals. Each callback is a method the caller invokes (`Tick`, `ResultsTimer`, `ReplyTimer`, `FinishSend`, `FinishRandomLaw`); cancelling a timer at unmount is not modelled.
- The Date-to-day-of-year arithmetic of `getLawOfTheDay` (milliseconds, time zone). The day of the year is an input.
- The prompt texts. `AnalyzeRoute`, `ChatRoute` and `CompareRoute` keep the parts that matter to the contracts (the interpolated values, the fixed prefix, acknowledgement and messages) but not the full instruction wording. The chat page's four canned replies are cut to their opening sentences.
- Static content: the entries of the law library, the lawyer directory, the quiz packs, questions and badges, and the translations. The queries take the table as a parameter, and only the record shapes are modelled.
- All rendering: JSX, animation, styling classes, toasts as UI, navigation, and the landing, privacy, demo and risk-meter components.
- JsStrings.Lower: lowercases ASCII letters only, not the full Unicode `toLowerCase`, so case-insensitive search is exact for ASCII text only.
- QuizPage.Percentage: computes `Math.round(score / total * 100)` in exact rational arithmetic, not in floating point; a zero total, which gives `NaN` in the source, gives no number.
- AnalyzePage.AnalyzePage.Tick: the progress bar's `Math.random() * 8` step uses exact reals, not floating point.
- The quiz page's average score, which is floating-point display only.
- JavaScript object lookups are maps without prototype keys (such as `constructor`), so a lookup of such a name is absent in the model.
- `getSeverityIcon` of the compare page returns an icon component; the model returns one value of an enumeration of the three icons.
- ChatPage.ChatPage.HandleSend: the send button is disabled while a reply is pending, but the handler does not check it; the model states what the handler does.
- The lawyer contact dialog's `Rendered` predicate is stated but not related to output, because rendering is out of scope.
