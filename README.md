# prompt-tester in Dafny

This project models the engine of prompt-tester, a browser tool for trying
out prompts against language-model APIs, and proves properties of it. The
model covers:

- template substitution of `{{key}}` placeholders from a JSON variables text;
- the multi-step runner, which executes prompt steps in `order`, carries
  captured outputs forward, stops on the first error and stops early on
  `all_requirements_met`, together with its validator and its template;
- the text chunker, the configuration check, the index URL, the local
  document records and the assembly of search results of the document
  service;
- the API service: configuration checks, the dispatch before any request,
  and the scanning of OpenAI and Anthropic server-sent event streams;
- the evaluation service: its check, the criteria listing of the judge
  prompt and the weighted overall score;
- the screens built on them: the variable list and run guard of the main
  screen, the step editor (add, delete with renumbering, drag and drop,
  update), the evaluation panel (the 32-bit string hash, score colours and
  labels, the 50-entry history), the document parser's dispatch on file
  extensions and its word count, the global-variables dialog, and the three
  manager dialogs (names, previews, counts, the two-click delete, the
  unsaved-changes guards and the newest-first order).

Modules follow the source files: `Templating`, `MultiStep` and
`MultiStepValidation` (multiStepService.ts), `Documents`, `ApiService`,
`Evaluation`, `StepEditor`, `App`, `EvaluationPanel`, `DocumentParser`,
`GlobalVariables`, `PromptManager`, `VariableManager`,
`MultiStepPromptManager`, with what the three managers share in `Managers`.
`Wrappers`, `Text`, `Json`, `Lists` and `Sorting` model the JavaScript
built-ins the source relies on: `trim`, `split`, `join`, `startsWith`,
`includes`, `String(n)`, `toString(16)`, global regular-expression
replacement of a literal, `JSON.parse`/`JSON.stringify(v, null, 2)`,
`Object.keys`/`Object.entries`, property assignment and spread,
`findIndex`, `filter` and the stable `Array.prototype.sort`.

Objects whose fields the source updates (the services, the editor, the
dialogs, the panel, the main screen) are classes whose methods state their
new state through the functions the lemmas are about. The language model,
the network, the clock, the storage and the JSON codec are parameters: a
`JsonCodec` value carries `parse` and `stringify`, and `ValidCodec` states
that parsing what was printed gives the value back.

Where the behaviour described for the program and its code differ, the
model follows the code:

- malformed step-local variables fail the step; they are not read as `{}`
  (`MultiStep.ExecuteStep`);
- substitution is not idempotent merely because no value holds a
  placeholder (`Templating.SubstituteNotIdempotentInGeneral`);
- a second variable of the same name can take effect on the main screen
  (`App.DuplicateNameCanTakeEffect`);
- `validateConfig` has no default case, so an unknown provider passes the
  check that `executePrompt` then refuses
  (`ApiService.UnknownProviderPassesButIsRefused`);
- a stream line split across two chunks is lost
  (`ApiService.ChunkBoundarySplitsLines`);
- a step that fails with an empty message ends the run, but the run still
  counts as successful, since success is `results.every(result => !result.error)`
  (`MultiStep.EmptyMessageFailureCountsAsSuccess`).

## Model

| member | source | states |
|---|---|---|
| Templating.SubstituteVariables | prompt-tester/src/utils/templating.ts:1-16 | the loop's result is the substitution function: unparsable variables (and `null`) give the template followed by the fixed error notice, otherwise one global replacement per property in entry order |
| Templating.SubstituteWithoutPlaceholders | prompt-tester/src/utils/templating.ts:6-11 | a template holding no placeholder of any key comes back unchanged, so does every template for the empty object |
| Templating.SubstituteObject | prompt-tester/src/utils/templating.ts:3-10 | for text that parses to an object, the result is one replacement pass per property, in order |
| Templating.SubstituteReplacesEveryOccurrence | prompt-tester/src/utils/templating.ts:7-9 | every occurrence of a key's placeholder is replaced, not only the first |
| Templating.SubstituteInsertsJsonText | prompt-tester/src/utils/templating.ts:8 | a non-string value is inserted as its 2-space JSON text |
| Templating.SubstituteRescansInsertedText | prompt-tester/src/utils/templating.ts:4-10 | a later key rewrites placeholders that an earlier key's value inserted |
| Templating.SubstituteIdempotent | prompt-tester/src/utils/templating.ts:6-11 | substituting again changes nothing once the result holds no placeholder of any key |
| Templating.SubstituteNotIdempotentInGeneral | prompt-tester/src/utils/templating.ts:6-11 | values free of placeholders do not make substitution idempotent: a concrete template and object where the second pass differs |
| Templating.PlaceholderUnbordered | prompt-tester/src/utils/templating.ts:7 | a key without `{` gives a placeholder whose occurrences never overlap |
| Templating.ReplaceEachWithoutPlaceholders | prompt-tester/src/utils/templating.ts:6-10 | text without any key's placeholder survives every pass unchanged |
| Templating.SubstituteObjectText | prompt-tester/src/multiStepService.ts:50 | substituting with the printed text of an object with distinct keys substitutes exactly that object's properties |
| MultiStep.ExecuteMultiStepPrompt | prompt-tester/src/multiStepService.ts:20-183 | the loop returns the run function's result: its results, success, final output, early termination, events and the model calls |
| MultiStep.ExecuteStep | prompt-tester/src/multiStepService.ts:39-146 | one step: malformed local variables or a raised model error fail the step with its raw prompt and empty output; otherwise the substituted prompt is sent and the output captured |
| MultiStep.RunProperties | prompt-tester/src/multiStepService.ts:29-182 | results follow the sorted steps one per executed step; a failing step is the last and leaves an empty final output; the run is unsuccessful exactly when some result carries a non-empty error message (`!result.error`); `all_requirements_met` ends it early with that step's output; otherwise all steps run; `onComplete` fires last unless the global variables do not parse, in which case the run has no results and fails |
| MultiStep.FailureEndsRunEmpty | prompt-tester/src/multiStepService.ts:126-165 | in a run of that shape a failed step leaves an empty final output and no early termination, and a failure with a message makes the run unsuccessful |
| MultiStep.EmptyMessageFailureCountsAsSuccess | prompt-tester/src/multiStepService.ts:126-165 | a first step failing with an empty message ends the run after one result, and the run still counts as successful |
| MultiStep.RunFromShape | prompt-tester/src/multiStepService.ts:38-166 | the run from any step keeps the results so far and ends by failure, by early termination, or after the last step; its success holds exactly when no result carries a non-empty error message |
| MultiStep.RunFromCompletes | prompt-tester/src/multiStepService.ts:122-165 | a run from any step ends with `onComplete` handed its own result |
| MultiStep.Finish | prompt-tester/src/multiStepService.ts:151-165 | a run that was not ended early keeps the prompt id and the results, is not marked early, and is handed to `onComplete` as the last event |
| MultiStep.FinishEarly | prompt-tester/src/multiStepService.ts:107-122 | an early end keeps the prompt id and the results, is marked early with the step's output as final output, and is handed to `onComplete` as the last event |
| MultiStep.FailedStepEndsRun | prompt-tester/src/multiStepService.ts:126-152 | a failing step is the last result of the run, records its raw prompt and an empty output, and leaves an empty final output; the run is unsuccessful unless the message is empty |
| MultiStep.FinalStepEndsRun | prompt-tester/src/multiStepService.ts:104-123 | a step announcing the marker ends the run early with that step's untrimmed output and i+1 results |
| MultiStep.ContinuingStepKeepsShape | prompt-tester/src/multiStepService.ts:94-101 | a step that neither fails nor ends the run appends one successful result |
| MultiStep.StepResultFacts | prompt-tester/src/multiStepService.ts:85-138 | a step's result carries its id and name; a failed step records its raw prompt and empty output |
| MultiStep.ExecutionOrder | prompt-tester/src/multiStepService.ts:35-39 | steps run in ascending `order` on a stably sorted copy holding exactly the prompt's steps |
| MultiStep.MarkerIgnoresTrim | prompt-tester/src/multiStepService.ts:104 | trimming and lower-casing never change whether the output holds the marker |
| MultiStep.RejectedCallGivesEmptyStep | prompt-tester/src/multiStepService.ts:77 | a request `executePrompt` refuses without a callback gives a step with no error and empty output, capturing nothing |
| MultiStep.StreamedOutputIsTokens | prompt-tester/src/multiStepService.ts:57-70 | for a streamed call the completion data equals the collected tokens, so `response.data \|\| stepOutput` changes nothing |
| MultiStep.CaptureProperties | prompt-tester/src/multiStepService.ts:97-99 | a capture makes the trimmed output readable under the output variable and changes nothing else; an empty variable name or blank output captures nothing |
| MultiStep.StepScopes | prompt-tester/src/multiStepService.ts:32-99 | each step sent its prompt substituted with the global variables overridden by earlier captures, overridden by its own locals; locals never reach another step |
| MultiStep.CapturedScopePrefix | prompt-tester/src/multiStepService.ts:97-99 | the scope a step starts from depends only on the steps before it |
| MultiStep.MergedScopeSubstitution | prompt-tester/src/multiStepService.ts:46-50 | the prompt sent is one pass per property of the merged scope, each reading as the local value when there is one and the accumulated value otherwise |
| MultiStep.CapturedScopeWellFormed | prompt-tester/src/multiStepService.ts:32-98 | the accumulated scope always has distinct keys |
| MultiStep.RunUsesOnlyCallsMade | prompt-tester/src/multiStepService.ts:38-147 | two models answering alike for the steps that ran give the same run |
| MultiStepValidation.ValidateMultiStepPrompt | prompt-tester/src/multiStepService.ts:186-242 | the validator returns exactly the error list of the specification, in report order, with validity meaning no errors |
| MultiStepValidation.UniqueOrders | prompt-tester/src/multiStepService.ts:199-200 | the loop builds the `Set` of orders in first-occurrence order |
| MultiStepValidation.CheckGaps | prompt-tester/src/multiStepService.ts:206-211 | the gap loop pushes one error per neighbouring pair of sorted orders more than one apart |
| MultiStepValidation.CheckSteps | prompt-tester/src/multiStepService.ts:214-228 | the `forEach` pushes each step's errors in step order, numbered from 1 |
| MultiStepValidation.CheckStep | prompt-tester/src/multiStepService.ts:215-227 | a step gets a name error, a prompt error and a variables error exactly when each check fails |
| MultiStepValidation.DedupProperties | prompt-tester/src/multiStepService.ts:200-201 | the `Set` keeps each order once and loses none; it is as long as the orders exactly when no order repeats |
| MultiStepValidation.ValidIffWellFormed | prompt-tester/src/multiStepService.ts:186-241 | a prompt is valid exactly when it has a non-blank name, at least one step, distinct orders forming an interval, steps with names, prompts and parsable variables, and parsable global variables |
| MultiStepValidation.NoGapsIffInterval | prompt-tester/src/multiStepService.ts:206-211 | a strictly increasing sequence has no gap exactly when its values form an interval |
| MultiStepValidation.IntervalOfOrders | prompt-tester/src/multiStepService.ts:199-211 | the orders form an interval exactly when the sorted distinct orders do |
| MultiStepValidation.SortedOrdersMembers | prompt-tester/src/multiStepService.ts:206 | the sorted distinct orders are exactly the orders the steps carry |
| MultiStepValidation.SortedOrdersIncrease | prompt-tester/src/multiStepService.ts:206 | the sorted distinct orders increase strictly |
| MultiStepValidation.StepErrorsNumbered | prompt-tester/src/multiStepService.ts:214-227 | every step error carries the number of its step |
| MultiStepValidation.OrderErrorCounts | prompt-tester/src/multiStepService.ts:199-211 | duplicate orders are reported at most once, exactly when some order repeats; each gap is reported once |
| MultiStepValidation.OrderMessagesOnlyFromOrders | prompt-tester/src/multiStepService.ts:189-236 | no error outside the order checks reads like one of theirs |
| MultiStepValidation.TemplateIsValid | prompt-tester/src/multiStepService.ts:245-272 | the new template passes validation with any parser accepting its JSON texts, and runs step 1 then step 2 |
| Documents.ChunkText | prompt-tester/src/documentService.ts:53-95 | bad parameters are refused exactly when chunk size is not positive, overlap negative or not below the size, with the message naming both; otherwise the chunks are the slices of the windows the loop cuts |
| Documents.ChunkProperties | prompt-tester/src/documentService.ts:60-91 | no chunks for empty text; the first starts at 0; each is non-empty and at most the chunk size; starts increase; at most 1001; unless capped, every character lies in a chunk |
| Documents.SpansFromShape | prompt-tester/src/documentService.ts:68-73 | windows exist exactly while the start is inside the text, each as long as the size allows |
| Documents.SpansFromChain | prompt-tester/src/documentService.ts:76-84 | each window starts `overlap` before the previous one's end |
| Documents.SpansFromAdvances | prompt-tester/src/documentService.ts:76-84 | window starts increase strictly, so the loop ends |
| Documents.SpansFromCount | prompt-tester/src/documentService.ts:68-90 | at most 1001 windows; the last reaches the end unless the cap stopped the loop |
| Documents.Covered | prompt-tester/src/documentService.ts:68-84 | chained windows from 0 to the end leave no character out |
| Documents.WrittenSpansFrom | prompt-tester/src/documentService.ts:68-91 | the loop as written cuts the intended windows plus, in some cases, one extra window inside the one before |
| Documents.RedundantTrailingChunk | prompt-tester/src/documentService.ts:68-91 | "abc" with size 2 and overlap 1 gives "ab", "bc" and a redundant "c" |
| Documents.RedundantChunkAtDefaults | prompt-tester/src/documentService.ts:53-91 | with the defaults a 500-character text gives two chunks, the second a copy of its last 200 characters |
| Documents.IntendedChunksOfExample | prompt-tester/src/documentService.ts:68-91 | the corrected loop cuts "abc" into "ab" and "bc" only |
| Documents.IntendedIsPrefix | prompt-tester/src/documentService.ts:68-91 | the corrected windows are the first windows of the written loop; any extra written window follows one that reached the end |
| Documents.IntendedEndsIncrease | prompt-tester/src/documentService.ts:68-91 | in the corrected loop only the last window reaches the end and window ends increase |
| Documents.IntendedSpansProperties | prompt-tester/src/documentService.ts:60-91 | the corrected windows keep every guarantee of the written ones: empty iff the text is, start at 0, bounded non-empty windows, increasing starts, at most 1001, full coverage unless capped |
| Documents.DocumentConfigErrorsFacts | prompt-tester/src/documentService.ts:36-51 | each message appears exactly when its setting is missing, key first; valid exactly when both are set; the environment never matters |
| Documents.PineconeUrlParts | prompt-tester/src/documentService.ts:156-167 | no configuration is refused; the URL is https with the index name first and the path last, and both read back from it |
| Documents.PineconeUrlInjective | prompt-tester/src/documentService.ts:163-164 | different paths give different URLs |
| Documents.UpsertProperties | prompt-tester/src/documentService.ts:417-428 | saving replaces the first record with the id in place and leaves the others, or appends; the id then finds the record |
| Documents.UpsertIdempotent | prompt-tester/src/documentService.ts:417-428 | saving a record twice is saving it once |
| Documents.WithoutIdProperties | prompt-tester/src/documentService.ts:430-434 | deleting removes every record with the id and keeps the others in their order |
| Documents.DeleteAfterSave | prompt-tester/src/documentService.ts:417-434 | deleting after saving is deleting without saving |
| Documents.CollectMatches | prompt-tester/src/documentService.ts:353-368 | the loop collects exactly the chunks and document ids of the matches carrying metadata, in match order |
| Documents.MatchedChunksMembers | prompt-tester/src/documentService.ts:354-366 | exactly the matches with metadata become chunks, each spanning its whole content under the match id |
| Documents.MatchedChunksAppend | prompt-tester/src/documentService.ts:354-367 | the chunks of a concatenation of matches are the chunks of each part in order |
| Documents.SourcesProperties | prompt-tester/src/documentService.ts:371-372 | a saved document is a source exactly when a match with metadata names it |
| Documents.DocumentService.constructor | prompt-tester/src/documentService.ts:26-30 | starts with the given configuration and stored records |
| Documents.DocumentService.UpdateConfig | prompt-tester/src/documentService.ts:32-34 | replaces the configuration only |
| Documents.DocumentService.ValidateConfig | prompt-tester/src/documentService.ts:36-51 | returns the configuration errors and validity meaning none |
| Documents.DocumentService.SaveDocument | prompt-tester/src/documentService.ts:417-428 | the stored records become the upsert of the old ones |
| Documents.DocumentService.DeleteDocumentFromStorage | prompt-tester/src/documentService.ts:430-434 | the stored records become the old ones without the id |
| Documents.DocumentService.SearchDocuments | prompt-tester/src/documentService.ts:330-379 | an invalid configuration is refused with the joined errors; otherwise the context holds the matched chunks and the stored sources |
| ApiService.ConfigValidIff | prompt-tester/src/apiService.ts:319-350 | a configuration passes exactly when the selected provider's key has its prefix and its model is set; other providers pass unchecked |
| ApiService.KeyErrorsExclusive | prompt-tester/src/apiService.ts:324-339 | a missing key and a wrongly prefixed key are never both reported |
| ApiService.MessagesDiffer | prompt-tester/src/apiService.ts:325-341 | the check's messages are pairwise different |
| ApiService.ValidConfigIsSent | prompt-tester/src/apiService.ts:291-350 | for the two known providers a configuration that passes is sent, and a refused one fails the check |
| ApiService.UnknownProviderPassesButIsRefused | prompt-tester/src/apiService.ts:311-344 | an unknown provider passes the check but is refused with "Unknown provider selected" |
| ApiService.HandleStream | prompt-tester/src/apiService.ts:85-288 | the chunk loop returns the scan of the chunks: the streamed tokens, their concatenation as data, and the first-byte time |
| ApiService.HandleLines | prompt-tester/src/apiService.ts:105-265 | the line loop hands on each token and stops at the first stopping line |
| ApiService.ChunkStep | prompt-tester/src/apiService.ts:92-132 | one chunk either stops the scan or hands on to the next with its tokens appended |
| ApiService.ScanLinesTokensNonEmpty | prompt-tester/src/apiService.ts:123-250 | every token handed to `onToken` is non-empty |
| ApiService.ScanChunksAppend | prompt-tester/src/apiService.ts:92-132 | chunks after a stopping line are never looked at; until then their tokens add up |
| ApiService.StreamDataIsTokens | prompt-tester/src/apiService.ts:108-142 | a settled stream completes with exactly the concatenation of the tokens it streamed |
| ApiService.FirstByteTimeReported | prompt-tester/src/apiService.ts:97-275 | a first-byte time is reported once a chunk was read, except when an Anthropic stream is ended by a stopping line |
| ApiService.DoneLineStops | prompt-tester/src/apiService.ts:106-244 | a `data: [DONE]` line ends both streams with what came before |
| ApiService.ChunkBoundarySplitsLines | prompt-tester/src/apiService.ts:102-230 | `data: [DONE]` split over two chunks does not end the stream |
| ApiService.OpenAIContentLine | prompt-tester/src/apiService.ts:120-126 | an OpenAI payload with non-empty `choices[0].delta.content` yields that token |
| ApiService.AnthropicDeltaLine | prompt-tester/src/apiService.ts:246-250 | an Anthropic `content_block_delta` payload with non-empty text yields it |
| ApiService.AnthropicStopLine | prompt-tester/src/apiService.ts:251-259 | an Anthropic `message_stop` payload ends the stream |
| ApiService.ObservedCallProperties | prompt-tester/src/apiService.ts:29-316 | a refused request streams nothing and never completes; a non-OK status raises `<provider> API error: <status> <statusText>`; an OK response without a body raises the parser's error for the empty text; a settled stream completes with its tokens |
| ApiService.NullBodyCall | prompt-tester/src/apiService.ts:182-201 | an OK response without a body takes the non-streaming branch, where `response.json()` rejects: the call raises, having streamed nothing, with the parser's error for the empty text |
| ApiService.ApiService.constructor | prompt-tester/src/apiService.ts:21-23 | the service holds the given configuration |
| ApiService.ApiService.UpdateConfig | prompt-tester/src/apiService.ts:25-27 | replaces the configuration |
| ApiService.ApiService.ValidateConfig | prompt-tester/src/apiService.ts:319-350 | returns the selected provider's errors and validity meaning none |
| ApiService.ApiService.ExecutePrompt | prompt-tester/src/apiService.ts:291-316 | the observed outcome of a request with streaming callbacks, given what the network does |
| Evaluation.DefaultCriteriaFacts | prompt-tester/src/evaluationService.ts:30-67 | six default criteria, all enabled, weights 9, 8, 7, 7, 6, 8 summing to 45 |
| Evaluation.DefaultNamesDistinct | prompt-tester/src/evaluationService.ts:30-67 | no two default criteria share a name |
| Evaluation.EvaluationConfigErrorsFacts | prompt-tester/src/evaluationService.ts:217-235 | key errors are exclusive; the criteria error appears exactly when none is enabled; valid exactly when the key has `sk-` and some criterion is enabled |
| Evaluation.JudgePromptProperties | prompt-tester/src/evaluationService.ts:94-161 | the judge prompt is the same whether it is handed all criteria or only the enabled ones, and it holds the listing of the enabled criteria between the text before it and the instructions |
| Evaluation.ListingLines | prompt-tester/src/evaluationService.ts:99-103 | the criteria listing splits into exactly the lines of the enabled criteria in order |
| Evaluation.LineHasNoBreak | prompt-tester/src/evaluationService.ts:102 | a criterion line holds no line break when its name and description hold none |
| Evaluation.FindCriterion | prompt-tester/src/evaluationService.ts:197 | a found criterion is one of the enabled criteria and carries the name; nothing is found only when no criterion has it |
| Evaluation.RoundQuotientNearest | prompt-tester/src/evaluationService.ts:202 | the rounded quotient is the nearest integer, halves rounded up |
| Evaluation.RoundExact | prompt-tester/src/evaluationService.ts:202 | a whole quotient rounds to itself |
| Evaluation.UniformScores | prompt-tester/src/evaluationService.ts:195-202 | uniform scores over the enabled criteria give that score exactly as the overall score |
| Evaluation.DisabledCriterionWeighsOne | prompt-tester/src/evaluationService.ts:155-199 | a result naming only a disabled criterion weighs 1 |
| Evaluation.EvaluateProperties | prompt-tester/src/evaluationService.ts:149-215 | no key means no request; otherwise the judge's scores come back unchanged, with an overall score exactly when the enabled criteria of the given list (or of the configured one) weigh something, and then that score in tenths is the integer nearest 10 × weighted score / total weight, a half rounded up |
| Evaluation.EvaluationService.constructor | prompt-tester/src/evaluationService.ts:73-80 | starts with the settings and the default criteria |
| Evaluation.EvaluationService.UpdateConfig | prompt-tester/src/evaluationService.ts:82-84 | replaces the settings only |
| Evaluation.EvaluationService.UpdateEvaluationConfig | prompt-tester/src/evaluationService.ts:86-88 | replaces the evaluation settings only |
| Evaluation.EvaluationService.ValidateEvaluationConfig | prompt-tester/src/evaluationService.ts:217-235 | returns the key and criteria errors and validity meaning none |
| Evaluation.EvaluationService.EvaluateResponse | prompt-tester/src/evaluationService.ts:149-215 | the outcome of an evaluation given the judge's reply |
| StepEditor.MaxOrder | prompt-tester/src/MultiStepPromptEditor.tsx:80 | at least 0 and at least every order, and equal to 0 or to some order |
| StepEditor.AddStepProperties | prompt-tester/src/MultiStepPromptEditor.tsx:79-93 | existing steps unchanged; one step appended with order above all others, n+1 on steps numbered 1..n, named and captured with that number, variables `{}` |
| StepEditor.RenumberProperties | prompt-tester/src/MultiStepPromptEditor.tsx:103-149 | renumbering numbers the steps 1..n and changes nothing else |
| StepEditor.DeleteStepProperties | prompt-tester/src/MultiStepPromptEditor.tsx:95-110 | with two or more steps, exactly the other steps remain, in order, numbered 1..n; a single step is never deleted |
| StepEditor.KeptShorter | prompt-tester/src/MultiStepPromptEditor.tsx:101-102 | filtering never lengthens the list |
| StepEditor.MoveProperties | prompt-tester/src/MultiStepPromptEditor.tsx:141-143 | the splice pair is a permutation placing the dragged step at the target index, the others in order |
| StepEditor.DropProperties | prompt-tester/src/MultiStepPromptEditor.tsx:130-149 | a drop on a found target is the move of the dragged step to the target's index, renumbered |
| StepEditor.DropNoOp | prompt-tester/src/MultiStepPromptEditor.tsx:125-136 | nothing dragged, a drop on itself or a missing id changes nothing |
| StepEditor.UpdateStepProperties | prompt-tester/src/MultiStepPromptEditor.tsx:72-77 | only steps with the id change; in each of them every field (id, name, prompt, variables, order, output variable) takes the given value, or keeps its old one when the update leaves it out; an update that keeps the id is idempotent; an empty update changes nothing |
| StepEditor.FormatJsonValueReadsBack | prompt-tester/src/MultiStepPromptEditor.tsx:46-51 | a string comes back between unescaped quotes; any other well-formed value reads back as itself |
| StepEditor.Editor.constructor | prompt-tester/src/MultiStepPromptEditor.tsx:25-26 | the first step is active and nothing is dragged |
| StepEditor.Editor.UpdateStep | prompt-tester/src/MultiStepPromptEditor.tsx:64-77 | the steps become the updated steps |
| StepEditor.Editor.AddStep | prompt-tester/src/MultiStepPromptEditor.tsx:79-93 | the step is appended and becomes active |
| StepEditor.Editor.DeleteStep | prompt-tester/src/MultiStepPromptEditor.tsx:95-110 | the steps lose the id; deleting the active step activates the first remaining one |
| StepEditor.Editor.DragStart | prompt-tester/src/MultiStepPromptEditor.tsx:112-115 | records the dragged id |
| StepEditor.Editor.Drop | prompt-tester/src/MultiStepPromptEditor.tsx:122-153 | the steps become the dropped steps (unchanged when the drop does not apply) and the drag clears |
| App.AddVariableProperties | prompt-tester/src/App.tsx:49-52 | existing entries stay; one empty entry named `var<n+1>` is appended |
| App.RemoveAddedVariable | prompt-tester/src/App.tsx:49-56 | removing a just-added entry with a fresh id gives the list back |
| App.AddedNameCanRepeat | prompt-tester/src/App.tsx:51 | the generated name counts entries, so it can repeat a name in use |
| App.RemoveVariableProperties | prompt-tester/src/App.tsx:54-56 | exactly the entries with the id go, the rest keep their order; removing twice is removing once |
| App.RemoveVariableAppend | prompt-tester/src/App.tsx:54-56 | removing from a concatenation removes from each part |
| App.UpdateVariableProperties | prompt-tester/src/App.tsx:58-62 | only the named field of entries with the id changes; repeating is harmless |
| App.RemoveAfterUpdate | prompt-tester/src/App.tsx:54-62 | removing after an update removes the same entries |
| App.SubstituteVariableList | prompt-tester/src/App.tsx:64-71 | the loop's result is one global replacement per variable in list order |
| App.SubstituteWithoutPlaceholders | prompt-tester/src/App.tsx:64-71 | a text without any variable's placeholder is unchanged |
| App.SubstituteEveryOccurrence | prompt-tester/src/App.tsx:67-68 | every occurrence of a variable's placeholder becomes its value |
| App.DuplicateNameWithoutEffect | prompt-tester/src/App.tsx:66-69 | the second variable of a name has no effect when the first leaves none of its placeholders |
| App.DuplicateNameCanTakeEffect | prompt-tester/src/App.tsx:66-69 | a first value holding its own placeholder lets the second take effect |
| App.ExecuteGuard | prompt-tester/src/App.tsx:73-98 | the request is made exactly when the settings pass; otherwise the output lists the errors whatever the reply |
| App.PromptScreen.constructor | prompt-tester/src/App.tsx:13-28 | the initial variables, prompt, empty output and settings |
| App.PromptScreen.AddVariable | prompt-tester/src/App.tsx:49-52 | the list becomes the list with the new entry |
| App.PromptScreen.RemoveVariable | prompt-tester/src/App.tsx:54-56 | the list loses the id |
| App.PromptScreen.UpdateVariable | prompt-tester/src/App.tsx:58-62 | the list becomes the updated list |
| App.PromptScreen.ExecutePrompt | prompt-tester/src/App.tsx:73-98 | the output becomes the banner followed by the errors, the data or the error |
| EvaluationPanel.CanEvaluateIff | prompt-tester/src/EvaluationPanel.tsx:36-42 | evaluation is possible exactly for a non-blank, non-placeholder response with an `sk-` key and an enabled criterion |
| EvaluationPanel.ScoreColorMonotone | prompt-tester/src/EvaluationPanel.tsx:95-100 | a higher score never gets a worse colour; green from 8, red below 4 |
| EvaluationPanel.ColorsDiffer | prompt-tester/src/EvaluationPanel.tsx:96-99 | the four colours are distinct |
| EvaluationPanel.ScoreLabelMonotone | prompt-tester/src/EvaluationPanel.tsx:102-109 | a higher score never gets a worse label; the rank counts the thresholds 4, 6, 7, 8, 9 reached |
| EvaluationPanel.UniformScoreShown | prompt-tester/src/EvaluationPanel.tsx:102-109 | uniform judge scores over the enabled criteria are shown as exactly that score |
| EvaluationPanel.ToInt32 | prompt-tester/src/EvaluationPanel.tsx:69 | the 32-bit two's-complement value with the same low 32 bits |
| EvaluationPanel.HashStepWraps | prompt-tester/src/EvaluationPanel.tsx:67-69 | one loop step is one polynomial-hash step modulo 2^32 |
| EvaluationPanel.CreateHash | prompt-tester/src/EvaluationPanel.tsx:64-72 | the loop's result is the hex text of the 32-bit polynomial hash of the UTF-16 units |
| EvaluationPanel.HashTextForm | prompt-tester/src/EvaluationPanel.tsx:71 | one to eight lower-case hex digits, so the 16-character slice never cuts |
| EvaluationPanel.EmptyStringHash | prompt-tester/src/EvaluationPanel.tsx:64-72 | the empty string hashes to "0" |
| EvaluationPanel.RecordProperties | prompt-tester/src/EvaluationPanel.tsx:79-84 | the new entry comes first, then the newest old ones in order; never more than 50, nothing lost below |
| EvaluationPanel.RecordAllBounded | prompt-tester/src/EvaluationPanel.tsx:79-84 | a history of at most 50 stays at most 50 |
| EvaluationPanel.Panel.constructor | prompt-tester/src/EvaluationPanel.tsx:25-28 | nothing evaluated, no error, the given history |
| EvaluationPanel.Panel.HandleEvaluate | prompt-tester/src/EvaluationPanel.tsx:49-93 | nothing happens unless evaluation is possible; a success is shown and recorded with both hashes; a failure shows its message |
| DocumentParser.ExtensionIsLastPart | prompt-tester/src/utils/documentParser.ts:19-135 | the extension holds no dot; a dotless name is its own lower-cased extension, otherwise what follows the last dot |
| DocumentParser.SupportedIffParsed | prompt-tester/src/utils/documentParser.ts:21-137 | a name is supported exactly when the switch has a parser for it; others are refused naming the extension |
| DocumentParser.AcceptStringParts | prompt-tester/src/utils/documentParser.ts:121-132 | the accept string splits on commas into the supported extensions after a dot, in order |
| DocumentParser.SplitOnWhitespacePieces | prompt-tester/src/utils/documentParser.ts:55 | no piece holds white space; inner pieces are non-empty |
| DocumentParser.SplitOnWhitespaceJoin | prompt-tester/src/utils/documentParser.ts:55 | words joined by single spaces split back into the same words |
| DocumentParser.WordCountCountsPieces | prompt-tester/src/utils/documentParser.ts:55 | empty content counts one word, and a trailing line break adds one |
| DocumentParser.ParseFileProperties | prompt-tester/src/utils/documentParser.ts:18-119 | unsupported names are refused whatever the content; a supported text file keeps its content with its word count, unless empty, which is refused as unreadable |
| GlobalVariables.FormattedProperties | prompt-tester/src/GlobalVariablesModal.tsx:63-75 | formatting keeps validity and the value, leaves blank or invalid text alone, and is idempotent |
| GlobalVariables.WithCommonVariableProperties | prompt-tester/src/GlobalVariablesModal.tsx:77-93 | the new text validates; on an object the key reads back and other keys keep their values and places; blank, unparsable or primitive text becomes the one-key object; an array is only reprinted |
| GlobalVariables.Modal.constructor | prompt-tester/src/GlobalVariablesModal.tsx:17-23 | the local copy is the owner's text and is valid |
| GlobalVariables.Modal.ValidateJson | prompt-tester/src/GlobalVariablesModal.tsx:25-42 | valid exactly for blank or parsable text, with the parser's message otherwise |
| GlobalVariables.Modal.ChangeVariables | prompt-tester/src/GlobalVariablesModal.tsx:44-47 | keeps the text and its validity |
| GlobalVariables.Modal.Save | prompt-tester/src/GlobalVariablesModal.tsx:49-54 | the owner gets the text and the dialog closes exactly when it validates |
| GlobalVariables.Modal.Cancel | prompt-tester/src/GlobalVariablesModal.tsx:56-61 | the local text returns to the owner's and the error clears |
| GlobalVariables.Modal.Format | prompt-tester/src/GlobalVariablesModal.tsx:63-75 | the local text becomes its formatted form |
| GlobalVariables.Modal.AddCommonVariable | prompt-tester/src/GlobalVariablesModal.tsx:77-93 | the local text gets the key and is marked valid, which it is |
| Managers.SavedNameProperties | prompt-tester/src/PromptManager.tsx:38-44 | blank names are never saved; a saved name is non-empty, neither starts nor ends with white space, and is a slice of what was typed |
| Managers.SaveDialog.Save | prompt-tester/src/VariableManager.tsx:37-43 | a blank name changes nothing; otherwise the trimmed name is handed over, the input cleared and the dialog hidden |
| Managers.SaveDialog.Close | prompt-tester/src/VariableManager.tsx:121 | hides the dialog and keeps the text |
| Managers.SaveDialog.Discard | prompt-tester/src/MultiStepPromptManager.tsx:113 | hides the dialog and clears the text |
| Managers.FoundNameProperties | prompt-tester/src/VariableManager.tsx:47 | the first item with the id gives the name unless it is empty; otherwise the fallback |
| Managers.CountLabelProperties | prompt-tester/src/PromptManager.tsx:146-154 | "Invalid JSON" exactly for unparsable text or `null`; otherwise the key count, which reads back, and "variable" only for one |
| Managers.SortNewestFirst | prompt-tester/src/PromptManager.tsx:129 | the array becomes the stable sort of its old contents by recency |
| Managers.NewestFirst | prompt-tester/src/PromptManager.tsx:129 | the sort keeps the items, puts the newest first, and keeps items of equal time in order |
| PromptManager.CurrentPromptNameProperties | prompt-tester/src/PromptManager.tsx:46-51 | no id gives "New Prompt"; an unknown id "Untitled"; otherwise the first match's name or "Untitled" when empty |
| PromptManager.PreviewProperties | prompt-tester/src/PromptManager.tsx:141-143 | short prompts whole; longer ones as their first 100 characters and "...", 103 in all; previewing twice changes nothing |
| PromptManager.SortSavedPrompts | prompt-tester/src/PromptManager.tsx:128-129 | same prompts, newest first, prompts modified at the same time kept in their relative order |
| VariableManager.CurrentVariableSetNameProperties | prompt-tester/src/VariableManager.tsx:45-50 | no id gives "Default Variables"; an unknown id "Untitled"; otherwise the first match's name or "Untitled" when empty |
| VariableManager.VariablePreviewCases | prompt-tester/src/VariableManager.tsx:61-71 | "Invalid JSON" exactly for unparsable text or `null`; "Empty JSON" exactly when there are no keys |
| VariableManager.KeysPreviewCount | prompt-tester/src/VariableManager.tsx:66-67 | one key is "1 variable: k"; more are announced by their count, which reads back |
| VariableManager.KeysPreviewShowsFirstThree | prompt-tester/src/VariableManager.tsx:67 | only the count and the first three keys are shown |
| VariableManager.SortVariableSets | prompt-tester/src/VariableManager.tsx:141-142 | same sets, newest first, sets modified at the same time kept in their relative order |
| MultiStepPromptManager.ClickProperties | prompt-tester/src/MultiStepPromptManager.tsx:40-48 | a click deletes exactly the armed id and disarms; otherwise it arms the clicked id |
| MultiStepPromptManager.DoubleClickDeletes | prompt-tester/src/MultiStepPromptManager.tsx:40-48 | two clicks on an unarmed id delete it once |
| MultiStepPromptManager.DeletionsNeedTwoClicks | prompt-tester/src/MultiStepPromptManager.tsx:40-48 | from nothing armed, each deletion costs two clicks |
| MultiStepPromptManager.AlternatingClicksDeleteNothing | prompt-tester/src/MultiStepPromptManager.tsx:40-48 | clicks that never repeat the previous one delete nothing and arm the last |
| MultiStepPromptManager.CurrentPromptNameProperties | prompt-tester/src/MultiStepPromptManager.tsx:72-75 | no id or an unknown one gives "Unsaved Multi-Step Prompt"; otherwise the first match's name or that fallback when empty |
| MultiStepPromptManager.Manager.Delete | prompt-tester/src/MultiStepPromptManager.tsx:40-48 | one step of the click machine; returns the id only when deleted |
| MultiStepPromptManager.Manager.Load | prompt-tester/src/MultiStepPromptManager.tsx:50-57 | loads and closes exactly without unsaved changes or with confirmation |
| MultiStepPromptManager.Manager.New | prompt-tester/src/MultiStepPromptManager.tsx:59-66 | starts anew and closes exactly without unsaved changes or with confirmation |
| MultiStepPromptManager.SortSavedPrompts | prompt-tester/src/MultiStepPromptManager.tsx:122-123 | same prompts, newest first, prompts modified at the same time kept in their relative order |
| Text.TrimIsCore | prompt-tester/src/multiStepService.ts:97 | `trim` keeps exactly the slice between leading and trailing white space |
| Text.BlankIffAllWhitespace | prompt-tester/src/multiStepService.ts:189 | `!s.trim()` holds exactly when every character is white space |
| Text.SplitJoin | prompt-tester/src/apiService.ts:103 | splitting and joining on a separator give the text back, and no piece holds it |
| Text.JoinSplit | prompt-tester/src/utils/documentParser.ts:131 | pieces without the separator, joined and split, come back |
| Text.NatToStringRoundTrip | prompt-tester/src/PromptManager.tsx:150 | the decimal text of a number reads back as the number |
| Text.ToHexLength | prompt-tester/src/EvaluationPanel.tsx:71 | numbers below 16^k have at most k hex digits; zero is "0" |
| Text.ReplaceAllJoin | prompt-tester/src/utils/templating.ts:9 | global replacement replaces every occurrence of an unbordered pattern and nothing else |
| Text.ReplaceAllWithoutOccurrence | prompt-tester/src/utils/templating.ts:9 | text without the pattern comes back unchanged |
| Json.SetProperties | prompt-tester/src/multiStepService.ts:98 | assignment keeps keys distinct and in place, makes the key read back and leaves others alone |
| Json.AssignProperties | prompt-tester/src/multiStepService.ts:47 | spreading: source keys read as the source's last value, others as before, keys stay distinct |
| Json.SpreadObjectCopies | prompt-tester/src/multiStepService.ts:32 | spreading an object with distinct keys copies it |
| Lists.KeepMembers | prompt-tester/src/App.tsx:55 | `filter` keeps exactly the elements satisfying the predicate and adds none |
| Lists.KeepIdempotent | prompt-tester/src/App.tsx:55 | filtering twice is filtering once |
| Sorting.SortByProperties | prompt-tester/src/multiStepService.ts:35 | the sort is ascending, a permutation, and stable |

## Left out

- The network, the clock, `localStorage`, `Math.random`, `console`, `alert` and `window.confirm`: their results are parameters of the members that use them.
- The PDF and Word libraries: their outcome is a parameter of `DocumentParser.ParseFile`; the page loop of `parsePDF` is not modelled.
- `getEmbedding`, `pineconeRequest`, `indexDocument` and `deleteDocument` of the document service: they only sequence network requests.
- The non-streaming branches of `callOpenAI` and `callAnthropic` (`data.choices[0].message.content`): the callers in the model always stream; only an OK response without a body reaches that branch, and the model has it raise the parser's error (`ApiService.NullBodyCall`).
- Rendering: JSX, CSS classes, the JSON syntax highlighter and the hover tooltip of the editor, and `formatDate`.
- The "Update" button of the prompt manager, which saves under the current name; the variable manager's equivalent.
- Templating.SubstituteVariables: keys are taken as literal text; a key holding regular-expression metacharacters, or a value holding `$` replacement patterns, is not modelled.
- Json: numbers are integers, and JavaScript's ordering of integer-like object keys before the others is not modelled; keys are kept in insertion order.
- GlobalVariables.WithCommonVariable: a key that is an array index, assigned on an array, is not modelled (the array is reprinted unchanged); the date value the buttons insert is a parameter.
- Text.ToLowerAscii: lower-casing is modelled for ASCII letters only; for the marker `all_requirements_met` this decides the same. So is upper-casing (`Text.ToUpperAscii`), which `App.Banner` applies to the provider name for `toUpperCase`; a provider name with non-ASCII letters is not shown as the source shows it.
- App.SubstituteVariableList: variable names are taken as literal text and values are inserted as they are, while the source builds a regular expression from each user-typed name outside the `try` of `executePrompt`: a name holding metacharacters matches other text (`a.b` also replaces `{{aXb}}`), a name that is not a valid pattern (`(`) throws before the request is tried and the handler never reaches its `finally`, and a value holding `$&` or other `$` patterns inserts matched text; none of these is modelled.
- PromptManager.Preview: lengths count characters, not UTF-16 code units; so does the word count of `DocumentParser.WordCount`.
- Evaluation.OverallTenths: the overall score is the exact rounded rational in tenths; floating-point division is not modelled.
- Managers.SortNewestFirst: the in-place sort is modelled as overwriting the array with the stable sorted sequence; that the parent's array is sorted in place (aliasing) is not modelled.
- ApiService.LineEffectOf: only string deltas are modelled, since the providers send text; a truthy non-string `delta.content` or `delta.text` (a number, an object), which the source would append in its string form, is skipped.
- ApiService.HandleStream: inherits that restriction: a stream carrying truthy non-string deltas is not modelled as the source handles it.
- ApiService.HandleLines: inherits the same restriction on non-string deltas.
- Documents.ChunkText: windows are counted in characters (code points), while the source counts UTF-16 code units, so on text outside the Basic Multilingual Plane the chunk boundaries differ and the source can split a surrogate pair, which the model cannot.
- Concurrency of the React state updates: each handler is modelled as one atomic state change.

## Findings

| source | as written | input that shows it | evidently intended | confidence | as-written member | corrected member |
|---|---|---|---|---|---|---|
| prompt-tester/src/documentService.ts:68-91 | the loop stops one window after the window that reached the end, adding a chunk `[len - overlap, len)` that lies inside the previous chunk | "abc" with chunk size 2 and overlap 1 gives "ab", "bc", "c"; a 500-character text with the defaults gives a second chunk copying its last 200 characters | stop once a chunk reaches the end of the text | not executed | Documents.RedundantTrailingChunk | Documents.IntendedSpansProperties |
