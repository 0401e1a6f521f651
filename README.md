# vscode-haskell-linter, modelled in Dafny

This project models the lint pipeline of the `vscode-haskell-linter` editor
extension. The extension runs `hlint` on Haskell documents and turns its JSON
findings into editor diagnostics. For the hlint provider it also offers quick
fixes, which it reads back out of the diagnostic messages. The repository holds
three near-duplicate providers, and each one is modelled as written:

- **hlint provider** (`src/features/hlintProvider.ts`, module `HlintProvider`):
  - its own `LineDecoder`;
  - a mapper that builds messages with a `Hlint Suggestion: ` / `Hlint Error: ` prefix, where suggestions and warnings have severity Warning;
  - `provideCodeActions`;
  - a configuration with triggers `onSave`/`onType`/`never` and hint/ignore arguments;
  - a level-gated `Logger` (module `Logging`).
- **generic linting provider** (`src/features/utils/lintingProvider.ts`, module `LintingProviders`) and its **Haskell subclass** (`src/features/haskellLinter.ts`, module `HaskellLinter`):
  - a decoder that also logs every text it sees (`LoggingLineDecoder`);
  - triggers `onType`/`onSave`/`off`;
  - line or all processing;
  - a `processAll` that parses the joined log;
  - messages of the form `hint. Replace: from ==> to`, where only `warning` is a warning.
- **validation provider** (`src/features/validationProvider.ts`, module `ValidationProvider`):
  - always runs on the saved file with a fixed set of hints;
  - always parses the output;
  - never stores the delayer it creates.

Shared material:

- `Text`: the JavaScript string operations the code relies on:
  - `indexOf`, `replace` of the first occurrence, `join('')`;
  - ASCII `toLowerCase`;
  - the `/Replace with: (.*)/s` capture.
- `LineSplit`: a whole-stream specification of the line splitter.
- `LineDecoding`: the decoder classes, with the loops of `write`.
- `Lint`: lint items, diagnostics, documents, invocations, and the map over present items.

How the model is built:

- Each provider is a class whose fields are the source's fields. A `State()` snapshot ties each mutating method to a pure transition function (`Configured`, `Triggered`, `Closed`, `SpawnFailed`, `Finished`, …).
- Lemmas about those functions state what the code promises. They cover:
  - sticky not-found flags;
  - delayer tables;
  - idempotence of the open-document pass;
  - argument lists;
  - the diagnostic/code-action round trip;
  - chunk independence of the decoder;
  - the decoder log's duplication of partial lines.

Anything the code leaves to the host becomes a parameter:

- The extension host's events are method calls. The configuration is a record whose unset fields take the code's defaults.
- `JSON.parse` is a function parameter of type `Parser`. `Throws` stands for its exception: the stdout handler then stops before publishing, so the provider's state is unchanged.
- A spawn error is a `SpawnFailure(code, message)` value.
- The workspace root is an optional string.
- Output chunks are already-decoded strings.

Behaviour of the code that the model keeps as written:

- **No staleness check.** `runCodeAction` (`src/features/hlintProvider.ts:283-294`) applies the replacement unconditionally, whatever the document holds by then.
- **Results for a closed document.** Every stdout end handler sets the entry again, whether or not the document is still open (`Finished`).
- **Unparseable output.** The parse throws inside the end handler, so nothing is published and the document's earlier diagnostics stay.
- **hlint provider messages.** The hlint provider's messages carry only the hint and the replacement `to`, never the code `from` it replaces.
- **Spawn errors other than ENOENT.** The hlint provider reports them through `logger.error`, and the other two providers through an information message. All three providers set the not-found flag for them too.

## Model

| member | source | states |
|---|---|---|
| Text.Lower | src/features/hlintProvider.ts:308 | lower-casing keeps the length and maps every character through ASCII lower-casing |
| Text.IndexOf | src/features/hlintProvider.ts:150 | -1 exactly when the pattern occurs nowhere; otherwise an occurrence with none before it |
| Text.IndexOfZero | src/features/hlintProvider.ts:150 | `indexOf(p) === 0` holds exactly when the string starts with `p` |
| Text.ReplaceFirst | src/features/hlintProvider.ts:154 | a string without the pattern is returned unchanged; otherwise exactly its first occurrence, the one `indexOf` finds, is replaced and the text around it is kept |
| Text.ReplaceLeadingOccurrence | src/features/hlintProvider.ts:154 | removing a leading prefix with `replace` leaves exactly the rest of the message |
| Text.ReplaceWithCapture | src/features/hlintProvider.ts:151 | no match exactly when "Replace with: " does not occur; a match is everything after its first occurrence |
| LineSplit.Scan | src/features/hlintProvider.ts:44-62 | every line produced is non-empty and free of CR/LF, and so is the unterminated rest |
| LineSplit.ScanAppend | src/features/hlintProvider.ts:35-65 | scanning a concatenation is scanning the first part and continuing with the second |
| LineSplit.LinesAreNonEmptyPieces | src/features/hlintProvider.ts:44-62 | the lines of a stream are exactly its non-empty pieces between single CR/LF characters |
| LineSplit.OnlyBreaksNoLines | src/features/hlintProvider.ts:44-48 | a stream of line breaks only yields no lines |
| LineSplit.WriteSpec | src/features/hlintProvider.ts:35-65 | one write returns non-empty CR/LF-free lines and leaves `remaining` null or a non-empty CR/LF-free tail |
| LineSplit.FeedAll | src/features/hlintProvider.ts:263-265 | writing any chunks keeps `remaining` null or a non-empty CR/LF-free tail |
| LineSplit.FeedAllScans | src/features/hlintProvider.ts:263-265 | the writes over a chunk split return the lines of scanning the concatenated stream and keep its tail |
| LineSplit.ChunkIndependence | src/features/hlintProvider.ts:35-69 | the written lines followed by a non-null `end()` are the lines of the whole stream, however it was cut |
| LineSplit.JoinedOutputIsStripped | src/features/hlintProvider.ts:263-267 | `decoded.concat(decoder.end()).join('')` is the stream with every CR and LF deleted |
| LineDecoding.SkipBreaks | src/features/hlintProvider.ts:46-48 | stops at the first character from `start` on that is not CR/LF, every skipped character is one, and a scan with no line in hand is unaffected by them; the loop at lines 55-57 does the same |
| LineDecoding.SplitValue | src/features/hlintProvider.ts:44-63 | the three while loops compute exactly the whole-value scan: its lines and its tail (null when empty) |
| LineDecoding.LineDecoder.constructor | src/features/hlintProvider.ts:30-33 | a fresh decoder has no pending remainder |
| LineDecoding.LineDecoder.Write | src/features/hlintProvider.ts:35-65 | the returned lines and new `remaining` are those of `WriteSpec`; the same code is at src/features/validationProvider.ts:21-51 |
| LineDecoding.LineDecoder.End | src/features/hlintProvider.ts:67-69 | returns the pending remainder, null or a non-empty CR/LF-free line |
| LineDecoding.LoggingLineDecoder.constructor | src/features/utils/lintingProvider.ts:26-30 | a fresh decoder has no remainder and an empty log |
| LineDecoding.LoggingLineDecoder.Write | src/features/utils/lintingProvider.ts:32-64 | splits like the other copy and appends the whole value, the old remainder plus the chunk, to the log |
| LineDecoding.LoggingLineDecoder.End | src/features/utils/lintingProvider.ts:66-70 | returns `[remaining]` and appends the remainder, possibly null, to the log |
| LineDecoding.LoggingLineDecoder.GetLines | src/features/utils/lintingProvider.ts:72-74 | returns the log as it stands: the entries the writes and `end()` appended, in order |
| LineDecoding.AssembleOutput | src/features/hlintProvider.ts:263-267 | the stdout listeners' output is the concatenated chunks with line breaks removed |
| LineDecoding.Log | src/features/utils/lintingProvider.ts:32-64 | the log after n writes has n entries |
| LineDecoding.JoinLog | src/features/haskellLinter.ts:39 | `join('')` of the log is the concatenation of its entries with a null entry rendered as "", so a log of nulls joins to "" |
| LineDecoding.AssembleLog | src/features/utils/lintingProvider.ts:266-272 | the log handed on after the writes and `end()` is `LogAfterEnd` and has one entry more than the chunks |
| LineDecoding.LogLength | src/features/utils/lintingProvider.ts:32-70 | the joined log is as long as the output plus every remainder left pending by a write |
| LineDecoding.LogWithoutPending | src/features/utils/lintingProvider.ts:32-64 | with no pending remainder after any write, the writes' log joins to the concatenated chunks |
| LineDecoding.LogJoinIsConcatenation | src/features/utils/lintingProvider.ts:32-70 | `getLines().join('')` equals the concatenated chunks exactly when no write leaves a partial line pending |
| LineDecoding.PendingLoggedAgain | src/features/utils/lintingProvider.ts:34-39 | a pending partial line is logged again, at the head of the next write's value or by `end()` |
| LineDecoding.OutputWithoutFinalBreakIsDoubled | src/features/utils/lintingProvider.ts:62-69 | the output "[]" without a final break is logged twice and joins to "[][]" |
| LineDecoding.LogOfUnterminatedChunk | src/features/utils/lintingProvider.ts:32-70 | writing "[]" logs it once, and `end()` logs the same pending text again |
| Lint.SpawnCwd | src/features/hlintProvider.ts:230 | the working directory is the workspace root exactly when it is set and not empty |
| Lint.MapPresent | src/features/haskellLinter.ts:39-43 | no more diagnostics than items, and each diagnostic is the image of a present (non-null) item |
| Lint.MapPresentSkipsNulls | src/features/hlintProvider.ts:224-228 | null items give nothing, all-present items give one diagnostic each, in order |
| Lint.MapPresentCons | src/features/hlintProvider.ts:224-228 | a present item's diagnostic precedes those of the items after it; a null item adds nothing |
| Lint.PushPresent | src/features/hlintProvider.ts:224-228 | the `forEach`/`push` loop yields exactly the in-order images of the present items |
| Logging.LevelFromName | src/features/utils/logger.ts:3-9 | each of "none", "error", "warn", "info" and "log" gives its own level and no other name gives it; any other name gives no level |
| Logging.Logger.constructor | src/features/utils/logger.ts:23-26 | an empty or missing prefix becomes "VSCODE-HLINT"; a missing level or `none` becomes `error` |
| Logging.Logger.SetLogLevel | src/features/utils/logger.ts:28-30 | replaces the level and keeps the prefix |
| Logging.Logger.Log | src/features/utils/logger.ts:32-36 | emits `prefix + ' ' + message` exactly at level `log` |
| Logging.Logger.Info | src/features/utils/logger.ts:38-42 | emits exactly at levels `info` and `log` |
| Logging.Logger.Warn | src/features/utils/logger.ts:44-48 | emits exactly at levels `warn`, `info` and `log` |
| Logging.Logger.Error | src/features/utils/logger.ts:50-55 | emits, and shows the bare message to the user, exactly at every level but `none` |
| HlintProvider.RunTriggerFrom | src/features/hlintProvider.ts:85-93 | "onSave" and "onType" map to their triggers, every other string to never |
| HlintProvider.GetRange | src/features/hlintProvider.ts:317-319 | each of the four coordinates is one less than hlint's |
| HlintProvider.AsDiagnosticSeverity | src/features/hlintProvider.ts:307-315 | Warning exactly when the lower-cased severity is "suggestion" or "warning" |
| HlintProvider.SeverityExamples | src/features/hlintProvider.ts:307-315 | "Warning" and "SUGGESTION" are warnings; "Error" and "Ignore" are errors |
| HlintProvider.AsDiagnostic | src/features/hlintProvider.ts:296-305 | a hint containing "parse error" in any case gives `Hlint Error: hint`; otherwise `Hlint Suggestion: hint. Replace with: to` |
| HlintProvider.CodeActionFor | src/features/hlintProvider.ts:149-161 | null for a message without the suggestion prefix, throws when that message has no "Replace with: ", undefined for an empty capture, otherwise a command whose title is the message minus the prefix and whose replacement is the non-empty capture |
| HlintProvider.MapReversed | src/features/hlintProvider.ts:149-164 | `map` followed by `reverse()`: throws exactly when some callback throws, otherwise one result per element with the last element's first |
| HlintProvider.ProvideCodeActions | src/features/hlintProvider.ts:147-165 | succeeds exactly when every diagnostic's callback does, and then gives one slot per diagnostic in reverse order |
| HlintProvider.FirstReplaceWith | src/features/hlintProvider.ts:300 | in a suggestion message whose hint lacks "Replace with: ", its first occurrence is the separator's, so the capture is exactly `to` |
| HlintProvider.SuggestionRoundTrip | src/features/hlintProvider.ts:149-158 | the fix read back from a suggestion diagnostic replaces the item's range with exactly `to`, titled `hint. Replace with: to` |
| HlintProvider.EmptyReplacementOffersNothing | src/features/hlintProvider.ts:151-158 | a suggestion with empty `to` gives an undefined slot |
| HlintProvider.ParseErrorOffersNothing | src/features/hlintProvider.ts:150-161 | a parse-error diagnostic never offers a fix |
| HlintProvider.Prefixed | src/features/hlintProvider.ts:174-175 | one argument per setting, each the prefix followed by the setting |
| HlintProvider.Configured | src/features/hlintProvider.ts:167-183 | settings or their defaults fill the fields, delayers are emptied, and the not-found flag survives only if the executable is unchanged |
| HlintProvider.Triggered | src/features/hlintProvider.ts:198-216 | no-op for other languages or a missing executable; with trigger `never`, the entry is set to null and no delayer is added; otherwise adds a delayer of 250 (onType) or 0 only where none exists; nothing else changes |
| HlintProvider.TriggeredAll | src/features/hlintProvider.ts:195 | a pass changes only delayers and diagnostics, and nothing at all while the executable is missing |
| HlintProvider.Reload | src/features/hlintProvider.ts:167-196 | after a reload the executable is the setting, and it counts as missing only if it did before and is unchanged |
| HlintProvider.ReloadDelayers | src/features/hlintProvider.ts:180-195 | after a reload the delayers are exactly those of the open haskell documents the new settings lint, all with the new delay |
| HlintProvider.TriggeredAllDelayers | src/features/hlintProvider.ts:209-214 | a pass adds exactly the uris of the documents it schedules, each new delayer with the trigger's delay |
| HlintProvider.Delay | src/features/hlintProvider.ts:212 | a new delayer waits 250 ms exactly for trigger onType, and 0 ms for every other trigger |
| HlintProvider.TriggeredAllIdempotent | src/features/hlintProvider.ts:138 | triggering the same documents twice is the same as once |
| HlintProvider.ActivatedIsOneLoad | src/features/hlintProvider.ts:125-139 | `activate`'s second pass over the open documents changes nothing, and the new provider's executable is not flagged missing |
| HlintProvider.Closed | src/features/hlintProvider.ts:132-135 | the document's diagnostics and delayer are gone, every other entry is kept |
| HlintProvider.SpawnReport | src/features/hlintProvider.ts:243-254 | nothing is reported while the flag is set; otherwise the not-found text for ENOENT, else the error's message, else the "Reason is unknown" text naming the executable |
| HlintProvider.SpawnFailed | src/features/hlintProvider.ts:255 | any spawn error sets the flag; a repeat changes nothing; nothing else changes |
| HlintProvider.NotFoundIsSticky | src/features/hlintProvider.ts:181-183 | while reloads keep the same executable, the flag stays set through any events and no delayer is created |
| HlintProvider.RunExecutable | src/features/hlintProvider.ts:220 | the configured executable if non-empty, otherwise "hlint" |
| HlintProvider.PlannedInvocation | src/features/hlintProvider.ts:230-262 | onSave: `['--json', fileName] ++ hintArgs ++ ignoreArgs`; otherwise `['-', '--json'] ++ …` with the text written to stdin only for onType |
| HlintProvider.ConfiguredArguments | src/features/hlintProvider.ts:231-239 | after a reload the command line is the leading pair the configured trigger selects, then the prefixed hints, then the prefixed ignores |
| HlintProvider.ArgumentsFromSettings | src/features/hlintProvider.ts:231-239 | after a reload the configured hints and ignores follow the two leading arguments in order, as `--hint=`/`--ignore=` arguments |
| HlintProvider.RunOutcome | src/features/hlintProvider.ts:266-273 | empty output gives no diagnostics; other output throws exactly when the parse does, else maps the present items |
| HlintProvider.Finished | src/features/hlintProvider.ts:266-275 | the run's diagnostics replace the document's entry wholesale; a throwing parse changes nothing |
| HlintProvider.CamelCaseDiagnostic | src/features/hlintProvider.ts:296-305 | the camelCase item on line 1, columns 5-10 becomes a warning at (0,4)-(0,9) with the suggestion text |
| HlintProvider.CamelCaseExample | src/features/hlintProvider.ts:266-275 | a run reporting that item publishes exactly that one diagnostic |
| HlintProvider.HaskellLintingProvider.constructor | src/features/hlintProvider.ts:115-139 | construction and `activate` end in `Activated`: one configuration load and a second pass over the open documents |
| HlintProvider.HaskellLintingProvider.LoadConfiguration | src/features/hlintProvider.ts:167-196 | the new state is `Reload` of the old one; the logger's level becomes the configured one |
| HlintProvider.HaskellLintingProvider.TriggerAll | src/features/hlintProvider.ts:195 | the loop over the open documents ends in `TriggeredAll` |
| HlintProvider.HaskellLintingProvider.TriggerHlint | src/features/hlintProvider.ts:198-216 | the new state is `Triggered`; a run is scheduled exactly for a linted haskell document |
| HlintProvider.HaskellLintingProvider.Close | src/features/hlintProvider.ts:132-135 | the new state is `Closed` |
| HlintProvider.HaskellLintingProvider.PlanRun | src/features/hlintProvider.ts:220-239 | computes `PlannedInvocation` from the current fields and changes nothing |
| HlintProvider.HaskellLintingProvider.SpawnError | src/features/hlintProvider.ts:243-257 | sets the flag; the pop-up is the report of `SpawnReport` when the logger's level allows errors |
| HlintProvider.HaskellLintingProvider.StdoutEnd | src/features/hlintProvider.ts:263-276 | decoding the chunks and publishing gives `Finished` on the stripped concatenated output |
| LintingProviders.RunTriggerFrom | src/features/utils/lintingProvider.ts:89-97 | "onType" and "onSave" map to their triggers, every other string to off |
| LintingProviders.ProcessTriggerFrom | src/features/utils/lintingProvider.ts:110-116 | line exactly for "line", all otherwise |
| LintingProviders.Configured | src/features/utils/lintingProvider.ts:181-198 | each `linter.*` setting or the subclass default fills its field, delayers are emptied, and the flag survives only if the executable is unchanged |
| LintingProviders.Triggered | src/features/utils/lintingProvider.ts:214-225 | no-op for another language, a missing executable or trigger off; otherwise at most one delayer per uri, 250 for onType and 0 otherwise |
| LintingProviders.TriggeredAll | src/features/utils/lintingProvider.ts:211 | a pass changes only delayers, and nothing while the executable is missing or the trigger is off |
| LintingProviders.Reload | src/features/utils/lintingProvider.ts:181-212 | the executable is the setting or default, the flag survives only if unchanged, diagnostics are kept |
| LintingProviders.TriggeredAllKeepsDelayers | src/features/utils/lintingProvider.ts:218-223 | after a pass every linted document has a delayer, and every delayer is old or belongs to a linted document; old delayers keep their delay and every new one has the trigger's delay |
| LintingProviders.Delay | src/features/utils/lintingProvider.ts:221 | a new delayer waits 250 ms exactly for trigger onType, and 0 ms for every other trigger |
| LintingProviders.TriggeredAllIdempotent | src/features/utils/lintingProvider.ts:161 | triggering the same documents twice is the same as once |
| LintingProviders.ActivatedIsOneLoad | src/features/utils/lintingProvider.ts:148-162 | `activate`'s second pass changes nothing, and the new provider's executable is not flagged missing |
| LintingProviders.Closed | src/features/utils/lintingProvider.ts:155-158 | the document's diagnostics and delayer are gone, every other entry is kept |
| LintingProviders.SpawnReport | src/features/utils/lintingProvider.ts:246-257 | nothing while the flag is set; otherwise the "Cannot lint <file>" text naming `<languageId>.executablePath` for ENOENT, else the message, else the "Reason is unknown" text |
| LintingProviders.SpawnFailed | src/features/utils/lintingProvider.ts:258 | any spawn error sets the flag; a repeat changes nothing |
| LintingProviders.PlannedInvocation | src/features/utils/lintingProvider.ts:229-265 | the executable as configured; onSave `fileArgs ++ [fileName] ++ extraArgs`, else `bufferArgs ++ extraArgs` with the text on stdin for onType |
| LintingProviders.ProcessLine | src/features/utils/lintingProvider.ts:169-171 | the base `processLine` gives undefined |
| LintingProviders.LineResults | src/features/utils/lintingProvider.ts:272-276 | one undefined result per logged line |
| LintingProviders.Present | src/features/utils/lintingProvider.ts:277 | the published array holds the diagnostics in order |
| LintingProviders.Finished | src/features/utils/lintingProvider.ts:270-281 | line mode replaces the entry with the `processLine` results; all mode with `processAll`'s result, or changes nothing when it throws |
| LintingProviders.LineModePublishesNothing | src/features/utils/lintingProvider.ts:272-276 | in line mode the entry holds only undefined values, one more than the chunks |
| LintingProviders.LintingProvider.constructor | src/features/utils/lintingProvider.ts:138-162 | with the subclass's language and defaults, construction and `activate` end in `Activated` |
| LintingProviders.LintingProvider.LoadConfiguration | src/features/utils/lintingProvider.ts:181-212 | the new state is `Reload` of the old one |
| LintingProviders.LintingProvider.TriggerAll | src/features/utils/lintingProvider.ts:211 | the loop ends in `TriggeredAll` |
| LintingProviders.LintingProvider.TriggerLint | src/features/utils/lintingProvider.ts:214-225 | the new state is `Triggered`; a run is scheduled exactly when `Lints` holds |
| LintingProviders.LintingProvider.Close | src/features/utils/lintingProvider.ts:155-158 | the new state is `Closed` |
| LintingProviders.LintingProvider.PlanRun | src/features/utils/lintingProvider.ts:229-243 | computes `PlannedInvocation` and changes nothing, so `fileArgs` stays as it was |
| LintingProviders.LintingProvider.SpawnError | src/features/utils/lintingProvider.ts:246-260 | sets the flag and shows exactly `SpawnReport` |
| LintingProviders.LintingProvider.PublishLines | src/features/utils/lintingProvider.ts:272-276 | the push loop publishes `LineResults` for the document |
| LintingProviders.LintingProvider.PublishAll | src/features/utils/lintingProvider.ts:277-279 | a result replaces the document's entry; a throw changes nothing |
| HaskellLinter.GetRange | src/features/haskellLinter.ts:61-63 | each coordinate is one less than hlint's |
| HaskellLinter.AsDiagnosticSeverity | src/features/haskellLinter.ts:53-60 | Warning exactly when the lower-cased severity is "warning" |
| HaskellLinter.AsDiagnostic | src/features/haskellLinter.ts:47-51 | message `hint. Replace: from ==> to`; Warning whenever severity is ignored |
| HaskellLinter.SuggestionIsError | src/features/haskellLinter.ts:53-60 | a "suggestion" is an error unless severities are ignored |
| HaskellLinter.ProcessAllSpec | src/features/haskellLinter.ts:37-45 | the joined log is parsed; a throw propagates, otherwise the present items map in order |
| HaskellLinter.ProcessAll | src/features/haskellLinter.ts:37-45 | the `forEach`/`push` loop computes `ProcessAllSpec` |
| HaskellLinter.DefaultSettings | src/features/haskellLinter.ts:24-35 | with every setting unset, activation leaves `hlint`, file arguments `--json`, buffer arguments `--json -`, no extra arguments, trigger onType and processing of the whole output, and the executable is not marked missing |
| HaskellLinter.DefaultRun | src/features/haskellLinter.ts:24-35 | with no settings hlint runs as `hlint --json -` with the text on stdin, in all mode |
| HaskellLinter.ParsedText | src/features/haskellLinter.ts:39 | what is parsed is the plain output when no write leaves a partial line pending; "[]" without a final break is parsed as "[][]" |
| HaskellLinter.HaskellLintingProvider.constructor | src/features/haskellLinter.ts:24-35 | a provider for "haskell" with the Haskell defaults, activated |
| HaskellLinter.HaskellLintingProvider.StdoutEnd | src/features/utils/lintingProvider.ts:266-281 | logging decoder, `end()` and processing give `Finished` of the log with the Haskell `processAll` |
| ValidationProvider.Configured | src/features/validationProvider.ts:95-104 | the executable is the setting (null when unset), delayers are emptied, and the flag survives only if unchanged |
| ValidationProvider.Reload | src/features/validationProvider.ts:95-112 | after the whole load the executable is the setting, the not-found flag survives only if it is unchanged, the delayer table stays empty because the pass over the open documents stores no delayer, and diagnostics are kept |
| ValidationProvider.ValidatedDocs | src/features/validationProvider.ts:111 | a pass validates exactly the haskell documents while the executable is not missing |
| ValidationProvider.Closed | src/features/validationProvider.ts:81-84 | the document's diagnostics and delayer are gone, every other entry is kept |
| ValidationProvider.RunExecutable | src/features/validationProvider.ts:129 | the configured executable if non-empty, otherwise "hlint" |
| ValidationProvider.PlannedInvocation | src/features/validationProvider.ts:145-151 | always the four fixed arguments and the file name, nothing on stdin |
| ValidationProvider.SpawnReport | src/features/validationProvider.ts:152-162 | nothing while the flag is set; otherwise the not-found text for ENOENT, else the message, else the "Reason is unknown" text |
| ValidationProvider.SpawnFailed | src/features/validationProvider.ts:164 | any spawn error sets the flag; a repeat changes nothing |
| ValidationProvider.ValidationDiagnostic | src/features/validationProvider.ts:134-143 | message `hint Suggestion: from ==> to`, Warning exactly for "warning" in any case, each coordinate minus one |
| ValidationProvider.Finished | src/features/validationProvider.ts:171-176 | the output is always parsed; a throw changes nothing, otherwise the present items replace the entry |
| ValidationProvider.EmptyOutputKeepsDiagnostics | src/features/validationProvider.ts:171-174 | when empty text does not parse, a run printing only line breaks keeps the old diagnostics |
| ValidationProvider.Invariants | src/features/validationProvider.ts:114-125 | no sequence of events ever records a delayer; the flag is sticky while the setting is unchanged |
| ValidationProvider.HaskellValidationProvider.constructor | src/features/validationProvider.ts:69-88 | construction and `activate` end in one configuration load |
| ValidationProvider.HaskellValidationProvider.LoadConfiguration | src/features/validationProvider.ts:95-112 | the new state is `Reload` of the old one |
| ValidationProvider.HaskellValidationProvider.TriggerValidate | src/features/validationProvider.ts:114-125 | a run is scheduled exactly for a haskell document while the executable is not missing; no field changes |
| ValidationProvider.HaskellValidationProvider.TriggerAll | src/features/validationProvider.ts:111 | the documents validated by the loop are `ValidatedDocs` |
| ValidationProvider.HaskellValidationProvider.Close | src/features/validationProvider.ts:81-84 | the new state is `Closed` |
| ValidationProvider.HaskellValidationProvider.PlanRun | src/features/validationProvider.ts:145-151 | computes `PlannedInvocation` and changes nothing, so `FileArgs` stays as it was |
| ValidationProvider.HaskellValidationProvider.SpawnError | src/features/validationProvider.ts:152-166 | sets the flag and shows exactly `SpawnReport` |
| ValidationProvider.HaskellValidationProvider.StdoutEnd | src/features/validationProvider.ts:167-176 | decoding and publishing give `Finished` on the stripped concatenated output |

## Left out

- Process and host I/O are not modelled:
  - `child_process.spawn`, the `pid` check, stdin writes and stream wiring are outside the model;
  - listener registration, `DiagnosticCollection`, `dispose`, command registration and message pop-ups are host services;
  - `console` output is not modelled.
  A run is split into `PlanRun`, `SpawnError` and `StdoutEnd`, and published diagnostics are a map.
- The `logger.log` calls inside the hlint provider are not modelled. They only print.
- `StringDecoder` UTF-8 decoding is not modelled, because it is a foreign library. Chunks are already-decoded strings.
- `ThrottledDelayer` timing and trailing runs are not modelled, because `./utils/async` is not part of this model. A delayer is recorded by its uri key and its delay, and the methods report whether a run was scheduled.
- `JSON.parse` is the `Parser` parameter, because it is foreign code.
- `runCodeAction` is not modelled, because it only builds one editor edit and applies it. It has no staleness check.
- The document listener reassignment in `loadConfiguration` is not modelled. It is event wiring and changes no modelled field.
- The false branch of `if (section)` is not modelled, because the host always returns a configuration object.
- Text.Lower: lower-cases ASCII letters only, because locale case rules are not modelled.
- HlintProvider.Constructed: the trigger is undefined in the source until the first load. `Never` stands in for it, and every reachable state overwrites it.
- LintingProviders.Constructed: the executable (`null`) and `fileArgs`/`bufferArgs` (undefined) become empty values; `extraArgs` is `[]` as in the source. Every reachable state overwrites them before use.
- `src/extension.ts` is not modelled. It only constructs and activates the Haskell linting provider, which the constructors cover.
- The static argument arrays are not mutated in the model, and this holds by construction: they are immutable constants, and the methods that build argument lists modify nothing.
