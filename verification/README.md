# Verification models of the Databricks extension for Visual Studio Code

Dafny models of the parts of the repository that hold real algorithms or
protocols, with proofs of what those parts are for. `dafny verify
dfyconfig.toml` checks the whole project.

## What is modelled

- **Bundle schema** (`BundleSchema.dfy`): the type-directed transformer that
  casts parsed JSON to a typed bundle and back, with references into an
  environment, backtracking unions, additional properties and memoised property
  maps. A declarative conformance relation says which values fit.
- **SQL cells** (`SqlStatements.dfy`): the hand-written statement splitter of
  the notebook runtime, as a class that advances a position, against a scanner
  with one state per lexical context, and that against comments, quoted texts and
  single characters written out.
- **CLI runner** (`Utf8.dfy`, `CliProcess.dfy`): UTF-8 by RFC 3629, the
  streaming decoder, and the event protocol of a child process with
  cancellation and a kill timer. Events may arrive inside a terminate call.
- **Workspace paths** (`Paths.dfy`, `RemotePaths.dfy`): POSIX normalisation,
  join and relative paths, and the mapping between local and remote files.
- **Python arguments** (`PythonArgs.dfy`): the escaped list literal and a reader
  by the rules of Python.
- **Remote session badge** (`RemoteTargetHost.dfy`): overlapping evaluations
  that read their inputs again after an await.
- **AI tools** (`AiTools.dfy`): operations serialised by a mutex over a model
  mirrored in storage and in a context key, await by await, with every failure.
- **Cluster list** (`ClusterPool.dfy`): the bounded pool of permission checks.
- **Bundle files** (`BundleMerge.dfy`, `BundleFileSet.dfy`, `StringOrder.dfy`):
  the null-preserving merge, the load order and the membership test.
- **Pipelines** (`NotebookCells.dfy`, `PipelineDatasets.dfy`): notebook line
  arithmetic, cell URIs, and the fold over the run history.
- **Sync terminal** (`RwLock.dfy`, `SyncTerminal.dfy`): the reader-writer lock
  on its two mutexes, for any readers and writers, the output parser and the guarded state callback.
- `Wrappers.dfy`: an optional value, joined texts, laws of sequences and maps.

Code that changes objects or loops is a class or a method proved equal to a
specification function; the theorems are about that function. Concurrency is a
state machine whose steps run from one await to the next, in any order. The
answers of files, processes, storage and the network are inputs of the steps.

## What the code does not keep

Eight promises hold only under a condition; each has its exact condition and an
input or a run that breaks it.

- An own `__proto__` key of a JSON object is lost by the transformer
  (`BundleSchema.ProtoKeyIsLost`), and a second cast can then change the value
  again (`BundleSchema.ProtoKeyBreaksIdempotence`).
- A file with a backslash in its path below the root does not come back from its
  remote path (`RemotePaths.BackslashIsLost`).
- An empty argument list becomes one empty argument (`PythonArgs.NoArguments`).
- The paused badge can disagree with the credential guard after an older reading
  of the files finishes last (`RemoteTargetHost.EditCanLeaveOutdatedReading`);
  the comment at RemoteTargetHostManager.ts:119-120 says they always agree.
- With two root files the membership test still accepts both while the loader
  loads nothing (`BundleFileSet.TwoRootsDisagree`).
- An uninstall that uncovers a global install keeps showing the update verdict of
  the project install (`AiTools.OldVerdictIsReached`).
- A failing exit of the sync process is not shown when stdout printed before its
  first event (`SyncTerminal.EarlyOutputHidesFailure`); the comment at
  SyncTasks.ts:114-116 means to hide it only after a forced kill.
- The promise of a CLI run is never settled when a callback throws on the tail it
  is told at the close (`CliProcess.ThrowingCallbackStrands`, as with the byte of
  `CliProcess.LeadByteIsHeld`); the comment at
  cliProcess.ts:306-311 says that a run always settles.

Where code and comments disagree the models follow the code. The comment at
BundleFileSet.ts:318-319 speaks of a byte-wise order; the code compares UTF-16
units, and the model compares characters. The prefix table at
BundlePipelinesManager.ts:619 has a tenth entry that no handle reaches, and the
model keeps it so. The schema that `extractPipelineDatasets` keeps for a dataset
is that of the oldest run it reads, because later assignments to the map win.

## Model

| member | source | states |
|---|---|---|
| BundleSchema.TransformSucceedsIffConforms | packages/databricks-vscode/src/bundle/BundleSchema.ts:5053-5161 | for every environment with finite reference chains, value, descriptor and direction: the transformer succeeds exactly on the values that conform to the descriptor, where conformance is defined without the transformer (a union is "some member conforms") |
| BundleSchema.RefIsItsEntry | packages/databricks-vscode/src/bundle/BundleSchema.ts:5136-5161 | a reference is read as its entry in the type map, whatever that is, another reference included; only an entry that is any, false or null, or a missing one, is read in another way: as a string, a boolean, nothing and undefined |
| BundleSchema.SimpleTypes | packages/databricks-vscode/src/bundle/BundleSchema.ts:5060-5063 | which values any, null, false, the four primitives and an enumeration accept; what they accept they return |
| BundleSchema.UnionTakesFirst | packages/databricks-vscode/src/bundle/BundleSchema.ts:5065-5075 | a union gives what its first member that accepts the value gives, and fails when none does |
| BundleSchema.ArrayTakesEach | packages/databricks-vscode/src/bundle/BundleSchema.ts:5089-5094 | an array succeeds exactly when each of its items does, and keeps them in order |
| BundleSchema.ObjectSucceedsIff | packages/databricks-vscode/src/bundle/BundleSchema.ts:5107-5135 | an object is accepted exactly when every property of the type is, a missing one as undefined, and every other key by the additional type |
| BundleSchema.PropertyIsRenamed | packages/databricks-vscode/src/bundle/BundleSchema.ts:5116-5122 | for distinct names on either side: each property is read under its name on one side and written under its name on the other, and nothing but the properties and the other keys is there |
| BundleSchema.OtherKeyIsKept | packages/databricks-vscode/src/bundle/BundleSchema.ts:5123-5133 | every other key, `__proto__` excepted, keeps its name and holds what the additional type makes of it |
| BundleSchema.CastRenames | packages/databricks-vscode/src/bundle/BundleSchema.ts:5163-5169 | a cast reads the json name of a property and writes its js name, uncasting the reverse |
| BundleSchema.CastKeepsValueIffProtoSafe | packages/databricks-vscode/src/bundle/BundleSchema.ts:5107-5135 | with json names equal to js names, a successful cast gives the value back, up to keys that hold undefined, exactly when no object it takes apart has an own `__proto__` key |
| BundleSchema.DirectionIrrelevant | packages/databricks-vscode/src/bundle/BundleSchema.ts:5163-5169 | with json names equal to js names, casting and uncasting are the same function |
| BundleSchema.ConformsMonotone | packages/databricks-vscode/src/bundle/BundleSchema.ts:5116-5122 | a value conforms when some extension of it by undefined-valued keys does |
| BundleSchema.CastIdempotent | packages/databricks-vscode/src/bundle/BundleSchema.ts:5163-5169 | casting the result of a cast changes nothing when no object taken apart has an own `__proto__` key; this condition on the input is sufficient, not necessary, and the exact one on the result is CastFixesIff |
| BundleSchema.CastFixesIff | packages/databricks-vscode/src/bundle/BundleSchema.ts:5053-5169 | a cast returns the value it was given exactly when that conforms, no object taken apart has an own `__proto__` key, and each has every property of its type as a key; so the second of two casts changes nothing exactly when the first result is such a value |
| BundleSchema.ProtoKeyBreaksIdempotence | packages/databricks-vscode/src/bundle/BundleSchema.ts:5065-5075 | an input on which casting again changes the result: once the key is lost, an earlier member of the union accepts what is left |
| BundleSchema.ConvertRoundTripIffProtoSafe | packages/databricks-vscode/src/bundle/BundleSchema.ts:4996-5004 | `bundleSchemaToJson(toBundleSchema(json))` writes the parsed value back exactly when no object taken apart has an own `__proto__` key; the condition is on the input alone |
| BundleSchema.ProtoKeyIsLost | packages/databricks-vscode/src/bundle/BundleSchema.ts:5115-5133 | an input on which the round trip fails: an object with an own `__proto__` key loses it |
| BundleSchema.PropertyMaps.constructor | packages/databricks-vscode/src/bundle/BundleSchema.ts:5183-5189 | nothing is memoised at first |
| BundleSchema.PropertyMaps.JsonToJSProps | packages/databricks-vscode/src/bundle/BundleSchema.ts:5035-5042 | the memoised map is the map of the properties, on the first call and on every later one, and other descriptors keep theirs |
| BundleSchema.PropertyMaps.JsToJSONProps | packages/databricks-vscode/src/bundle/BundleSchema.ts:5044-5051 | the same in the other direction |
| BundleSchema.PropertyMaps.GetProps | packages/databricks-vscode/src/bundle/BundleSchema.ts:5163-5169 | the map for the direction of the transformation |
| BundleSchema.BuildEntries | packages/databricks-vscode/src/bundle/BundleSchema.ts:5037-5038 | the loop over the properties builds the map in which a later property with the same name wins and keeps the earlier place |
| BundleSchema.RunTransform | packages/databricks-vscode/src/bundle/BundleSchema.ts:5053-5161 | the loops of the source, over the memoised property maps, compute the recursive function of the theorems |
| BundleSchema.RunUnion | packages/databricks-vscode/src/bundle/BundleSchema.ts:5065-5075 | the loop stops at the first member that does not throw |
| BundleSchema.RunArray | packages/databricks-vscode/src/bundle/BundleSchema.ts:5089-5094 | the pass over the items fails at the first that fails, and otherwise keeps all |
| BundleSchema.RunTransformObject | packages/databricks-vscode/src/bundle/BundleSchema.ts:5107-5135 | the two passes over an object give what the recursive function gives |
| BundleSchema.RunKnown | packages/databricks-vscode/src/bundle/BundleSchema.ts:5116-5122 | the first pass fails exactly when some known property fails, and otherwise assigns all of them in order |
| BundleSchema.RunOthers | packages/databricks-vscode/src/bundle/BundleSchema.ts:5123-5133 | the second pass fails exactly when some other key fails `additional`, and otherwise keeps all of them, whatever the order of the keys |
| SqlStatements.SqlStatementParser.constructor | packages/databricks-vscode/resources/python/00-databricks-init.py:244-248 | a parser starts at the beginning with nothing read |
| SqlStatements.SqlStatementParser.Consume | packages/databricks-vscode/resources/python/00-databricks-init.py:282-287 | one character, if there is one, moves from the input to the current statement |
| SqlStatements.SqlStatementParser.ConsumeNext | packages/databricks-vscode/resources/python/00-databricks-init.py:289-294 | two characters move, or none |
| SqlStatements.SqlStatementParser.AddStatement | packages/databricks-vscode/resources/python/00-databricks-init.py:296-301 | the current text joins the statements unless it is blank, and is emptied |
| SqlStatements.TokenEndIsFirst | packages/databricks-vscode/resources/python/00-databricks-init.py:303-329 | the end of a token is the first position after its start at which the scanner is in its default state again, or the end of the input |
| SqlStatements.SqlStatementParser.ParseLineComment | packages/databricks-vscode/resources/python/00-databricks-init.py:303-309 | reading stops exactly at the end of the token, and the text read, the newline included, holds no cut |
| SqlStatements.SqlStatementParser.ParseBlockComment | packages/databricks-vscode/resources/python/00-databricks-init.py:311-317 | the same for a block comment |
| SqlStatements.SqlStatementParser.ParseString | packages/databricks-vscode/resources/python/00-databricks-init.py:319-329 | the same for a quoted string with escaped quotes |
| SqlStatements.SqlStatementParser.ParseToken | packages/databricks-vscode/resources/python/00-databricks-init.py:252-268 | every branch of the main loop except the semicolon reads exactly one token, without a cut |
| SqlStatements.SqlStatementParser.Parse | packages/databricks-vscode/resources/python/00-databricks-init.py:250-270 | the parser terminates with the statements of the pure scanner: the pieces between the cuts, stripped, the blank ones dropped; what the cuts are is PiecesOfTokens |
| SqlStatements.PiecesOfTokens | packages/databricks-vscode/resources/python/00-databricks-init.py:250-329 | for every text read as line comments, block comments, texts between quotes, double quotes or backticks (with the mark inside only after a backslash) and single characters, the last of them perhaps unclosed: exactly the semicolons that stand alone separate the pieces |
| SqlStatements.EveryTextHasTokens | packages/databricks-vscode/resources/python/00-databricks-init.py:250-329 | every text can be read so |
| SqlStatements.ParseText | packages/databricks-vscode/resources/python/00-databricks-init.py:403-405 | so the statements of a cell are the texts between the semicolons that stand alone, stripped, the blank ones dropped |
| SqlStatements.WhiteSpace | packages/databricks-vscode/resources/python/00-databricks-init.py:296-301 | the characters that stripping removes, one by one |
| SqlStatements.PiecesCoverText | packages/databricks-vscode/resources/python/00-databricks-init.py:264-270 | the unstripped pieces joined by ";" are the input, character for character, from every scanner state |
| SqlStatements.PiecesEndAtCuts | packages/databricks-vscode/resources/python/00-databricks-init.py:252-268 | a position ends a piece exactly when it is a semicolon that the scanner sees in its default state |
| SqlStatements.StatementReparses | packages/databricks-vscode/resources/python/00-databricks-init.py:250-329 | every statement the parser returns parses to just itself, unterminated strings and comments included |
| SqlStatements.StatementsRoundTrip | packages/databricks-vscode/resources/python/00-databricks-init.py:250-329 | the returned statements joined by "\n;\n" parse to the same list |
| SqlStatements.BareSemicolonSeparatesIffClosed | packages/databricks-vscode/resources/python/00-databricks-init.py:303-317 | a bare ";" after a text starts a new statement exactly when the text leaves the scanner in its default state, which is why the newline in the separator above is needed |
| Utf8.DecodeEncode | packages/databricks-vscode/src/cli/cliProcess.ts:296-298 | decoding the UTF-8 encoding (RFC 3629, section 3) of any text gives the text back |
| Utf8.EncodedExamples | packages/databricks-vscode/src/cli/cliProcess.ts:296-298 | the bytes of the characters in the examples of section 7 of RFC 3629 |
| Utf8.StrayByte | packages/databricks-vscode/src/cli/cliProcess.ts:296-298 | a byte that starts no character becomes one U+FFFD, and decoding goes on after it |
| Utf8.ChunksDecodeAsWhole | packages/databricks-vscode/src/cli/cliProcess.ts:242-250 | for every way of cutting a well-formed stream, or one that stops inside a character, into chunks: the texts delivered chunk by chunk and the tail flushed at the end are the stream decoded at once |
| Utf8.ChunksOfText | packages/databricks-vscode/src/cli/cliProcess.ts:280-302 | whatever the chunks in which an encoded text arrives, the callback gets exactly the text |
| Utf8.FlushesNothingIff | packages/databricks-vscode/src/cli/cliProcess.ts:284-295 | nothing is left for the close exactly when the stream does not stop inside a character |
| CliProcess.StepKeeps | packages/databricks-vscode/src/cli/cliProcess.ts:258-359 | every event, with any events that a terminate call provokes before it returns, keeps the invariant behind the next two rows and only extends the log |
| CliProcess.RunIsLawful | packages/databricks-vscode/src/cli/cliProcess.ts:220-371 | in every order of data, stream error, spawn error, close, cancel (also during subscription) and timer events: once the run is marked as settled, its promise has been settled once or a callback has thrown out of the close handler, never both; it gives a subscription back once, exactly then; it force-terminates only after a graceful terminate and never after settling; it resolves with `cancelled` exactly when a cancel came before, with stdout and stderr equal to everything received, and with the streamed texts adding up to them on well-formed output |
| CliProcess.EndedRunIsSettled | packages/databricks-vscode/src/cli/cliProcess.ts:348-359 | once the child has closed or an error has been reported, the run is marked as settled, whatever else happens |
| CliProcess.CloseSettlesIff | packages/databricks-vscode/src/cli/cliProcess.ts:280-302 | the close settles the promise exactly when no callback throws on the tail it is told then: once and for all, with everything received, the code of that close event (null included) and whether a cancel was requested; otherwise nothing that happens later settles it |
| CliProcess.RunResolvesWith | packages/databricks-vscode/src/cli/cliProcess.ts:280-302 | in every run, a result is that of a close event: its exit code is the code of one, events inside other events included |
| CliProcess.ErrorRejects | packages/databricks-vscode/src/cli/cliProcess.ts:348-357 | an error that finds the run unsettled rejects it once and for all; a stream error terminates the child, a failed start does not |
| CliProcess.DataArrives | packages/databricks-vscode/src/cli/cliProcess.ts:324-341 | data adds its bytes to the output of its stream, and nothing else adds any |
| CliProcess.CloseSettlesIffWhole | packages/databricks-vscode/src/cli/cliProcess.ts:280-302 | in every run whose output is well formed or stops inside a character: the close settles the promise exactly when no throwing callback belongs to a stream that stops inside one |
| CliProcess.ThrowingCallbackStrands | packages/databricks-vscode/src/cli/cliProcess.ts:284-295 | such runs: the output is a chunk that stops inside a character, any such chunk, and the callback throws on the rest |
| CliProcess.HeardCancelIsBounded | packages/databricks-vscode/src/cli/cliProcess.ts:304-323 | from a cancel that is heard on: the child has been asked to terminate, and the run is over, or the child has been killed by force, or a timer is armed that will do so |
| CliProcess.RunListens | packages/databricks-vscode/src/cli/cliProcess.ts:361-370 | with a token, cancels are heard while subscribing and until the run is settled; without one, or from then on, they change nothing |
| CliProcess.TimerKills | packages/databricks-vscode/src/cli/cliProcess.ts:314-318 | a timer that fires kills the child by force exactly when the run is not settled |
| CliProcess.CloseClearsTimer | packages/databricks-vscode/src/cli/cliProcess.ts:258-266 | the close clears the timer that the last cancel has set |
| CliProcess.CliRun.constructor | packages/databricks-vscode/src/cli/cliProcess.ts:247-256 | the initial state |
| CliProcess.CliRun.OnStdout | packages/databricks-vscode/src/cli/cliProcess.ts:324-332 | the handler makes the step of the machine, on its own fields |
| CliProcess.CliRun.OnStderr | packages/databricks-vscode/src/cli/cliProcess.ts:333-341 | the same |
| CliProcess.CliRun.Finish | packages/databricks-vscode/src/cli/cliProcess.ts:258-268 | settles once, stops the timer and gives the subscription back |
| CliProcess.CliRun.EndStdout | packages/databricks-vscode/src/cli/cliProcess.ts:284-289 | flushes the decoder of stdout and tells the callback the tail, if any |
| CliProcess.CliRun.EndStderr | packages/databricks-vscode/src/cli/cliProcess.ts:290-295 | the same for stderr |
| CliProcess.CliRun.OnClose | packages/databricks-vscode/src/cli/cliProcess.ts:280-302 | flushes both decoders and resolves, unless a callback throws |
| CliProcess.CliRun.OnSpawnError | packages/databricks-vscode/src/cli/cliProcess.ts:357 | rejects without terminating |
| CliProcess.CliRun.RejectFromStreamError | packages/databricks-vscode/src/cli/cliProcess.ts:348-354 | terminates, then rejects, carrying the events that the terminate call provokes |
| CliProcess.CliRun.RequestCancel | packages/databricks-vscode/src/cli/cliProcess.ts:304-323 | terminates gracefully and arms the timer unless that settled the run |
| CliProcess.CliRun.OnTimer | packages/databricks-vscode/src/cli/cliProcess.ts:314-318 | kills by force unless settled |
| CliProcess.CliRun.SubscribeToToken | packages/databricks-vscode/src/cli/cliProcess.ts:361-370 | a token that fires during subscription is given back afterwards if the run has settled |
| Paths.SplitJoin | packages/databricks-execute/src/core.ts:104-106 | splitting joined names gives the names back (POSIX separators) |
| Paths.JoinSplit | packages/databricks-execute/src/core.ts:104-122 | joining a split path gives the path back |
| Paths.NormalizeAbsolute | packages/databricks-execute/src/core.ts:76-84 | an absolute path normalises to the names its segments fold to, with its trailing slash |
| Paths.ResolveBySegment | packages/databricks-execute/src/core.ts:76-122 | a path resolves segment by segment: blank and one dot stay, two dots go up (not above the root), a name goes down; a relative path starts at the working directory |
| RemotePaths.AcceptedIff | packages/databricks-execute/src/core.ts:90-102 | a file is accepted exactly when it is the root or lies below it and its first name below the root does not start with two dots |
| RemotePaths.RemotePathIs | packages/databricks-execute/src/core.ts:76-107 | the remote path, written out: "/Workspace/", the names of the remote root (given with that prefix or without), and the names below the local root |
| RemotePaths.LocalPathIs | packages/databricks-execute/src/core.ts:109-123 | a remote file leads to the same names below the local root, and to nothing when it is not below the remote root or its first name there starts with two dots |
| RemotePaths.PathRoundTripIffNoBackslash | packages/databricks-execute/src/core.ts:76-123 | for every absolute remote root and every accepted file: the remote path leads back to the same local file exactly when the path below the root has no backslash |
| RemotePaths.BackslashIsLost | packages/databricks-execute/src/core.ts:76-123 | every file below the root whose path from there does not start with two dots and has a backslash is accepted and does not come back |
| RemotePaths.RemoteIsUnderWorkspace | packages/databricks-execute/src/core.ts:86-107 | the remote path of an accepted file always starts with "/Workspace/" |
| PythonArgs.EscapeIsPerCharacter | packages/databricks-execute/src/core.ts:72-74 | the two replacement passes are one escape per character |
| PythonArgs.LiteralByArgument | packages/databricks-execute/src/core.ts:145-148 | the literal, argument by argument, with its brackets, quotes and commas |
| PythonArgs.ReadEscaped | packages/databricks-execute/src/core.ts:72-74 | an escaped string in single quotes reads back (section 2.4.1 of the Python 3.11 Language Reference) as the string, or is no literal when the string has a NUL, CR or LF |
| PythonArgs.ListRoundTripIff | packages/databricks-execute/src/core.ts:145-148 | the list literal reads back as the arguments exactly when there is at least one and none has a NUL, CR or LF |
| PythonArgs.NoArguments | packages/databricks-execute/src/core.ts:145-148 | with no arguments at all, the literal reads back as one empty argument |
| RemoteTargetHost.RemoteTargetHostManager.constructor | packages/databricks-vscode/src/bundle/RemoteTargetHostManager.ts:58-65 | nothing is paused at first |
| RemoteTargetHost.RemoteTargetHostManager.SetPaused | packages/databricks-vscode/src/bundle/RemoteTargetHostManager.ts:87-93 | the state is replaced, and the event fires exactly when it changes |
| RemoteTargetHost.RemoteTargetHostManager.Begin | packages/databricks-vscode/src/bundle/RemoteTargetHostManager.ts:108-122 | without a target or a pinned host the state is cleared at once; otherwise nothing happens before the await |
| RemoteTargetHost.RemoteTargetHostManager.Resume | packages/databricks-vscode/src/bundle/RemoteTargetHostManager.ts:124-161 | stale inputs publish nothing; current ones publish the verdict on the resolution |
| RemoteTargetHost.RemoteTargetHostManager.Fail | packages/databricks-vscode/src/bundle/RemoteTargetHostManager.ts:95-106 | a failed evaluation clears the state |
| RemoteTargetHost.Deliver | packages/databricks-vscode/src/bundle/RemoteTargetHostManager.ts:68-79 | each event, delivered to the object, makes the change of the machine's step and fires the event exactly when the state changes |
| RemoteTargetHost.SettledStateNamesInputs | packages/databricks-vscode/src/bundle/RemoteTargetHostManager.ts:95-161 | over all interleavings of input changes, file changes and overlapping completions or failures: when every change has been announced and no evaluation is under way, a published state names the current target and pinned host |
| RemoteTargetHost.StepKeepsTracked | packages/databricks-vscode/src/bundle/RemoteTargetHostManager.ts:108-161 | the inductive invariant: the published state matches the current inputs, or an evaluation that captured them is under way, or a change is still to be announced |
| RemoteTargetHost.AgreesIffNoneOutdated | packages/databricks-vscode/src/bundle/RemoteTargetHostManager.ts:119-161 | the published state ends up being what the credential guard decides, for every order in which the evaluations under way finish without failing, exactly when none of those with the current inputs holds a reading the files have since belied (and one is still to publish unless the state is right already) |
| RemoteTargetHost.SettledStateIs | packages/databricks-vscode/src/bundle/RemoteTargetHostManager.ts:113-161 | what is published then: nothing without a target or a pinned host, for a target on the session's host and for one on a host of the pinned name; the mismatch with both names for one on another host; otherwise the reason why its host cannot be resolved |
| RemoteTargetHost.EvaluationAgrees | packages/databricks-vscode/src/bundle/RemoteTargetHostManager.ts:108-161 | an evaluation that starts with nothing under way and is not disturbed ends so |
| RemoteTargetHost.LastChangeCounts | packages/databricks-vscode/src/bundle/RemoteTargetHostManager.ts:68-79 | in every run, inputs and files are those of the last change |
| RemoteTargetHost.AgreesDespiteFailuresIff | packages/databricks-vscode/src/bundle/RemoteTargetHostManager.ts:95-161 | with failures among them too, exactly when in addition nothing is under way or the guard has nothing to say, since a failure clears the state |
| RemoteTargetHost.EditCanLeaveOutdatedReading | packages/databricks-vscode/src/bundle/RemoteTargetHostManager.ts:119-133 | a run that reaches a state in which the badge and the guard can come apart although every event has fired |
| AiTools.AiToolsManager.constructor | packages/databricks-vscode/src/aitools/AiToolsManager.ts:117-137 | model, storage and context key start from the persisted location |
| AiTools.AiToolsManager.DetectInstallImpl | packages/databricks-vscode/src/aitools/AiToolsManager.ts:256-301 | the outcome of a detection for every answer: read failure keeps the location and sets the error flag, a failed write changes nothing and throws, success installs the location found, project first |
| AiTools.AiToolsManager.ResolveInstalledImpl | packages/databricks-vscode/src/aitools/AiToolsManager.ts:391-414 | the outcome of an update check, with and without an install, with a listing and without |
| AiTools.AiToolsManager.Install | packages/databricks-vscode/src/aitools/AiToolsManager.ts:433-494 | reconciles after the CLI whether it failed or not, and rejects exactly when the CLI or the write failed |
| AiTools.AiToolsManager.InstallAgent | packages/databricks-vscode/src/aitools/AiToolsManager.ts:566-590 | the same with an update check only |
| AiTools.AiToolsManager.Uninstall | packages/databricks-vscode/src/aitools/AiToolsManager.ts:598-619 | the same with a detection only |
| AiTools.AiToolsManager.Update | packages/databricks-vscode/src/aitools/AiToolsManager.ts:626-648 | the same with an update check only |
| AiTools.RunIsSerial | packages/databricks-vscode/src/aitools/AiToolsManager.ts:248-251 | in every interleaving of requests and answers under the mutex, the operations take effect in the order of the requests, each as if it ran alone, and reject exactly when they would then |
| AiTools.ResumeKeepsRest | packages/databricks-vscode/src/aitools/AiToolsManager.ts:253-301 | an operation continued from any of its awaits comes to what it would have come to as a whole |
| AiTools.EveryAnswerAdvances | packages/databricks-vscode/src/aitools/AiToolsManager.ts:391-414 | an operation waits for at most five answers and then gives the mutex back |
| AiTools.IdleIsConsistent | packages/databricks-vscode/src/aitools/AiToolsManager.ts:248-648 | whenever no operation is under way, in every run with every failure: the status is neither checking nor updating, no location means an unknown status and no version, and the persisted location and the context key agree with the model |
| AiTools.LocationFollowsDetection | packages/databricks-vscode/src/aitools/AiToolsManager.ts:269-283 | what is believed to be installed changes only to the answer of a detection whose reads and write all succeeded |
| AiTools.VerdictFitsUnlessMoved | packages/databricks-vscode/src/aitools/AiToolsManager.ts:592-619 | an operation leaves an up-to-date or update-available verdict about another scope than the installed one exactly when it ends with a successful detection (a bare one or that of an uninstall) that moves from one scope to the other |
| AiTools.UninstallKeepsOldVerdict | packages/databricks-vscode/src/aitools/AiToolsManager.ts:598-619 | such an operation: an uninstall of the project's tools that uncovers a global install |
| AiTools.IdleVerdictFitsIff | packages/databricks-vscode/src/aitools/AiToolsManager.ts:248-648 | in every run, whenever no operation is under way: a verdict on show is about the installed scope exactly when that is still the scope of the last operation that checked for updates or found nothing |
| AiTools.EveryListHappens | packages/databricks-vscode/src/aitools/AiToolsManager.ts:248-251 | every list of operations, with any answers, is what some run has done when it is idle |
| AiTools.OldVerdictIsReached | packages/databricks-vscode/src/aitools/AiToolsManager.ts:598-619 | a run from the start that ends with a verdict about tools that are gone |
| AiTools.CheckRepairsVerdict | packages/databricks-vscode/src/aitools/AiToolsManager.ts:383-386 | an update check leaves a verdict about the installed scope only |
| AiTools.StatusAfterCheck | packages/databricks-vscode/src/aitools/AiToolsManager.ts:76-81 | after every operation that checks for updates: unknown without an installation, an error when the listing fails, and otherwise up to date exactly when every skill with a version in the installed scope has its latest one there, and the release of the listing |
| AiTools.OtherScopeDoesNotMatter | packages/databricks-vscode/src/aitools/AiToolsManager.ts:76-81 | what a listing says of the other scope changes nothing |
| AiTools.StatusWithoutCheck | packages/databricks-vscode/src/aitools/AiToolsManager.ts:256-301 | a detection or an uninstall keeps status and version, unless nothing is installed any more |
| AiTools.LocationFound | packages/databricks-vscode/src/aitools/AiToolsManager.ts:256-301 | where an operation that looks for the tools finds them: the project's state file first, the home one when the project has none; a failed read keeps what was believed, a failed write changes nothing; model, storage and context key agree |
| AiTools.LocationStays | packages/databricks-vscode/src/aitools/AiToolsManager.ts:391-414 | an operation that does not look for the tools leaves location, storage, context key and error flag as they are |
| AiTools.RejectedIff | packages/databricks-vscode/src/aitools/AiToolsManager.ts:433-648 | an operation rejects exactly when it has something to do and its CLI call fails or the location found cannot be stored |
| AiTools.IdleOperation | packages/databricks-vscode/src/aitools/AiToolsManager.ts:433-648 | without something to do (nothing installed, or no agent left for the CLI) nothing changes |
| AiTools.StatusWhileWaiting | packages/databricks-vscode/src/aitools/AiToolsManager.ts:391-401 | in every run: checking is shown while the list is awaited, updating while the update command is |
| AiTools.CursorIsNotPassed | packages/databricks-vscode/src/aitools/AiToolsManager.ts:445-475 | in Cursor, the CLI gets every chosen agent except Cursor's own |
| ClusterPool.ClusterLoader.Settle | packages/databricks-vscode/src/cluster/ClusterLoader.ts:125-148 | one answer changes the map only while the loader runs, and only for its own cluster; the event fires exactly when it keeps a cluster or drops one that was there |
| ClusterPool.ClusterLoader.CleanupClustersMap | packages/databricks-vscode/src/cluster/ClusterLoader.ts:60-72 | exactly the clusters that are not listed go; the event fires exactly when one went |
| ClusterPool.ClusterLoader.ReplaceAll | packages/databricks-vscode/src/cluster/ClusterLoader.ts:158-163 | without access filtering the map becomes that of the list, and the event fires once |
| ClusterPool.Unlisted | packages/databricks-vscode/src/cluster/ClusterLoader.ts:61-67 | the keys collected for deletion are those of no listed cluster |
| ClusterPool.Deliver | packages/databricks-vscode/src/cluster/ClusterLoader.ts:121-163 | the handlers of the object change the map as the steps of the pool do |
| ClusterPool.AtMostFiftyInFlight | packages/databricks-vscode/src/cluster/ClusterLoader.ts:110-155 | in every schedule, stopped or not, at most fifty checks wait for an answer |
| ClusterPool.FinalMap | packages/databricks-vscode/src/cluster/ClusterLoader.ts:125-163 | in every schedule, stopped or not: the final map holds no unlisted cluster; a listed one is in if its check said keep before a stop, out if it said drop, and otherwise as it was |
| ClusterPool.UninterruptedLoad | packages/databricks-vscode/src/cluster/ClusterLoader.ts:107-163 | without a stop, the final map is the listed clusters whose check said keep and, as they were before, those whose check failed, and nothing else |
| ClusterPool.RunsUntilStopped | packages/databricks-vscode/src/cluster/ClusterLoader.ts:113-116 | a load runs until it is stopped, which may be at any moment |
| ClusterPool.StoppedLoadKeepsMap | packages/databricks-vscode/src/cluster/ClusterLoader.ts:125-128 | from a stop on no answer changes the map; at the end the unlisted clusters go |
| ClusterPool.OrderDoesNotMatter | packages/databricks-vscode/src/cluster/ClusterLoader.ts:107-163 | two schedules of the same load end with the same map |
| ClusterPool.UnfilteredLoad | packages/databricks-vscode/src/cluster/ClusterLoader.ts:158-163 | the unfiltered load is the filtered one in which every check says keep |
| ClusterPool.StepAdvances | packages/databricks-vscode/src/cluster/ClusterLoader.ts:113-157 | every step but a stop brings the load nearer to its end |
| ClusterPool.LoadIsNeverStuck | packages/databricks-vscode/src/cluster/ClusterLoader.ts:117-119 | until the load is done some step can be taken |
| BundleMerge.BaseMerge | packages/databricks-vscode/src/bundle/BundleFileSet.ts:60-70 | the pass over the keys of the source computes the recursive merge, in any order of the keys |
| BundleMerge.MergeAtPath | packages/databricks-vscode/src/bundle/BundleFileSet.ts:60-70 | at every path, merging a file does what the file does there: nothing, set a scalar, or leave none |
| BundleMerge.MergeRules | packages/databricks-vscode/src/bundle/BundleFileSet.ts:47-70 | maps are merged key by key, a null leaves what was there, anything else replaces it |
| BundleMerge.SetsIffScalar | packages/databricks-vscode/src/bundle/BundleFileSet.ts:60-70 | a file sets a scalar at a path exactly when it has it there |
| BundleMerge.LastFileWins | packages/databricks-vscode/src/bundle/BundleFileSet.ts:246-252 | at every path of every list of trees, scalars against maps included, the merged bundle holds what the last file that is not silent there makes of it |
| BundleMerge.NullNeverErases | packages/databricks-vscode/src/bundle/BundleFileSet.ts:47-58 | a null at a path, or at any ancestor, leaves the earlier scalar |
| BundleMerge.MergeIsIdempotent | packages/databricks-vscode/src/bundle/BundleFileSet.ts:60-70 | merging a tree into itself changes nothing |
| BundleMerge.AssociativeIffNoClash | packages/databricks-vscode/src/bundle/BundleFileSet.ts:60-70 | two files may be merged first, whatever came before, exactly when the later has no map where the earlier has a scalar |
| BundleFileSet.Glob | packages/databricks-vscode/src/bundle/BundleFileSet.ts:304-311 | the matches of a pattern, each once, in no promised order |
| BundleFileSet.SortByName | packages/databricks-vscode/src/bundle/BundleFileSet.ts:323-327 | the same files in the order of their relative paths |
| BundleFileSet.FirstOccurrences | packages/databricks-vscode/src/bundle/BundleFileSet.ts:331-333 | dropping repetitions leaves the files ordered by first matching pattern, then by relative path |
| BundleFileSet.GetIncludedFiles | packages/databricks-vscode/src/bundle/BundleFileSet.ts:289-334 | the included files, exactly, in that order; undefined exactly when there are no patterns |
| BundleFileSet.AllFiles | packages/databricks-vscode/src/bundle/BundleFileSet.ts:383-390 | the root file first, then the included files; no file twice; exactly the files to be loaded |
| BundleFileSet.ReadMergedBundle | packages/databricks-vscode/src/bundle/BundleFileSet.ts:246-252 | the bundle read from disk is the merge of the files in load order |
| BundleFileSet.IsIncludedBundleFile | packages/databricks-vscode/src/bundle/BundleFileSet.ts:417-437 | the loop over the patterns decides the membership test |
| BundleFileSet.LoadListIsUnique | packages/databricks-vscode/src/bundle/BundleFileSet.ts:318-333 | the rules leave one possible list, whatever order the glob library answers in |
| BundleFileSet.LoadListIsExact | packages/databricks-vscode/src/bundle/BundleFileSet.ts:289-346 | a list by these rules has no file twice and exactly the files to be loaded |
| BundleFileSet.LoadedIff | packages/databricks-vscode/src/bundle/BundleFileSet.ts:264-346 | in the names written out: with exactly one of the four root files, that and every file one of its patterns matches, other root names excepted; otherwise nothing is loaded |
| BundleFileSet.LoadOrderIs | packages/databricks-vscode/src/bundle/BundleFileSet.ts:318-333 | of two included files the one whose first matching pattern comes first is loaded first, and by name those of one pattern |
| BundleFileSet.TestedIff | packages/databricks-vscode/src/bundle/BundleFileSet.ts:410-437 | the membership test says yes to the four root names, and to what a pattern of the only root file matches |
| StringOrder.FirstDifferenceDecides | packages/databricks-vscode/src/bundle/BundleFileSet.ts:323-327 | the order of names: the first difference decides, and a text comes after its beginnings |
| BundleFileSet.AgreesIffAtMostOneRoot | packages/databricks-vscode/src/bundle/BundleFileSet.ts:410-437 | the membership test and the loader agree on every existing file exactly when the project has at most one root file |
| BundleFileSet.TwoRootsDisagree | packages/databricks-vscode/src/bundle/BundleFileSet.ts:410-437 | a project on which they differ: one with two root files |
| NotebookCells.LocationToLine | packages/databricks-vscode/src/bundle/BundlePipelinesManager.ts:591-610 | for a cell and a line in it that exist, the computed line is in the file and reads the same |
| NotebookCells.CellsInterleave | packages/databricks-vscode/src/bundle/BundlePipelinesManager.ts:599-606 | for every text: the lines of the cells, with the separator lines put back between them, are the lines of the file |
| NotebookCells.CellsOfLines | packages/databricks-vscode/src/bundle/BundlePipelinesManager.ts:599-603 | for every text of lines without CR or LF inside, with LF or CR LF between them: the cells are what is between the lines that start with "# COMMAND ----------", where the first and the last line of the text, a line right after a separator and one with U+2028 or U+2029 separate nothing |
| NotebookCells.LineOfCell | packages/databricks-vscode/src/bundle/BundlePipelinesManager.ts:596-609 | line n of cell k is the file line at the sum of the earlier cells' line counts plus k plus n |
| NotebookCells.DecodeFragment | packages/databricks-vscode/src/bundle/BundlePipelinesManager.ts:618-628 | a decoder recovers the handle from the fragment, so no two handles share one |
| NotebookCells.PrefixOfLength | packages/databricks-vscode/src/bundle/BundlePipelinesManager.ts:619-623 | the first character of a fragment for every number of digits |
| NotebookCells.FragmentExamples | packages/databricks-vscode/src/bundle/BundlePipelinesManager.ts:618-628 | three fragments |
| NotebookCells.FragmentsInOrderIff | packages/databricks-vscode/src/bundle/BundlePipelinesManager.ts:619-626 | the character order of fragments is the numeric order of handles below a bound exactly when the bound is at most 7 to the 10th |
| PipelineDatasets.ExtractPipelineDatasets | packages/databricks-vscode/src/bundle/BundlePipelinesManager.ts:461-503 | the loops with their break compute the recursive extraction over the runs, newest first |
| PipelineDatasets.AddOne | packages/databricks-vscode/src/bundle/BundlePipelinesManager.ts:468-496 | one event adds its dataset and its schema, or nothing |
| PipelineDatasets.EventSays | packages/databricks-vscode/src/bundle/BundlePipelinesManager.ts:468-496 | what one event says: a named dataset counts when its type is given and is not VIEW; a schema with fields is kept, name for name and type for type, missing texts left empty |
| PipelineDatasets.EventsInOrder | packages/databricks-vscode/src/bundle/BundlePipelinesManager.ts:468-469 | the events of a run are taken in their order, so the last schema in it wins |
| PipelineDatasets.NewerComesFirst | packages/databricks-vscode/src/bundle/BundlePipelinesManager.ts:464-466 | of two runs the newer is read first; without a creation time a run counts as created at 0 |
| PipelineDatasets.HidesOlderIff | packages/databricks-vscode/src/bundle/BundlePipelinesManager.ts:498-500 | a run hides the older ones exactly when it is a completed update with neither selection |
| PipelineDatasets.DatasetsAreOfWindow | packages/databricks-vscode/src/bundle/BundlePipelinesManager.ts:467-479 | when runs of one creation time are all older than some completed update of the whole graph: the datasets, said without an order, are those counted by a run that no newer such update hides |
| PipelineDatasets.SchemasAreOfWindow | packages/databricks-vscode/src/bundle/BundlePipelinesManager.ts:480-501 | likewise, the schema of a dataset is that of the oldest such run that gives one |
| PipelineDatasets.OnlyWindowMatters | packages/databricks-vscode/src/bundle/BundlePipelinesManager.ts:467-501 | the result depends on nothing but those runs |
| PipelineDatasets.OrderDoesNotMatter | packages/databricks-vscode/src/bundle/BundlePipelinesManager.ts:464-466 | under that condition (distinct creation times are a special case) the insertion order of the runs does not matter |
| PipelineDatasets.OlderRunsDoNotMatter | packages/databricks-vscode/src/bundle/BundlePipelinesManager.ts:498-500 | for every list of runs, ties included: a run older than a completed update of the whole graph changes nothing, wherever it is inserted |
| PipelineDatasets.TieDoesNotMatterIff | packages/databricks-vscode/src/bundle/BundlePipelinesManager.ts:464-501 | for every list of runs in which a run and a completed update of the whole graph of the same time are neighbours: exchanging the two changes nothing exactly when such an update is read before them, or when what was read before and the update itself leave the run nothing to add (for two such updates: when both add the same) |
| PipelineDatasets.TiesDependOnOrder | packages/databricks-vscode/src/bundle/BundlePipelinesManager.ts:464-466 | one such pair for which the insertion order matters |
| RwLock.Mutex.constructor | packages/databricks-vscode/src/locking/Mutex.ts:1-3 | a mutex starts free |
| RwLock.Mutex.Wait | packages/databricks-vscode/src/locking/Mutex.ts:5-13 | the caller goes on at once exactly when the mutex was free, and queues otherwise |
| RwLock.Mutex.Signal | packages/databricks-vscode/src/locking/Mutex.ts:15-22 | the first in the queue gets the mutex, or it becomes free |
| RwLock.RunKeepsValid | packages/databricks-vscode/src/locking/RWLock.ts:8-34 | for any number of readers and writers in any order, every schedule of their handlers keeps the invariant: who is at the gate, that readers stand before the writers that came after them, and that the readers inside have the lock together |
| RwLock.WritersWorkAlone | packages/databricks-vscode/src/locking/RWLock.ts:8-34 | in every schedule, a writer never works while a reader is inside or another writer may work |
| RwLock.WriterDrainsReaders | packages/databricks-vscode/src/locking/RWLock.ts:8-34 | in every schedule, when a writer may work, and ever after, every reader that came before it has worked and left |
| RwLock.NeverStuck | packages/databricks-vscode/src/locking/RWLock.ts:8-34 | in every schedule, until everyone is done some handler can go on |
| SyncTerminal.CustomSyncTerminal.constructor | packages/databricks-vscode/src/cli/SyncTasks.ts:98-137 | the terminal starts stopped |
| SyncTerminal.CustomSyncTerminal.SyncStateCallback | packages/databricks-vscode/src/cli/SyncTasks.ts:107-132 | a call is passed on or dropped by the guard, and the state follows what was passed on |
| SyncTerminal.CustomSyncTerminal.Open | packages/databricks-vscode/src/cli/SyncTasks.ts:139-146 | opening shows that the sync is in progress |
| SyncTerminal.CustomSyncTerminal.Close | packages/databricks-vscode/src/cli/SyncTasks.ts:148-151 | closing shows a stop, if the guard lets it |
| SyncTerminal.CustomSyncTerminal.OnExit | packages/databricks-vscode/src/cli/SyncTasks.ts:209-217 | a non-zero exit code reports an error without a reason |
| SyncTerminal.CustomSyncTerminal.MatchForErrors | packages/databricks-vscode/src/cli/DatabricksCliSyncParser.ts:104-122 | an error line is reported with its state and reason |
| SyncTerminal.CustomSyncTerminal.ProcessStderr | packages/databricks-vscode/src/cli/DatabricksCliSyncParser.ts:90-102 | the loop reports the first error line and stops, or reports nothing |
| SyncTerminal.CustomSyncTerminal.ProcessStdout | packages/databricks-vscode/src/cli/DatabricksCliSyncParser.ts:126-149 | the loop follows the events up to the first error line, which it reports; without one it reports the parser's state |
| SyncTerminal.Deliver | packages/databricks-vscode/src/cli/SyncTasks.ts:197-217 | the methods of the object make the changes of the machine's steps |
| SyncTerminal.RunIsLawful | packages/databricks-vscode/src/cli/SyncTasks.ts:107-132 | in every run: no two neighbouring states are equal, files-disabled is followed by neither error nor stop, and a stop not by an error without a reason |
| SyncTerminal.LawfulNeighbours | packages/databricks-vscode/src/cli/SyncTasks.ts:107-132 | the recursive form of that law is the law about every pair of neighbours, the initial state included |
| SyncTerminal.RunReplays | packages/databricks-vscode/src/cli/SyncTasks.ts:107-217 | what a run shows follows from the order in which its output, its closing and its exit are handled, and from nothing else |
| SyncTerminal.FirstErrorIsReported | packages/databricks-vscode/src/cli/DatabricksCliSyncParser.ts:104-122 | the first error line of a chunk is what it reports: files disabled in the workspace, in repos, or an error with its reason |
| SyncTerminal.LastEventIsReported | packages/databricks-vscode/src/cli/DatabricksCliSyncParser.ts:126-149 | without an error line, stdout reports the state after its last event (in progress after a start, watching after a completion) and stderr nothing |
| SyncTerminal.StateAfterEvents | packages/databricks-vscode/src/cli/DatabricksCliSyncParser.ts:126-149 | the parser's own state follows the events before the first error line |
| SyncTerminal.CallIsShown | packages/databricks-vscode/src/cli/SyncTasks.ts:107-132 | a call is shown unless files are disabled and it is an error or a stop, or the terminal has stopped and it is an error without a reason |
| SyncTerminal.ExitComesLast | packages/databricks-vscode/src/cli/SyncTasks.ts:191-217 | in every schedule of the handlers under the lock, when the handler of the exit may run, and ever after, each chunk of output has been handled exactly once |
| SyncTerminal.RunEndsDisabledIff | packages/databricks-vscode/src/cli/SyncTasks.ts:107-132 | from every state and in every run, whatever the exit code: it ends up showing files disabled exactly when some report says so and no later one is a non-error status, or when it showed them disabled and no such status has been reported since |
| SyncTerminal.DisabledFilesAreShown | packages/databricks-vscode/src/cli/SyncTasks.ts:107-132 | once the exit is handled, the terminal shows files disabled exactly when that was the last word of the output, all of which has been handled, whatever the exit code |
| SyncTerminal.DisabledInEveryOrder | packages/databricks-vscode/src/cli/SyncTasks.ts:191-217 | if some chunk says files are disabled and none reports a status, that holds for every order of the handlers, and the exit shows nothing |
| SyncTerminal.FailingExitIsShownIff | packages/databricks-vscode/src/cli/SyncTasks.ts:107-132 | a failing exit leaves an error or disabled files on show exactly when what was handled before it does not end in a stop (the user's closing, or stdout that reports before any start or complete event) that disabled files did not keep from showing |
| SyncTerminal.EarlyOutputHidesFailure | packages/databricks-vscode/src/cli/DatabricksCliSyncParser.ts:126-149 | a run from the opened terminal, through the lock, in which the process fails by itself and the terminal shows that it has stopped |

## Left out

- The entries of `typeMap`, the TypeScript interfaces, the `Date` branch and the text of error messages in the bundle schema.
- The order of an object's keys, and properties that a JavaScript object inherits, other than the effect of assigning to `__proto__`.
- Byte streams that are malformed inside (not merely cut short): no claim that streamed and whole decoding agree on their replacement characters.
- Callbacks of the CLI runner that re-enter it, and a spawn call that throws at once; a callback that throws on a chunk of data leaves the runner as if it had not thrown, and is not distinguished.
- Windows paths, drive letters and separators; `BundleFileSet` and `RemotePaths` are about POSIX, case-sensitive file systems.
- Shell and Windows escaping, and the dollar-sign patterns of `String.replace` in the bootstrap template: only the text of the list literal is modelled.
- Numeric and named Python escapes: the reader refuses them, and the writer never produces one.
- The steps inside one reading of the target's host: an evaluation reads the files at one moment. A change of the target or the pinned host is assumed to be followed by its event, as in ConfigModel.ts:324-554 unless loading the session host fails.
- The rows of the agents list, their block reasons, telemetry and the Cursor marketplace prompt.
- A storage write that fails after it took effect: a failed write is assumed to have changed nothing.
- Starting, stopping and restarting the cluster loop, the sorting and the listing of clusters, and lists in which an identifier occurs twice.
- YAML parsing, merge keys and sequences (which lodash merges by index); a file whose top level is a scalar or a sequence.
- Glob matching: one relation between patterns and files, shared by loader and membership test.
- Watch targets for includes outside the project, sub-projects and `findFile`.
- Texts with a carriage return alone at the end of a line are split as the source splits them, which is not how the editor counts lines.
- The regular expressions and the JSON that tell one line of sync output from another: lines come already classified, and a chunk ends at a line end.
- The order in which the handlers of two chunks of output run on from the same lock: the models allow every order.
- User interface, tree views, quick picks, activation, authentication flows and network calls.
