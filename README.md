# Runner model

A Dafny model of the runner of the Smithery CLI. The runner starts an MCP
server as a child process and bridges its JSON-RPC stream over stdio. When the
server command is a container engine (`docker` or `podman`), the runner first
does three things:

- it brings up a Podman virtual machine;
- it pulls the server's image through a chain of fallbacks;
- it rewrites the image argument so it names Docker Hub.

The model also covers the config-value formatter, which matches a user's
settings against a server's configuration schema.

The model follows the three core source files:

- `src/cli/runner.ts` is the current runner:
  - `ensurePodmanMachineRunning` for the machine `smithery-vm`, with a verification loop of five attempts;
  - `handleContainerPull` with its image locator and normaliser;
  - `configureContainerCredentials`;
  - the `RunnerState` handlers;
  - `createRunner` with its in-place image rewrite.
- `src/cli/run/vm-runner.ts` is the older runner:
  - a bootstrap that accepts any machine;
  - the same bridge;
  - docker run as podman;
  - the environment overlay;
  - arguments passed through unchanged.
- `src/cli/utils.ts` holds `FormatConfigValues` and `convertValueToType`.

Modules:

- `Wrappers`: `Option`, `Result` and `Outcome`.
- `Text`: the JavaScript string operations the core uses.
  - `includes`, `startsWith`;
  - `split` on one character, and its inverse `join`;
  - `trim` over ECMAScript white space;
  - `toLowerCase` (ASCII);
  - `filter(Boolean)`.
- `Host`: the outside world. Every effect goes into the trace of a `Shell` object:
  - a command run through `execAsync`, or
  - the write of the credential file.

  That effect's outcome is the next entry of a fixed script of replies. When the script has run out, the reply is a failure.
- `ImageRef`: the image-locating loop, the `docker.io/` normalisation rule, the mount check, and the in-place rewrite of `createRunner`.
- `PullChain`: the three pull strategies and the credential file.
- `Bootstrap`: `ensurePodmanMachineRunning` of `runner.ts`. There is a specification function `EnsureMachineSpec` and imperative methods proved against it.
- `Framing`: the line framing of `processMessage`.
- `Bridge`: the class `RunnerState` with `send`, `processMessage`, `cleanup`, `onmessage`, `onclose` and `onerror`.
- `Launch`: the connection descriptor of `src/types/registry.ts`, the docker-to-podman substitution and the environment overlay.
- `Runner`: `createRunner` of `runner.ts`.
- `VmRunner`: the bootstrap and `createRunner` of `vm-runner.ts`.
- `ConfigFormat`: JavaScript values, `String(value)`, `convertValueToType` and `FormatConfigValues`.

Some things the code does that a reader may not expect, all stated as lemmas:

- Where `pull` is followed by a flag, the two image locators disagree (`ImageRef.PullFlagDisagreement`):
  - `handleContainerPull` takes the token right after `pull`, even a flag;
  - the rewrite in `createRunner` skips flags.
- The normalisation rule prefixes a reference when it has no `/`, or when it has no `.`, no `:` and fewer than three `/`-separated segments, so `library/ubuntu` gets the prefix.
- `value ?? default` lets a `null` value yield to the default too. A `null` with no default is stored as `undefined` in the output (`ConfigFormat.NullWithoutDefault`).
- An empty `properties` object is not missing. It yields an empty result, and the given values are ignored (`ConfigFormat.EmptyProperties`).

## Model

| member | source | states |
|---|---|---|
| Text.Contains | src/cli/runner.ts:136 | `includes` holds exactly when the substring occurs at some position |
| Text.Split | src/cli/runner.ts:144 | `split` on one character: always at least one piece, the pieces between separators in order (partnered by `JoinSplit` and `SplitJoin`) |
| Text.JoinSplit | src/cli/runner.ts:305-306 | joining the pieces of a split with the separator gives the string back |
| Text.SplitLength | src/cli/runner.ts:144 | a split has one piece more than the string has separators |
| Text.SplitConcat | src/cli/runner.ts:305 | splitting a concatenation keeps the complete pieces of the first part; its last piece continues into the second part |
| Text.SplitJoin | src/cli/utils.ts:45 | splitting a join of separator-free pieces gives the pieces back |
| Text.Trim | src/cli/utils.ts:45 | the result is a slice of the input with only white space cut from either end, and it has no white space at either end |
| Text.TrimUnchanged | src/cli/utils.ts:45 | a string without white space at either end is its own trim |
| Text.LowerIsTrue | src/cli/utils.ts:38 | the lower-case form is "true" exactly when the string spells true in any mix of cases |
| Text.NonEmpty | src/cli/runner.ts:308 | `filter(Boolean)` keeps only non-empty strings and never lengthens |
| Text.NonEmptyConcat | src/cli/runner.ts:308 | filtering distributes over concatenation, so order is kept |
| ImageRef.IndexOf | src/cli/runner.ts:97 | `indexOf` is -1 exactly when the element is absent; otherwise it is the first position that holds it |
| ImageRef.ScanFrom | src/cli/runner.ts:103-124 | what the `skipNext` loop computes from a position: -1, or a position at or after the start |
| ImageRef.ScanSound | src/cli/runner.ts:103-124 | the scan stops at a non-flag that follows a complete run of options, each option of the table with its value |
| ImageRef.ScanComplete | src/cli/runner.ts:103-124 | any non-flag that follows a complete run of options is where the scan stops |
| ImageRef.ScanNotFound | src/cli/runner.ts:103-124 | the scan finds nothing exactly when no complete run of options is followed by a non-flag |
| ImageRef.LocateImage | src/cli/runner.ts:103-124 | the `skipNext` loop returns the scan's index, or -1 |
| ImageRef.PullImageIndex | src/cli/runner.ts:95-125 | the index handleContainerPull settles on, from -1 up to one past the end (partnered by `FindPullImage` and the scan lemmas) |
| ImageRef.LooksLikeMount | src/cli/runner.ts:135-139 | a candidate containing "type=bind" or "src=" is taken for a mount value |
| ImageRef.NeedsRegistry | src/cli/runner.ts:141-145 | no `/`, or no `.`, no `:` and fewer than three `/`-separated pieces (restated over characters by `NormalizeRule`) |
| ImageRef.Normalize | src/cli/runner.ts:141-149 | the reference with `docker.io/` in front exactly when it names no registry (partnered by `NormalizeRule` and `NormalizeIdempotent`) |
| ImageRef.PullTarget | src/cli/runner.ts:127-149 | no image when none is located, the index is past the end or the candidate is a mount value; otherwise the normalised candidate |
| ImageRef.FindPullImage | src/cli/runner.ts:95-125 | `pull` takes precedence (the index after it); otherwise the scan after `run`; otherwise -1 |
| ImageRef.NormalizeRule | src/cli/runner.ts:142-149 | prefixed with `docker.io/` exactly when the reference has no `/`, or has no `.`, no `:` and at most one `/` |
| ImageRef.NormalizeIdempotent | src/cli/runner.ts:142-149 | a normalised reference needs no prefix, so normalising twice is normalising once |
| ImageRef.NormalizeAlpine | src/cli/runner.ts:143-145 | `alpine` becomes `docker.io/alpine` |
| ImageRef.NormalizeTwoSegments | src/cli/runner.ts:143-145 | `user/name` without `.` or `:` gets the prefix |
| ImageRef.NormalizeLibraryUbuntu | src/cli/runner.ts:143-145 | `library/ubuntu` becomes `docker.io/library/ubuntu` |
| ImageRef.NormalizeQualified | src/cli/runner.ts:143-149 | `myregistry.io/app:tag` is left alone |
| ImageRef.AnchorIndex | src/cli/runner.ts:348-352 | the anchor is -1 exactly when neither `pull` nor `run` occurs |
| ImageRef.OverrideIndex | src/cli/runner.ts:355-381 | the rewritten position lies after the anchor, or there is none |
| ImageRef.Overridden | src/cli/runner.ts:346-394 | the argument list after the override: the located image normalised, everything else as it was |
| ImageRef.OverrideChangesOnlyImage | src/cli/runner.ts:383-394 | the length is kept; at most the located image changes, and only by getting the `docker.io/` prefix |
| ImageRef.OverrideIndexStable | src/cli/runner.ts:346-394 | after the rewrite the locator finds the same position again |
| ImageRef.OverrideIdempotent | src/cli/runner.ts:346-394 | applying the rewrite twice is applying it once |
| ImageRef.PulledImageIsRunImage | src/cli/runner.ts:346-391 | for `run` without `pull`, the image `createRunner` rewrites is the one `handleContainerPull` (runner.ts:98-145) pulled, and it is rewritten to exactly the pulled reference |
| ImageRef.PullFlagDisagreement | src/cli/runner.ts:96-97 | for `pull <flag> <image>` the pull takes the flag, while the rewrite (runner.ts:361-381) targets the image |
| ImageRef.RunExample | src/cli/runner.ts:101-124 | `run -v /a:/b --name x alpine` locates index 5 |
| ImageRef.OverrideRegistry | src/cli/runner.ts:346-394 | the caller's array, changed in place, equals the rewrite of its old contents |
| Host.RunUntilFailure | src/cli/runner.ts:44-56 | commands awaited in turn: the number issued, and whether all succeeded |
| Host.RunUntilFailureMeaning | src/cli/runner.ts:44-56 | all succeed exactly when every reply in range does; on failure the last command issued is the first that failed |
| Host.Shell.Exec | src/cli/runner.ts:32 | one command is appended to the trace and receives the next reply |
| Host.Shell.WriteAuthFile | src/cli/runner.ts:231 | one file write is appended to the trace; its result is whether it succeeded |
| PullChain.PullEffects | src/cli/runner.ts:153-192 | the chain for one image: pull; on failure the credential reset and a second pull; on failure `logout docker.io`; after a good logout a third pull |
| PullChain.HandlePullEffects | src/cli/runner.ts:89-193 | no effects when there is no pull target, otherwise the chain for it |
| PullChain.PullBudget | src/cli/runner.ts:153-192 | between one and three pulls and at most five effects, the first a pull |
| PullChain.ResetOnlyAfterFirstFailure | src/cli/runner.ts:158-168 | the credential reset happens exactly when the first pull failed |
| PullChain.LogoutOnlyAfterSecondFailure | src/cli/runner.ts:171-178 | `logout docker.io` happens exactly when the first two pulls failed |
| PullChain.ThirdPullOnlyAfterLogout | src/cli/runner.ts:176-189 | a third pull happens exactly when both pulls failed and the logout succeeded |
| PullChain.ResetOutcomeIgnored | src/cli/runner.ts:163-168 | whether the credential write worked does not alter the chain |
| PullChain.ConfigureContainerCredentials | src/cli/runner.ts:195-239 | writes the anonymous auth file once and returns whether the write worked |
| PullChain.HandleContainerPull | src/cli/runner.ts:89-193 | returns command and arguments unchanged; the effects are the chain's for the located, normalised image, or none |
| Bootstrap.EnsureMachineSpec | src/cli/runner.ts:23-87 | nothing on linux; otherwise the machine list, then (when it parsed) the bring-up and verification of `BootFrom` |
| Bootstrap.BootFrom | src/cli/runner.ts:36-82 | the preparing commands for the machine state and `default`, up to the first failure, then the verification attempts when all succeeded |
| Bootstrap.FindIndex | src/cli/runner.ts:39 | `find` by name: the first machine with that name, or none |
| Bootstrap.VerifyAttempts | src/cli/runner.ts:62-78 | the retry loop makes between 1 and 5 attempts; success implies at least one, and failure means all five |
| Bootstrap.VerifyAttemptsMeaning | src/cli/runner.ts:66-78 | all attempts before the last failed; the loop succeeds exactly when its last attempt did |
| Bootstrap.VerifyFirstSuccess | src/cli/runner.ts:66-78 | when attempt k is the first to succeed, there are exactly k attempts and success |
| Bootstrap.VerifyAllFail | src/cli/runner.ts:66-82 | when every attempt fails, there are five attempts and failure |
| Bootstrap.BootFromAbsent | src/cli/runner.ts:41-78 | missing machine: init, start, default, then the attempts, each step only after the previous one succeeded |
| Bootstrap.BootFromStopped | src/cli/runner.ts:48-78 | stopped machine: start, default, then the attempts |
| Bootstrap.BootFromRunning | src/cli/runner.ts:54-78 | running machine: default, then the attempts |
| Bootstrap.BootFromInfo | src/cli/runner.ts:62-78 | the `info` commands issued are exactly the verification attempts |
| Bootstrap.RetryBudget | src/cli/runner.ts:62-85 | at most five `info` attempts; a resolved bootstrap off linux made at least one |
| Bootstrap.FirstSuccessDecides | src/cli/runner.ts:62-82 | when attempt k is the first to succeed, the bootstrap resolves with exactly k attempts |
| Bootstrap.AllAttemptsFail | src/cli/runner.ts:80-85 | when all five attempts fail, the bootstrap fails after exactly five |
| Bootstrap.LinuxIsNoOp | src/cli/runner.ts:25 | nothing is issued exactly on linux; elsewhere the machine list comes first |
| Bootstrap.MachineTransitions | src/cli/runner.ts:36-56 | `init` exactly when the machine is missing; `start` exactly when it is stopped, or missing and init worked; `default` exactly once the machine is up |
| Bootstrap.AbsentTransitions | src/cli/runner.ts:41-56 | a missing machine: `init` always, `start` after a good init, `default` after both |
| Bootstrap.StoppedTransitions | src/cli/runner.ts:48-56 | a stopped machine: no `init`, `start`, and `default` after a good start |
| Bootstrap.RunningTransitions | src/cli/runner.ts:54-56 | a running machine: neither `init` nor `start`, but `default` |
| Bootstrap.BringUp | src/cli/runner.ts:38-56 | issues the preparing commands and `default` up to the first failure |
| Bootstrap.VerifyConnection | src/cli/runner.ts:61-78 | the `while` loop issues the attempts `VerifyAttempts` counts and reports its verdict |
| Bootstrap.ComeUp | src/cli/runner.ts:38-82 | bringing up, then verifying, is `BootFrom` |
| Bootstrap.EnsureMachine | src/cli/runner.ts:23-82 | the effects and verdict are `EnsureMachineSpec`'s |
| Bootstrap.EnsurePodmanMachineRunning | src/cli/runner.ts:23-87 | the same, with every failure wrapped as the single error "Failed to ensure Podman machine is running" |
| Framing.CompleteLines | src/cli/runner.ts:305-306 | the pieces of `split(/\r?\n/)` that a line break ended, without their carriage return |
| Framing.Remainder | src/cli/runner.ts:306 | the piece after the last line break, kept in the buffer |
| Framing.ParseAll | src/cli/runner.ts:308-315 | the messages of the lines that parse, in order, never more than the lines |
| Framing.Forwarded | src/cli/runner.ts:305-315 | what one framing pass sends: the parsed non-blank complete lines |
| Framing.DropCR | src/cli/runner.ts:305 | one trailing carriage return is removed, nothing else |
| Framing.FramingLosesNothing | src/cli/runner.ts:305-306 | the lines and the kept remainder rebuild the buffer; neither contains a line break |
| Framing.ChunkingInvariant | src/cli/runner.ts:300-316 | feeding two chunks forwards the same messages, in the same order, and keeps the same remainder as feeding them at once |
| Framing.CrLfLine | src/cli/runner.ts:305 | a line ended by `\r\n` is framed without its carriage return |
| Framing.LfLine | src/cli/runner.ts:305 | a line ended by `\n` is framed as it is |
| Framing.NoLineBreak | src/cli/runner.ts:305-306 | text without a line break is only carried over |
| Framing.BlankLineDropped | src/cli/runner.ts:308 | a blank line is dropped without affecting the others |
| Framing.MalformedLineSkipped | src/cli/runner.ts:308-315 | a line that does not parse is skipped without affecting the others |
| Framing.ParseAllConcat | src/cli/runner.ts:308-315 | parsing distributes over concatenation |
| Framing.AllParse | src/cli/runner.ts:308-315 | when every line parses, each is forwarded, in order |
| Bridge.OnErrorExit | src/cli/runner.ts:267-277 | exit code 1 always; the spawn hint exactly when "spawn" occurs; the permission hint exactly when only "permission" does |
| Bridge.ReportsChildError | src/cli/runner.ts:246-250 | an error message is reported unless its code is "method not found" (-32601) |
| Bridge.RunnerState.constructor | src/cli/runner.ts:319-323 | no transport, not ready, empty buffer |
| Bridge.RunnerState.Send | src/cli/runner.ts:293-298 | refused with "Transport not ready" unless the transport exists and is ready; otherwise sent |
| Bridge.RunnerState.ProcessMessage | src/cli/runner.ts:300-316 | the chunk is always appended; when not ready nothing is sent; when ready, the non-blank complete lines' messages are sent in order and the remainder is kept |
| Bridge.RunnerState.SendEach | src/cli/runner.ts:308-315 | the loop sends exactly the messages of the lines that parse, in order |
| Bridge.RunnerState.SendLine | src/cli/runner.ts:309-314 | one line: sent when it parses, skipped otherwise |
| Bridge.RunnerState.OnMessage | src/cli/runner.ts:244-256 | the message goes to stdout; it is reported when `ReportsChildError` holds |
| Bridge.RunnerState.OnCloseExit | src/cli/runner.ts:258-265 | exit code 1 exactly when ready, otherwise 0 |
| Bridge.RunnerState.Cleanup | src/cli/runner.ts:283-291 | closes an existing transport once and drops it; exit code 0 |
| Bridge.RunnerState.CleanupTwice | src/cli/runner.ts:283-291 | two cleanups run one after the other close the transport at most once |
| Launch.IsContainerEngine | src/cli/run/vm-runner.ts:138 | exactly `docker` and `podman` go through the bootstrap |
| Launch.EngineCommand | src/cli/run/vm-runner.ts:138-141 | docker and podman run as podman; any other command is kept |
| Launch.Overlay | src/cli/run/vm-runner.ts:153 | the keys of both maps; a declared value wins, other defaults are kept |
| Runner.RunArgs | src/cli/runner.ts:332-394 | only a container engine's `pull`/`run` is rewritten, and in at most its located image |
| Runner.PullAndOverride | src/cli/runner.ts:339-394 | the pull chain's effects, then the array rewritten in place |
| Runner.PrepareEngine | src/cli/runner.ts:332-404 | bootstrap effects, then pull effects once it resolved; the array is rewritten only then |
| Runner.CreateRunner | src/cli/runner.ts:318-431 | effects of `RunnerEffects`; a bootstrap failure rejects with the wrapped error and leaves the arguments alone; otherwise the caller's arguments are rewritten and the child starts with the engine command, the rewritten arguments and the overlaid environment, in a ready state |
| VmRunner.EnsureAnyMachineSpec | src/cli/run/vm-runner.ts:18-45 | nothing on linux; otherwise the machine list, then `init` and `start` or only `start` as the list demands, up to the first failure |
| VmRunner.AnyLinuxIsNoOp | src/cli/run/vm-runner.ts:20 | nothing is issued exactly on linux, where it resolves; elsewhere the list comes first |
| VmRunner.MachineDecision | src/cli/run/vm-runner.ts:30-40 | `init` exactly when the list is empty; `start` exactly when it is empty and init worked, or when nothing runs; nothing else is issued |
| VmRunner.AnyStopsAtFirstFailure | src/cli/run/vm-runner.ts:27-44 | a failed bootstrap's last effect is the one that failed, or the list that did not parse |
| VmRunner.EnsurePodmanMachineRunning | src/cli/run/vm-runner.ts:18-45 | effects are `EnsureAnyMachineSpec`'s; the outcome is success or the single wrapped error |
| VmRunner.CreateRunner | src/cli/run/vm-runner.ts:124-170 | engine command, unmodified arguments and overlaid environment; only a container engine is bootstrapped |
| ConfigFormat.Falsy | src/cli/utils.ts:34 | `!value`: undefined, null, false, 0 and ""; arrays and objects are truthy |
| ConfigFormat.ToStr | src/cli/utils.ts:38 | `String(value)`: arrays joined by ",", null and undefined elements as "", objects as "[object Object]" |
| ConfigFormat.SplitList | src/cli/utils.ts:45 | every item is non-empty, free of "," and has no white space at either end |
| ConfigFormat.ConvertValueToType | src/cli/utils.ts:33-49 | pass-through for no type, "" or a falsy value, and for unknown types; "boolean" gives a boolean; "array" keeps an array and otherwise gives clean string items |
| ConfigFormat.BooleanCoercion | src/cli/utils.ts:37-38 | true exactly when the string form spells "true" in any case |
| ConfigFormat.BooleanIdempotent | src/cli/utils.ts:34-38 | coercing to boolean twice is coercing once |
| ConfigFormat.BooleanExamples | src/cli/utils.ts:37-38 | "TRUE" gives true; "yes", 1 and "false" give false; `["True"]` gives true |
| ConfigFormat.SplitListJoin | src/cli/utils.ts:45 | splitting the ","-join of clean items gives the items back |
| ConfigFormat.ArrayRoundTrip | src/cli/utils.ts:43-45 | coercion to "array" of the join of clean items gives the items, in order |
| ConfigFormat.Provided | src/cli/utils.ts:18 | a missing map or key reads as undefined |
| ConfigFormat.Coalesce | src/cli/utils.ts:22 | `??`: the value unless it is undefined or null |
| ConfigFormat.FirstMissingRequired | src/cli/utils.ts:16-27 | the first required entry with neither value nor default, or none |
| ConfigFormat.FoldEntries | src/cli/utils.ts:16-28 | the loop over the entries: a not-missing entry stores its coerced value; a missing required one stops with the error; a missing optional one is skipped |
| ConfigFormat.Format | src/cli/utils.ts:4-31 | without `properties` the given values or `{}`; otherwise the loop from an empty result |
| ConfigFormat.FormatConfigValues | src/cli/utils.ts:4-31 | the loop's result, or the error it throws, is `Format`'s |
| ConfigFormat.FoldError | src/cli/utils.ts:16-28 | the loop fails exactly when a required entry is missing, naming the first |
| ConfigFormat.FoldKeepsOthers | src/cli/utils.ts:16-28 | keys no entry names are left as they were |
| ConfigFormat.FoldKeys | src/cli/utils.ts:16-28 | output keys come from the entries, or were there already |
| ConfigFormat.FoldEntryOutcome | src/cli/utils.ts:16-28 | with distinct keys, an entry is in the output exactly when it is not missing, with its coerced value |
| ConfigFormat.NoProperties | src/cli/utils.ts:10-12 | without `properties`, the given values, or `{}` |
| ConfigFormat.EmptyProperties | src/cli/utils.ts:10-16 | an empty `properties` gives `{}` |
| ConfigFormat.OutputKeys | src/cli/utils.ts:16-30 | every output key is a property key; extra values are dropped |
| ConfigFormat.ValueBeatsDefault | src/cli/utils.ts:18-24 | a value other than undefined and null wins over the default, coerced |
| ConfigFormat.DefaultFillsIn | src/cli/utils.ts:20-24 | an undefined or null value takes the default when there is one |
| ConfigFormat.NullWithoutDefault | src/cli/utils.ts:20-24 | a null value without a default is stored as undefined |
| ConfigFormat.MissingKeyAbsent | src/cli/utils.ts:20-27 | a key with neither value nor default gets no entry |
| ConfigFormat.MissingRequired | src/cli/utils.ts:25-27 | formatting fails exactly when a required key has neither value nor default; the error is "Missing required config value: " and the first such key |

## Left out

- Subprocesses, the container engine and the MCP SDK's `StdioClientTransport` are left out. Each command or file write becomes an effect in a trace, and its outcome comes from a fixed script of replies. In the same way, whether the transport started is a parameter (`startOk`).
- `getDefaultEnvironment` is left out because it reads the host's environment. The default environment is a parameter.
- `process.platform` is left out because it reads the host. The platform is a parameter.
- The two-second `setTimeout` between attempts is left out, because time plays no part in any property. Only the attempt count is modelled.
- These are left out as operating-system and concurrency glue:
  - `process.exit`, which becomes a returned exit code;
  - `process.on` signal registration;
  - the `stdin` `data` subscription, with each chunk handled as one serialised call.
- The `console.error` logging is left out. The spawn and permission hints of `onerror` are only kept as a `Hint` value.
- `JSON.parse` of a stdin line is left out. It is a parameter `parse: string -> Option<Message>`.
- `JSON.stringify` of outgoing messages is left out. Written messages are recorded as values.
- The machine list is modelled by its outcome. Either its stdout parses as an array of `{Name, Running}` records (`Listed`), or the reply is a failure. Other JSON shapes are not modelled.
- `data.toString("utf8")` is left out: chunks are given as decoded text. A multi-byte character split across two chunks is not modelled.
- `transport.send` and `transport.close` are assumed to succeed. A rejected send is caught per line in the source anyway.
- The credential file's path (`HOME` or `USERPROFILE`, plus `.config/containers/auth.json`) and the `mkdir` before it are left out. Only the file's content and whether the write succeeded are kept.
- The `number` and `integer` branches of `convertValueToType` (`Number`, `Number.parseInt`) are left out because they parse floating point. They are a parameter `numeric`.
- Values hold only integral numbers, so NaN, -0 and non-integral numbers are left out. `String(value)` of an object is always "[object Object]".
- `toLowerCase` is modelled on ASCII letters only. Unicode case mapping is not part of this model.
- `Object.entries` lists integer-like keys first, in numeric order. That order is left out: the schema's properties are given as an ordered sequence, in the order `Object.entries` returns them.
- The bridge handlers are the same text in `src/cli/run/vm-runner.ts:47-122` and `src/cli/runner.ts:241-316`, so they are modelled once, in `Bridge`.
- Bridge.RunnerState.OnMessage: a failure while writing to stdout, caught in the source, is not modelled.
- The `createRunner` methods return the started state and the launch parameters; the `send` and `cleanup` closures they return are `RunnerState.Send` and `RunnerState.Cleanup`.
- Bridge.RunnerState.CleanupTwice: calls are serialised. In the source the SIGINT and SIGTERM handlers can both enter `cleanup` and interleave at the `await` of `transport.close()` (src/cli/runner.ts:286-287), before the transport is dropped; both then close it. That interleaving is not modelled, and the first cleanup's `process.exit(0)` is modelled only as its returned code.
- ConfigFormat.ToStr: numbers are unbounded integers. A JavaScript number is a double, so integers of magnitude 2^53 or more are not represented exactly, and `String` prints magnitudes from 10^21 up in exponent form (`1e+21`); the model prints every integer in full decimal.
- ConfigFormat.Provided: config values are a plain map. `configValues?.[key]` also reads properties inherited from `Object.prototype` (a schema key `constructor` or `toString` then reads a function and gets an entry), and storing under the key `__proto__` sets the prototype instead of adding an entry; neither is modelled.
