# statexec, modelled in Dafny

statexec wraps a command. It records host metrics once a second, in Prometheus text format with explicit
millisecond timestamps, from shortly before the command starts until shortly after it ends. It also writes
two Grafana annotations, one when the command starts and one when it is done. A run is standalone, or it
is synchronised with another instance over HTTP:

- The **server** role waits for `POST /start` and then launches the command. `POST /stop` interrupts the
  command.
- The **client** role calls a server's `/start` and `/stop` around its own run.

This project models the decision logic of `main.go`, and proves what that logic promises. It covers:

- **Configuration** (`cli.dfy`, `labels.dfy`, `decimal.dfy`):
  - The `SE_*` environment pass, then the left-to-right scan of the arguments.
  - Both passes assign the package variables. In the model these are the fields of the class
    `Cli.Settings`. Each method is proved against a pure reading of the same pass: `EnvPass`,
    `ParseFrom` and `ParseAll`.
  - The `for` loop of parseArgs is `Cli.Scan`, written over any one-turn function. `ParseFrom` is that loop
    around `ParseStep`, one turn of the `switch`. The facts about the loop alone are proved once, for any
    turn.
  - Label-key admission, for `-l` and for `SE_LABEL_*` entries.
  - `strconv.ParseInt` in base 10 with the 64-bit range.
- **Properties of the passes** (`cli_properties.dfy`):
  - Where the command comes from.
  - What later assignments can never undo.
  - Mutual exclusion of the client and server roles.
  - The delay and label options.
  - Arguments winning over the environment.
- **Label rendering** (`render.dfy`). A Go `range` over a map visits the keys in an unspecified order.
  The loops therefore pick their next key nondeterministically (`:|`). The contract holds for every
  order.
- **The gathering goroutine** (`gathering.dfy`):
  - Its ticker and quit channel are given as the order of the events its `select` receives.
  - Its virtual timestamps are start + k·1000 ms.
- **`startCommand`** (`lifecycle.dfy`):
  - The metrics start time.
  - The command status moving from Pending (0) to Running (1) to Done (2).
  - The two annotations.
  - The samples taken during each phase.
- **The server role's handlers** (`sync_server.dfy`). These are transitions on the two flags
  `cmdStarted` and `cmdFinished`, handled one request at a time. The status codes are those of
  section 15 of RFC 9110.

The wall clock, the environment and the command's launch are parameters: millisecond readings, a list of
`NAME=value` entries, and a success flag.

## Model

| member | source | states |
|---|---|---|
| Decimal.ParseInt64 | main.go:166-170 | a value is returned only for an optional sign followed by at least one digit and nothing else, and it lies in the int64 range; anything else is the error path that makes the program exit |
| Decimal.ParseFormatRoundTrip | main.go:166-170 | every int64 written in decimal is read back as itself |
| Labels.Sanitize | main.go:339 | every character outside `[a-zA-Z0-9]` becomes `_`, the others are kept, the length is unchanged |
| Labels.Lower | main.go:349 | `strings.ToLower` on the sanitised key: upper-case ASCII letters lowered, everything else kept |
| Labels.AdmitKey | main.go:334-349 | refused exactly when the sanitised key equals one of instance, job, cpu, mode, interface; otherwise the stored key has the raw key's length, and each of its characters is the lower-cased letter or digit, or `_` |
| Labels.LowerOfLower | main.go:349 | lower-casing leaves text without upper-case letters unchanged |
| Labels.SanitizeAlnum | main.go:339 | a key made only of letters and digits is not changed by sanitising |
| Labels.CollisionNeedsUpperCase | main.go:336-349 | a key admitted under a forbidden name must have contained an upper-case letter: the check is case-sensitive and runs before lower-casing |
| Labels.UpperCaseInstanceAdmitted | main.go:336-349 | `INSTANCE` is admitted and stored as `instance` |
| Labels.RoleAdmitted | main.go:336 | `role` is not forbidden and is stored as `role` |
| Labels.SplitFirst | main.go:223-224 | `strings.SplitN(s, "=", 2)`: no split exactly when there is no `=`; otherwise s is key, `=`, value, and the key has no `=` |
| Labels.SplitFirstOfJoin | main.go:223-225 | `key=value` splits back into key and value whenever the key has no `=`; the value may contain more |
| Labels.ParseEnvLabel | main.go:353-363 | entries without the SE_LABEL_ prefix are skipped, and only those; an accepted entry is exactly `SE_LABEL_` + key + `=` + value with no other `=` |
| Labels.EnvLabelRoundTrip | main.go:354-359 | every `SE_LABEL_<key>=<value>` entry with a single `=` is read as that key and value |
| Labels.EnvLabelWithTwoSeparators | main.go:355-363 | an SE_LABEL_ entry with two or more `=` is refused |
| Cli.Classify | main.go:156-243 | which `case` an argument falls into: `--` and only it ends the options, and an argument that does not start with `-` is never an option |
| Cli.Assign | main.go:157-229 | the assignment one option makes: it fails only on a bad integer, a role conflict or a bad or forbidden label; `-c` and `-s` fail exactly when the other role is set, and they alone change the role (to client and server); no option removes a label key, and only `-l` touches the labels |
| Cli.ParseStep | main.go:155-243 | one turn of the parseArgs loop; a turn that continues moves past exactly one argument, or two for options that take a value, and stays within the arguments |
| Cli.ParseFrom | main.go:151-247 | the scan from position i: it stops at the end of the arguments with an empty command, at `--` with everything after it as the command, and at an argument that is not an option with the command starting there |
| Cli.ParseAll | main.go:61-63 | an error of the environment pass ends the program before any argument is read; with only the program name the outcome is the environment's settings and an empty command |
| Cli.Getenv | main.go:252-328 | `os.Getenv`: the value of the first entry with the name, or empty when no entry has it; a non-empty value is the value of an entry `NAME=value` of the environment |
| Cli.EntryName | main.go:353 | an entry has a name exactly when it contains `=` |
| Cli.EnvironFrom | main.go:353 | the entries `os.Environ` yields after the names given as already seen: no more entries than the environment, each of them an entry of the environment, and none with a seen name (the order and which entry is kept are `CliProperties.EnvironFromOrder`) |
| Cli.Environ | main.go:353 | `os.Environ`: entries of the environment, each name at most once |
| Cli.EnvironFromDistinct | main.go:353 | no two entries that `os.Environ` yields share a name |
| Cli.ConsDistinct | main.go:353 | an entry put before entries with distinct names, none of them its own, keeps the names distinct |
| Cli.WithLabel | main.go:342-349 | `addLabel` on the label map: refused exactly when the key is forbidden, with that key as the error; otherwise the admitted key is added with the value, and every other key keeps its value |
| Cli.EnvAssign | main.go:252-255 | one `if value := os.Getenv(...); value != ""` block: no change when no entry has the `SE_` name; a success never removes a label key; it never fails for a missing value or a bad label entry |
| Cli.EnvSettingsFrom | main.go:251-328 | the variable blocks in order, stopping at the first error: a success never removes a label key; a failure is never a missing value or a bad label entry |
| Cli.EnvLabels | main.go:352-367 | the label pass over the entries: it only adds keys, fails only on a malformed or forbidden entry, and leaves the labels unchanged when no entry has the SE_LABEL_ prefix |
| Cli.EnvPass | main.go:249-332 | the environment pass never removes a label key, and never fails for a missing value |
| Cli.Scan | main.go:155 | the `for` loop around any one-turn function that always moves forward: its outcome is the stop of some turn reached after n turns that go on |
| Cli.Turn | main.go:155-245 | `ParseStep` over fixed arguments as a one-turn function; each turn that goes on moves forward and stays within the arguments, so the loop ends |
| Cli.ResolveInstance | main.go:65-69 | the instance is the override when one is given, else the command's first word; with neither, the program fails by indexing an empty command (with an override and an empty command, the program still fails later, at main.go:87) |
| Cli.Settings.constructor | main.go:23-34 | the package variables start at their defaults: file statexec_metrics.prom, start time -1, delays 0, standalone, port 8080, wait-for-stop true, no labels |
| Cli.Settings.AddLabel | main.go:334-350 | succeeds exactly when the key is admitted, and then stores the value under the admitted key; a refused key changes nothing |
| Cli.Settings.ParseExtraLabelsFromEnv | main.go:352-367 | the labels map ends as the entry-by-entry pass over the entries `os.Environ` yields gives it, or the pass reports the first malformed or forbidden entry |
| Cli.Settings.ApplySetting | main.go:157-229 | the assignments of one option (or of the matching environment variable), including its int64 parse and role-conflict errors |
| Cli.Settings.SetFromEnv | main.go:252-328 | one `SE_<NAME>` block: no change when the variable is empty or unset, else the option's assignment |
| Cli.Settings.ParseEnvSettings | main.go:249-328 | the ten variable blocks in source order, stopping at the first error |
| Cli.Settings.ParseEnvVars | main.go:249-332 | the variables, then the label entries; the settings end as `EnvPass` gives them |
| Cli.Settings.ParseArgs | main.go:151-247 | the scan from the first argument; the outcome and the final settings are those of `ParseFrom` |
| Cli.Settings.Configure | main.go:58-63 | the environment pass, then the argument pass |
| CliProperties.CommandIsSuffix | main.go:238-243 | a non-empty command is a suffix of the arguments. It starts at an argument that is not an option, or right after a `--` |
| CliProperties.AssignSticky | main.go:173-192 | no assignment undoes a chosen client/server role, a cleared wait-for-stop or a stored label key |
| CliProperties.StepSticky | main.go:155-243 | a turn of the scan keeps those facts |
| CliProperties.TurnSticky | main.go:155-243 | every turn of parseArgs that goes on, or that ends with a command, keeps those facts |
| CliProperties.TurnsSticky | main.go:155 | for any one-turn function whose turns keep those facts, so do any number of its turns |
| CliProperties.AdvanceSticky | main.go:155-245 | so do any number of turns of parseArgs |
| CliProperties.TurnsScan | main.go:155 | for any one-turn function, after n turns the rest of the loop gives the same outcome as the whole loop |
| CliProperties.TurnsThenScan | main.go:155 | after n turns and one more turn that goes on, the rest of the loop gives the same outcome as the whole loop |
| CliProperties.AdvanceParse | main.go:155-245 | after n turns of parseArgs, the rest of the scan gives the same outcome as the whole scan |
| CliProperties.ParseFromNext | main.go:155-245 | a turn that goes on hands the scan over to the position and settings it reached |
| CliProperties.AdvanceUnfold | main.go:155-245 | n turns are one turn followed by n - 1 more, unless the first turn stops the scan |
| CliProperties.ScanSticky | main.go:155-246 | for any one-turn function whose turns keep those facts, so does a whole loop that ends with a command |
| CliProperties.ParseSticky | main.go:151-247 | the settings at the end of a successful scan keep the facts that held at its start |
| CliProperties.RoleConflictAhead | main.go:173-186 | once the server role is set, a later `-c` fails the scan; once the client role is set, a later `-s` does |
| CliProperties.ClientServerExclusive | main.go:173-186 | a scan that reads both `-s` and `-c`, in either order, fails with the role conflict |
| CliProperties.DelayOptions | main.go:195-219 | `-d N` sets both delays to N; `-dbc N` and `-dac N` set only their own; nothing else changes |
| CliProperties.NoValueOptions | main.go:181-192 | `-sso` clears wait-for-stop (which is true by default); `-s` sets the server role unless the client role was set before it |
| CliProperties.LabelOption | main.go:222-229 | `-l key=value` splits at the first `=`; it stores the admitted key, or fails for a forbidden one |
| CliProperties.LabelWithoutSeparator | main.go:223-229 | a `-l` value without `=` fails the scan |
| CliProperties.EnvAssignSticky | main.go:252-328 | an environment block keeps the facts that `AssignSticky` lists |
| CliProperties.EnvSettingsSticky | main.go:249-328 | so do all ten blocks |
| CliProperties.EnvLabelsSafe | main.go:352-367 | the label pass only adds keys, and every stored key stays made of lower-case letters, digits and `_` |
| CliProperties.EnvPassSticky | main.go:249-332 | the whole environment pass keeps the sticky facts, so a role it chooses cannot be switched by the arguments |
| CliProperties.SetVariableApplies | main.go:252-328 | when the first entry named `SE_<NAME>` holds a non-empty value v, the block assigns v exactly as the option does: `EnvAssign(c, env, name, f) == Assign(c, f, v)` |
| CliProperties.KeptTail | main.go:353 | whether a later entry is kept is decided by the rest of the environment once the first entry's name is taken |
| CliProperties.EnvironFromUnfold | main.go:353 | the first entry is kept exactly when it has no name or a name not yet seen, and the rest follows it |
| CliProperties.BehindSelects | main.go:353 | the indices of the rest, shifted by one, with 0 before them when the first entry is kept, pick out the kept entries in order |
| CliProperties.BehindHead | main.go:353 | index 0 is among those indices exactly when the first entry is kept |
| CliProperties.BehindLater | main.go:353 | a later index is among them exactly when the index before it is among the indices of the rest |
| CliProperties.BehindMembers | main.go:353 | an index is among them exactly when its entry is kept |
| CliProperties.EnvironFromOrder | main.go:353 | the entries `os.Environ` yields are the environment's entries at strictly increasing indices, and an index is taken exactly when its entry has no name, or a name that is not seen and that no earlier entry has: the order is kept and, of each name, the first entry |
| CliProperties.EnvironOrder | main.go:353 | so `os.Environ` lists, in order, every entry without a name and the first entry of each name, and nothing else |
| CliProperties.GetenvEnvironFrom | main.go:252-353 | looking a name up in what `os.Environ` keeps gives what `os.Getenv` gives, unless an earlier entry already took the name |
| CliProperties.GetenvEnviron | main.go:252-353 | `os.Getenv` and `os.Environ` agree on every name: both see its first entry |
| CliProperties.DuplicateEntryDropped | main.go:353 | of two entries with the same name, `os.Environ` keeps only the first |
| CliProperties.FirstLabelEntryWins | main.go:352-367 | for `SE_LABEL_k=first` followed by `SE_LABEL_k=second`, the label pass stores `first` |
| CliProperties.QuietSettings | main.go:249-328 | with no `SE_` variable set, none of the ten blocks changes anything |
| CliProperties.QuietEnvironment | main.go:249-332 | with no `SE_` variable set, the whole environment pass leaves every setting as it was |
| CliProperties.ConfigureSticky | main.go:58-63 | from the defaults, every stored label key is made of lower-case letters, digits and `_`, whether it came from the environment or from the arguments |
| CliProperties.DelayReached | main.go:194-201 | a `-d N` that the scan reaches sets both delays for the rest of the scan, whatever they were before |
| CliProperties.ParseAllAfterEnv | main.go:61-63 | once the environment pass succeeds, the outcome is that of the argument scan from the first argument, starting from the settings the environment gave |
| CliProperties.ArgsOverrideEnv | main.go:61-63 | whatever delays the environment set, a `-d N` reached by the scan replaces both |
| Render.Pair | main.go:614-625 | `key="value"`, neither part escaped |
| Render.Pairs | main.go:619-626 | the j-th pair renders the j-th key and its value |
| Render.AppendPairs | main.go:619-626 | one append loop over a map: for some order that lists every key exactly once, the pairs in that order are appended |
| Render.GenerateLabelRender | main.go:610-628 | for some order of each map, the rendering is the reserved pairs, then the metric labels, then the extra labels, joined by commas |
| Render.Join | main.go:627 | `strings.Join`: empty for no parts, a single part is itself, and otherwise the length is every part's length plus one separator between each two; what the characters are follows from `Render.JoinAppend` |
| Render.JoinAppend | main.go:627 | joining two lists is joining each and putting a comma between them |
| Render.RenderPrefix | main.go:613-616 | every rendering starts with `instance="…",job="statexec",role="…"`. It is exactly that when there are no other labels; otherwise a comma follows |
| Render.PairsListKey | main.go:619-626 | every key of the map has its pair among the map's pairs, after whatever was appended before them |
| Render.ExtraRoleRenderedTwice | main.go:616 | an extra label named `role` is rendered a second time after the reserved role pair instead of replacing it |
| Gathering.StatusCode | main.go:46-48 | Pending, Running and Done are reported as 0, 1 and 2 |
| Gathering.Timestamp | main.go:635 | sample k is k·1000 ms after the metrics start time |
| Gathering.MetricsStartTime | main.go:486-490 | the override, unless it is -1; otherwise the real start time |
| Gathering.Samples | main.go:586-601 | one sample at the start plus one per tick received |
| Gathering.StopFrom | main.go:592-601 | the loop returns only on a tick |
| Gathering.StartGathering | main.go:582-603 | the samples taken, whether the loop returned, and how many events it received. It returns exactly when a tick follows a quit, and then on that tick |
| Gathering.SamplesShape | main.go:586-595 | sample k has index k and timestamp start + k·1000. The first reports the initial status; the others report the statuses read after each tick |
| Gathering.ArmedStopsAtNextTick | main.go:596-600 | after a quit, the loop returns on the first tick |
| Gathering.UnarmedStop | main.go:592-601 | before a quit, the loop returns on the first tick after the first quit |
| Gathering.StopTickIsFirstTickAfterQuit | main.go:592-601 | the loop returns on the first tick after the first quit, and never returns without a quit |
| Gathering.OneSampleAfterQuit | main.go:592-601 | after the quit, exactly one more sample is taken |
| Lifecycle.AnnotationTime | main.go:535 | the annotation time is the metrics start time plus the milliseconds since the real start |
| Lifecycle.CommandAnnotation | main.go:536-547 | an instant annotation (time == timeEnd) with five tags, the first `statexec`; its text is "Command done" exactly for the done annotation |
| Lifecycle.Schedule | main.go:498-579 | the events the goroutine receives: the pending ticks first; after a launch also the running ticks, the ticks after the command, the quit and the last tick, so the length is pending + running + after + 2; the quit comes exactly when the command was launched, and it is the event before the last tick |
| Lifecycle.LaunchedSchedule | main.go:509-579 | a launched run's events, phase by phase: pending ticks, running ticks, ticks after the command, the quit and the last tick |
| Lifecycle.ScheduleStop | main.go:574-578 | after a launch the goroutine returns on the last event of the run; after a failed launch it never returns |
| Lifecycle.ScheduleStatuses | main.go:532-552 | the statuses the ticks read (which `Runner.StartCommand` shows are the values of `commandState` at each tick) are Pending, then Running, then Done, one phase after another |
| Lifecycle.StatusSeriesMonotone | main.go:532-552 | the samples `Runner.StartCommand` ends with never go back in command_status. A launched run takes pending + running + after + 2 samples and ends on Done; a failed launch reports only Pending. The timestamps are one second apart |
| Lifecycle.AnnotationsOrdered | main.go:535-566 | both annotations have time == timeEnd, and tags statexec, start or done, instance=…, job=…, role=…. If the clock does not go back, start ≤ done, and both are ≥ the metrics start time |
| Lifecycle.Runner.constructor | main.go:40 | the status starts as Pending, with no annotations and no samples |
| Lifecycle.Runner.SetStatus | main.go:532 | `commandState` takes the new status, and the assignment is logged |
| Lifecycle.Runner.WriteAnnotation | main.go:536-547 | the annotation is appended to those already written |
| Lifecycle.Runner.Gather | main.go:592-595 | one tick: a sample with the next index and timestamp that reads `commandState` as it is now |
| Lifecycle.Runner.GatherFor | main.go:592-595 | n ticks while the status stays as it is, each sample reading it |
| Lifecycle.Runner.SignalQuit | main.go:573-578 | the quit reaches the goroutine, which takes no sample for it |
| Lifecycle.Runner.RunLaunched | main.go:530-579 | after a successful start: Running, the started annotation, the running ticks, Done, the done annotation, the ticks after the command, the quit and the last tick |
| Lifecycle.Runner.StartCommand | main.go:480-579 | sets the metrics start time; a launch assigns `commandState` Running and then Done (and nothing else) and appends the started and done annotations; a failed launch exits with 1 and changes neither; the goroutine receives the run's schedule, and the samples are those its ticks take of `commandState` |
| SyncServer.HandleRequest | main.go:402-457 | one request: only `/start` sets started, and only when it was not; no request sets finished; a launch exactly for a `/start` before any start; every code is one of 200, 201, 202, 204, 409, 412 |
| SyncServer.CommandFinished | main.go:416-423 | the end of the launched goroutine: a started command becomes finished, and the process exits with 0 exactly when the command was started and wait-for-stop is off; nothing is launched |
| SyncServer.Serve | main.go:402-457 | over any sequence of requests and command ends: started holds exactly when it held before or a `/start` came, finished is never cleared, finished ⇒ started is kept |
| SyncServer.StepsKeepValid | main.go:406-428 | finished implies started, and neither flag is ever cleared |
| SyncServer.ResponseCodes | main.go:406-455 | `/start`: 201 with a launch exactly when not started, and then only started changes; else 409 and nothing changes. `/stop`: changes neither flag; 412 before a start, 204 once finished, 202 with SIGINT while running, and a shutdown whenever the command was started |
| SyncServer.LaunchedAtMostOnce | main.go:406-428 | from a fresh server, whatever requests arrive, the command is launched exactly once if a `/start` came and never otherwise |
| SyncServer.Server.constructor | main.go:395-396 | neither flag set |
| SyncServer.Server.HandleRoot | main.go:402-404 | 200 with the link page, in every state |
| SyncServer.Server.HandleStart | main.go:406-428 | the `/start` transition of `HandleRequest` |
| SyncServer.Server.HandleStop | main.go:431-457 | the `/stop` response of `HandleRequest`; neither flag changes |
| SyncServer.Server.CommandDone | main.go:416-423 | the command is finished; without wait-for-stop the process exits with 0 |

## Left out

- Writing files: appending to and removing the metrics file, `fmt` output, and the usage text. Annotations are
  records in a sequence; their JSON encoding is not modelled.
- Real concurrency: the goroutines, the WaitGroup, the channels, the ticker, `time.Sleep` and SIGINT forwarding.
  - The sampler receives a given order of ticks and quits. `startCommand` receives the number of ticks that
    fall in each phase.
  - The handlers run one at a time. The program does not serialise them. `cmdStarted` is set inside the
    goroutine that `/start` spawns, not under the mutex (main.go:416-417). So two `/start` requests that come
    close together can both launch the command. `/stop` reads both flags without the mutex (main.go:432-433).
  - Lifecycle.Runner.StartCommand: sample 0 is taken concurrently with the launch, and the model takes it
    as Pending. After a failed launch, the samples are those taken before `os.Exit(1)`.
- The delays only decide how many ticks fall before and after the command. The sleeps themselves are not modelled.
- `net/http`: the listener, the graceful shutdown and its 5-second timeout are not modelled. The listener is
  hard-coded to `:8080` and ignores the sync port (main.go:399).
- The client role's `/start` and `/stop` calls (`syncStartCommand`): network calls whose only decisions are to
  exit on an error and to skip `/stop` with `-sso`.
- `exec.Command`, `Start`, `Wait` and signals. Whether the launch succeeded is a parameter.
- The collectors package and the metric lines other than the label set and the timestamp. Their values come
  from the host and are floats.
- The order in which Go visits a map. The render's contract holds for every order.
- Cli.Settings.ParseEnvSettings: the ten variable blocks are run from a table of (name, option) pairs in
  source order rather than written out one by one. Each block is the same assignment as its option's.
- Gathering.Timestamp: the int64 arithmetic of the timestamps does not wrap, because integers are unbounded.
- A missing value after the last option makes Go panic on `os.Args[i+1]`. The model reports it as a
  `MissingValue` error. The same goes for `-c` after the server role: the role check comes first, as in the
  source.
- Lifecycle.Runner.StartCommand: the real start time and the two annotation clock readings are parameters.
  Their order is assumed only in `Lifecycle.AnnotationsOrdered`.
- SyncServer.Server.HandleStop: the model answers 202 and schedules the shutdown for every `/stop` that
  comes after `cmdStarted` is set and before `cmdFinished` is. In the program, `cmdStarted` is set
  (main.go:417) before `startCommand` sleeps the delay before the command and calls `cmd.Start()`
  (main.go:509-526). A `/stop` in that window calls `Signal` on a nil process (main.go:438). The handler
  then panics, so no 202 is sent, no shutdown is scheduled, and the command later runs to completion. The
  model has no state for "started but not yet launched".
- SyncServer.Server.HandleStop: a scheduled shutdown makes `ListenAndServe` return at once (main.go:443-458),
  and `main` then returns. After a 202 this can happen while the interrupted command itself is still
  running, not only during the delay after it, so the command's end, the done annotation and the last
  samples can be lost. The model treats the shutdown as an action and does not model the process ending.
- Cli.ResolveInstance: with `-i` given and an empty command, it returns the override, but the program then
  panics at main.go:87, where `exec.Command(cmd[0], ...)` indexes the empty command. Launching the command
  is not modelled.

## Behaviour followed as written

- A `/stop` after the command finished also schedules the server's shutdown (main.go:442-451), not only a
  `/stop` while it runs. The body the handler writes after 204 is never sent, because a 204 response has no
  content (section 15.3.5 of RFC 9110). So the model's 204 body is empty.
- The forbidden list does not contain `role`, and the check runs before lower-casing. So `role` and
  `INSTANCE` are admitted, and they duplicate the reserved `role` and `instance` pairs in every rendering
  (`Labels.RoleAdmitted`, `Labels.UpperCaseInstanceAdmitted`, `Render.ExtraRoleRenderedTwice`).
- Label order after the reserved prefix can differ from one rendering to the next, even for the same maps.
- An `SE_LABEL_` entry is split on every `=`, but a `-l` value only on the first. So `a=b=c` is accepted as
  an argument and refused from the environment.
- The variables are read through `os.Getenv`, so an empty value counts as unset. The labels are read
  from `os.Environ`, which the Go runtime builds by dropping every entry whose name an earlier entry
  already has. So for a duplicated name both passes see its first entry (`Cli.Environ`,
  `CliProperties.GetenvEnviron`, `CliProperties.FirstLabelEntryWins`).
