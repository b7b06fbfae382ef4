/** The configuration of a run: the package variables of main.go:21-41, the
    environment pass parseEnvVars (main.go:249-332) and the argument pass
    parseArgs (main.go:151-247). */
module Cli {
  import opened Wrappers
  import opened Decimal
  import opened Labels

  datatype Role = Standalone | Client | Server

  /** The text of the `role` variable. */
  function RoleName(role: Role): string {
    match role
    case Standalone => "standalone"
    case Client => "client"
    case Server => "server"
  }

  const JobName: string := "statexec"
  /** The start-time override value that means "use the wall clock". */
  const NoStartTimeOverride: int := -1

  /** The settings the two passes assign. */
  datatype Config = Config(
    metricsFile: string,
    instanceOverride: string,
    startTimeOverride: int,
    delayBefore: int,
    delayAfter: int,
    role: Role,
    serverIp: string,
    syncPort: string,
    waitForStop: bool,
    extraLabels: map<string, string>)

  /** The values before either pass runs (main.go:21-41 and 57-58). */
  const Defaults: Config :=
    Config(JobName + "_metrics.prom", "", NoStartTimeOverride, 0, 0, Standalone, "", "8080", true, map[])

  /** What one command-line argument means to parseArgs. */
  datatype Flag =
    | File | Instance | StartTime | Connect | ServerMode | SyncPort | StartOnly
    | Delay | DelayBefore | DelayAfter | Label
    | Version | Help | EndOfOptions | Positional

  /** Every option starts with `-`, and `--` alone ends the options. */
  function Classify(arg: string): (f: Flag)
    ensures f.EndOfOptions? <==> arg == "--"
    ensures (arg == [] || arg[0] != '-') ==> f.Positional?
  {
    if arg == "-f" || arg == "--file" then File
    else if arg == "-i" || arg == "--instance" then Instance
    else if arg == "-mst" || arg == "--metrics-start-time" then StartTime
    else if arg == "-c" || arg == "--connect" then Connect
    else if arg == "-s" || arg == "--server" then ServerMode
    else if arg == "-sp" || arg == "--sync-port" then SyncPort
    else if arg == "-sso" || arg == "--sync-start-only" then StartOnly
    else if arg == "-d" || arg == "--delay" then Delay
    else if arg == "-dbc" || arg == "--delay-before-command" then DelayBefore
    else if arg == "-dac" || arg == "--delay-after-command" then DelayAfter
    else if arg == "-l" || arg == "--label" then Label
    else if arg == "-v" || arg == "--version" then Version
    else if arg == "-h" || arg == "-help" || arg == "--help" then Help
    else if arg == "--" then EndOfOptions
    else Positional
  }

  /** The flags that assign a setting and let parsing continue. */
  predicate IsSetting(f: Flag) {
    !(f.Version? || f.Help? || f.EndOfOptions? || f.Positional?)
  }

  /** A flag that assigns a setting. */
  type Setting = f: Flag | IsSetting(f) witness File

  /** The settings that read the next argument as their value. */
  predicate TakesValue(f: Flag) {
    IsSetting(f) && !f.ServerMode? && !f.StartOnly?
  }

  /** Why the program stops with exit status 1 while reading its configuration;
      MissingValue stands for the index-out-of-range panic of a trailing flag. */
  datatype CliError =
    | MissingValue(flag: string)
    | BadInteger(text: string)
    | RoleConflict
    | BadLabel(text: string)
    | ForbiddenLabel(key: string)
    | BadEnvLabel(entry: string)

  /** The end of parseArgs: a command to run, an exit with status 0 after
      printing the version or the usage text, or an error exit. */
  datatype ArgsOutcome =
    | Run(config: Config, command: seq<string>)
    | ShowVersion
    | ShowHelp
    | Fail(error: CliError)

  function ParseInteger(text: string): Result<int, CliError> {
    match ParseInt64(text)
    case None => Failure(BadInteger(text))
    case Some(n) => Success(n)
  }

  /** The label map after addLabel(key, value), or the refusal. */
  function WithLabel(labels: map<string, string>, key: string, value: string): (r: Result<map<string, string>, CliError>)
    ensures r.Failure? <==> AdmitKey(key).None?
    ensures r.Failure? ==> r.error == ForbiddenLabel(key)
    ensures r.Success? ==> var name := AdmitKey(key).value;
      r.value.Keys == labels.Keys + {name} && r.value[name] == value &&
      forall k :: k in labels && k != name ==> r.value[k] == labels[k]
  {
    match AdmitKey(key)
    case None => Failure(ForbiddenLabel(key))
    case Some(name) => Success(labels[name := value])
  }

  /** The assignment one setting makes, shared by an option and the
      environment variable that stands for it. */
  function Assign(c: Config, f: Setting, v: string): (r: Result<Config, CliError>)
    ensures r.Failure? ==> r.error.BadInteger? || r.error.RoleConflict? || r.error.BadLabel? || r.error.ForbiddenLabel?
    ensures (f.Connect? || f.ServerMode?) ==> (r.Failure? <==> c.role == if f.Connect? then Server else Client)
    ensures r.Success? ==> r.value.role == if f.Connect? then Client else if f.ServerMode? then Server else c.role
    ensures r.Success? ==> c.extraLabels.Keys <= r.value.extraLabels.Keys
    ensures r.Success? && !f.Label? ==> r.value.extraLabels == c.extraLabels
  {
    match f
    case File => Success(c.(metricsFile := v))
    case Instance => Success(c.(instanceOverride := v))
    case StartTime =>
      var n :- ParseInteger(v);
      Success(c.(startTimeOverride := n))
    case Connect =>
      if c.role == Server then Failure(RoleConflict) else Success(c.(role := Client, serverIp := v))
    case ServerMode =>
      if c.role == Client then Failure(RoleConflict) else Success(c.(role := Server))
    case SyncPort => Success(c.(syncPort := v))
    case StartOnly => Success(c.(waitForStop := false))
    case Delay =>
      var n :- ParseInteger(v);
      Success(c.(delayBefore := n, delayAfter := n))
    case DelayBefore =>
      var n :- ParseInteger(v);
      Success(c.(delayBefore := n))
    case DelayAfter =>
      var n :- ParseInteger(v);
      Success(c.(delayAfter := n))
    case Label =>
      match SplitFirst(v, '=')
      case None => Failure(BadLabel(v))
      case Some((key, value)) =>
        var labels :- WithLabel(c.extraLabels, key, value);
        Success(c.(extraLabels := labels))
  }

  /** One turn of the parseArgs loop: either the scan stops with an outcome,
      or it goes on at position `next` with the updated settings. */
  datatype Step = Next(config: Config, next: nat) | Stop(outcome: ArgsOutcome)

  function ParseStep(c: Config, args: seq<string>, i: nat): (s: Step)
    ensures s.Next? ==> i < s.next <= |args|
    ensures s.Next? ==> s.next == i + if TakesValue(Classify(args[i])) then 2 else 1
  {
    if i >= |args| then Stop(Run(c, []))
    else
      var f := Classify(args[i]);
      if f.Version? then Stop(ShowVersion)
      else if f.Help? then Stop(ShowHelp)
      else if f.EndOfOptions? then Stop(Run(c, args[i + 1..]))
      else if f.Positional? then Stop(Run(c, args[i..]))
      else if !TakesValue(f) then
        match Assign(c, f, "")
        case Failure(e) => Stop(Fail(e))
        case Success(next) => Next(next, i + 1)
      else if f.Connect? && c.role == Server then Stop(Fail(RoleConflict))
      else if i + 1 >= |args| then Stop(Fail(MissingValue(args[i])))
      else
        match Assign(c, f, args[i + 1])
        case Failure(e) => Stop(Fail(e))
        case Success(next) => Next(next, i + 2)
  }

  /** A one-turn function for a scan that ends at position `end`: a turn
      that goes on moves forward and does not pass `end`. */
  ghost predicate Forward(turn: (Config, nat) -> Step, end: nat) {
    forall c: Config, i: nat :: turn(c, i).Next? ==> i < turn(c, i).next <= end
  }

  /** The loop of parseArgs around a one-turn function: take turns from
      position i on until one stops the scan. */
  function Scan(turn: (Config, nat) -> Step, end: nat, c: Config, i: nat): (r: ArgsOutcome)
    requires Forward(turn, end)
    ensures exists n: nat :: (Turns(turn, c, i, n).Some? &&
      turn(Turns(turn, c, i, n).value.0, Turns(turn, c, i, n).value.1) == Stop(r))
    decreases end - i
  {
    match turn(c, i)
    case Stop(outcome) =>
      assert Turns(turn, c, i, 0) == Some((c, i));
      outcome
    case Next(next, j) =>
      var r := Scan(turn, end, next, j);
      assert exists n: nat :: (Turns(turn, c, i, n).Some? &&
          turn(Turns(turn, c, i, n).value.0, Turns(turn, c, i, n).value.1) == Stop(r)) by {
        var n: nat :| Turns(turn, next, j, n).Some? &&
          turn(Turns(turn, next, j, n).value.0, Turns(turn, next, j, n).value.1) == Stop(r);
        assert Turns(turn, c, i, n + 1) == Turns(turn, next, j, n);
      }
      r
  }

  /** The settings and position after n turns, or None when the scan stops
      before that. */
  function Turns(turn: (Config, nat) -> Step, c: Config, i: nat, n: nat): Option<(Config, nat)>
    decreases n
  {
    if n == 0 then Some((c, i))
    else
      match turn(c, i)
      case Stop(_) => None
      case Next(next, j) => Turns(turn, next, j, n - 1)
  }

  /** ParseStep over the given arguments, as a one-turn function. */
  function Turn(args: seq<string>): (t: (Config, nat) -> Step)
    ensures Forward(t, |args|)
  {
    (c: Config, i: nat) => ParseStep(c, args, i)
  }

  /** parseArgs from position i on, with the settings reached so far. The
      scan stops at the end of the arguments, at `--` (the rest, unread, is
      the command) and at the first argument that is not an option (the
      command starts there). */
  function ParseFrom(c: Config, args: seq<string>, i: nat): (r: ArgsOutcome)
    ensures |args| <= i ==> r == Run(c, [])
    ensures i < |args| && args[i] == "--" ==> r == Run(c, args[i + 1..])
    ensures i < |args| && Classify(args[i]).Positional? ==> r == Run(c, args[i..])
  {
    Scan(Turn(args), |args|, c, i)
  }

  /** The settings and position after n turns of the parseArgs loop. */
  function Advance(c: Config, args: seq<string>, i: nat, n: nat): Option<(Config, nat)> {
    Turns(Turn(args), c, i, n)
  }

  /** os.Getenv over the environment given as its `NAME=value` entries: the
      value of the first entry with that name, or "" when there is none. */
  function Getenv(env: seq<string>, name: string): (r: string)
    ensures r != "" ==> name + "=" + r in env
    ensures forall k :: 0 <= k < |env| && EntryName(env[k]) == Some(name) && NoEntryNamed(env, k, name) ==>
      env[k] == name + "=" + r
    ensures NoEntryNamed(env, |env|, name) ==> r == ""
  {
    if env == [] then ""
    else
      match SplitFirst(env[0], '=')
      case Some((key, value)) =>
        if key == name then
          assert env[0] == name + "=" + value;
          value
        else Getenv(env[1..], name)
      case None => Getenv(env[1..], name)
  }

  /** None of the first k entries has the given name. */
  ghost predicate NoEntryNamed(env: seq<string>, k: nat, name: string)
    requires k <= |env|
  {
    forall j :: 0 <= j < k ==> EntryName(env[j]) != Some(name)
  }

  /** The name of an environment entry: the text before its first `=`, or
      None for an entry without one. */
  function EntryName(entry: string): (r: Option<string>)
    ensures r.None? <==> '=' !in entry
  {
    match SplitFirst(entry, '=')
    case None => None
    case Some((key, _)) => Some(key)
  }

  /** The entries from env on that os.Environ keeps, when the names in
      `seen` belong to earlier entries: the Go runtime clears every entry
      whose name an earlier entry already has when it first reads the
      environment, so os.Environ lists each name once, with its first value. */
  function EnvironFrom(env: seq<string>, seen: set<string>): (r: seq<string>)
    ensures |r| <= |env|
    ensures forall e :: e in r ==> e in env
    ensures forall e :: e in r && EntryName(e).Some? ==> EntryName(e).value !in seen
    decreases |env|
  {
    if env == [] then []
    else
      match EntryName(env[0])
      case None => [env[0]] + EnvironFrom(env[1..], seen)
      case Some(name) =>
        if name in seen then EnvironFrom(env[1..], seen)
        else [env[0]] + EnvironFrom(env[1..], seen + {name})
  }

  /** os.Environ over the process environment: entries of the environment,
      each name at most once. */
  function Environ(env: seq<string>): (r: seq<string>)
    ensures forall e :: e in r ==> e in env
    ensures DistinctNames(r)
  {
    EnvironFromDistinct(env, {});
    EnvironFrom(env, {})
  }

  /** No two entries with a name share it. */
  ghost predicate DistinctNames(entries: seq<string>) {
    forall i, j :: 0 <= i < j < |entries| && EntryName(entries[i]).Some? ==>
      EntryName(entries[j]) != EntryName(entries[i])
  }

  /** An entry put before entries that are pairwise distinct by name and do
      not use its name keeps them so. */
  lemma ConsDistinct(head: string, rest: seq<string>)
    requires DistinctNames(rest)
    requires forall e :: e in rest && EntryName(e).Some? ==> EntryName(e) != EntryName(head)
    ensures DistinctNames([head] + rest)
  {
    var r := [head] + rest;
    forall i, j | 0 <= i < j < |r| && EntryName(r[i]).Some?
      ensures EntryName(r[j]) != EntryName(r[i])
    {
      assert r[j] == rest[j - 1] && r[j] in rest;
      if i > 0 {
        assert r[i] == rest[i - 1];
      }
    }
  }

  lemma {:induction false} EnvironFromDistinct(env: seq<string>, seen: set<string>)
    ensures DistinctNames(EnvironFrom(env, seen))
    decreases |env|
  {
    if env != [] {
      match EntryName(env[0])
      case None =>
        EnvironFromDistinct(env[1..], seen);
        ConsDistinct(env[0], EnvironFrom(env[1..], seen));
      case Some(name) =>
        if name in seen {
          EnvironFromDistinct(env[1..], seen);
        } else {
          EnvironFromDistinct(env[1..], seen + {name});
          ConsDistinct(env[0], EnvironFrom(env[1..], seen + {name}));
        }
    }
  }

  /** One `if value := os.Getenv(...); value != ""` block of parseEnvVars. */
  function EnvAssign(c: Config, env: seq<string>, name: string, f: Setting): (r: Result<Config, CliError>)
    ensures NoEntryNamed(env, |env|, EnvVarPrefix + name) ==> r == Success(c)
    ensures r.Success? ==> c.extraLabels.Keys <= r.value.extraLabels.Keys
    ensures r.Failure? ==> !r.error.MissingValue? && !r.error.BadEnvLabel?
  {
    var v := Getenv(env, EnvVarPrefix + name);
    if v == "" then Success(c) else Assign(c, f, v)
  }

  /** parseExtraLabelsFromEnv from entry j on. */
  function EnvLabels(labels: map<string, string>, env: seq<string>, j: nat): (r: Result<map<string, string>, CliError>)
    ensures r.Success? ==> labels.Keys <= r.value.Keys
    ensures r.Failure? ==> r.error.BadEnvLabel? || r.error.ForbiddenLabel?
    ensures (forall k :: j <= k < |env| ==> !HasPrefix(env[k], LabelEnvPrefix)) ==> r == Success(labels)
    decreases |env| - j
  {
    if j >= |env| then Success(labels)
    else
      match ParseEnvLabel(env[j])
      case Unrelated => EnvLabels(labels, env, j + 1)
      case Malformed => Failure(BadEnvLabel(env[j]))
      case Entry(key, value) =>
        match WithLabel(labels, key, value)
        case Failure(e) => Failure(e)
        case Success(next) => EnvLabels(next, env, j + 1)
  }

  /** The variables parseEnvVars reads before the labels, in its order,
      each with the option it stands for. */
  const EnvSettings: seq<(string, Setting)> := [
    ("FILE", File), ("INSTANCE", Instance), ("METRICS_START_TIME", StartTime),
    ("CONNECT", Connect), ("SERVER", ServerMode), ("SYNC_PORT", SyncPort),
    ("SYNC_START_ONLY", StartOnly), ("DELAY", Delay),
    ("DELAY_BEFORE_COMMAND", DelayBefore), ("DELAY_AFTER_COMMAND", DelayAfter)]

  /** The blocks of parseEnvVars for the given rows of EnvSettings, in order. */
  function EnvSettingsFrom(c: Config, env: seq<string>, table: seq<(string, Setting)>): (r: Result<Config, CliError>)
    ensures r.Success? ==> c.extraLabels.Keys <= r.value.extraLabels.Keys
    ensures r.Failure? ==> !r.error.MissingValue? && !r.error.BadEnvLabel?
    decreases |table|
  {
    if table == [] then Success(c)
    else
      match EnvAssign(c, env, table[0].0, table[0].1)
      case Failure(e) => Failure(e)
      case Success(next) => EnvSettingsFrom(next, env, table[1..])
  }

  /** parseEnvVars: the variables, then the label entries. */
  function EnvPass(c: Config, env: seq<string>): (r: Result<Config, CliError>)
    ensures r.Success? ==> c.extraLabels.Keys <= r.value.extraLabels.Keys
    ensures r.Failure? ==> !r.error.MissingValue?
  {
    var settled :- EnvSettingsFrom(c, env, EnvSettings);
    var labels :- EnvLabels(settled.extraLabels, Environ(env), 0);
    Success(settled.(extraLabels := labels))
  }

  /** main.go:61-63: the environment pass, then the argument pass from the
      first argument after the program name. */
  function ParseAll(c: Config, env: seq<string>, args: seq<string>): (r: ArgsOutcome)
    ensures EnvPass(c, env).Failure? ==> r == Fail(EnvPass(c, env).error)
    ensures EnvPass(c, env).Success? && |args| <= 1 ==> r == Run(EnvPass(c, env).value, [])
  {
    match EnvPass(c, env)
    case Failure(e) => Fail(e)
    case Success(fromEnv) => ParseFrom(fromEnv, args, 1)
  }

  /** The instance label: the override when one was given, else the
      command's first word. None when both are missing: the program then
      indexes an empty command and panics. */
  function ResolveInstance(instanceOverride: string, command: seq<string>): (r: Option<string>)
    ensures instanceOverride != "" ==> r == Some(instanceOverride)
    ensures instanceOverride == "" ==> (r.Some? <==> command != [])
    ensures instanceOverride == "" && r.Some? ==> r.value == command[0]
  {
    if instanceOverride != "" then Some(instanceOverride)
    else if command != [] then Some(command[0])
    else None
  }

  /** The package variables that the two passes assign in place. */
  class Settings {
    var metricsFile: string
    var instanceOverride: string
    var startTimeOverride: int
    var delayBefore: int
    var delayAfter: int
    var role: Role
    var serverIp: string
    var syncPort: string
    var waitForStop: bool
    var extraLabels: map<string, string>

    /** The variables as one value. */
    function Current(): Config
      reads this
    {
      Config(metricsFile, instanceOverride, startTimeOverride, delayBefore, delayAfter,
             role, serverIp, syncPort, waitForStop, extraLabels)
    }

    constructor ()
      ensures Current() == Defaults
    {
      metricsFile := JobName + "_metrics.prom";
      instanceOverride := "";
      startTimeOverride := NoStartTimeOverride;
      delayBefore, delayAfter := 0, 0;
      role := Standalone;
      serverIp := "";
      syncPort := "8080";
      waitForStop := true;
      extraLabels := map[];
    }

    /** addLabel: sanitise the key, refuse a forbidden one, store it lower-cased. */
    method AddLabel(key: string, value: string) returns (ok: bool)
      modifies this`extraLabels
      ensures ok <==> AdmitKey(key).Some?
      ensures extraLabels == if ok then old(extraLabels)[AdmitKey(key).value := value] else old(extraLabels)
    {
      var safeKey := Sanitize(key);
      var j := 0;
      while j < |ForbiddenKeys|
        invariant 0 <= j <= |ForbiddenKeys|
        invariant safeKey !in ForbiddenKeys[..j]
      {
        if safeKey == ForbiddenKeys[j] {
          return false;
        }
        j := j + 1;
      }
      assert ForbiddenKeys[..j] == ForbiddenKeys;
      extraLabels := extraLabels[Lower(safeKey) := value];
      ok := true;
    }

    /** parseExtraLabelsFromEnv: every SE_LABEL_ entry, in the order of the environment. */
    method ParseExtraLabelsFromEnv(env: seq<string>) returns (err: Option<CliError>)
      modifies this`extraLabels
      ensures EnvLabels(old(extraLabels), Environ(env), 0) == if err.None? then Success(extraLabels) else Failure(err.value)
    {
      var entries := Environ(env);
      var j := 0;
      while j < |entries|
        invariant 0 <= j <= |entries|
        invariant EnvLabels(extraLabels, entries, j) == EnvLabels(old(extraLabels), entries, 0)
      {
        match ParseEnvLabel(entries[j]) {
          case Unrelated =>
          case Malformed =>
            return Some(BadEnvLabel(entries[j]));
          case Entry(key, value) =>
            ghost var before := extraLabels;
            var ok := AddLabel(key, value);
            if !ok {
              assert WithLabel(before, key, value) == Failure(ForbiddenLabel(key));
              return Some(ForbiddenLabel(key));
            }
            assert WithLabel(before, key, value) == Success(extraLabels);
        }
        j := j + 1;
      }
      err := None;
    }

    /** The body of one `case` of parseArgs that assigns a setting (the same
        assignment as the environment variable for that setting makes). */
    method ApplySetting(flag: Setting, value: string) returns (err: Option<CliError>)
      modifies this
      ensures Assign(old(Current()), flag, value) == if err.None? then Success(Current()) else Failure(err.value)
    {
      match flag {
        case File =>
          metricsFile := value;
        case Instance =>
          instanceOverride := value;
        case StartTime =>
          var n := ParseInt64(value);
          if n.None? {
            return Some(BadInteger(value));
          }
          startTimeOverride := n.value;
        case Connect =>
          if role == Server {
            return Some(RoleConflict);
          }
          role := Client;
          serverIp := value;
        case ServerMode =>
          if role == Client {
            return Some(RoleConflict);
          }
          role := Server;
        case SyncPort =>
          syncPort := value;
        case StartOnly =>
          waitForStop := false;
        case Delay =>
          var n := ParseInt64(value);
          if n.None? {
            return Some(BadInteger(value));
          }
          delayBefore := n.value;
          delayAfter := n.value;
        case DelayBefore =>
          var n := ParseInt64(value);
          if n.None? {
            return Some(BadInteger(value));
          }
          delayBefore := n.value;
        case DelayAfter =>
          var n := ParseInt64(value);
          if n.None? {
            return Some(BadInteger(value));
          }
          delayAfter := n.value;
        case Label =>
          var parts := SplitFirst(value, '=');
          if parts.None? {
            return Some(BadLabel(value));
          }
          var ok := AddLabel(parts.value.0, parts.value.1);
          if !ok {
            return Some(ForbiddenLabel(parts.value.0));
          }
      }
      err := None;
    }

    /** One `if value := os.Getenv(...); value != ""` block of parseEnvVars. */
    method SetFromEnv(env: seq<string>, name: string, flag: Setting) returns (err: Option<CliError>)
      modifies this
      ensures EnvAssign(old(Current()), env, name, flag) ==
        if err.None? then Success(Current()) else Failure(err.value)
    {
      var value := Getenv(env, EnvVarPrefix + name);
      err := None;
      if value != "" {
        err := ApplySetting(flag, value);
      }
    }

    /** The `if value := os.Getenv(...); value != ""` blocks of parseEnvVars,
        which differ only in the variable read and the setting assigned: run
        here in order from a table of them (EnvSettings). */
    method ParseEnvSettings(env: seq<string>, table: seq<(string, Setting)>) returns (err: Option<CliError>)
      modifies this
      ensures EnvSettingsFrom(old(Current()), env, table) == if err.None? then Success(Current()) else Failure(err.value)
    {
      var rest := table;
      err := None;
      while rest != []
        invariant err.None?
        invariant EnvSettingsFrom(Current(), env, rest) == EnvSettingsFrom(old(Current()), env, table)
        decreases |rest|
      {
        ghost var before := Current();
        err := SetFromEnv(env, rest[0].0, rest[0].1);
        assert EnvSettingsFrom(before, env, rest) ==
          if err.None? then EnvSettingsFrom(Current(), env, rest[1..]) else Failure(err.value);
        if err.Some? {
          return;
        }
        rest := rest[1..];
      }
    }

    /** parseEnvVars: the variables, then the label entries. */
    method ParseEnvVars(env: seq<string>) returns (err: Option<CliError>)
      modifies this
      ensures EnvPass(old(Current()), env) == if err.None? then Success(Current()) else Failure(err.value)
    {
      err := ParseEnvSettings(env, EnvSettings);
      if err.Some? {
        return;
      }
      err := ParseExtraLabelsFromEnv(env);
    }

    /** parseArgs: a left-to-right scan from the first argument after the
        program name; options assign the variables, `--` or the first
        argument that is not an option starts the command. */
    method ParseArgs(args: seq<string>) returns (outcome: ArgsOutcome)
      modifies this
      ensures outcome == ParseFrom(old(Current()), args, 1)
      ensures outcome.Run? ==> Current() == outcome.config
    {
      var i := 1;
      while i < |args|
        invariant 1 <= i
        invariant ParseFrom(Current(), args, i) == ParseFrom(old(Current()), args, 1)
        decreases |args| - i
      {
        var arg := args[i];
        var flag := Classify(arg);
        if flag.Version? {
          return ShowVersion;
        } else if flag.Help? {
          return ShowHelp;
        } else if flag.EndOfOptions? {
          return Run(Current(), args[i + 1..]);
        } else if flag.Positional? {
          return Run(Current(), args[i..]);
        } else if !TakesValue(flag) {
          var err := ApplySetting(flag, "");
          if err.Some? {
            return Fail(err.value);
          }
        } else {
          if flag.Connect? && role == Server {
            return Fail(RoleConflict);
          }
          if i + 1 >= |args| {
            return Fail(MissingValue(arg));
          }
          var err := ApplySetting(flag, args[i + 1]);
          if err.Some? {
            return Fail(err.value);
          }
          i := i + 1;
        }
        i := i + 1;
      }
      outcome := Run(Current(), []);
    }
    /** main.go:61-63: the environment first, then the arguments, so that an
        argument overrides the environment variable for the same setting. */
    method Configure(env: seq<string>, args: seq<string>) returns (outcome: ArgsOutcome)
      modifies this
      ensures outcome == ParseAll(old(Current()), env, args)
      ensures outcome.Run? ==> Current() == outcome.config
    {
      var err := ParseEnvVars(env);
      if err.Some? {
        return Fail(err.value);
      }
      outcome := ParseArgs(args);
    }
  }
}
