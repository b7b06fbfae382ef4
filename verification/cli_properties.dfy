/** What the two configuration passes promise: where the command comes from,
    which settings can only move one way, mutual exclusion of the client and
    server roles, and the order in which assignments take effect. */
module CliProperties {
  import opened Wrappers
  import opened Decimal
  import opened Labels
  import opened Cli

  /** Every key of an extra-label map is a stored label name. */
  ghost predicate SafeLabels(m: map<string, string>) {
    forall k :: k in m ==> IsLabelName(k)
  }

  /** What later assignments can never undo: a chosen client or server role,
      a cleared wait-for-stop, a stored label key, and the form of stored keys. */
  ghost predicate Sticky(before: Config, after: Config) {
    && (before.role != Standalone ==> after.role == before.role)
    && (!before.waitForStop ==> !after.waitForStop)
    && before.extraLabels.Keys <= after.extraLabels.Keys
    && (SafeLabels(before.extraLabels) ==> SafeLabels(after.extraLabels))
  }

  lemma StickyTransitive(a: Config, b: Config, c: Config)
    requires Sticky(a, b) && Sticky(b, c)
    ensures Sticky(a, c)
  {
  }

  lemma AssignSticky(c: Config, f: Setting, v: string)
    requires Assign(c, f, v).Success?
    ensures Sticky(c, Assign(c, f, v).value)
  {
  }

  lemma StepSticky(c: Config, args: seq<string>, i: nat)
    requires ParseStep(c, args, i).Next?
    ensures Sticky(c, ParseStep(c, args, i).config)
  {
    var f := Classify(args[i]);
    if TakesValue(f) {
      AssignSticky(c, f, args[i + 1]);
    } else {
      AssignSticky(c, f, "");
    }
  }

  /** A nonempty command is a suffix of the arguments that starts right after
      a `--` or at an argument that is not an option: options never leak into
      the command, and the command's own arguments are passed through verbatim. */
  lemma {:induction false} CommandIsSuffix(c: Config, args: seq<string>, i: nat)
    requires ParseFrom(c, args, i).Run?
    ensures var cmd := ParseFrom(c, args, i).command;
      cmd == [] ||
      exists j :: i <= j < |args| && cmd == args[j..] &&
        (Classify(args[j]).Positional? || (i < j && args[j - 1] == "--"))
    decreases |args| - i
  {
    match ParseStep(c, args, i)
    case Stop(outcome) =>
      if i < |args| && Classify(args[i]).EndOfOptions? && i + 1 < |args| {
        assert outcome.command == args[i + 1..];
      }
    case Next(next, j) =>
      CommandIsSuffix(next, args, j);
  }

  /** Every turn of `turn` that goes on, or that ends with a command,
      keeps the sticky facts. */
  ghost predicate KeepsSticky(turn: (Config, nat) -> Step) {
    forall c: Config, i: nat ::
      && (turn(c, i).Next? ==> Sticky(c, turn(c, i).config))
      && (turn(c, i).Stop? && turn(c, i).outcome.Run? ==> Sticky(c, turn(c, i).outcome.config))
  }

  /** Reaching a position by n turns leaves the rest of the scan as it was. */
  lemma {:induction false} TurnsScan(turn: (Config, nat) -> Step, end: nat, c: Config, i: nat, n: nat)
    requires Forward(turn, end) && Turns(turn, c, i, n).Some?
    ensures Scan(turn, end, c, i) == Scan(turn, end, Turns(turn, c, i, n).value.0, Turns(turn, c, i, n).value.1)
    decreases n
  {
    if n > 0 {
      var s := turn(c, i);
      TurnsScan(turn, end, s.config, s.next, n - 1);
    }
  }

  /** After n turns, a turn known to go on hands the scan over to where it
      leads. */
  lemma TurnsThenScan(turn: (Config, nat) -> Step, end: nat, c: Config, i: nat, n: nat, next: Config, j: nat)
    requires Forward(turn, end) && Turns(turn, c, i, n).Some?
    requires turn(Turns(turn, c, i, n).value.0, Turns(turn, c, i, n).value.1) == Next(next, j)
    ensures Scan(turn, end, c, i) == Scan(turn, end, next, j)
  {
    TurnsScan(turn, end, c, i, n);
  }

  /** Any number of turns that each keep the sticky facts keep them. */
  lemma {:induction false} TurnsSticky(turn: (Config, nat) -> Step, c: Config, i: nat, n: nat)
    requires KeepsSticky(turn) && Turns(turn, c, i, n).Some?
    ensures Sticky(c, Turns(turn, c, i, n).value.0)
    decreases n
  {
    if n > 0 {
      var s := turn(c, i);
      TurnsSticky(turn, s.config, s.next, n - 1);
      StickyTransitive(c, s.config, Turns(turn, c, i, n).value.0);
    }
  }

  /** So does a whole scan that ends with a command. */
  lemma {:induction false} ScanSticky(turn: (Config, nat) -> Step, end: nat, c: Config, i: nat)
    requires Forward(turn, end) && KeepsSticky(turn) && Scan(turn, end, c, i).Run?
    ensures Sticky(c, Scan(turn, end, c, i).config)
    decreases end - i
  {
    var s := turn(c, i);
    if s.Next? {
      ScanSticky(turn, end, s.config, s.next);
      StickyTransitive(c, s.config, Scan(turn, end, c, i).config);
    }
  }

  /** Every turn of parseArgs keeps the sticky facts. */
  lemma TurnSticky(args: seq<string>)
    ensures KeepsSticky(Turn(args))
  {
    forall c: Config, i: nat
      ensures Turn(args)(c, i).Next? ==> Sticky(c, Turn(args)(c, i).config)
      ensures Turn(args)(c, i).Stop? && Turn(args)(c, i).outcome.Run? ==> Sticky(c, Turn(args)(c, i).outcome.config)
    {
      if ParseStep(c, args, i).Next? {
        StepSticky(c, args, i);
      }
    }
  }

  lemma AdvanceSticky(c: Config, args: seq<string>, i: nat, n: nat)
    requires Advance(c, args, i, n).Some?
    ensures Sticky(c, Advance(c, args, i, n).value.0)
  {
    TurnSticky(args);
    TurnsSticky(Turn(args), c, i, n);
  }

  /** Reaching a position by n turns of the loop does not change what the
      rest of the scan returns. */
  lemma AdvanceParse(c: Config, args: seq<string>, i: nat, n: nat)
    requires Advance(c, args, i, n).Some?
    ensures ParseFrom(c, args, i) == ParseFrom(Advance(c, args, i, n).value.0, args, Advance(c, args, i, n).value.1)
  {
    TurnsScan(Turn(args), |args|, c, i, n);
  }

  /** A turn that goes on hands the scan over to the next position. */
  lemma ParseFromNext(c: Config, args: seq<string>, i: nat)
    requires ParseStep(c, args, i).Next?
    ensures ParseFrom(c, args, i) == ParseFrom(ParseStep(c, args, i).config, args, ParseStep(c, args, i).next)
  {
  }

  /** One turn of the loop, then the remaining n - 1. */
  lemma AdvanceUnfold(c: Config, args: seq<string>, i: nat, n: nat)
    requires n > 0
    ensures Advance(c, args, i, n) ==
      if ParseStep(c, args, i).Stop? then None
      else Advance(ParseStep(c, args, i).config, args, ParseStep(c, args, i).next, n - 1)
  {
  }

  /** The final settings of a successful scan keep what was sticky before it. */
  lemma ParseSticky(c: Config, args: seq<string>, i: nat)
    requires ParseFrom(c, args, i).Run?
    ensures Sticky(c, ParseFrom(c, args, i).config)
  {
    TurnSticky(args);
    ScanSticky(Turn(args), |args|, c, i);
  }

  /** Once the role is server (from SE_SERVER or an earlier `-s`), a later
      `-c` is an error, and once it is client, a later `-s` is. */
  lemma RoleConflictAhead(c: Config, args: seq<string>, i: nat, n: nat)
    requires Advance(c, args, i, n).Some?
    requires var (here, p) := Advance(c, args, i, n).value;
      p < |args| &&
      ((c.role == Server && Classify(args[p]).Connect?) || (c.role == Client && Classify(args[p]).ServerMode?))
    ensures ParseFrom(c, args, i) == Fail(RoleConflict)
  {
    AdvanceSticky(c, args, i, n);
    AdvanceParse(c, args, i, n);
  }

  /** `-s` and `-c` both read as options in one scan make it fail, in
      either order: the scan reaches the first of them after n1 turns and the
      second n2 turns after that one. */
  lemma ClientServerExclusive(c: Config, args: seq<string>, i: nat, n1: nat, n2: nat)
    requires Advance(c, args, i, n1).Some?
    requires var (c1, p1) := Advance(c, args, i, n1).value;
      p1 < |args| && Advance(c1, args, p1, n2 + 1).Some? &&
      var p2 := Advance(c1, args, p1, n2 + 1).value.1;
      p2 < |args| &&
      ((Classify(args[p1]).ServerMode? && Classify(args[p2]).Connect?) ||
       (Classify(args[p1]).Connect? && Classify(args[p2]).ServerMode?))
    ensures ParseFrom(c, args, i) == Fail(RoleConflict)
  {
    var (c1, p1) := Advance(c, args, i, n1).value;
    AdvanceParse(c, args, i, n1);
    AdvanceUnfold(c1, args, p1, n2 + 1);
    var s := ParseStep(c1, args, p1);
    assert s.config.role == (if Classify(args[p1]).ServerMode? then Server else Client);
    RoleConflictAhead(s.config, args, s.next, n2);
  }

  /** `-d N` sets both delays, `-dbc N` and `-dac N` only their own; nothing
      else changes and the scan goes on after the value. */
  lemma DelayOptions(c: Config, args: seq<string>, i: nat, d: int)
    requires i + 1 < |args| && ParseInt64(args[i + 1]) == Some(d)
    ensures Classify(args[i]).Delay? ==> ParseStep(c, args, i) == Next(c.(delayBefore := d, delayAfter := d), i + 2)
    ensures Classify(args[i]).DelayBefore? ==> ParseStep(c, args, i) == Next(c.(delayBefore := d), i + 2)
    ensures Classify(args[i]).DelayAfter? ==> ParseStep(c, args, i) == Next(c.(delayAfter := d), i + 2)
  {
  }

  /** `-sso` clears wait-for-stop, which is set by default; `-s` chooses the
      server role unless the client role was chosen before it. Neither takes
      a value. */
  lemma NoValueOptions(c: Config, args: seq<string>, i: nat)
    requires i < |args|
    ensures Defaults.waitForStop && Defaults.role == Standalone
    ensures Classify(args[i]).StartOnly? ==> ParseStep(c, args, i) == Next(c.(waitForStop := false), i + 1)
    ensures Classify(args[i]).ServerMode? ==>
      ParseStep(c, args, i) == if c.role == Client then Stop(Fail(RoleConflict)) else Next(c.(role := Server), i + 1)
  {
  }

  /** `-l key=value` splits at the first `=` only and stores the admitted key;
      a `-l` value without `=` is an error. */
  lemma LabelOption(c: Config, args: seq<string>, i: nat, key: string, value: string)
    requires i + 1 < |args| && Classify(args[i]).Label?
    requires args[i + 1] == key + "=" + value && '=' !in key
    ensures AdmitKey(key).Some? ==>
      ParseStep(c, args, i) == Next(c.(extraLabels := c.extraLabels[AdmitKey(key).value := value]), i + 2)
    ensures AdmitKey(key).None? ==> ParseFrom(c, args, i) == Fail(ForbiddenLabel(key))
  {
    SplitFirstOfJoin(key, value, '=');
  }

  lemma LabelWithoutSeparator(c: Config, args: seq<string>, i: nat)
    requires i + 1 < |args| && Classify(args[i]).Label? && '=' !in args[i + 1]
    ensures ParseFrom(c, args, i) == Fail(BadLabel(args[i + 1]))
  {
    assert Assign(c, Label, args[i + 1]) == Failure(BadLabel(args[i + 1]));
    assert Turn(args)(c, i) == Stop(Fail(BadLabel(args[i + 1])));
  }

  /** A set variable applies its option: when the first entry named
      SE_<name> is `SE_<name>=v` with v non-empty, the block makes the
      option's assignment with v. */
  lemma SetVariableApplies(c: Config, env: seq<string>, name: string, f: Setting, k: nat, v: string)
    requires k < |env| && env[k] == EnvVarPrefix + name + "=" + v && v != ""
    requires '=' !in name
    requires NoEntryNamed(env, k, EnvVarPrefix + name)
    ensures EnvAssign(c, env, name, f) == Assign(c, f, v)
  {
    var key := EnvVarPrefix + name;
    assert '=' !in EnvVarPrefix;
    assert '=' !in key;
    assert env[k] == key + ['='] + v;
    SplitFirstOfJoin(key, v, '=');
    var r := Getenv(env, key);
    assert key + "=" + r == key + "=" + v;
    assert r == (key + "=" + r)[|key| + 1..] == (key + "=" + v)[|key| + 1..] == v;
  }

  lemma EnvAssignSticky(c: Config, env: seq<string>, name: string, f: Setting)
    requires EnvAssign(c, env, name, f).Success?
    ensures Sticky(c, EnvAssign(c, env, name, f).value)
  {
    var v := Getenv(env, EnvVarPrefix + name);
    if v != "" {
      AssignSticky(c, f, v);
    }
  }

  lemma {:induction false} EnvSettingsSticky(c: Config, env: seq<string>, table: seq<(string, Setting)>)
    requires EnvSettingsFrom(c, env, table).Success?
    ensures Sticky(c, EnvSettingsFrom(c, env, table).value)
    decreases |table|
  {
    if table != [] {
      var r := EnvAssign(c, env, table[0].0, table[0].1);
      EnvAssignSticky(c, env, table[0].0, table[0].1);
      EnvSettingsSticky(r.value, env, table[1..]);
    }
  }

  lemma {:induction false} EnvLabelsSafe(labels: map<string, string>, env: seq<string>, j: nat)
    requires EnvLabels(labels, env, j).Success?
    ensures labels.Keys <= EnvLabels(labels, env, j).value.Keys
    ensures SafeLabels(labels) ==> SafeLabels(EnvLabels(labels, env, j).value)
    decreases |env| - j
  {
    if j < |env| {
      match ParseEnvLabel(env[j])
      case Unrelated =>
        EnvLabelsSafe(labels, env, j + 1);
      case Malformed =>
      case Entry(key, value) =>
        EnvLabelsSafe(WithLabel(labels, key, value).value, env, j + 1);
    }
  }

  /** The environment pass keeps what is sticky too: a role it chooses is
      one the arguments cannot switch. */
  lemma EnvPassSticky(c: Config, env: seq<string>)
    requires EnvPass(c, env).Success?
    ensures Sticky(c, EnvPass(c, env).value)
  {
    var settled := EnvSettingsFrom(c, env, EnvSettings).value;
    EnvSettingsSticky(c, env, EnvSettings);
    EnvLabelsSafe(settled.extraLabels, Environ(env), 0);
  }

  /** Whether os.Environ keeps entry i of env when the names in `seen` were
      taken before it: an entry without a name is kept, and one with a name
      is kept when neither `seen` nor an earlier entry has that name. */
  ghost predicate Kept(env: seq<string>, seen: set<string>, i: nat)
    requires i < |env|
  {
    match EntryName(env[i])
    case None => true
    case Some(name) => name !in seen && NoEntryNamed(env, i, name)
  }

  /** r lists the entries of env at the positions idx, which increase. */
  ghost predicate Selects(env: seq<string>, r: seq<string>, idx: seq<nat>) {
    && |idx| == |r|
    && (forall k :: 0 <= k < |idx| ==> idx[k] < |env| && r[k] == env[idx[k]])
    && (forall k, l :: 0 <= k < l < |idx| ==> idx[k] < idx[l])
  }

  /** The names taken once an entry has been read. */
  function Taken(seen: set<string>, entry: string): set<string> {
    match EntryName(entry)
    case None => seen
    case Some(name) => seen + {name}
  }

  /** Entry i keeps its fate when the first entry is read ahead of it. */
  lemma KeptTail(env: seq<string>, seen: set<string>, i: nat)
    requires 0 < i < |env|
    ensures Kept(env, seen, i) <==> Kept(env[1..], Taken(seen, env[0]), i - 1)
  {
    var tail := env[1..];
    assert tail[i - 1] == env[i];
    match EntryName(env[i])
    case None =>
    case Some(name) =>
      assert forall j :: 0 <= j < i - 1 ==> tail[j] == env[j + 1];
      if NoEntryNamed(tail, i - 1, name) && EntryName(env[0]) != Some(name) {
        forall j | 0 <= j < i
          ensures EntryName(env[j]) != Some(name)
        {
          if j > 0 {
            assert env[j] == tail[j - 1];
          }
        }
      }
  }

  /** The positions idx pick out r from env, in order, and they are
      exactly the positions of the entries os.Environ keeps. */
  ghost predicate Positions(env: seq<string>, seen: set<string>, r: seq<string>, idx: seq<nat>) {
    && Selects(env, r, idx)
    && forall i :: 0 <= i < |env| ==> (i in idx <==> Kept(env, seen, i))
  }

  /** The positions in a tail, moved one place on, after position 0 when
      the first entry is kept. */
  function Behind(keepHead: bool, rest: seq<nat>): (idx: seq<nat>)
    ensures |idx| == |rest| + if keepHead then 1 else 0
  {
    (if keepHead then [0] else []) + seq(|rest|, k requires 0 <= k < |rest| => rest[k] + 1)
  }

  lemma EnvironFromUnfold(env: seq<string>, seen: set<string>)
    requires env != []
    ensures EnvironFrom(env, seen) ==
      (if Kept(env, seen, 0) then [env[0]] else []) + EnvironFrom(env[1..], Taken(seen, env[0]))
  {
    if EntryName(env[0]).Some? && EntryName(env[0]).value in seen {
      assert Taken(seen, env[0]) == seen;
    }
  }

  lemma BehindSelects(env: seq<string>, tail: seq<string>, rest: seq<nat>, keepHead: bool)
    requires env != [] && Selects(env[1..], tail, rest)
    ensures Selects(env, (if keepHead then [env[0]] else []) + tail, Behind(keepHead, rest))
  {
    var idx := Behind(keepHead, rest);
    var r := (if keepHead then [env[0]] else []) + tail;
    var d := if keepHead then 1 else 0;
    forall k | 0 <= k < |idx|
      ensures idx[k] < |env| && r[k] == env[idx[k]]
    {
      if k >= d {
        assert idx[k] == rest[k - d] + 1 && r[k] == tail[k - d];
      }
    }
  }

  /** Position 0 is among the positions exactly when the first entry is kept. */
  lemma BehindHead(keepHead: bool, rest: seq<nat>)
    ensures 0 in Behind(keepHead, rest) <==> keepHead
  {
    if !keepHead {
      var idx := Behind(keepHead, rest);
      assert forall k :: 0 <= k < |idx| ==> idx[k] == rest[k] + 1;
    }
  }

  /** A later position is among them exactly when the one before it is
      among the tail's. */
  lemma BehindLater(keepHead: bool, rest: seq<nat>, i: nat)
    requires 0 < i
    ensures i in Behind(keepHead, rest) <==> i - 1 in rest
  {
    var idx := Behind(keepHead, rest);
    var d := if keepHead then 1 else 0;
    if i - 1 in rest {
      var k :| 0 <= k < |rest| && rest[k] == i - 1;
      assert idx[k + d] == i;
    }
    if i in idx {
      var k :| 0 <= k < |idx| && idx[k] == i;
      assert k >= d && rest[k - d] == i - 1;
    }
  }

  lemma BehindMembers(env: seq<string>, seen: set<string>, rest: seq<nat>)
    requires env != []
    requires forall i :: 0 <= i < |env| - 1 ==> (i in rest <==> Kept(env[1..], Taken(seen, env[0]), i))
    ensures forall i :: 0 <= i < |env| ==> (i in Behind(Kept(env, seen, 0), rest) <==> Kept(env, seen, i))
  {
    var keepHead := Kept(env, seen, 0);
    forall i | 0 <= i < |env|
      ensures i in Behind(keepHead, rest) <==> Kept(env, seen, i)
    {
      if i == 0 {
        BehindHead(keepHead, rest);
      } else {
        KeptTail(env, seen, i);
        BehindLater(keepHead, rest, i);
      }
    }
  }

  /** os.Environ keeps the environment's order: what it yields is the
      environment at increasing positions, and the positions are exactly
      those of the entries whose name is new. */
  lemma {:induction false} EnvironFromOrder(env: seq<string>, seen: set<string>)
    ensures exists idx :: Positions(env, seen, EnvironFrom(env, seen), idx)
    decreases |env|
  {
    if env == [] {
      assert Positions(env, seen, EnvironFrom(env, seen), []);
    } else {
      var tail := env[1..];
      var taken := Taken(seen, env[0]);
      EnvironFromOrder(tail, taken);
      var rest :| Positions(tail, taken, EnvironFrom(tail, taken), rest);
      var keepHead := Kept(env, seen, 0);
      EnvironFromUnfold(env, seen);
      BehindSelects(env, EnvironFrom(tail, taken), rest, keepHead);
      BehindMembers(env, seen, rest);
      assert Positions(env, seen, EnvironFrom(env, seen), Behind(keepHead, rest));
    }
  }

  /** os.Environ yields the environment in order, leaving out every entry
      whose name an earlier entry has and keeping every other entry. */
  lemma EnvironOrder(env: seq<string>)
    ensures exists idx :: Positions(env, {}, Environ(env), idx)
  {
    EnvironFromOrder(env, {});
    assert Environ(env) == EnvironFrom(env, {});
  }

  /** Looking a name up in what os.Environ keeps finds what os.Getenv finds
      in the whole environment, unless an earlier entry took the name. */
  lemma {:induction false} GetenvEnvironFrom(env: seq<string>, seen: set<string>, name: string)
    ensures Getenv(EnvironFrom(env, seen), name) == if name in seen then "" else Getenv(env, name)
    decreases |env|
  {
    if env != [] {
      match EntryName(env[0])
      case None =>
        var rest := EnvironFrom(env[1..], seen);
        assert ([env[0]] + rest)[0] == env[0] && ([env[0]] + rest)[1..] == rest;
        GetenvEnvironFrom(env[1..], seen, name);
      case Some(key) =>
        if key in seen {
          GetenvEnvironFrom(env[1..], seen, name);
        } else {
          var rest := EnvironFrom(env[1..], seen + {key});
          assert ([env[0]] + rest)[0] == env[0] && ([env[0]] + rest)[1..] == rest;
          GetenvEnvironFrom(env[1..], seen + {key}, name);
        }
    }
  }

  /** os.Getenv and os.Environ agree on every name. */
  lemma GetenvEnviron(env: seq<string>, name: string)
    ensures Getenv(Environ(env), name) == Getenv(env, name)
  {
    GetenvEnvironFrom(env, {}, name);
  }

  /** Of two entries with the same name, os.Environ keeps only the first. */
  lemma DuplicateEntryDropped(first: string, second: string)
    requires EntryName(first).Some? && EntryName(second) == EntryName(first)
    ensures Environ([first, second]) == [first]
  {
    var name := EntryName(first).value;
    assert [first, second][1..] == [second];
    assert [second][1..] == [];
    assert EnvironFrom([second], {name}) == [];
    assert EnvironFrom([first, second], {}) == [first] + EnvironFrom([second], {name});
  }

  /** SE_LABEL_<key>=<first> followed by SE_LABEL_<key>=<second>: the label
      pass stores the first value, the second entry never reaching it. */
  lemma FirstLabelEntryWins(labels: map<string, string>, key: string, first: string, second: string)
    requires '=' !in key && '=' !in first && '=' !in second
    requires AdmitKey(key).Some?
    ensures EnvLabels(labels, Environ([LabelEnvPrefix + key + "=" + first, LabelEnvPrefix + key + "=" + second]), 0) ==
      Success(labels[AdmitKey(key).value := first])
  {
    var a := LabelEnvPrefix + key + "=" + first;
    var b := LabelEnvPrefix + key + "=" + second;
    assert '=' !in LabelEnvPrefix;
    assert a == (LabelEnvPrefix + key) + ['='] + first;
    assert b == (LabelEnvPrefix + key) + ['='] + second;
    SplitFirstOfJoin(LabelEnvPrefix + key, first, '=');
    SplitFirstOfJoin(LabelEnvPrefix + key, second, '=');
    DuplicateEntryDropped(a, b);
    EnvLabelRoundTrip(key, first);
    var m := labels[AdmitKey(key).value := first];
    assert EnvLabels(labels, [a], 0) == EnvLabels(m, [a], 1);
  }

  /** No SE_ variable is set: os.Getenv finds none of the settings. */
  lemma {:induction false} QuietSettings(c: Config, env: seq<string>, table: seq<(string, Setting)>)
    requires forall e :: e in env ==> !HasPrefix(e, EnvVarPrefix)
    ensures EnvSettingsFrom(c, env, table) == Success(c)
    decreases |table|
  {
    if table != [] {
      QuietSettings(c, env, table[1..]);
    }
  }

  /** An entry without the SE_ prefix has no SE_LABEL_ prefix either. */
  lemma OutsideVarPrefix(entry: string)
    requires !HasPrefix(entry, EnvVarPrefix)
    ensures !HasPrefix(entry, LabelEnvPrefix)
  {
    if |LabelEnvPrefix| <= |entry| {
      assert entry[..|EnvVarPrefix|] == entry[..|LabelEnvPrefix|][..|EnvVarPrefix|];
    }
  }

  /** Without any SE_ variable in the environment, the environment pass
      leaves every setting as it was. */
  lemma QuietEnvironment(c: Config, env: seq<string>)
    requires forall e :: e in env ==> !HasPrefix(e, EnvVarPrefix)
    ensures EnvPass(c, env) == Success(c)
  {
    QuietSettings(c, env, EnvSettings);
    var entries := Environ(env);
    forall k | 0 <= k < |entries|
      ensures !HasPrefix(entries[k], LabelEnvPrefix)
    {
      assert entries[k] in env;
      OutsideVarPrefix(entries[k]);
    }
  }

  /** Starting from the defaults, every stored label key, from the environment
      or from the arguments, is made of lower-case letters, digits and `_`,
      and the role the environment chose survives the arguments. */
  lemma ConfigureSticky(env: seq<string>, args: seq<string>)
    requires ParseAll(Defaults, env, args).Run?
    ensures SafeLabels(ParseAll(Defaults, env, args).config.extraLabels)
    ensures EnvPass(Defaults, env).Success?
    ensures Sticky(EnvPass(Defaults, env).value, ParseAll(Defaults, env, args).config)
  {
    EnvPassSticky(Defaults, env);
    ParseSticky(EnvPass(Defaults, env).value, args, 1);
  }

  /** With the environment read, the outcome is that of the argument scan
      from the first argument. */
  lemma ParseAllAfterEnv(c: Config, env: seq<string>, args: seq<string>)
    requires EnvPass(c, env).Success?
    ensures ParseAll(c, env, args) == ParseFrom(EnvPass(c, env).value, args, 1)
  {
  }

  /** A `-d N` the scan reaches sets both delays for the rest of the scan,
      whatever they were before. */
  lemma DelayReached(start: Config, args: seq<string>, n: nat, here: Config, p: nat, d: int)
    requires Advance(start, args, 1, n) == Some((here, p))
    requires p + 1 < |args| && Classify(args[p]).Delay? && ParseInt64(args[p + 1]) == Some(d)
    ensures ParseFrom(start, args, 1) == ParseFrom(here.(delayBefore := d, delayAfter := d), args, p + 2)
  {
    DelayOptions(here, args, p, d);
    TurnsThenScan(Turn(args), |args|, start, 1, n, here.(delayBefore := d, delayAfter := d), p + 2);
  }

  /** An option given as an argument wins over the environment variable for
      the same setting, because the environment pass runs first: whatever
      delays the environment set, a `-d N` reached by the scan replaces both. */
  lemma ArgsOverrideEnv(c: Config, env: seq<string>, args: seq<string>, fromEnv: Config, n: nat, here: Config, p: nat, d: int)
    requires EnvPass(c, env) == Success(fromEnv)
    requires Advance(fromEnv, args, 1, n) == Some((here, p))
    requires p + 1 < |args| && Classify(args[p]).Delay? && ParseInt64(args[p + 1]) == Some(d)
    ensures ParseAll(c, env, args) == ParseFrom(here.(delayBefore := d, delayAfter := d), args, p + 2)
  {
    ParseAllAfterEnv(c, env, args);
    DelayReached(fromEnv, args, n, here, p, d);
  }
}
