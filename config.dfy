/** The layered configuration resolver of `pkg/config/config.go`.

    One `Config` record is filled in place by three passes, in a fixed
    order: the TOML file, then the environment variables, then the
    command-line flags. The result is then validated. The file contents,
    the process environment and the supplied flags are inputs of the model
    rather than files, `os.Getenv` and `os.Args`. Each pass writes one
    diagnostic record to a logger; the model keeps those records so that
    what the resolver discloses can be stated. */
module Configuration {
  import opened Wrappers

  /** Names of the environment variables read by the environment pass. */
  const AddressVar: string := "WR11_ADDRESS"
  const UsernameVar: string := "WR11_USERNAME"
  const PasswordVar: string := "WR11_PASSWORD"

  /** What every debug record shows in place of the password. */
  const Mask: string := "*****"

  const TomlLoaded: string := "Loaded configuration from TOML"
  const EnvLoaded: string := "Loaded configuration from environment variables"
  const FlagsLoaded: string := "Loaded configuration from CLI flags"
  const OpenFailed: string := "failed to open TOML configuration file"
  const ParseFailed: string := "failed to parse TOML configuration"

  const AddressRequired: string := "address is required"
  const UsernameRequired: string := "username is required"
  const PasswordRequired: string := "password is required"

  /** Prefixes with which `LoadConfig` wraps the error of a failing stage. */
  const TomlStage: string := "failed to load TOML configuration: "
  const ValidateStage: string := "failed to validate configuration: "

  /** The value held by a `Config` at one moment. */
  datatype Settings = Settings(address: string, username: string, password: string)

  /** What reading `config.toml` yields: the file could not be opened, it
      could not be parsed, or it is a table holding the three string keys. */
  datatype TomlFile =
    | Unopenable(cause: string)
    | Malformed(cause: string)
    | Table(address: string, username: string, password: string)

  /** The process environment. */
  type Environment = map<string, string>

  /** `os.Getenv`: the empty string for a variable that is not set. */
  function Getenv(env: Environment, name: string): string {
    if name in env then env[name] else ""
  }

  /** The command-line flags `--address`, `--username` and `--password`,
      each with its value when it was supplied. */
  datatype Flags = Flags(address: Option<string>, username: Option<string>, password: Option<string>)

  datatype Level = Debug | Error

  /** One logrus entry: its level, its message and its fields. */
  datatype LogRecord = LogRecord(level: Level, message: string, fields: map<string, string>)

  /** The entry a pass writes after it has run: the address and the user
      name as they now stand, and the mask instead of the password. */
  function DebugRecord(message: string, s: Settings): (r: LogRecord)
    ensures r.level == Debug && r.message == message
    ensures r.fields.Keys == {"address", "username", "password"}
    ensures r.fields["address"] == s.address && r.fields["username"] == s.username
    ensures r.fields["password"] == Mask
  {
    LogRecord(Debug, message, map["address" := s.address, "username" := s.username, "password" := Mask])
  }

  /** The entry the file pass writes when the file cannot be used. */
  function TomlErrorRecord(file: TomlFile): LogRecord
    requires !file.Table?
  {
    LogRecord(Error, if file.Unopenable? then OpenFailed else ParseFailed, map["error" := file.cause])
  }

  /** The settings the file pass assigns. */
  function FileSettings(file: TomlFile): Settings
    requires file.Table?
  {
    Settings(file.address, file.username, file.password)
  }

  /** The environment pass: a variable that is set and non-empty replaces its
      field; otherwise the field keeps its value. */
  function EnvPass(s: Settings, env: Environment): Settings {
    var a, u, p := Getenv(env, AddressVar), Getenv(env, UsernameVar), Getenv(env, PasswordVar);
    Settings(if a != "" then a else s.address,
             if u != "" then u else s.username,
             if p != "" then p else s.password)
  }

  /** The flag pass. Binding a field to a flag whose default is `""` writes
      that default into the field when the flag is defined, so a field ends
      up holding the supplied flag value, or `""` when the flag is absent. */
  function FlagPass(flags: Flags): Settings {
    Settings(flags.address.GetOr(""), flags.username.GetOr(""), flags.password.GetOr(""))
  }

  /** `validateConfig`: the message for the first empty field, checked in
      the order address, user name, password; `None` when all are set. */
  function ValidateConfig(s: Settings): (r: Option<string>)
    ensures r.None? <==> s.address != "" && s.username != "" && s.password != ""
    ensures r == Some(AddressRequired) <==> s.address == ""
    ensures r == Some(UsernameRequired) <==> s.address != "" && s.username == ""
    ensures r == Some(PasswordRequired) <==> s.address != "" && s.username != "" && s.password == ""
  {
    if s.address == "" then Some(AddressRequired)
    else if s.username == "" then Some(UsernameRequired)
    else if s.password == "" then Some(PasswordRequired)
    else None
  }

  /** What `LoadConfig` returns: the configuration, or the wrapped error of
      the first stage that failed. */
  function Resolve(file: TomlFile, env: Environment, flags: Flags): Result<Settings, string> {
    if !file.Table? then Err(TomlStage + file.cause)
    else
      var s := FlagPass(flags);
      match ValidateConfig(s)
      case Some(m) => Err(ValidateStage + m)
      case None => Ok(s)
  }

  /** The entries `LoadConfig` hands to its logger, in order, whether or not
      the logger's level lets them through. */
  function Trace(file: TomlFile, env: Environment, flags: Flags): seq<LogRecord> {
    if !file.Table? then [TomlErrorRecord(file)]
    else
      var s1 := FileSettings(file);
      var s2 := EnvPass(s1, env);
      var s3 := FlagPass(flags);
      [DebugRecord(TomlLoaded, s1), DebugRecord(EnvLoaded, s2), DebugRecord(FlagsLoaded, s3)]
        + match ValidateConfig(s3)
          case Some(m) => [LogRecord(Error, m, map[])]
          case None => []
  }

  /** Whether a logger whose debug level is on or off writes `r`. */
  predicate Writes(debug: bool, r: LogRecord) {
    debug || r.level == Error
  }

  /** The entries of `rs` that a logger at the given level writes. */
  function Emitted(rs: seq<LogRecord>, debug: bool): (out: seq<LogRecord>)
    ensures |out| <= |rs|
  {
    if rs == [] then []
    else (if Writes(debug, rs[0]) then [rs[0]] else []) + Emitted(rs[1..], debug)
  }

  /** The written entries are exactly the given entries the level admits. */
  lemma {:induction false} EmittedMembers(rs: seq<LogRecord>, debug: bool)
    ensures forall r :: r in Emitted(rs, debug) <==> r in rs && Writes(debug, r)
  {
    if rs != [] {
      EmittedMembers(rs[1..], debug);
      assert rs == [rs[0]] + rs[1..];
    }
  }

  /** Filtering distributes over concatenation. */
  lemma {:induction false} EmittedAppend(a: seq<LogRecord>, b: seq<LogRecord>, debug: bool)
    ensures Emitted(a + b, debug) == Emitted(a, debug) + Emitted(b, debug)
  {
    if a != [] {
      assert (a + b)[1..] == a[1..] + b;
      EmittedAppend(a[1..], b, debug);
    } else {
      assert a + b == b;
    }
  }

  /** A logger with its debug level off writes none of a run of debug entries. */
  lemma {:induction false} EmittedDropsDebug(rs: seq<LogRecord>)
    requires forall r :: r in rs ==> r.level == Debug
    ensures Emitted(rs, false) == []
  {
    if rs != [] {
      assert rs[0] in rs;
      EmittedDropsDebug(rs[1..]);
    }
  }

  /** The diagnostic sink: the entries written so far, and whether entries
      at debug level are written or dropped. */
  class Logger {
    const debug: bool
    var records: seq<LogRecord>

    constructor (debug: bool)
      ensures this.debug == debug && records == []
    {
      this.debug := debug;
      records := [];
    }

    method Log(r: LogRecord)
      modifies this
      ensures records == old(records) + Emitted([r], debug)
    {
      if Writes(debug, r) {
        records := records + [r];
      }
    }
  }

  /** The record the passes fill in place. */
  class Config {
    var address: string
    var username: string
    var password: string

    /** `&Config{}`: every field empty. */
    constructor ()
      ensures Value() == Settings("", "", "")
    {
      address, username, password := "", "", "";
    }

    function Value(): Settings
      reads this
    {
      Settings(address, username, password)
    }

    /** `loadConfigFromToml`: assign all three fields from the file, or leave
        them alone and return the error when the file cannot be opened or
        parsed. */
    method LoadConfigFromToml(file: TomlFile, logger: Logger) returns (err: Option<string>)
      modifies this, logger
      ensures err.Some? <==> !file.Table?
      ensures err.Some? ==> err.value == file.cause && Value() == old(Value())
      ensures file.Table? ==> Value() == FileSettings(file)
      ensures logger.records == old(logger.records)
        + Emitted([if file.Table? then DebugRecord(TomlLoaded, FileSettings(file)) else TomlErrorRecord(file)], logger.debug)
    {
      match file
      case Unopenable(cause) =>
        logger.Log(TomlErrorRecord(file));
        return Some(cause);
      case Malformed(cause) =>
        logger.Log(TomlErrorRecord(file));
        return Some(cause);
      case Table(a, u, p) =>
        address := a;
        username := u;
        password := p;
        logger.Log(DebugRecord(TomlLoaded, Value()));
        return None;
    }

    /** `loadConfigFromEnv`: each non-empty variable overrides its field. */
    method LoadConfigFromEnv(env: Environment, logger: Logger)
      modifies this, logger
      ensures Value() == EnvPass(old(Value()), env)
      ensures logger.records == old(logger.records) + Emitted([DebugRecord(EnvLoaded, Value())], logger.debug)
    {
      var a := Getenv(env, AddressVar);
      var u := Getenv(env, UsernameVar);
      var p := Getenv(env, PasswordVar);
      if a != "" {
        address := a;
      }
      if u != "" {
        username := u;
      }
      if p != "" {
        password := p;
      }
      logger.Log(DebugRecord(EnvLoaded, Value()));
    }

    /** `loadConfigFromFlags`: defining each flag writes its default `""`
        into the bound field; parsing then writes the supplied values. */
    method LoadConfigFromFlags(flags: Flags, logger: Logger)
      modifies this, logger
      ensures Value() == FlagPass(flags)
      ensures logger.records == old(logger.records) + Emitted([DebugRecord(FlagsLoaded, Value())], logger.debug)
    {
      address := "";
      username := "";
      password := "";
      if flags.address.Some? {
        address := flags.address.value;
      }
      if flags.username.Some? {
        username := flags.username.value;
      }
      if flags.password.Some? {
        password := flags.password.value;
      }
      logger.Log(DebugRecord(FlagsLoaded, Value()));
    }
  }

  /** The body of `LoadConfig` with its logger as a parameter: run the
      passes in order on a fresh record, stop at the first failing stage,
      then validate. Returns the record (`null` on error) and the wrapped
      error; the logger receives `Trace` of the inputs, as far as its
      level admits. */
  method LoadConfigWith(file: TomlFile, env: Environment, flags: Flags, logger: Logger)
    returns (config: Config?, err: Option<string>)
    modifies logger
    ensures config == null <==> err.Some?
    ensures config != null ==> fresh(config) && Resolve(file, env, flags) == Ok(config.Value())
    ensures err.Some? ==> Resolve(file, env, flags) == Err(err.value)
    ensures logger.records == old(logger.records) + Emitted(Trace(file, env, flags), logger.debug)
  {
    var c := new Config();
    var e := c.LoadConfigFromToml(file, logger);
    if e.Some? {
      return null, Some(TomlStage + e.value);
    }
    c.LoadConfigFromEnv(env, logger);
    c.LoadConfigFromFlags(flags, logger);
    var v := ValidateConfig(c.Value());
    ghost var tail: seq<LogRecord> := [];
    if v.Some? {
      var r := LogRecord(Error, v.value, map[]);
      logger.Log(r);
      tail := [r];
      config, err := null, Some(ValidateStage + v.value);
    } else {
      assert logger.records == logger.records + Emitted(tail, logger.debug);
      config, err := c, None;
    }
    TraceOfTable(file, env, flags, tail);
    LogSequence(old(logger.records), DebugRecord(TomlLoaded, FileSettings(file)),
                DebugRecord(EnvLoaded, EnvPass(FileSettings(file), env)),
                DebugRecord(FlagsLoaded, FlagPass(flags)), tail, logger.debug);
  }

  /** Four stretches of logging, one per debug entry and one for the
      validation error, write what the whole trace writes. */
  lemma LogSequence(before: seq<LogRecord>, r0: LogRecord, r1: LogRecord, r2: LogRecord,
                    tail: seq<LogRecord>, debug: bool)
    ensures before + Emitted([r0], debug) + Emitted([r1], debug) + Emitted([r2], debug)
      + Emitted(tail, debug) == before + Emitted([r0, r1, r2] + tail, debug)
  {
    var e0, e1, e2, et := Emitted([r0], debug), Emitted([r1], debug), Emitted([r2], debug), Emitted(tail, debug);
    var t2, t1 := [r2] + tail, [r1] + ([r2] + tail);
    EmittedAppend([r2], tail, debug);
    EmittedAppend([r1], t2, debug);
    EmittedAppend([r0], t1, debug);
    assert [r0, r1, r2] + tail == [r0] + t1;
    Associate(before, e0, e1, e2, et);
  }

  lemma Associate(a: seq<LogRecord>, b: seq<LogRecord>, c: seq<LogRecord>, d: seq<LogRecord>, e: seq<LogRecord>)
    ensures a + b + c + d + e == a + (b + (c + (d + e)))
  {
  }

  /** For a file that loads, `Trace` is the three debug entries followed by
      the validation error, if any. */
  lemma TraceOfTable(file: TomlFile, env: Environment, flags: Flags, tail: seq<LogRecord>)
    requires file.Table?
    requires tail == match ValidateConfig(FlagPass(flags))
                     case Some(m) => [LogRecord(Error, m, map[])]
                     case None => []
    ensures Trace(file, env, flags) == [DebugRecord(TomlLoaded, FileSettings(file)),
                                        DebugRecord(EnvLoaded, EnvPass(FileSettings(file), env)),
                                        DebugRecord(FlagsLoaded, FlagPass(flags))] + tail
  {
  }

  /** `LoadConfig`: `LoadConfigWith` on a new logger, which logrus creates
      at its default level, Info, so the debug entries are dropped. Returns
      the entries written as well. */
  method LoadConfig(file: TomlFile, env: Environment, flags: Flags)
    returns (config: Config?, err: Option<string>, log: seq<LogRecord>)
    ensures config == null <==> err.Some?
    ensures config != null ==> fresh(config) && Resolve(file, env, flags) == Ok(config.Value())
    ensures err.Some? ==> Resolve(file, env, flags) == Err(err.value)
    ensures log == Emitted(Trace(file, env, flags), false)
  {
    var logger := new Logger(false);
    config, err := LoadConfigWith(file, env, flags, logger);
    log := logger.records;
    assert log == [] + Emitted(Trace(file, env, flags), false);
  }

  /** A logger at debug level writes every entry it is handed. */
  lemma {:induction false} DebugLevelWritesEverything(rs: seq<LogRecord>)
    ensures Emitted(rs, true) == rs
  {
    if rs != [] {
      DebugLevelWritesEverything(rs[1..]);
      assert rs == [rs[0]] + rs[1..];
    }
  }

  /** A flag counts as given when it was supplied with a non-empty value. */
  predicate Supplied(o: Option<string>) {
    o.Some? && o.value != ""
  }

  /** The environment pass overrides a field exactly when its variable is
      set to a non-empty value, so it never empties a field. */
  lemma EnvPassOverridesOnlyWhenSet(s: Settings, env: Environment)
    ensures EnvPass(s, env).address == (if Getenv(env, AddressVar) == "" then s.address else Getenv(env, AddressVar))
    ensures EnvPass(s, env).username == (if Getenv(env, UsernameVar) == "" then s.username else Getenv(env, UsernameVar))
    ensures EnvPass(s, env).password == (if Getenv(env, PasswordVar) == "" then s.password else Getenv(env, PasswordVar))
    ensures s.address != "" ==> EnvPass(s, env).address != ""
    ensures s.username != "" ==> EnvPass(s, env).username != ""
    ensures s.password != "" ==> EnvPass(s, env).password != ""
  {
  }

  /** A file that cannot be opened or parsed stops loading: the error names
      the TOML stage and carries the cause, and the environment and flag
      passes never run. */
  lemma TomlFailureIsFatal(file: TomlFile, env: Environment, flags: Flags)
    requires !file.Table?
    ensures Resolve(file, env, flags) == Err(TomlStage + file.cause)
    ensures Trace(file, env, flags) == [TomlErrorRecord(file)]
  {
  }

  /** Once the file has loaded, neither its contents nor the environment
      change the outcome: the flag pass overwrites every field. */
  lemma EarlierLayersOverwritten(file1: TomlFile, file2: TomlFile, env1: Environment, env2: Environment, flags: Flags)
    requires file1.Table? && file2.Table?
    ensures Resolve(file1, env1, flags) == Resolve(file2, env2, flags)
  {
  }

  /** Loading succeeds exactly when the file loads and all three flags are
      given, and then the configuration holds the flag values. */
  lemma ResolveSucceedsIff(file: TomlFile, env: Environment, flags: Flags)
    ensures Resolve(file, env, flags).Ok? <==>
      file.Table? && Supplied(flags.address) && Supplied(flags.username) && Supplied(flags.password)
    ensures Resolve(file, env, flags).Ok? ==>
      Resolve(file, env, flags).value == Settings(flags.address.value, flags.username.value, flags.password.value)
  {
  }

  /** Validation reports the first missing field in the order address,
      user name, password, whatever the later fields hold. */
  lemma FirstMissingFieldReported(file: TomlFile, env: Environment, flags: Flags)
    requires file.Table?
    ensures !Supplied(flags.address) ==>
      Resolve(file, env, flags) == Err(ValidateStage + AddressRequired)
    ensures Supplied(flags.address) && !Supplied(flags.username) ==>
      Resolve(file, env, flags) == Err(ValidateStage + UsernameRequired)
    ensures Supplied(flags.address) && Supplied(flags.username) && !Supplied(flags.password) ==>
      Resolve(file, env, flags) == Err(ValidateStage + PasswordRequired)
  {
  }

  /** No entry handed to the logger carries a password: every entry with a
      password field shows the mask. */
  lemma TraceMasksPassword(file: TomlFile, env: Environment, flags: Flags)
    ensures forall r :: r in Trace(file, env, flags) && "password" in r.fields ==> r.fields["password"] == Mask
  {
  }

  /** Two files that agree on everything but the password. */
  predicate SameButPassword(file1: TomlFile, file2: TomlFile) {
    match (file1, file2)
    case (Table(a1, u1, _), Table(a2, u2, _)) => a1 == a2 && u1 == u2
    case _ => file1 == file2
  }

  /** The entries handed to the logger reveal nothing about the password
      values in the file, the environment or the flags, beyond whether the
      resolved password is empty. */
  lemma TraceHidesPassword(file1: TomlFile, file2: TomlFile, env1: Environment, env2: Environment,
                           flags1: Flags, flags2: Flags)
    requires SameButPassword(file1, file2)
    requires env1 - {PasswordVar} == env2 - {PasswordVar}
    requires flags1.address == flags2.address && flags1.username == flags2.username
    requires Supplied(flags1.password) == Supplied(flags2.password)
    ensures Trace(file1, env1, flags1) == Trace(file2, env2, flags2)
  {
    if file1.Table? {
      assert Getenv(env1, AddressVar) == Getenv(env2, AddressVar) by {
        assert AddressVar != PasswordVar;
        assert AddressVar in env1 <==> AddressVar in env1 - {PasswordVar};
        assert AddressVar in env2 <==> AddressVar in env2 - {PasswordVar};
      }
      assert Getenv(env1, UsernameVar) == Getenv(env2, UsernameVar) by {
        assert UsernameVar != PasswordVar;
        assert UsernameVar in env1 <==> UsernameVar in env1 - {PasswordVar};
        assert UsernameVar in env2 <==> UsernameVar in env2 - {PasswordVar};
      }
      var s1, s2 := FileSettings(file1), FileSettings(file2);
      assert DebugRecord(TomlLoaded, s1) == DebugRecord(TomlLoaded, s2);
      assert DebugRecord(EnvLoaded, EnvPass(s1, env1)) == DebugRecord(EnvLoaded, EnvPass(s2, env2));
      assert DebugRecord(FlagsLoaded, FlagPass(flags1)) == DebugRecord(FlagsLoaded, FlagPass(flags2));
      assert ValidateConfig(FlagPass(flags1)) == ValidateConfig(FlagPass(flags2));
    }
  }

  /** At logrus's default level the logger writes nothing when loading
      succeeds, and exactly one error entry, matching the returned error,
      when it fails. */
  lemma DefaultLevelWritesOnlyTheError(file: TomlFile, env: Environment, flags: Flags)
    ensures Resolve(file, env, flags).Ok? ==> Emitted(Trace(file, env, flags), false) == []
    ensures !file.Table? ==> Emitted(Trace(file, env, flags), false) == [TomlErrorRecord(file)]
    ensures file.Table? && Resolve(file, env, flags).Err? ==>
      var out := Emitted(Trace(file, env, flags), false);
      |out| == 1 && out[0].level == Error && Resolve(file, env, flags) == Err(ValidateStage + out[0].message)
  {
    if file.Table? {
      var s1 := FileSettings(file);
      var debugs := [DebugRecord(TomlLoaded, s1), DebugRecord(EnvLoaded, EnvPass(s1, env)), DebugRecord(FlagsLoaded, FlagPass(flags))];
      EmittedDropsDebug(debugs);
      match ValidateConfig(FlagPass(flags))
      case Some(m) =>
        var err := LogRecord(Error, m, map[]);
        assert [err][1..] == [];
        assert Trace(file, env, flags) == debugs + [err];
        EmittedAppend(debugs, [err], false);
        assert Emitted([err], false) == [err] + Emitted([], false);
        assert Emitted(Trace(file, env, flags), false) == [err];
        assert Resolve(file, env, flags) == Err(ValidateStage + m);
      case None =>
        assert Trace(file, env, flags) == debugs;
    }
  }
}
