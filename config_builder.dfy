/** The configuration builder: turns an application's option description into
    matcher slots, merges the tokens of the optional configuration file into
    the command line, matches the result and hands back, for every option of
    the description, the values found for it or nothing. */
module ConfigBuilder {
  import opened Common
  import opened ConfigModel
  import opened Matcher
  import RcFile

  /** The option that, when the application defines it and it is present on
      the command line, keeps the configuration file out of the picture. */
  const NO_CONFIG: Bytes := Ascii("no-config")

  /** What the builder reads from its surroundings: the environment, the
      files it can open and the platform's conversion of file bytes into an
      operating-system string. */
  datatype Host = Host(env: map<Bytes, Bytes>, fs: map<Bytes, RcFile.Reader>, decodes: Bytes -> bool)

  /** Why building stops: the matcher rejects the tokens (the library prints
      its usage message and ends the process), or tokens from the file must
      be merged into an empty command line (the removal of the program name
      panics). */
  datatype BuildError = Rejected(reason: MatchError) | NoProgramName

  /** For every option of the description, the values found for it, or
      `None` when it was neither given nor defaulted. */
  type Values = map<Bytes, Option<seq<Bytes>>>

  /** The matcher slot for one option. */
  function ArgOf(o: ConfigOption): Arg {
    Arg(o.name, o.help, o.takesArgument, o.required,
        if o.takesArgument then o.default else None,
        o.list, !o.list)
  }

  /** The matcher for a description: one slot per option. */
  function AppOf(config: Configuration): App {
    App(config.name, config.version, config.about,
        map n | n in config.options :: ArgOf(config.options[n]))
  }

  /** Builds the matcher slot by slot, as the description's options come. */
  method CreateMatcher(config: Configuration) returns (app: App)
    ensures app == AppOf(config)
  {
    app := App(config.name, config.version, config.about, map[]);
    var remaining := config.options.Keys;
    while remaining != {}
      invariant remaining <= config.options.Keys
      invariant app.name == config.name && app.version == config.version && app.about == config.about
      invariant app.args.Keys == config.options.Keys - remaining
      invariant forall n :: n in app.args ==> app.args[n] == ArgOf(config.options[n])
      decreases remaining
    {
      var n :| n in remaining;
      var option := config.options[n];
      var newArg := Arg(option.name, option.help, option.takesArgument, option.required, None, false, false);
      if option.default.Some? {
        // a switch has no use for a default value: it is dropped
        if option.takesArgument {
          newArg := newArg.(default := option.default);
        }
      }
      if option.list {
        newArg := newArg.(multiple := true);
      } else {
        newArg := newArg.(overridesSelf := true);
      }
      app := app.(args := app.args[n := newArg]);
      remaining := remaining - {n};
    }
  }

  /** No token list is ever refused for giving a slot of a description's
      matcher more than once: a list option keeps every value, any other
      option overrides itself. */
  lemma NeverGivenTooOften(config: Configuration, occs: seq<Occurrence>)
    ensures GivenTooOften(AppOf(config).args, occs) == {}
  {
  }

  /** An option that takes no argument gets no default: never given, it is
      absent whatever its description says; an option that takes an argument
      and has a default falls back to exactly that default. */
  lemma DefaultsOnlyForArguments(config: Configuration, n: Bytes, occs: seq<Occurrence>)
    requires n in config.options && Count(occs, n) == 0
    ensures var o := config.options[n];
      ValuesFor(AppOf(config).args, n, occs)
        == if o.takesArgument && o.default.Some? then Some([o.default.value]) else None
  {
  }

  /** The tokens the configuration file contributes: none when the command
      line alone does not match or selects `no-config`, otherwise those the
      file named by the variable `configFileEnv` yields. */
  function FileArgs(app: App, cmd: seq<Bytes>, configFileEnv: Bytes, host: Host): seq<Bytes> {
    match Match(app, cmd)
    case Err(_) => []
    case Ok(m) =>
      if NO_CONFIG in m then [] else RcFile.RcArgs(configFileEnv, host.env, host.fs, host.decodes)
  }

  /** The token list to match: the command line is first matched on its own;
      then the file's tokens, if any, go between the program name and the
      rest of the command line, so that the command line is matched last. */
  function CombinedArguments(app: App, cmd: seq<Bytes>, configFileEnv: Bytes, host: Host): Result<seq<Bytes>, BuildError> {
    if Match(app, cmd).Err? then Err(Rejected(Match(app, cmd).error))
    else Merge(cmd, FileArgs(app, cmd, configFileEnv, host))
  }

  /** Puts the file's tokens, if any, between the program name and the rest
      of the command line. */
  function Merge(cmd: seq<Bytes>, fromFile: seq<Bytes>): Result<seq<Bytes>, BuildError> {
    if fromFile == [] then Ok(cmd)
    else if cmd == [] then Err(NoProgramName)
    else Ok([cmd[0]] + fromFile + cmd[1..])
  }

  /** Merges the file's tokens into the command line by moving the program
      name to the front of the file's tokens and appending the rest. */
  method MaybeCombineArguments(app: App, commandline: seq<Bytes>, configFileEnv: Bytes, host: Host)
    returns (r: Result<seq<Bytes>, BuildError>)
    ensures r == CombinedArguments(app, commandline, configFileEnv, host)
  {
    var commandLineArgs := Match(app, commandline);
    if commandLineArgs.Err? {
      return Err(Rejected(commandLineArgs.error));
    }
    var argsFromFile: seq<Bytes>;
    if NO_CONFIG in commandLineArgs.value {
      argsFromFile := [];
    } else {
      argsFromFile := RcFile.Args(configFileEnv, host.env, host.fs, host.decodes);
    }
    if argsFromFile == [] {
      return Ok(commandline);
    }
    if commandline == [] {
      return Err(NoProgramName);
    }
    var cliargs := commandline;
    var programName := cliargs[0];
    cliargs := cliargs[1..];
    argsFromFile := [programName] + argsFromFile;
    argsFromFile := argsFromFile + cliargs;
    r := Ok(argsFromFile);
  }

  /** The merged list keeps the program name first, then holds the file's
      tokens, then the rest of the command line: every token of both, the
      command line's last. Without tokens from the file it is the command
      line itself. */
  lemma MergeShape(cmd: seq<Bytes>, fromFile: seq<Bytes>)
    requires Merge(cmd, fromFile).Ok?
    ensures |Merge(cmd, fromFile).value| == |cmd| + |fromFile|
    ensures cmd != [] ==> Merge(cmd, fromFile).value[0] == cmd[0]
    ensures Operands(Merge(cmd, fromFile).value) == fromFile + Operands(cmd)
    ensures fromFile == [] ==> Merge(cmd, fromFile).value == cmd
  {
    if fromFile == [] {
      assert Operands(cmd) == fromFile + Operands(cmd);
    } else {
      var combined := [cmd[0]] + fromFile + cmd[1..];
      assert combined[1..] == fromFile + cmd[1..];
    }
  }

  /** For every option of the description, what the match holds for it. */
  function Extract(options: map<Bytes, ConfigOption>, m: Matches): Values {
    map n | n in options :: if n in m then Some(m[n]) else None
  }

  /** The outcome of building a configuration from a command line. */
  function Resolve(config: Configuration, cmd: seq<Bytes>, configFileEnv: Bytes, host: Host): (r: Result<Values, BuildError>)
    ensures r.Ok? ==> r.value.Keys == config.options.Keys
  {
    var app := AppOf(config);
    match CombinedArguments(app, cmd, configFileEnv, host)
    case Err(e) => Err(e)
    case Ok(combined) =>
      match Match(app, combined)
      case Err(e) => Err(Rejected(e))
      case Ok(m) => Ok(Extract(config.options, m))
  }

  /** The extracted map has exactly one entry per option of the
      description: `None` exactly when the match holds nothing for it, and
      otherwise what the match holds. */
  lemma ExtractEntries(options: map<Bytes, ConfigOption>, m: Matches, n: Bytes)
    ensures n in Extract(options, m) <==> n in options
    ensures n in options ==> (Extract(options, m)[n] == None <==> n !in m)
    ensures n in options && n in m ==> Extract(options, m)[n] == Some(m[n])
  {
  }

  /** Records, option by option, the values the match holds for it or
      their absence. */
  method ExtractValues(options: map<Bytes, ConfigOption>, matched: Matches) returns (result: Values)
    ensures result == Extract(options, matched)
    ensures result.Keys == options.Keys
  {
    result := map[];
    var remaining := options.Keys;
    while remaining != {}
      invariant remaining <= options.Keys
      invariant result.Keys == options.Keys - remaining
      invariant forall n :: n in result ==> result[n] == if n in matched then Some(matched[n]) else None
      decreases remaining
    {
      var n :| n in remaining;
      if n in matched {
        result := result[n := Some(matched[n])];
      } else {
        result := result[n := None];
      }
      remaining := remaining - {n};
    }
  }

  /** Builds the configuration: creates the matcher, merges the file in,
      matches, and records for each option its values or their absence. */
  method Build(config: Configuration, commandline: seq<Bytes>, configFileEnv: Bytes, host: Host)
    returns (r: Result<Values, BuildError>)
    ensures r == Resolve(config, commandline, configFileEnv, host)
    ensures r.Ok? ==> r.value.Keys == config.options.Keys
  {
    var matcher := CreateMatcher(config);
    var combined := MaybeCombineArguments(matcher, commandline, configFileEnv, host);
    if combined.Err? {
      return Err(combined.error);
    }
    var matched := Match(matcher, combined.value);
    if matched.Err? {
      return Err(Rejected(matched.error));
    }
    var result := ExtractValues(config.options, matched.value);
    return Ok(result);
  }

  // ---------------------------------------------------------------------
  // What a built configuration holds

  /** The occurrences the command line's own tokens scan into (none when
      they do not scan). */
  function CommandOccurrences(config: Configuration, cmd: seq<Bytes>): seq<Occurrence> {
    var s := Scan(AppOf(config).args, Operands(cmd));
    if s.Ok? then s.value else []
  }

  /** The occurrences the file's tokens scan into (none when they do not
      scan on their own). */
  function FileOccurrences(config: Configuration, cmd: seq<Bytes>, configFileEnv: Bytes, host: Host): seq<Occurrence> {
    var s := Scan(AppOf(config).args, FileArgs(AppOf(config), cmd, configFileEnv, host));
    if s.Ok? then s.value else []
  }

  /** The file's tokens scan on their own. Building succeeds only when they
      do (`ResolveOkFileScans`): a file ending in an option that waits for
      its value meets either the end of the list or the command line's
      first operand, which begins a new argument, and the combined match
      then refuses the missing value. */
  predicate FileScans(config: Configuration, cmd: seq<Bytes>, configFileEnv: Bytes, host: Host) {
    Scan(AppOf(config).args, FileArgs(AppOf(config), cmd, configFileEnv, host)).Ok?
  }

  /** Whenever building succeeds, the file's tokens scan on their own, so
      the combined scan never carries a value across the join between the
      file's tokens and the command line's. */
  lemma ResolveOkFileScans(config: Configuration, cmd: seq<Bytes>, configFileEnv: Bytes, host: Host)
    requires Resolve(config, cmd, configFileEnv, host).Ok?
    ensures FileScans(config, cmd, configFileEnv, host)
  {
    var app := AppOf(config);
    var fromFile := FileArgs(app, cmd, configFileEnv, host);
    MergeShape(cmd, fromFile);
    assert Scan(app.args, Operands(cmd)).Ok?;
    if Operands(cmd) != [] {
      ScanStartsArgument(app.args, Operands(cmd));
    }
    ScanPrefix(app.args, fromFile, Operands(cmd));
  }

  /** Every option of a built configuration holds what the matcher makes of
      the file's occurrences followed by the command line's. */
  lemma ResolvedValue(config: Configuration, cmd: seq<Bytes>, configFileEnv: Bytes, host: Host, n: Bytes)
    requires Resolve(config, cmd, configFileEnv, host).Ok?
    requires n in config.options
    ensures n in Resolve(config, cmd, configFileEnv, host).value
    ensures Resolve(config, cmd, configFileEnv, host).value[n]
      == ValuesFor(AppOf(config).args, n,
                   FileOccurrences(config, cmd, configFileEnv, host) + CommandOccurrences(config, cmd))
  {
    var app := AppOf(config);
    var fromFile := FileArgs(app, cmd, configFileEnv, host);
    var combined := CombinedArguments(app, cmd, configFileEnv, host).value;
    ResolveOkFileScans(config, cmd, configFileEnv, host);
    MergeShape(cmd, fromFile);
    assert Scan(app.args, Operands(cmd)).Ok?;
    ScanAppend(app.args, fromFile, Operands(cmd));
    assert Scan(app.args, Operands(combined)).value
      == FileOccurrences(config, cmd, configFileEnv, host) + CommandOccurrences(config, cmd);
  }

  /** An option that takes one argument and is given on the command line
      gets the command line's last value, whatever the file says. */
  lemma CommandLineOverridesFile(config: Configuration, cmd: seq<Bytes>, configFileEnv: Bytes, host: Host, n: Bytes)
    requires Resolve(config, cmd, configFileEnv, host).Ok?
    requires n in config.options && config.options[n].takesArgument && !config.options[n].list
    requires Count(CommandOccurrences(config, cmd), n) > 0
    ensures |ValuesIn(CommandOccurrences(config, cmd), n)| > 0
    ensures Resolve(config, cmd, configFileEnv, host).value[n]
      == Some([Last(ValuesIn(CommandOccurrences(config, cmd), n))])
  {
    var args := AppOf(config).args;
    ValuesPerOccurrence(args, Operands(cmd), n);
    ResolvedValue(config, cmd, configFileEnv, host, n);
    LaterValueWins(args, n, FileOccurrences(config, cmd, configFileEnv, host), CommandOccurrences(config, cmd));
  }

  /** An option that takes one argument and is given only in the file gets
      the file's last value. */
  lemma FileValueWhenCommandLineSilent(config: Configuration, cmd: seq<Bytes>, configFileEnv: Bytes, host: Host, n: Bytes)
    requires Resolve(config, cmd, configFileEnv, host).Ok?
    requires n in config.options && config.options[n].takesArgument && !config.options[n].list
    requires Count(CommandOccurrences(config, cmd), n) == 0
    requires Count(FileOccurrences(config, cmd, configFileEnv, host), n) > 0
    ensures |ValuesIn(FileOccurrences(config, cmd, configFileEnv, host), n)| > 0
    ensures Resolve(config, cmd, configFileEnv, host).value[n]
      == Some([Last(ValuesIn(FileOccurrences(config, cmd, configFileEnv, host), n))])
  {
    var app := AppOf(config);
    ResolveOkFileScans(config, cmd, configFileEnv, host);
    ValuesPerOccurrence(app.args, FileArgs(app, cmd, configFileEnv, host), n);
    ResolvedValue(config, cmd, configFileEnv, host, n);
    EarlierValueStands(app.args, n, FileOccurrences(config, cmd, configFileEnv, host), CommandOccurrences(config, cmd));
  }

  /** A list option keeps every value, the file's first and then the
      command line's, each in its own order. */
  lemma ListAccumulates(config: Configuration, cmd: seq<Bytes>, configFileEnv: Bytes, host: Host, n: Bytes)
    requires Resolve(config, cmd, configFileEnv, host).Ok?
    requires n in config.options && config.options[n].list
    requires Count(FileOccurrences(config, cmd, configFileEnv, host), n) + Count(CommandOccurrences(config, cmd), n) > 0
    ensures Resolve(config, cmd, configFileEnv, host).value[n]
      == Some(ValuesIn(FileOccurrences(config, cmd, configFileEnv, host), n) + ValuesIn(CommandOccurrences(config, cmd), n))
  {
    ResolvedValue(config, cmd, configFileEnv, host, n);
    AllValuesKept(AppOf(config).args, n, FileOccurrences(config, cmd, configFileEnv, host), CommandOccurrences(config, cmd));
  }

  /** An option given nowhere holds its default when it takes an argument
      and has one, and nothing otherwise: the default of a switch is
      ignored. */
  lemma AbsentFallsBackToDefault(config: Configuration, cmd: seq<Bytes>, configFileEnv: Bytes, host: Host, n: Bytes)
    requires Resolve(config, cmd, configFileEnv, host).Ok?
    requires n in config.options
    requires Count(FileOccurrences(config, cmd, configFileEnv, host), n) + Count(CommandOccurrences(config, cmd), n) == 0
    ensures var o := config.options[n];
      Resolve(config, cmd, configFileEnv, host).value[n]
        == if o.takesArgument && o.default.Some? then Some([o.default.value]) else None
  {
    ResolvedValue(config, cmd, configFileEnv, host, n);
    CountAppend(FileOccurrences(config, cmd, configFileEnv, host), CommandOccurrences(config, cmd), n);
  }

  /** A switch that is given holds an empty list of values: present, but
      with nothing to read. */
  lemma SwitchGivenHoldsNoValues(config: Configuration, cmd: seq<Bytes>, configFileEnv: Bytes, host: Host, n: Bytes)
    requires Resolve(config, cmd, configFileEnv, host).Ok?
    requires n in config.options && !config.options[n].takesArgument
    requires Count(FileOccurrences(config, cmd, configFileEnv, host), n) + Count(CommandOccurrences(config, cmd), n) > 0
    ensures Resolve(config, cmd, configFileEnv, host).value[n] == Some([])
  {
    var app := AppOf(config);
    var f := FileOccurrences(config, cmd, configFileEnv, host);
    var c := CommandOccurrences(config, cmd);
    ResolveOkFileScans(config, cmd, configFileEnv, host);
    ValuesPerOccurrence(app.args, FileArgs(app, cmd, configFileEnv, host), n);
    ValuesPerOccurrence(app.args, Operands(cmd), n);
    ResolvedValue(config, cmd, configFileEnv, host, n);
    CountAppend(f, c, n);
  }

  /** A required option without a usable default that the command line does
      not give is refused by the first match, on the command line alone, so
      giving it in the file does not help. */
  lemma RequiredOnlyInFileRejected(config: Configuration, cmd: seq<Bytes>, configFileEnv: Bytes, host: Host, n: Bytes)
    requires n in config.options && config.options[n].required
    requires config.options[n].default.None? || !config.options[n].takesArgument
    requires Scan(AppOf(config).args, Operands(cmd)).Ok?
    requires Count(CommandOccurrences(config, cmd), n) == 0
    ensures Resolve(config, cmd, configFileEnv, host).Err?
    ensures Resolve(config, cmd, configFileEnv, host).error.Rejected?
    ensures Resolve(config, cmd, configFileEnv, host).error.reason.MissingRequired?
    ensures n in Resolve(config, cmd, configFileEnv, host).error.reason.names
  {
    var app := AppOf(config);
    assert n in MissingSlots(app.args, CommandOccurrences(config, cmd));
  }

  /** When the command line gives `no-config`, the file is not read: the
      command line is matched as it is. */
  lemma NoConfigBypassesFile(config: Configuration, cmd: seq<Bytes>, configFileEnv: Bytes, host: Host)
    requires Match(AppOf(config), cmd).Ok?
    requires Count(CommandOccurrences(config, cmd), NO_CONFIG) > 0
    ensures FileArgs(AppOf(config), cmd, configFileEnv, host) == []
    ensures CombinedArguments(AppOf(config), cmd, configFileEnv, host) == Ok(cmd)
  {
    OccursOnlyIfSlot(AppOf(config).args, Operands(cmd), NO_CONFIG);
  }

  /** A `no-config` option that takes an argument and has a default is
      always present in the first match, so the file is never read. */
  lemma NoConfigDefaultBypassesFile(config: Configuration, cmd: seq<Bytes>, configFileEnv: Bytes, host: Host)
    requires NO_CONFIG in config.options
    requires config.options[NO_CONFIG].takesArgument && config.options[NO_CONFIG].default.Some?
    requires Match(AppOf(config), cmd).Ok?
    ensures FileArgs(AppOf(config), cmd, configFileEnv, host) == []
  {
  }

  /** A `no-config` switch that the command line does not give leaves the
      file in use, even when a default is described for it: the matcher
      drops the default of a switch. */
  lemma NoConfigSwitchDefaultReadsFile(config: Configuration, cmd: seq<Bytes>, configFileEnv: Bytes, host: Host)
    requires NO_CONFIG in config.options && !config.options[NO_CONFIG].takesArgument
    requires Match(AppOf(config), cmd).Ok?
    requires Count(CommandOccurrences(config, cmd), NO_CONFIG) == 0
    ensures FileArgs(AppOf(config), cmd, configFileEnv, host)
      == RcFile.RcArgs(configFileEnv, host.env, host.fs, host.decodes)
  {
  }

  /** A description without a `no-config` option never bypasses the file:
      once the command line matches, the file's tokens are merged in. */
  lemma NoConfigNeedsOption(config: Configuration, cmd: seq<Bytes>, configFileEnv: Bytes, host: Host)
    requires NO_CONFIG !in config.options
    requires Match(AppOf(config), cmd).Ok?
    ensures FileArgs(AppOf(config), cmd, configFileEnv, host)
      == RcFile.RcArgs(configFileEnv, host.env, host.fs, host.decodes)
  {
  }

  /** With nothing required, the matcher accepts every command line whose
      operands scan. */
  lemma CommandLineMatches(config: Configuration, cmd: seq<Bytes>)
    requires forall n :: n in config.options ==> !config.options[n].required
    requires Scan(AppOf(config).args, Operands(cmd)).Ok?
    ensures Match(AppOf(config), cmd).Ok?
  {
    var c := CommandOccurrences(config, cmd);
    NeverGivenTooOften(config, c);
    assert MissingSlots(AppOf(config).args, c) == {};
  }

  /** When no option is required, the command line scans and there is a
      program name, building succeeds exactly when the file's tokens scan
      on their own. */
  lemma NothingRequiredSucceeds(config: Configuration, cmd: seq<Bytes>, configFileEnv: Bytes, host: Host)
    requires forall n :: n in config.options ==> !config.options[n].required
    requires Scan(AppOf(config).args, Operands(cmd)).Ok?
    requires cmd != []
    ensures Resolve(config, cmd, configFileEnv, host).Ok? <==> FileScans(config, cmd, configFileEnv, host)
  {
    if Resolve(config, cmd, configFileEnv, host).Ok? {
      ResolveOkFileScans(config, cmd, configFileEnv, host);
    }
    if FileScans(config, cmd, configFileEnv, host) {
      var app := AppOf(config);
      var c := CommandOccurrences(config, cmd);
      CommandLineMatches(config, cmd);
      var fromFile := FileArgs(app, cmd, configFileEnv, host);
      MergeShape(cmd, fromFile);
      var combined := Merge(cmd, fromFile).value;
      ScanAppend(app.args, fromFile, Operands(cmd));
      var both := FileOccurrences(config, cmd, configFileEnv, host) + c;
      NeverGivenTooOften(config, both);
      assert MissingSlots(app.args, both) == {};
    }
  }

  /** With nothing required, a command line that scans, and file tokens
      that scan, every option holds what the matcher makes of the file's
      occurrences followed by the command line's. */
  lemma ResolvedFromBoth(config: Configuration, cmd: seq<Bytes>, configFileEnv: Bytes, host: Host)
    requires forall n :: n in config.options ==> !config.options[n].required
    requires Scan(AppOf(config).args, Operands(cmd)).Ok?
    requires FileScans(config, cmd, configFileEnv, host)
    requires cmd != []
    ensures Resolve(config, cmd, configFileEnv, host).Ok?
    ensures forall n :: n in config.options ==>
      n in Resolve(config, cmd, configFileEnv, host).value &&
      Resolve(config, cmd, configFileEnv, host).value[n]
        == ValuesFor(AppOf(config).args, n,
                     FileOccurrences(config, cmd, configFileEnv, host) + CommandOccurrences(config, cmd))
  {
    NothingRequiredSucceeds(config, cmd, configFileEnv, host);
    forall n | n in config.options
      ensures n in Resolve(config, cmd, configFileEnv, host).value
      ensures Resolve(config, cmd, configFileEnv, host).value[n]
        == ValuesFor(AppOf(config).args, n,
                     FileOccurrences(config, cmd, configFileEnv, host) + CommandOccurrences(config, cmd))
    {
      ResolvedValue(config, cmd, configFileEnv, host, n);
    }
  }

  /** Without a configuration file, every option holds what the matcher
      makes of the command line's own occurrences. */
  lemma CommandLineAlone(config: Configuration, cmd: seq<Bytes>, configFileEnv: Bytes, host: Host, occs: seq<Occurrence>)
    requires forall n :: n in config.options ==> !config.options[n].required
    requires configFileEnv !in host.env
    requires Scan(AppOf(config).args, Operands(cmd)) == Ok(occs)
    requires cmd != []
    ensures Resolve(config, cmd, configFileEnv, host).Ok?
    ensures forall n :: n in config.options ==>
      Resolve(config, cmd, configFileEnv, host).value[n] == ValuesFor(AppOf(config).args, n, occs)
  {
    RcFile.NoFileNoTokens(configFileEnv, host.env, host.fs, host.decodes);
    assert FileArgs(AppOf(config), cmd, configFileEnv, host) == [];
    assert FileOccurrences(config, cmd, configFileEnv, host) + CommandOccurrences(config, cmd) == occs;
    ResolvedFromBoth(config, cmd, configFileEnv, host);
  }
}
