/** The test configuration of the builder's own test suite, and what the
    model says about the command lines and the configuration file those
    tests use. The scenarios hold for any four distinct option names and any
    help texts; the names the tests use are shown to be distinct. Program
    names, values and the variable's name are left open too, as the tests'
    choices do not matter. */
module Scenarios {
  import opened Common
  import opened ConfigModel
  import opened Matcher
  import opened ConfigBuilder
  import RcFile

  /** The names, help texts and documentation texts of the four test
      options. */
  datatype Labels = Labels(
    param: Bytes, param2: Bytes, switch: Bytes, multiple: Bytes,
    paramHelp: Bytes, paramDoc: Bytes, param2Help: Bytes, param2Doc: Bytes,
    switchHelp: Bytes, switchDoc: Bytes, multipleHelp: Bytes, multipleDoc: Bytes)

  /** The names are pairwise different, and none is `no-config`. */
  predicate Distinct(lb: Labels) {
    && lb.param != lb.param2 && lb.param != lb.switch && lb.param != lb.multiple
    && lb.param2 != lb.switch && lb.param2 != lb.multiple && lb.switch != lb.multiple
    && NO_CONFIG != lb.param && NO_CONFIG != lb.param2
    && NO_CONFIG != lb.switch && NO_CONFIG != lb.multiple
  }

  /** The labels the tests use. */
  const TEST_LABELS := Labels(
    Ascii("testparam"), Ascii("testparam2"), Ascii("testswitch"), Ascii("testmultiple"),
    Ascii("Testhelp"), Ascii("Testdoc"), Ascii("test2"), Ascii("test2"),
    Ascii("a switch that can be provided - or not"), Ascii("test doc switch"),
    Ascii("A parameter that can be specified multiple times and all values will be used."), [])

  const UDTARINE := Ascii("udtarine")
  const THREE := Ascii("3")

  /** The names the tests use are distinct. */
  lemma TestLabelsDistinct()
    ensures Distinct(TEST_LABELS)
  {
    assert TEST_LABELS.param2[4] != TEST_LABELS.switch[4];
    assert NO_CONFIG[0] != TEST_LABELS.param[0];
  }

  /** A value-taking option with a default, not a list. */
  function TestParam(lb: Labels): ConfigOption {
    ConfigOption(lb.param, Some(UDTARINE), false, true, lb.paramHelp, lb.paramDoc, false)
  }

  /** A value-taking option without a default, not a list. */
  function TestParam2(lb: Labels): ConfigOption {
    ConfigOption(lb.param2, None, false, true, lb.param2Help, lb.param2Doc, false)
  }

  /** A switch. */
  function TestSwitch(lb: Labels): ConfigOption {
    ConfigOption(lb.switch, None, false, false, lb.switchHelp, lb.switchDoc, false)
  }

  /** A value-taking list option with a default. */
  function TestMultiple(lb: Labels): ConfigOption {
    ConfigOption(lb.multiple, Some(THREE), false, true, lb.multipleHelp, lb.multipleDoc, true)
  }

  /** The tests' description: the four options, keyed by name. */
  function TestConfig(lb: Labels): Configuration {
    Configuration(Ascii("Test Tool"), Ascii("0.1"), Ascii("blabla"),
                  map[lb.param := TestParam(lb), lb.param2 := TestParam2(lb),
                      lb.switch := TestSwitch(lb), lb.multiple := TestMultiple(lb)])
  }

  /** The tests collect their four options into the description's set;
      with distinct names the set holds all four, keyed by name. */
  lemma TestOptionsCollected(lb: Labels)
    requires Distinct(lb)
    ensures Collect([TestParam(lb), TestParam2(lb), TestSwitch(lb), TestMultiple(lb)]) == TestConfig(lb).options
  {
    var p, p2, sw, m := TestParam(lb), TestParam2(lb), TestSwitch(lb), TestMultiple(lb);
    var list := [p, p2, sw, m];
    assert list[..3] == [p, p2, sw] && [p, p2, sw][..2] == [p, p2] && [p, p2][..1] == [p] && [p][..0] == [];
    assert Collect([p]) == map[lb.param := p];
    assert Collect([p, p2]) == map[lb.param := p, lb.param2 := p2];
    assert Collect([p, p2, sw]) == map[lb.param := p, lb.param2 := p2, lb.switch := sw];
  }

  /** The slots of the tests' matcher; none of the options is required. */
  lemma TestSlots(lb: Labels)
    requires Distinct(lb)
    ensures var args := AppOf(TestConfig(lb)).args;
      && lb.param in args && args[lb.param] == ArgOf(TestParam(lb))
      && lb.param2 in args && args[lb.param2] == ArgOf(TestParam2(lb))
      && lb.switch in args && args[lb.switch] == ArgOf(TestSwitch(lb))
      && lb.multiple in args && args[lb.multiple] == ArgOf(TestMultiple(lb))
    ensures forall n :: n in TestConfig(lb).options ==> !TestConfig(lb).options[n].required
    ensures NO_CONFIG !in TestConfig(lb).options
  {
  }

  /** Regrouping a display of tokens into pairs. */
  lemma Pairs<T>(a: T, b: T, c: T, d: T)
    ensures [a, b, c, d] == [a, b] + ([c, d] + [])
  {
  }

  /** Regrouping the displays of the tests' command lines. */
  lemma SplitOne<T>(p: T, a: T, b: T)
    ensures [p, a, b] == [p] + ([a, b] + [])
  {
  }

  lemma SplitSwitchTwo<T>(p: T, s: T, a: T, b: T, c: T, d: T)
    ensures [p, s, a, b, c, d] == [p] + ([s] + ([a, b] + ([c, d] + [])))
  {
  }

  lemma SplitThree<T>(p: T, a: T, b: T, c: T, d: T, e: T, f: T)
    ensures [p, a, b, c, d, e, f] == [p] + ([a, b] + ([c, d] + ([e, f] + [])))
  {
  }

  /** The operands of a command line are what follows the program name. */
  lemma OperandsAfter(program: Bytes, rest: seq<Bytes>)
    ensures Operands([program] + rest) == rest
  {
    assert ([program] + rest)[1..] == rest;
  }

  /** `program --testparam value`: the option holds the value, the two
      other options without a default are absent. */
  lemma ParseSingleParam(lb: Labels, program: Bytes, value: Bytes, variable: Bytes, host: Host)
    requires Distinct(lb) && variable !in host.env && !StartsArgument(value)
    ensures Resolve(TestConfig(lb), [program, LongFlag(lb.param), value], variable, host).Ok?
    ensures var r := Resolve(TestConfig(lb), [program, LongFlag(lb.param), value], variable, host).value;
      && r[lb.param] == Some([value])
      && r[lb.param2] == None
      && r[lb.switch] == None
  {
    var config := TestConfig(lb);
    var cmd := [program, LongFlag(lb.param), value];
    var args := AppOf(config).args;
    TestSlots(lb);
    var o := Occurrence(lb.param, Some(value));
    SplitOne(program, LongFlag(lb.param), value);
    OperandsAfter(program, [LongFlag(lb.param), value] + []);
    ScanGivenValue(args, lb.param, value, []);
    CommandLineAlone(config, cmd, variable, host, [o] + []);
    OneValueHeld(args, lb.param, value, lb.param2, lb.switch);
  }

  /** `program --testparam --testswitch`: the switch is not taken as the
      option's value; the command line is refused for the missing value,
      whatever the environment holds. */
  lemma ValueMissingBeforeSwitch(lb: Labels, program: Bytes, variable: Bytes, host: Host)
    requires Distinct(lb)
    ensures Resolve(TestConfig(lb), [program, LongFlag(lb.param), LongFlag(lb.switch)], variable, host)
      == Err(Rejected(MissingValue(lb.param)))
  {
    var args := AppOf(TestConfig(lb)).args;
    TestSlots(lb);
    SplitOne(program, LongFlag(lb.param), LongFlag(lb.switch));
    OperandsAfter(program, [LongFlag(lb.param), LongFlag(lb.switch)] + []);
    assert [LongFlag(lb.param), LongFlag(lb.switch)] + [] == [LongFlag(lb.param)] + [LongFlag(lb.switch)];
    assert LongFlag(lb.switch)[0] == DASH_DASH[0];
    ValueMissingBeforeArgument(args, lb.param, [LongFlag(lb.switch)]);
  }

  /** `program --testswitch --testparam v1 --testparam2 v2`: each option
      holds what it was given, the switch an empty list. */
  lemma ParseMultipleParams(lb: Labels, program: Bytes, v1: Bytes, v2: Bytes, variable: Bytes, host: Host)
    requires Distinct(lb) && variable !in host.env && !StartsArgument(v1) && !StartsArgument(v2)
    ensures var cmd := [program, LongFlag(lb.switch), LongFlag(lb.param), v1, LongFlag(lb.param2), v2];
      Resolve(TestConfig(lb), cmd, variable, host).Ok?
    ensures var cmd := [program, LongFlag(lb.switch), LongFlag(lb.param), v1, LongFlag(lb.param2), v2];
      var r := Resolve(TestConfig(lb), cmd, variable, host).value;
      && r[lb.switch] == Some([])
      && r[lb.param] == Some([v1])
      && r[lb.param2] == Some([v2])
  {
    var config := TestConfig(lb);
    var cmd := [program, LongFlag(lb.switch), LongFlag(lb.param), v1, LongFlag(lb.param2), v2];
    var args := AppOf(config).args;
    TestSlots(lb);
    var o1, o2, o3 := Occurrence(lb.switch, None), Occurrence(lb.param, Some(v1)), Occurrence(lb.param2, Some(v2));
    var t3 := [LongFlag(lb.param2), v2] + [];
    var t2 := [LongFlag(lb.param), v1] + t3;
    SplitSwitchTwo(program, LongFlag(lb.switch), LongFlag(lb.param), v1, LongFlag(lb.param2), v2);
    OperandsAfter(program, [LongFlag(lb.switch)] + t2);
    ScanGivenValue(args, lb.param2, v2, []);
    ScanGivenValue(args, lb.param, v1, t3);
    ScanGivenSwitch(args, lb.switch, t2);
    CommandLineAlone(config, cmd, variable, host, [o1] + ([o2] + ([o3] + [])));
    SwitchAndTwoValuesHeld(args, lb.switch, lb.param, v1, lb.param2, v2);
  }

  /** One value for a single-valued slot: the slot holds it, two other
      slots without a default hold nothing. */
  lemma OneValueHeld(args: map<Bytes, Arg>, p: Bytes, v: Bytes, q: Bytes, r: Bytes)
    requires p in args && !args[p].multiple
    requires q in args && q != p && args[q].default.None?
    requires r in args && r != p && args[r].default.None?
    ensures ValuesFor(args, p, [Occurrence(p, Some(v))] + []) == Some([v])
    ensures ValuesFor(args, q, [Occurrence(p, Some(v))] + []) == None
    ensures ValuesFor(args, r, [Occurrence(p, Some(v))] + []) == None
  {
    var o := Occurrence(p, Some(v));
    CountCons(o, [], p);
    CountCons(o, [], q);
    CountCons(o, [], r);
  }

  /** A switch followed by one value for each of two single-valued slots:
      the switch holds no values, each slot its own value. */
  lemma SwitchAndTwoValuesHeld(args: map<Bytes, Arg>, sw: Bytes, p: Bytes, v1: Bytes, p2: Bytes, v2: Bytes)
    requires sw in args && p in args && p2 in args
    requires sw != p && sw != p2 && p != p2
    requires !args[sw].multiple && !args[p].multiple && !args[p2].multiple
    ensures var occs := [Occurrence(sw, None)] + ([Occurrence(p, Some(v1))] + ([Occurrence(p2, Some(v2))] + []));
      && ValuesFor(args, sw, occs) == Some([])
      && ValuesFor(args, p, occs) == Some([v1])
      && ValuesFor(args, p2, occs) == Some([v2])
  {
    var o1, o2, o3 := Occurrence(sw, None), Occurrence(p, Some(v1)), Occurrence(p2, Some(v2));
    forall n | n in {sw, p, p2}
      ensures Count([o1] + ([o2] + ([o3] + [])), n) == 1
      ensures ValuesIn([o1] + ([o2] + ([o3] + [])), n)
        == (if n == p then [v1] else if n == p2 then [v2] else [])
    {
      CountCons(o3, [], n);
      CountCons(o2, [o3] + [], n);
      CountCons(o1, [o2] + ([o3] + []), n);
    }
  }

  /** One value each for two single-valued slots: each holds its own. */
  lemma TwoValuesHeld(args: map<Bytes, Arg>, p: Bytes, v1: Bytes, p2: Bytes, v2: Bytes)
    requires p in args && p2 in args && p != p2
    requires !args[p].multiple && !args[p2].multiple
    ensures var occs := [Occurrence(p, Some(v1))] + ([Occurrence(p2, Some(v2))] + []);
      && ValuesFor(args, p, occs) == Some([v1])
      && ValuesFor(args, p2, occs) == Some([v2])
  {
    var o1, o2 := Occurrence(p, Some(v1)), Occurrence(p2, Some(v2));
    CountCons(o2, [], p);
    CountCons(o1, [o2] + [], p);
    CountCons(o2, [], p2);
    CountCons(o1, [o2] + [], p2);
  }

  /** Two values from the file for two single-valued slots, then one from
      the command line for the first: the first holds the command line's
      value, the second the file's. */
  lemma OverriddenHeld(args: map<Bytes, Arg>, p: Bytes, f1: Bytes, p2: Bytes, f2: Bytes, v: Bytes)
    requires p in args && p2 in args && p != p2
    requires !args[p].multiple && !args[p2].multiple
    ensures var occs := ([Occurrence(p, Some(f1))] + ([Occurrence(p2, Some(f2))] + [])) + ([Occurrence(p, Some(v))] + []);
      && ValuesFor(args, p, occs) == Some([v])
      && ValuesFor(args, p2, occs) == Some([f2])
  {
    var o1, o2, o3 := Occurrence(p, Some(f1)), Occurrence(p2, Some(f2)), Occurrence(p, Some(v));
    var file := [o1] + ([o2] + []);
    CountCons(o3, [], p);
    CountCons(o3, [], p2);
    CountCons(o2, [], p2);
    CountCons(o1, [o2] + [], p2);
    LaterValueWins(args, p, file, [o3] + []);
    EarlierValueStands(args, p2, file, [o3] + []);
  }

  /** Three values for a list slot: it holds all three, in order. */
  lemma ListHeld(args: map<Bytes, Arg>, m: Bytes, a: Bytes, b: Bytes, c: Bytes)
    requires m in args && args[m].multiple
    ensures ValuesFor(args, m, [Occurrence(m, Some(a))] + ([Occurrence(m, Some(b))] + ([Occurrence(m, Some(c))] + [])))
      == Some([a, b, c])
  {
    var o1, o2, o3 := Occurrence(m, Some(a)), Occurrence(m, Some(b)), Occurrence(m, Some(c));
    CountCons(o3, [], m);
    CountCons(o2, [o3] + [], m);
    CountCons(o1, [o2] + ([o3] + []), m);
    assert [a] + ([b] + ([c] + [])) == [a, b, c];
  }

  /** `program` alone: the two options with a default hold it, the others
      are absent. */
  lemma ParametersAbsent(lb: Labels, program: Bytes, variable: Bytes, host: Host)
    requires Distinct(lb) && variable !in host.env
    ensures Resolve(TestConfig(lb), [program], variable, host).Ok?
    ensures var r := Resolve(TestConfig(lb), [program], variable, host).value;
      && r[lb.switch] == None
      && r[lb.param] == Some([UDTARINE])
      && r[lb.param2] == None
      && r[lb.multiple] == Some([THREE])
  {
    var config := TestConfig(lb);
    var cmd := [program];
    TestSlots(lb);
    OperandsAfter(program, []);
    CommandLineAlone(config, cmd, variable, host, []);
  }

  /** The tests' configuration file: the two single-valued options, each on
      its own line and followed by its value on the next; every line is
      already a token, and neither value looks like an option. */
  predicate TestFile(lb: Labels, variable: Bytes, host: Host, f1: Bytes, f2: Bytes) {
    var lines := [LongFlag(lb.param), f1, LongFlag(lb.param2), f2];
    && variable in host.env && host.env[variable] != []
    && host.env[variable] in host.fs
    && host.fs[host.env[variable]] == RcFile.Reader(lines, false)
    && !StartsArgument(f1) && !StartsArgument(f2)
    && forall i :: 0 <= i < |lines| ==> RcFile.IsCleanToken(lines[i], host.decodes)
  }

  /** What the tests' file contributes once the command line matches. */
  lemma TestFileArgs(lb: Labels, cmd: seq<Bytes>, variable: Bytes, host: Host, f1: Bytes, f2: Bytes)
    requires Distinct(lb) && TestFile(lb, variable, host, f1, f2)
    requires Match(AppOf(TestConfig(lb)), cmd).Ok?
    ensures FileScans(TestConfig(lb), cmd, variable, host)
    ensures FileOccurrences(TestConfig(lb), cmd, variable, host)
      == [Occurrence(lb.param, Some(f1))] + ([Occurrence(lb.param2, Some(f2))] + [])
  {
    var config := TestConfig(lb);
    var lines := [LongFlag(lb.param), f1, LongFlag(lb.param2), f2];
    var args := AppOf(config).args;
    TestSlots(lb);
    NoConfigNeedsOption(config, cmd, variable, host);
    RcFile.FileTokens(variable, host.env, host.fs, host.decodes);
    RcFile.CleanLinesAreTokens(lines, host.decodes);
    Pairs(LongFlag(lb.param), f1, LongFlag(lb.param2), f2);
    ScanGivenValue(args, lb.param2, f2, []);
    ScanGivenValue(args, lb.param, f1, [LongFlag(lb.param2), f2] + []);
  }

  /** `program` with the file: both options hold the file's values. */
  lemma ParseFromFileOnly(lb: Labels, program: Bytes, variable: Bytes, host: Host, f1: Bytes, f2: Bytes)
    requires Distinct(lb) && TestFile(lb, variable, host, f1, f2)
    ensures Resolve(TestConfig(lb), [program], variable, host).Ok?
    ensures var r := Resolve(TestConfig(lb), [program], variable, host).value;
      && r[lb.param] == Some([f1])
      && r[lb.param2] == Some([f2])
  {
    var config := TestConfig(lb);
    var cmd := [program];
    var args := AppOf(config).args;
    TestSlots(lb);
    OperandsAfter(program, []);
    CommandLineMatches(config, cmd);
    TestFileArgs(lb, cmd, variable, host, f1, f2);
    ResolvedFromBoth(config, cmd, variable, host);
    var o1, o2 := Occurrence(lb.param, Some(f1)), Occurrence(lb.param2, Some(f2));
    assert FileOccurrences(config, cmd, variable, host) + CommandOccurrences(config, cmd) == [o1] + ([o2] + []);
    TwoValuesHeld(args, lb.param, f1, lb.param2, f2);
  }

  /** `program --testparam v` with the file: the command line's value
      overrides the file's for that option, the other keeps the file's. */
  lemma OverrideValueFromFile(lb: Labels, program: Bytes, v: Bytes, variable: Bytes, host: Host, f1: Bytes, f2: Bytes)
    requires Distinct(lb) && TestFile(lb, variable, host, f1, f2) && !StartsArgument(v)
    ensures Resolve(TestConfig(lb), [program, LongFlag(lb.param), v], variable, host).Ok?
    ensures var r := Resolve(TestConfig(lb), [program, LongFlag(lb.param), v], variable, host).value;
      && r[lb.param] == Some([v])
      && r[lb.param2] == Some([f2])
  {
    var config := TestConfig(lb);
    var cmd := [program, LongFlag(lb.param), v];
    var args := AppOf(config).args;
    TestSlots(lb);
    SplitOne(program, LongFlag(lb.param), v);
    OperandsAfter(program, [LongFlag(lb.param), v] + []);
    ScanGivenValue(args, lb.param, v, []);
    var o1, o2, o3 := Occurrence(lb.param, Some(f1)), Occurrence(lb.param2, Some(f2)), Occurrence(lb.param, Some(v));
    assert CommandOccurrences(config, cmd) == [o3] + [];
    CommandLineMatches(config, cmd);
    TestFileArgs(lb, cmd, variable, host, f1, f2);
    ResolvedFromBoth(config, cmd, variable, host);
    OverriddenHeld(args, lb.param, f1, lb.param2, f2, v);
  }

  /** `program --testmultiple a --testmultiple b --testmultiple c`: the list
      option holds all three values, in order. */
  lemma TestMultipleValues(lb: Labels, program: Bytes, a: Bytes, b: Bytes, c: Bytes, variable: Bytes, host: Host)
    requires Distinct(lb) && variable !in host.env
    requires !StartsArgument(a) && !StartsArgument(b) && !StartsArgument(c)
    ensures var cmd := [program, LongFlag(lb.multiple), a, LongFlag(lb.multiple), b, LongFlag(lb.multiple), c];
      Resolve(TestConfig(lb), cmd, variable, host).Ok?
    ensures var cmd := [program, LongFlag(lb.multiple), a, LongFlag(lb.multiple), b, LongFlag(lb.multiple), c];
      Resolve(TestConfig(lb), cmd, variable, host).value[lb.multiple] == Some([a, b, c])
  {
    var config := TestConfig(lb);
    var m := lb.multiple;
    var cmd := [program, LongFlag(m), a, LongFlag(m), b, LongFlag(m), c];
    var args := AppOf(config).args;
    TestSlots(lb);
    var t3 := [LongFlag(m), c] + [];
    var t2 := [LongFlag(m), b] + t3;
    SplitThree(program, LongFlag(m), a, LongFlag(m), b, LongFlag(m), c);
    OperandsAfter(program, [LongFlag(m), a] + t2);
    ScanGivenValue(args, m, c, []);
    ScanGivenValue(args, m, b, t3);
    ScanGivenValue(args, m, a, t2);
    var o1, o2, o3 := Occurrence(m, Some(a)), Occurrence(m, Some(b)), Occurrence(m, Some(c));
    CommandLineAlone(config, cmd, variable, host, [o1] + ([o2] + ([o3] + [])));
    ListHeld(args, m, a, b, c);
  }
}
