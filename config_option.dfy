/** The description of the options an application accepts. Options are
    identified by name alone: equality and hashing look at nothing else, so
    the set of options of a configuration holds at most one option per name.
    The model therefore keys that set, and every mapping keyed by option, by
    the option's name. */
module ConfigModel {
  import opened Common

  /** One accepted option. `default` is ignored for options that take no
      argument; `list` lets the option be given several times with every
      value kept. */
  datatype ConfigOption = ConfigOption(
    name: Bytes,
    default: Option<Bytes>,
    required: bool,
    takesArgument: bool,
    help: Bytes,
    documentation: Bytes,
    list: bool)

  /** An application's description: three texts for the help output and
      the set of its options, keyed by name. */
  datatype Configuration = Configuration(
    name: Bytes,
    version: Bytes,
    about: Bytes,
    options: map<Bytes, ConfigOption>)

  /** The option set is keyed by the options' own names. */
  predicate WellFormed(config: Configuration) {
    forall n :: n in config.options ==> config.options[n].name == n
  }

  /** Equality of options: their names agree. */
  predicate SameOption(a: ConfigOption, b: ConfigOption) {
    a.name == b.name
  }

  /** The hash of an option under a hasher: only the name is fed to it. */
  function HashOf(o: ConfigOption, hasher: Bytes -> int): int {
    hasher(o.name)
  }

  /** Equality of options is an equivalence relation. */
  lemma SameOptionIsEquivalence(a: ConfigOption, b: ConfigOption, c: ConfigOption)
    ensures SameOption(a, a)
    ensures SameOption(a, b) ==> SameOption(b, a)
    ensures SameOption(a, b) && SameOption(b, c) ==> SameOption(a, c)
  {
  }

  /** Two options are equal exactly when every hasher gives them the same
      hash: hashing agrees with equality, and it looks at nothing but the
      name, whatever the other fields hold. */
  lemma SameOptionIffHashAlike(a: ConfigOption, b: ConfigOption)
    ensures SameOption(a, b) <==> forall hasher: Bytes -> int :: HashOf(a, hasher) == HashOf(b, hasher)
  {
    if !SameOption(a, b) {
      var tell := (x: Bytes) => if x == a.name then 0 else 1;
      assert HashOf(a, tell) != HashOf(b, tell);
    }
  }

  /** Adding an option to a set: an option equal to one already there
      leaves the set as it was. */
  function Insert(options: map<Bytes, ConfigOption>, o: ConfigOption): map<Bytes, ConfigOption> {
    if o.name in options then options else options[o.name := o]
  }

  /** The set of a list of options, added one after the other. */
  function Collect(list: seq<ConfigOption>): map<Bytes, ConfigOption>
    decreases |list|
  {
    if list == [] then map[] else Insert(Collect(list[..|list| - 1]), Last(list))
  }

  /** A collected set holds one option per name in the list, keyed by that
      name, and it is the first option of the list with that name. */
  lemma {:induction false} CollectKeepsFirst(list: seq<ConfigOption>, n: Bytes)
    ensures n in Collect(list) <==> exists i :: 0 <= i < |list| && list[i].name == n
    ensures n in Collect(list) ==> Collect(list)[n].name == n
    ensures n in Collect(list) ==>
      exists i :: 0 <= i < |list| && list[i] == Collect(list)[n]
        && forall j :: 0 <= j < i ==> list[j].name != n
    decreases |list|
  {
    if list != [] {
      var init := list[..|list| - 1];
      CollectKeepsFirst(init, n);
      assert forall i :: 0 <= i < |init| ==> init[i] == list[i];
      if n in Collect(init) {
        var i :| 0 <= i < |init| && init[i] == Collect(init)[n] && forall j :: 0 <= j < i ==> init[j].name != n;
        assert list[i] == Collect(list)[n];
      } else if Last(list).name == n {
        assert list[|list| - 1] == Collect(list)[n];
      }
    }
  }

  /** A description whose options are collected from a list is keyed by
      the options' own names, whatever the list repeats. */
  lemma CollectedIsWellFormed(name: Bytes, version: Bytes, about: Bytes, list: seq<ConfigOption>)
    ensures WellFormed(Configuration(name, version, about, Collect(list)))
  {
    forall n | n in Collect(list)
      ensures Collect(list)[n].name == n
    {
      CollectKeepsFirst(list, n);
    }
  }
}
