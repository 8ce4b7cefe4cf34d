# Configuration builder: a Dafny model

This project models the configuration-resolution core of the `config` crate.
An application describes its options as a `Configuration`: a set of
`ConfigOption`s, each with a name, an optional default, a required flag, a
flag saying whether it takes an argument, help texts and a `list` flag. The
`ConfigBuilder` turns that description into a command-line matcher. It first
matches the command line on its own. Unless `--no-config` is given, it then
reads an rc-style configuration file named by an environment variable. The
file's tokens go between the program name and the rest of the command line,
so the command line is matched last and its values win. Finally, for every
described option, the builder records the values found for it, or `None`.

The rc-file loader (`ripgrep_config`) works as follows:

- An unset or empty environment variable gives no tokens.
- A file that cannot be opened or read gives no tokens.
- Otherwise the file is read line by line. Each line is trimmed.
- Blank lines and lines starting with `#` are skipped.
- Every other line becomes exactly one token.
- A line that cannot be converted into an operating-system string records an error carrying its 1-based line number. Reading goes on.

Modules:

- `Common` (common.dfy): bytes, `Option`, `Result`.
- `ConfigModel` (config_option.dfy): `ConfigOption` and `Configuration`.
  - The option set is a map keyed by name, since equality and hashing look only at the name.
- `RcFile` (rc_file.dfy): the rc-file loader.
  - `ParseReader` is a loop over the file's lines, proved against `TokensOf` and `ErrorsOf`.
  - `Args` and `Parse` carry the early-return branches.
- `Matcher` (matcher.dfy): a small reference model of the external matching library. It is an assumption of this model:
  - `--name` selects a slot; a slot that takes a value consumes the next token.
  - That value is missing when there is no next token or the next token begins a new argument (a dash and at least one more byte).
  - A `multiple` slot keeps every value; any other keeps the last.
  - A slot never given gets its default.
  - A required slot with no value is an error, as is a slot given twice without `multiple` or `overrides_with(self)`.
  - The first token is the program name.
- `ConfigBuilder` (config_builder.dfy): `CreateMatcher`, `MaybeCombineArguments`, `ExtractValues` and `Build` as methods.
  - Each method is proved equal to a function (`AppOf`, `CombinedArguments`, `Extract`, `Resolve`).
  - Lemmas state what a built configuration holds.
- `Scenarios` (scenarios.dfy): the crate's own test configuration and the command lines of its tests.
  - They are stated for any distinct option names and any help texts.
  - The test's names are shown to be distinct.

The model follows the code where the code and its documentation disagree.
The doc comment on `ConfigOption::default` (config/src/lib.rs:73-75) says the
default is ignored when the option takes an argument. `create_matcher`
(config/src/lib.rs:203-212) does the opposite: it keeps the default only when
the option takes an argument, and drops it for a switch. The model keeps the
default exactly when `takesArgument` holds (`ConfigBuilder.ArgOf`,
`ConfigBuilder.DefaultsOnlyForArguments`).

Two library behaviours are modelled explicitly:

- `is_present` is true for a slot that only has its default. So an application whose `no-config` option took an argument and had a default would never read the file; a default on a `no-config` switch is dropped and changes nothing. The model keeps this: `FileArgs` tests whether the match holds the name (`NoConfigDefaultBypassesFile`, `NoConfigSwitchDefaultReadsFile`).
- `values_of` gives an empty list for a switch that is present (`SwitchGivenHoldsNoValues`).

Two failures are modelled as errors:

- A match failure, which the library reports by printing usage and ending the process, becomes `Err(Rejected(reason))`.
- Merging file tokens into an empty command line would panic in `remove(0)`. It becomes `Err(NoProgramName)`.

The source depends on the environment, the file system and the platform's
byte-to-`OsString` conversion. These are parameters of the model:

- `Host.env` is a map from variable names to values.
- `Host.fs` is a map from paths to readers. A reader is a sequence of lines plus a flag saying whether reading fails after them.
- `Host.decodes` is a predicate on trimmed lines.

## Model

| member | source | states |
|---|---|---|
| ConfigModel.SameOptionIsEquivalence | config/src/lib.rs:96-103 | option equality (names agree) is reflexive, symmetric and transitive |
| ConfigModel.SameOptionIffHashAlike | config/src/lib.rs:96-112 | two options are equal exactly when every hasher gives them the same hash, so the hash agrees with equality and ignores every field but the name |
| ConfigModel.CollectedIsWellFormed | config/src/lib.rs:63-65 | a description whose options are collected from a list keys every option by its own name |
| ConfigModel.CollectKeepsFirst | config/src/lib.rs:63-65 | collecting a list of options into the set keeps one option per name, keyed by that name: the first option in the list carrying it |
| RcFile.TrimStartCuts | config/src/ripgrep_config.rs:91 | trimming the front removes only whitespace bytes and stops at the first non-whitespace byte |
| RcFile.TrimEndCuts | config/src/ripgrep_config.rs:91 | trimming the back removes only whitespace bytes and stops at the last non-whitespace byte |
| RcFile.TrimEnds | config/src/ripgrep_config.rs:91 | a non-empty trimmed line neither starts nor ends with whitespace |
| RcFile.TrimIsSlice | config/src/ripgrep_config.rs:91 | a trimmed line is a contiguous slice of the line, and everything cut on either side is whitespace |
| RcFile.TrimBlank | config/src/ripgrep_config.rs:91-92 | a line trims to nothing exactly when all its bytes are whitespace |
| RcFile.LineOutcomeCases | config/src/ripgrep_config.rs:91-102 | a line is skipped exactly when it is blank or a comment after trimming; otherwise it gives the whole trimmed line as a token when it converts, and an error with its own line number when it does not |
| RcFile.ParseReader | config/src/ripgrep_config.rs:84-106 | the per-line loop yields exactly the file's tokens and per-line errors, and fails with a read error exactly when the reader fails |
| RcFile.ReadOneMoreLine | config/src/ripgrep_config.rs:88-104 | processing one more line appends that line's token or error, if any, to what the earlier lines produced |
| RcFile.Parse | config/src/ripgrep_config.rs:65-71 | a path that cannot be opened is an open error; otherwise the file is read as by the line loop |
| RcFile.Args | config/src/ripgrep_config.rs:27-55 | an unset or empty variable, or a file that cannot be opened, gives no tokens; otherwise the file's tokens, with per-line errors only reported |
| RcFile.NoFileNoTokens | config/src/ripgrep_config.rs:27-43 | an unset variable, an empty variable, a missing file and a failing read each give no tokens |
| RcFile.FileTokens | config/src/ripgrep_config.rs:37-54 | a file that reads to the end contributes exactly the tokens of its lines |
| RcFile.TokenIsWholeLine | config/src/ripgrep_config.rs:95-98 | each token is a whole trimmed line of the file that converts and is neither blank nor a comment, with no word splitting |
| RcFile.TokensInFileOrder | config/src/ripgrep_config.rs:95-98 | tokens come from strictly increasing line positions, so they keep file order |
| RcFile.EveryConvertingLineGivesToken | config/src/ripgrep_config.rs:95-98 | every content line that converts gives a token |
| RcFile.ErrorNamesFailingLine | config/src/ripgrep_config.rs:87-101 | every error names, by its 1-based number counting skipped lines too, a line of the file that is neither blank nor a comment and does not convert |
| RcFile.FailedLine | config/src/ripgrep_config.rs:99-101 | a failed line's error carries the line's own number, and the line is a content line that does not convert |
| RcFile.ErrorsInFileOrder | config/src/ripgrep_config.rs:99-104 | errors come in strictly increasing line-number order |
| RcFile.EveryFailingLineGivesError | config/src/ripgrep_config.rs:87-103 | every content line that does not convert gives an error carrying its own 1-based line number, counting skipped lines too, and reading goes on past it |
| RcFile.TokensAndErrorsAccount | config/src/ripgrep_config.rs:88-105 | tokens plus errors equal the number of lines that are neither blank nor comments |
| RcFile.CommentsAndBlanksYieldNothing | config/src/ripgrep_config.rs:91-94 | a file of blank and comment lines gives neither tokens nor errors |
| RcFile.CleanLineIsToken | config/src/ripgrep_config.rs:91-98 | a line without surrounding whitespace that does not start with `#` and converts is its own token |
| RcFile.CleanLinesAreTokens | config/src/ripgrep_config.rs:88-105 | a file made only of such lines gives exactly its lines as tokens and no errors |
| Matcher.ScanAppend | config/src/lib.rs:246-250 | matching two token lists one after the other gives the occurrences of the first followed by those of the second |
| Matcher.ScanGivenValue | config/src/lib.rs:195-199 | `--name value` for a slot that takes a value, where `value` does not begin a new argument, gives one occurrence of that slot carrying the value |
| Matcher.ValueMissingBeforeArgument | config/src/lib.rs:195-199 | `--name` for a slot that takes a value, followed by nothing or by a token that begins a new argument, is refused for the missing value; that token is never taken as the value |
| Matcher.ScanStartsArgument | config/src/lib.rs:195-197 | a token list that scans starts with a token that begins a new argument, since its first token must select a slot |
| Matcher.ScanPrefix | config/src/lib.rs:246-250 | a token list that scans when followed by a tail beginning a new argument, or by nothing, also scans on its own: no value is taken from across the join |
| Matcher.ScanGivenSwitch | config/src/lib.rs:195-199 | `--name` for a switch gives one occurrence of that slot without a value |
| Matcher.ScanShape | config/src/lib.rs:195-199 | every occurrence names a slot, and it carries a value exactly when the slot takes one |
| Matcher.OccursOnlyIfSlot | config/src/lib.rs:229-233 | only a slot of the matcher can occur in an accepted token list |
| Matcher.LaterValueWins | config/src/lib.rs:216-218 | for a slot that is not a list, a value in the later tokens overrides every earlier value: the slot holds exactly the last later value |
| Matcher.EarlierValueStands | config/src/lib.rs:216-218 | for a slot that is not a list and is absent from the later tokens, the slot holds the last earlier value |
| Matcher.AllValuesKept | config/src/lib.rs:214-215 | a list slot holds all earlier values followed by all later values, in order |
| Matcher.ValuesPerOccurrence | config/src/lib.rs:195-200 | a slot that takes a value has one value per occurrence, and a switch has none |
| ConfigBuilder.CreateMatcher | config/src/lib.rs:189-221 | the loop over the option set builds exactly one slot per option, with the option's help and required flag, its default only when it takes an argument, `multiple` for a list and self-override otherwise |
| ConfigBuilder.NeverGivenTooOften | config/src/lib.rs:214-218 | no token list is ever rejected for repeating an option, because every slot is either a list or overrides itself |
| ConfigBuilder.DefaultsOnlyForArguments | config/src/lib.rs:202-212 | an option given nowhere falls back to its default when it takes an argument, and is absent otherwise, even when a default is described |
| ConfigBuilder.MaybeCombineArguments | config/src/lib.rs:223-262 | the in-place surgery (remove the program name, insert it before the file's tokens, append the rest) gives the combined list: a command-line match failure is an error, the command line is unchanged when `no-config` is present or the file gives nothing, and an empty command line with file tokens is an error |
| ConfigBuilder.MergeShape | config/src/lib.rs:240-258 | the merged list has length `|cmd| + |file|`, keeps the program name first, and its operands are the file's tokens followed by the command line's; without file tokens it is the command line itself |
| ConfigBuilder.ExtractValues | config/src/lib.rs:168-183 | the extraction loop gives one entry per described option: what the match holds for it, or `None` |
| ConfigBuilder.ExtractEntries | config/src/lib.rs:168-183 | the extracted map's keys are exactly the described options; an entry is `None` exactly when the match has nothing for it |
| ConfigBuilder.Resolve | config/src/lib.rs:168-183 | a built configuration has exactly one entry per described option |
| ConfigBuilder.Build | config/src/lib.rs:146-186 | building creates the matcher, combines, matches and extracts; the result has exactly one entry per described option |
| ConfigBuilder.ResolveOkFileScans | config/src/lib.rs:160-164 | whenever building succeeds, the file's tokens scan on their own, so a file ending in an option that waits for its value makes building fail |
| ConfigBuilder.ResolvedValue | config/src/lib.rs:160-183 | each option of a built configuration holds what the matcher makes of the file's occurrences followed by the command line's |
| ConfigBuilder.CommandLineOverridesFile | config/src/lib.rs:246-250 | an option that takes one argument and is given on the command line holds the command line's last value, whatever the file says |
| ConfigBuilder.FileValueWhenCommandLineSilent | config/src/lib.rs:246-250 | an option that takes one argument and is given only in the file holds the file's last value |
| ConfigBuilder.ListAccumulates | config/src/lib.rs:214-215 | a list option holds every value, the file's then the command line's, each in its own order |
| ConfigBuilder.AbsentFallsBackToDefault | config/src/lib.rs:203-212 | an option given nowhere holds its default when it takes an argument and has one, and `None` otherwise |
| ConfigBuilder.SwitchGivenHoldsNoValues | config/src/lib.rs:171-179 | a switch that is given holds an empty list: present, with no values |
| ConfigBuilder.RequiredOnlyInFileRejected | config/src/lib.rs:229 | a required option without a usable default is refused when only the file gives it, because the first match sees the command line alone |
| ConfigBuilder.NoConfigBypassesFile | config/src/lib.rs:231-237 | when the command line gives `no-config`, the file contributes nothing and the combined list is the command line |
| ConfigBuilder.NoConfigDefaultBypassesFile | config/src/lib.rs:231-237 | a `no-config` option that takes an argument and has a default is always present, so the file is never read |
| ConfigBuilder.NoConfigSwitchDefaultReadsFile | config/src/lib.rs:231-237 | a `no-config` switch not given on the command line leaves the file in use, even when a default is described for it |
| ConfigBuilder.NoConfigNeedsOption | config/src/lib.rs:233-236 | a description without a `no-config` option always merges the file's tokens once the command line matches |
| ConfigBuilder.CommandLineMatches | config/src/lib.rs:229 | with no required option, every command line whose tokens scan is accepted by the first match |
| ConfigBuilder.NothingRequiredSucceeds | config/src/lib.rs:160-164 | with no required option, a command line that scans and a program name, building succeeds exactly when the file's tokens scan on their own |
| ConfigBuilder.ResolvedFromBoth | config/src/lib.rs:160-183 | under the same conditions and with file tokens that scan, building succeeds and every option holds what the matcher makes of the file's occurrences followed by the command line's |
| ConfigBuilder.CommandLineAlone | config/src/lib.rs:240-244 | when the file's variable is unset, no option is required, the command line scans and there is a program name, building succeeds and every option holds what the matcher makes of the command line alone |
| Scenarios.TestLabelsDistinct | config/src/lib.rs:290-326 | the test options' names are pairwise different and none is `no-config` |
| Scenarios.TestOptionsCollected | config/src/lib.rs:368-381 | collecting the four test options gives a set holding each of them under its name |
| Scenarios.TestSlots | config/src/lib.rs:290-326 | the test matcher has one slot per test option, and no test option is required |
| Scenarios.ParseSingleParam | config/src/lib.rs:394-420 | `--testparam param1` gives that value, and the switch and the second parameter are absent |
| Scenarios.ValueMissingBeforeSwitch | config/src/lib.rs:195-199 | `--testparam --testswitch` is refused for the missing value of `--testparam`, whatever the environment holds, instead of taking the switch as its value |
| Scenarios.ParseMultipleParams | config/src/lib.rs:422-452 | a switch and two parameters on the command line: the switch is present with no values, and each parameter holds its own value |
| Scenarios.ParametersAbsent | config/src/lib.rs:454-498 | with nothing given, the two options with a default hold exactly it, and the switch and the second parameter are absent |
| Scenarios.TestFileArgs | config/src/lib.rs:500-511 | the test's file contributes its two options and their values, in file order |
| Scenarios.ParseFromFileOnly | config/src/lib.rs:500-521 | with the file and a bare command line, both parameters hold the file's values |
| Scenarios.OverrideValueFromFile | config/src/lib.rs:523-555 | a parameter given in both the file and the command line holds the command line's value, and the one only in the file keeps the file's value |
| Scenarios.TestMultipleValues | config/src/lib.rs:557-583 | three values for the list option on the command line are all kept, in order |

## Left out

- The matching library itself is not part of this model. The reference matcher in `Matcher` stands in for it and is an assumption. It omits these library features:
  - `--name=value` and short forms;
  - several values per occurrence of a `multiple` slot;
  - `--`, positional arguments, `--help` and `--version`;
  - the usage text printed on error.
  - It models the library's printing and process exit on a match error as the error value `Rejected`.
- `Configurable::parse_values` and `get_config_description` (config/src/lib.rs:28-49) are supplied by the application. The model stops at the map that `build` hands to `parse_values`.
- Real environment and file access become the `Host` maps.
- The scenarios whose command line or file gives a value require that the value does not begin a new argument, as the tests' own values do not.
- The `println!` diagnostics (config/src/ripgrep_config.rs:40, 44-53) are output only and are not modelled. The per-line errors are still computed.
- Splitting a file into lines is not modelled. A reader is given as its sequence of lines, without terminators.
- A read error part-way through a file is a flag on the reader. It makes the whole parse fail.
- RcFile.Trim: removes ASCII whitespace only (space, tab, line feed, vertical tab, form feed, carriage return). The source's trim also removes Unicode whitespace.
- The conversion of a line into an operating-system string is the predicate `Host.decodes`. It is not defined here.
- The values handed back are byte strings. The source turns them into `String`s and would panic on invalid UTF-8; the model does not.
- The hash of an option is modelled for an arbitrary hasher function. Hash-table behaviour itself is not modelled.
- Iterating over a hash set in unspecified order becomes a loop that picks any remaining option.
- The tests' configuration file (`resources/test/config1.conf`) is not part of this model. `Scenarios.TestFile` describes it by what the tests assert: one line each for `--testparam`, its value, `--testparam2` and its value, with the values left open.
- The tests' environment mutation and their counter for unique variable names (config/src/lib.rs:274-280) are not modelled. The scenarios take any variable that is unset, or set to the file.
- config/src/tls_config.rs and the logging crate are not part of this model.
