/** The rc-file token loader: an environment variable names a file whose
    non-blank, non-comment lines each become one command-line token.

    The process environment, the file system and the platform's conversion of
    a byte line into an OS string are inputs: `env` maps variable names to
    values, `fs` maps the paths that can be opened to a reader over their
    lines, and `decodes` says whether a trimmed line converts. */
module RcFile {
  import opened Common

  /** What reading an opened file delivers: its lines in order, without
      their terminators, and whether the read fails after them. */
  datatype Reader = Reader(lines: seq<Bytes>, failsAfter: bool)

  /** A per-line conversion error, tagged with the 1-based line number. */
  datatype LineError = LineError(lineNumber: nat)

  /** Errors that abort the whole file. */
  datatype ParseError = OpenFailed(path: Bytes) | ReadFailed

  /** The tokens of a file, in file order, and its per-line errors. */
  datatype Parsed = Parsed(args: seq<Bytes>, errs: seq<LineError>)

  /** What one line of the file contributes. */
  datatype LineOutcome = Skipped | Token(arg: Bytes) | Failed(err: LineError)

  const HASH: byte := 35

  /** ASCII white space: tab, line feed, vertical tab, form feed, carriage
      return and space. */
  predicate IsSpace(b: byte) {
    b == 32 || 9 <= b <= 13
  }

  /** `s` without its leading white space. */
  function TrimStart(s: Bytes): (r: Bytes)
    ensures |r| <= |s| && r == s[|s| - |r|..]
  {
    if s != [] && IsSpace(s[0]) then TrimStart(s[1..]) else s
  }

  /** `s` without its trailing white space. */
  function TrimEnd(s: Bytes): (r: Bytes)
    ensures |r| <= |s| && r == s[..|r|]
  {
    if s != [] && IsSpace(s[|s| - 1]) then TrimEnd(s[..|s| - 1]) else s
  }

  /** `s` without white space at either end (line terminators included). */
  function Trim(s: Bytes): (r: Bytes)
    ensures |r| <= |s|
  {
    TrimEnd(TrimStart(s))
  }

  /** TrimStart cuts white space only, and all of it. */
  lemma {:induction false} TrimStartCuts(s: Bytes)
    ensures forall i :: 0 <= i < |s| - |TrimStart(s)| ==> IsSpace(s[i])
    ensures TrimStart(s) != [] ==> !IsSpace(TrimStart(s)[0])
    decreases |s|
  {
    if s != [] && IsSpace(s[0]) {
      var t := s[1..];
      TrimStartCuts(t);
      assert TrimStart(s) == TrimStart(t);
      forall i | 1 <= i < |s| - |TrimStart(t)| ensures IsSpace(s[i]) {
        assert s[i] == t[i - 1];
      }
    }
  }

  /** TrimEnd cuts white space only, and all of it. */
  lemma {:induction false} TrimEndCuts(s: Bytes)
    ensures forall i :: |TrimEnd(s)| <= i < |s| ==> IsSpace(s[i])
    ensures TrimEnd(s) != [] ==> !IsSpace(Last(TrimEnd(s)))
    decreases |s|
  {
    if s != [] && IsSpace(s[|s| - 1]) {
      var t := s[..|s| - 1];
      TrimEndCuts(t);
      assert TrimEnd(s) == TrimEnd(t);
      forall i | |TrimEnd(t)| <= i < |s| - 1 ensures IsSpace(s[i]) {
        assert s[i] == t[i];
      }
    }
  }

  /** A trimmed line neither starts nor ends with white space. */
  lemma TrimEnds(s: Bytes)
    ensures Trim(s) != [] ==> !IsSpace(Trim(s)[0]) && !IsSpace(Last(Trim(s)))
  {
    var t := TrimStart(s);
    TrimStartCuts(s);
    TrimEndCuts(t);
    if Trim(s) != [] {
      assert Trim(s)[0] == t[0];
    }
  }

  /** Trimming cuts only white space, and only at the two ends: what is
      left is a contiguous slice of the line. */
  lemma TrimIsSlice(s: Bytes)
    ensures |s| - |TrimStart(s)| + |Trim(s)| <= |s|
    ensures Trim(s) == s[|s| - |TrimStart(s)|..|s| - |TrimStart(s)| + |Trim(s)|]
    ensures (forall i :: 0 <= i < |s| - |TrimStart(s)| ==> IsSpace(s[i]))
    ensures (forall i :: |s| - |TrimStart(s)| + |Trim(s)| <= i < |s| ==> IsSpace(s[i]))
  {
    var t := TrimStart(s);
    var r := TrimEnd(t);
    var lead := |s| - |t|;
    TrimStartCuts(s);
    TrimEndCuts(t);
    SliceOfSuffix(s, lead, |r|);
    forall i | lead + |r| <= i < |s| ensures IsSpace(s[i]) {
      assert s[i] == t[i - lead];
    }
  }

  /** A prefix of a suffix is a slice. */
  lemma SliceOfSuffix(s: Bytes, lead: nat, n: nat)
    requires lead + n <= |s|
    ensures s[lead..][..n] == s[lead..lead + n]
  {
  }

  /** A line trims to nothing exactly when it is all white space. */
  lemma TrimBlank(s: Bytes)
    ensures Trim(s) == [] <==> forall i :: 0 <= i < |s| ==> IsSpace(s[i])
  {
    TrimIsSlice(s);
    TrimEnds(s);
    var lead := |s| - |TrimStart(s)|;
    if Trim(s) != [] {
      assert s[lead] == Trim(s)[0];
    }
  }

  /** A trimmed line that carries no token. */
  predicate IsCommentOrBlank(trimmed: Bytes) {
    trimmed == [] || trimmed[0] == HASH
  }

  /** What the line numbered `lineNumber` contributes: nothing when it is
      blank or a comment once trimmed, else its trimmed text as one token when
      that converts, else an error carrying the line number. */
  function LineOutcomeOf(line: Bytes, lineNumber: nat, decodes: Bytes -> bool): LineOutcome {
    var trimmed := Trim(line);
    if IsCommentOrBlank(trimmed) then Skipped
    else if decodes(trimmed) then Token(trimmed)
    else Failed(LineError(lineNumber))
  }

  /** A line is skipped exactly when, trimmed, it is empty or a comment;
      otherwise it gives its trimmed text as a token exactly when that text
      decodes, and an error carrying its own line number exactly when it
      does not. A line of white space only is skipped; a token is never
      empty, never starts with `#` and has no white space at either end. */
  lemma LineOutcomeCases(line: Bytes, lineNumber: nat, decodes: Bytes -> bool)
    ensures var o := LineOutcomeOf(line, lineNumber, decodes);
      && (o.Skipped? <==> IsCommentOrBlank(Trim(line)))
      && (o.Token? <==> !IsCommentOrBlank(Trim(line)) && decodes(Trim(line)))
      && (o.Token? ==> o.arg == Trim(line))
      && (o.Failed? <==> !IsCommentOrBlank(Trim(line)) && !decodes(Trim(line)))
      && ((forall i :: 0 <= i < |line| ==> IsSpace(line[i])) ==> o.Skipped?)
      && (o.Token? ==> o.arg != [] && o.arg[0] != HASH
                       && !IsSpace(o.arg[0]) && !IsSpace(Last(o.arg)) && decodes(o.arg))
      && (o.Failed? ==> o.err.lineNumber == lineNumber)
  {
    TrimBlank(line);
    TrimEnds(line);
  }

  /** The outcome of every line, numbering lines from 1. */
  function OutcomesOf(lines: seq<Bytes>, decodes: Bytes -> bool): (os: seq<LineOutcome>)
    ensures |os| == |lines|
    ensures forall i :: 0 <= i < |lines| ==> os[i] == LineOutcomeOf(lines[i], i + 1, decodes)
  {
    seq(|lines|, i requires 0 <= i < |lines| => LineOutcomeOf(lines[i], i + 1, decodes))
  }

  /** The token a line outcome contributes, if any. */
  function TokenPart(o: LineOutcome): seq<Bytes> {
    if o.Token? then [o.arg] else []
  }

  /** The error a line outcome contributes, if any. */
  function ErrorPart(o: LineOutcome): seq<LineError> {
    if o.Failed? then [o.err] else []
  }

  /** The tokens among some outcomes, in order. */
  function TokensIn(os: seq<LineOutcome>): seq<Bytes>
    decreases |os|
  {
    if os == [] then [] else TokensIn(os[..|os| - 1]) + TokenPart(Last(os))
  }

  /** The errors among some outcomes, in order. */
  function ErrorsIn(os: seq<LineOutcome>): seq<LineError>
    decreases |os|
  {
    if os == [] then [] else ErrorsIn(os[..|os| - 1]) + ErrorPart(Last(os))
  }

  /** The positions of the tokens among some outcomes, in order. */
  function TokenPositions(os: seq<LineOutcome>): seq<nat>
    decreases |os|
  {
    if os == [] then []
    else TokenPositions(os[..|os| - 1]) + (if Last(os).Token? then [|os| - 1] else [])
  }

  /** The tokens of a file's lines. */
  function TokensOf(lines: seq<Bytes>, decodes: Bytes -> bool): seq<Bytes> {
    TokensIn(OutcomesOf(lines, decodes))
  }

  /** The per-line errors of a file's lines. */
  function ErrorsOf(lines: seq<Bytes>, decodes: Bytes -> bool): seq<LineError> {
    ErrorsIn(OutcomesOf(lines, decodes))
  }

  /** The number of lines that are neither blank nor a comment. */
  function ContentLineCount(lines: seq<Bytes>): nat
    decreases |lines|
  {
    if lines == [] then 0
    else ContentLineCount(lines[..|lines| - 1]) + (if IsCommentOrBlank(Trim(Last(lines))) then 0 else 1)
  }

  /** What `parse_reader` yields for a reader. */
  function ReadAll(rdr: Reader, decodes: Bytes -> bool): Result<Parsed, ParseError> {
    if rdr.failsAfter then Err(ReadFailed)
    else Ok(Parsed(TokensOf(rdr.lines, decodes), ErrorsOf(rdr.lines, decodes)))
  }

  /** What `parse` yields for a path. */
  function ParseSpec(path: Bytes, fs: map<Bytes, Reader>, decodes: Bytes -> bool): Result<Parsed, ParseError> {
    if path !in fs then Err(OpenFailed(path)) else ReadAll(fs[path], decodes)
  }

  /** What `args` yields: the tokens of the file the variable names, or
      nothing when the variable is unset or empty or the file fails. */
  function RcArgs(environment: Bytes, env: map<Bytes, Bytes>, fs: map<Bytes, Reader>,
                  decodes: Bytes -> bool): seq<Bytes>
  {
    if environment !in env || env[environment] == [] then []
    else
      match ParseSpec(env[environment], fs, decodes)
      case Err(_) => []
      case Ok(parsed) => parsed.args
  }

  /** Walks the lines one by one, counting every line, skipping blank and
      comment lines, and keeping one token or one error per other line. */
  method ParseReader(rdr: Reader, decodes: Bytes -> bool) returns (r: Result<Parsed, ParseError>)
    ensures r.Err? <==> rdr.failsAfter
    ensures r.Err? ==> r.error == ReadFailed
    ensures r.Ok? ==> r.value.args == TokensOf(rdr.lines, decodes)
    ensures r.Ok? ==> r.value.errs == ErrorsOf(rdr.lines, decodes)
  {
    var args: seq<Bytes> := [];
    var errs: seq<LineError> := [];
    var lineNumber: nat := 0;
    var i := 0;
    while i < |rdr.lines|
      invariant 0 <= i <= |rdr.lines|
      invariant lineNumber == i
      invariant args == TokensOf(rdr.lines[..i], decodes)
      invariant errs == ErrorsOf(rdr.lines[..i], decodes)
    {
      lineNumber := lineNumber + 1;
      var line := Trim(rdr.lines[i]);
      if !IsCommentOrBlank(line) {
        if decodes(line) {
          args := args + [line];
        } else {
          errs := errs + [LineError(lineNumber)];
        }
      }
      ReadOneMoreLine(rdr.lines, i, decodes);
      i := i + 1;
    }
    assert rdr.lines[..i] == rdr.lines;
    if rdr.failsAfter {
      return Err(ReadFailed);
    }
    return Ok(Parsed(args, errs));
  }

  /** Reading one more line appends that line's token or error. */
  lemma ReadOneMoreLine(lines: seq<Bytes>, i: nat, decodes: Bytes -> bool)
    requires i < |lines|
    ensures TokensOf(lines[..i + 1], decodes)
      == TokensOf(lines[..i], decodes) + TokenPart(LineOutcomeOf(lines[i], i + 1, decodes))
    ensures ErrorsOf(lines[..i + 1], decodes)
      == ErrorsOf(lines[..i], decodes) + ErrorPart(LineOutcomeOf(lines[i], i + 1, decodes))
  {
    var os := OutcomesOf(lines[..i + 1], decodes);
    assert os[..i] == OutcomesOf(lines[..i], decodes);
  }

  /** Opens the file at `path` and parses it; a path that cannot be opened
      is an error of its own. */
  method Parse(path: Bytes, fs: map<Bytes, Reader>, decodes: Bytes -> bool) returns (r: Result<Parsed, ParseError>)
    ensures path !in fs ==> r == Err(OpenFailed(path))
    ensures path in fs ==> r == ReadAll(fs[path], decodes)
  {
    if path !in fs {
      return Err(OpenFailed(path));
    }
    r := ParseReader(fs[path], decodes);
  }

  /** The tokens contributed by the file that `environment` names. */
  method Args(environment: Bytes, env: map<Bytes, Bytes>, fs: map<Bytes, Reader>,
              decodes: Bytes -> bool) returns (args: seq<Bytes>)
    ensures environment !in env ==> args == []
    ensures environment in env && env[environment] == [] ==> args == []
    ensures environment in env && env[environment] != [] && env[environment] !in fs ==> args == []
    ensures args == RcArgs(environment, env, fs, decodes)
  {
    if environment !in env {
      return [];
    }
    var configPath := env[environment];
    if configPath == [] {
      return [];
    }
    var parsed := Parse(configPath, fs, decodes);
    if parsed.Err? {
      return [];
    }
    args := parsed.value.args;
  }

  // ---------------------------------------------------------------------
  // Facts about sequences of line outcomes

  lemma {:induction false} TokenPositionsLength(os: seq<LineOutcome>)
    ensures |TokenPositions(os)| == |TokensIn(os)|
    decreases |os|
  {
    if os != [] {
      TokenPositionsLength(os[..|os| - 1]);
    }
  }

  lemma {:induction false} TokenPositionsMatch(os: seq<LineOutcome>, k: nat)
    requires k < |TokensIn(os)|
    ensures k < |TokenPositions(os)|
    ensures TokenPositions(os)[k] < |os| && os[TokenPositions(os)[k]] == Token(TokensIn(os)[k])
    decreases |os|
  {
    var init := os[..|os| - 1];
    TokenPositionsLength(init);
    TokenPositionsLength(os);
    if k < |TokensIn(init)| {
      TokenPositionsMatch(init, k);
      assert os[TokenPositions(init)[k]] == init[TokenPositions(init)[k]];
    }
  }

  lemma {:induction false} TokenPositionsIncrease(os: seq<LineOutcome>, k: nat, l: nat)
    requires k < l < |TokenPositions(os)|
    ensures TokenPositions(os)[k] < TokenPositions(os)[l] < |os|
    decreases |os|
  {
    var init := os[..|os| - 1];
    if l < |TokenPositions(init)| {
      TokenPositionsIncrease(init, k, l);
    } else if k + 1 < |TokenPositions(init)| {
      TokenPositionsIncrease(init, k, |TokenPositions(init)| - 1);
    } else {
      TokenPositionsBounded(init, k);
    }
  }

  lemma {:induction false} TokenPositionsBounded(os: seq<LineOutcome>, k: nat)
    requires k < |TokenPositions(os)|
    ensures TokenPositions(os)[k] < |os|
    decreases |os|
  {
    var init := os[..|os| - 1];
    if k < |TokenPositions(init)| {
      TokenPositionsBounded(init, k);
    }
  }

  lemma {:induction false} TokenPositionsComplete(os: seq<LineOutcome>, i: nat)
    requires i < |os| && os[i].Token?
    ensures i in TokenPositions(os)
    decreases |os|
  {
    var init := os[..|os| - 1];
    if i < |os| - 1 {
      assert init[i] == os[i];
      TokenPositionsComplete(init, i);
    }
  }

  lemma {:induction false} ErrorsComeFromOutcomes(os: seq<LineOutcome>, k: nat)
    requires k < |ErrorsIn(os)|
    ensures Failed(ErrorsIn(os)[k]) in os
    decreases |os|
  {
    var init := os[..|os| - 1];
    if k < |ErrorsIn(init)| {
      ErrorsComeFromOutcomes(init, k);
      var i :| 0 <= i < |init| && init[i] == Failed(ErrorsIn(init)[k]);
      assert os[i] == init[i];
    } else {
      assert os[|os| - 1] == Last(os);
    }
  }

  // ---------------------------------------------------------------------
  // Properties of the loader

  /** Every token is the whole trimmed text of one line that is neither
      blank nor a comment and converts: a line is never split into several
      tokens. */
  lemma TokenIsWholeLine(lines: seq<Bytes>, decodes: Bytes -> bool, k: nat)
    requires k < |TokensOf(lines, decodes)|
    ensures k < |TokenPositions(OutcomesOf(lines, decodes))|
    ensures var i := TokenPositions(OutcomesOf(lines, decodes))[k];
      && i < |lines|
      && TokensOf(lines, decodes)[k] == Trim(lines[i])
      && !IsCommentOrBlank(Trim(lines[i])) && decodes(Trim(lines[i]))
  {
    TokenPositionsMatch(OutcomesOf(lines, decodes), k);
  }

  /** Tokens come out in the order of their lines in the file. */
  lemma TokensInFileOrder(lines: seq<Bytes>, decodes: Bytes -> bool, k: nat, l: nat)
    requires k < l < |TokensOf(lines, decodes)|
    ensures l < |TokenPositions(OutcomesOf(lines, decodes))|
    ensures TokenPositions(OutcomesOf(lines, decodes))[k] < TokenPositions(OutcomesOf(lines, decodes))[l]
  {
    TokenPositionsLength(OutcomesOf(lines, decodes));
    TokenPositionsIncrease(OutcomesOf(lines, decodes), k, l);
  }

  /** Every line that is neither blank nor a comment and converts yields a
      token, whatever the lines before it produced. */
  lemma EveryConvertingLineGivesToken(lines: seq<Bytes>, decodes: Bytes -> bool, i: nat)
    requires i < |lines| && !IsCommentOrBlank(Trim(lines[i])) && decodes(Trim(lines[i]))
    ensures i in TokenPositions(OutcomesOf(lines, decodes))
  {
    TokenPositionsComplete(OutcomesOf(lines, decodes), i);
  }

  /** Every error names, by its 1-based number, a line that is neither blank
      nor a comment and does not convert. */
  lemma ErrorNamesFailingLine(lines: seq<Bytes>, decodes: Bytes -> bool, k: nat)
    requires k < |ErrorsOf(lines, decodes)|
    ensures var n := ErrorsOf(lines, decodes)[k].lineNumber;
      && 1 <= n <= |lines|
      && !IsCommentOrBlank(Trim(lines[n - 1]))
      && !decodes(Trim(lines[n - 1]))
  {
    var os := OutcomesOf(lines, decodes);
    ErrorsComeFromOutcomes(os, k);
    var i :| 0 <= i < |os| && os[i] == Failed(ErrorsIn(os)[k]);
    FailedLine(lines[i], i + 1, decodes);
  }

  /** A line fails only when it carries text that does not convert, and its
      error carries its number. */
  lemma FailedLine(line: Bytes, lineNumber: nat, decodes: Bytes -> bool)
    requires LineOutcomeOf(line, lineNumber, decodes).Failed?
    ensures LineOutcomeOf(line, lineNumber, decodes).err.lineNumber == lineNumber
    ensures !IsCommentOrBlank(Trim(line)) && !decodes(Trim(line))
  {
  }

  /** Line numbers count every line, skipped ones included: the last line
      of a file is numbered with the file's length. */
  lemma {:induction false} LastLineStep(lines: seq<Bytes>, decodes: Bytes -> bool)
    requires lines != []
    ensures TokensOf(lines, decodes)
      == TokensOf(lines[..|lines| - 1], decodes) + TokenPart(LineOutcomeOf(Last(lines), |lines|, decodes))
    ensures ErrorsOf(lines, decodes)
      == ErrorsOf(lines[..|lines| - 1], decodes) + ErrorPart(LineOutcomeOf(Last(lines), |lines|, decodes))
  {
    ReadOneMoreLine(lines, |lines| - 1, decodes);
    assert lines[..|lines|] == lines;
  }

  /** Errors come out in the order of their lines. */
  lemma {:induction false} ErrorsInFileOrder(lines: seq<Bytes>, decodes: Bytes -> bool, k: nat, l: nat)
    requires k < l < |ErrorsOf(lines, decodes)|
    ensures ErrorsOf(lines, decodes)[k].lineNumber < ErrorsOf(lines, decodes)[l].lineNumber
    decreases |lines|
  {
    var init := lines[..|lines| - 1];
    LastLineStep(lines, decodes);
    if l < |ErrorsOf(init, decodes)| {
      ErrorsInFileOrder(init, decodes, k, l);
    } else {
      ErrorNamesFailingLine(init, decodes, k);
      FailedLine(Last(lines), |lines|, decodes);
    }
  }

  /** A line that does not convert records one error with its own line
      number, and the lines after it are still read. */
  lemma {:induction false} EveryFailingLineGivesError(lines: seq<Bytes>, decodes: Bytes -> bool, i: nat)
    requires i < |lines| && !IsCommentOrBlank(Trim(lines[i])) && !decodes(Trim(lines[i]))
    ensures LineError(i + 1) in ErrorsOf(lines, decodes)
    decreases |lines|
  {
    var init := lines[..|lines| - 1];
    LastLineStep(lines, decodes);
    if i < |lines| - 1 {
      assert init[i] == lines[i];
      EveryFailingLineGivesError(init, decodes, i);
    }
  }

  /** Each line that is neither blank nor a comment yields exactly one token
      or exactly one error. */
  lemma {:induction false} TokensAndErrorsAccount(lines: seq<Bytes>, decodes: Bytes -> bool)
    ensures |TokensOf(lines, decodes)| + |ErrorsOf(lines, decodes)| == ContentLineCount(lines)
    decreases |lines|
  {
    if lines != [] {
      LastLineStep(lines, decodes);
      TokensAndErrorsAccount(lines[..|lines| - 1], decodes);
    }
  }

  /** A file of blank and comment lines only yields neither tokens nor errors. */
  lemma {:induction false} CommentsAndBlanksYieldNothing(lines: seq<Bytes>, decodes: Bytes -> bool)
    requires forall i :: 0 <= i < |lines| ==> IsCommentOrBlank(Trim(lines[i]))
    ensures TokensOf(lines, decodes) == [] && ErrorsOf(lines, decodes) == []
    decreases |lines|
  {
    if lines != [] {
      var init := lines[..|lines| - 1];
      assert forall i :: 0 <= i < |init| ==> init[i] == lines[i];
      LastLineStep(lines, decodes);
      CommentsAndBlanksYieldNothing(init, decodes);
    }
  }

  /** A line that already is a token: not empty, not a comment, no white
      space at either end, and it converts. */
  predicate IsCleanToken(line: Bytes, decodes: Bytes -> bool) {
    line != [] && line[0] != HASH && !IsSpace(line[0]) && !IsSpace(Last(line)) && decodes(line)
  }

  /** A clean token line is its own token, whatever its number. */
  lemma CleanLineIsToken(line: Bytes, lineNumber: nat, decodes: Bytes -> bool)
    requires IsCleanToken(line, decodes)
    ensures LineOutcomeOf(line, lineNumber, decodes) == Token(line)
  {
    assert TrimStart(line) == line;
    assert TrimEnd(line) == line;
  }

  /** Outcomes that are all tokens contribute every one of them, in order,
      and no error. */
  lemma {:induction false} AllTokens(os: seq<LineOutcome>, args: seq<Bytes>)
    requires |args| == |os| && forall i :: 0 <= i < |os| ==> os[i] == Token(args[i])
    ensures TokensIn(os) == args && ErrorsIn(os) == []
    decreases |os|
  {
    if os != [] {
      var k := |os| - 1;
      AllTokens(os[..k], args[..k]);
      assert args[..k] + [args[k]] == args;
    }
  }

  /** A file whose every line is a clean token yields exactly its lines, in
      order, and no errors: the converse of what a token is. */
  lemma CleanLinesAreTokens(lines: seq<Bytes>, decodes: Bytes -> bool)
    requires forall i :: 0 <= i < |lines| ==> IsCleanToken(lines[i], decodes)
    ensures TokensOf(lines, decodes) == lines && ErrorsOf(lines, decodes) == []
  {
    var os := OutcomesOf(lines, decodes);
    forall i | 0 <= i < |lines| ensures os[i] == Token(lines[i]) {
      CleanLineIsToken(lines[i], i + 1, decodes);
    }
    AllTokens(os, lines);
  }

  /** The variable being unset, or set to the empty string, contributes no
      tokens; so does a path that cannot be opened or a read that fails. */
  lemma NoFileNoTokens(environment: Bytes, env: map<Bytes, Bytes>, fs: map<Bytes, Reader>,
                       decodes: Bytes -> bool)
    ensures environment !in env ==> RcArgs(environment, env, fs, decodes) == []
    ensures environment in env && env[environment] == [] ==> RcArgs(environment, env, fs, decodes) == []
    ensures environment in env && env[environment] !in fs ==> RcArgs(environment, env, fs, decodes) == []
    ensures environment in env && env[environment] in fs && fs[env[environment]].failsAfter
      ==> RcArgs(environment, env, fs, decodes) == []
  {
  }

  /** A readable file contributes exactly its tokens; per-line errors do not
      remove the tokens of the other lines. */
  lemma FileTokens(environment: Bytes, env: map<Bytes, Bytes>, fs: map<Bytes, Reader>,
                   decodes: Bytes -> bool)
    requires environment in env && env[environment] != []
    requires env[environment] in fs && !fs[env[environment]].failsAfter
    ensures RcArgs(environment, env, fs, decodes) == TokensOf(fs[env[environment]].lines, decodes)
  {
  }
}
