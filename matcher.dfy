/** A reference model of the command-line matching library the builder
    hands its option slots to. It is an assumption of this model, kept
    small: a token `--name` selects the slot called `name`; a slot that takes
    a value takes the next token as its value, and its value is missing when
    there is no next token or that token begins a new argument (a dash and
    at least one more byte); any other token is an error.
    After the scan, a slot given more than once keeps every value when it is
    `multiple` and only the last one otherwise; one never given gets its
    default, if it has one; then a required slot without a value is an error.
    The first token is the program name and is never matched. */
module Matcher {
  import opened Common

  /** One option slot of the matcher. */
  datatype Arg = Arg(
    name: Bytes,
    help: Bytes,
    takesValue: bool,
    required: bool,
    default: Option<Bytes>,
    multiple: bool,
    overridesSelf: bool)

  /** The matcher: help texts and its slots, keyed by name. */
  datatype App = App(name: Bytes, version: Bytes, about: Bytes, args: map<Bytes, Arg>)

  /** One occurrence of a slot in a token list, with its value if it takes one. */
  datatype Occurrence = Occurrence(name: Bytes, value: Option<Bytes>)

  /** Why a token list does not match (the library prints a usage message and
      ends the process). */
  datatype MatchError =
    | UnknownArgument(token: Bytes)
    | MissingValue(name: Bytes)
    | GivenMoreThanOnce(names: set<Bytes>)
    | MissingRequired(names: set<Bytes>)

  /** The values found for each slot that is present or defaulted. */
  type Matches = map<Bytes, seq<Bytes>>

  const DASH_DASH: Bytes := [45, 45]

  /** The token that selects the slot `name`. */
  function LongFlag(name: Bytes): Bytes {
    DASH_DASH + name
  }

  /** A token that begins a new argument rather than giving a value: a dash
      followed by at least one more byte (a lone `-` is a value). */
  predicate StartsArgument(t: Bytes) {
    |t| >= 2 && t[0] == DASH_DASH[0]
  }

  /** Reads one occurrence from the front of a non-empty token list: the
      token must select a known slot, and a slot that takes a value consumes
      the next token as well, unless there is none or it begins a new
      argument, in which case the value is missing. Gives the occurrence and
      how many tokens it consumed. */
  function ScanOne(args: map<Bytes, Arg>, toks: seq<Bytes>): (r: Result<(Occurrence, nat), MatchError>)
    requires toks != []
    ensures r.Ok? ==> 1 <= r.value.1 <= |toks|
  {
    var t := toks[0];
    if |t| < 2 || t[..2] != DASH_DASH || t[2..] !in args then Err(UnknownArgument(t))
    else
      var n := t[2..];
      if !args[n].takesValue then Ok((Occurrence(n, None), 1))
      else if |toks| < 2 || StartsArgument(toks[1]) then Err(MissingValue(n))
      else Ok((Occurrence(n, Some(toks[1])), 2))
  }

  /** Splits `toks` into slot occurrences, front to back. */
  function Scan(args: map<Bytes, Arg>, toks: seq<Bytes>): Result<seq<Occurrence>, MatchError>
    decreases |toks|
  {
    if toks == [] then Ok([])
    else
      match ScanOne(args, toks)
      case Err(e) => Err(e)
      case Ok((o, k)) =>
        match Scan(args, toks[k..])
        case Err(e) => Err(e)
        case Ok(rest) => Ok([o] + rest)
  }

  /** How often the slot `n` occurs. */
  function Count(occs: seq<Occurrence>, n: Bytes): nat
    decreases |occs|
  {
    if occs == [] then 0 else (if occs[0].name == n then 1 else 0) + Count(occs[1..], n)
  }

  /** The values given to the slot `n`, in order. */
  function ValuesIn(occs: seq<Occurrence>, n: Bytes): seq<Bytes>
    decreases |occs|
  {
    if occs == [] then []
    else
      (if occs[0].name == n && occs[0].value.Some? then [occs[0].value.value] else [])
        + ValuesIn(occs[1..], n)
  }

  /** What the slot `n` ends up with, if anything. */
  function ValuesFor(args: map<Bytes, Arg>, n: Bytes, occs: seq<Occurrence>): Option<seq<Bytes>>
    requires n in args
  {
    var a := args[n];
    if Count(occs, n) == 0 then
      if a.default.Some? then Some([a.default.value]) else None
    else if a.multiple then Some(ValuesIn(occs, n))
    else
      var vs := ValuesIn(occs, n);
      Some(if vs == [] then [] else [Last(vs)])
  }

  /** Slots that may be given once only but were given more often. */
  function GivenTooOften(args: map<Bytes, Arg>, occs: seq<Occurrence>): set<Bytes> {
    set n | n in args && !args[n].multiple && !args[n].overridesSelf && Count(occs, n) > 1
  }

  /** Required slots that are neither given nor defaulted. */
  function MissingSlots(args: map<Bytes, Arg>, occs: seq<Occurrence>): set<Bytes> {
    set n | n in args && args[n].required && ValuesFor(args, n, occs).None?
  }

  /** The tokens after the program name. */
  function Operands(toks: seq<Bytes>): seq<Bytes> {
    if toks == [] then [] else toks[1..]
  }

  /** Matches a whole token list, program name first. */
  function Match(app: App, toks: seq<Bytes>): Result<Matches, MatchError> {
    match Scan(app.args, Operands(toks))
    case Err(e) => Err(e)
    case Ok(occs) =>
      var tooOften := GivenTooOften(app.args, occs);
      var missing := MissingSlots(app.args, occs);
      if tooOften != {} then Err(GivenMoreThanOnce(tooOften))
      else if missing != {} then Err(MissingRequired(missing))
      else Ok(map n | n in app.args && ValuesFor(app.args, n, occs).Some? :: ValuesFor(app.args, n, occs).value)
  }

  // ---------------------------------------------------------------------
  // Properties of the reference matcher

  /** Two token lists that each scan on their own scan together into the
      occurrences of the first followed by those of the second. */
  lemma {:induction false} ScanAppend(args: map<Bytes, Arg>, a: seq<Bytes>, b: seq<Bytes>)
    requires Scan(args, a).Ok? && Scan(args, b).Ok?
    ensures Scan(args, a + b) == Ok(Scan(args, a).value + Scan(args, b).value)
    decreases |a|
  {
    var rb := Scan(args, b).value;
    if a == [] {
      assert a + b == b;
      assert Scan(args, a).value + rb == rb;
    } else {
      var (o, k) := ScanOne(args, a).value;
      assert (a + b)[0] == a[0];
      assert k == 2 ==> (a + b)[1] == a[1];
      assert ScanOne(args, a + b) == ScanOne(args, a);
      assert (a + b)[k..] == a[k..] + b;
      ScanAppend(args, a[k..], b);
      var ra := Scan(args, a[k..]).value;
      assert ([o] + ra) + rb == [o] + (ra + rb);
    }
  }

  /** `--name value` in front of a token list that scans adds one
      occurrence of a slot that takes a value. */
  lemma ScanGivenValue(args: map<Bytes, Arg>, name: Bytes, v: Bytes, rest: seq<Bytes>)
    requires name in args && args[name].takesValue && !StartsArgument(v) && Scan(args, rest).Ok?
    ensures Scan(args, [LongFlag(name), v] + rest) == Ok([Occurrence(name, Some(v))] + Scan(args, rest).value)
  {
    var toks := [LongFlag(name), v] + rest;
    assert toks[0][..2] == DASH_DASH && toks[0][2..] == name;
    assert toks[2..] == rest;
  }

  /** A token list that scans starts with a token that begins a new
      argument: its first token selects a slot. */
  lemma ScanStartsArgument(args: map<Bytes, Arg>, toks: seq<Bytes>)
    requires toks != [] && Scan(args, toks).Ok?
    ensures StartsArgument(toks[0])
  {
    assert toks[0][..2] == DASH_DASH;
    assert toks[0][0] == toks[0][..2][0];
  }

  /** A token list that scans when a tail beginning a new argument (or
      nothing) follows it also scans on its own: no occurrence takes its
      value from across the join. */
  lemma {:induction false} ScanPrefix(args: map<Bytes, Arg>, a: seq<Bytes>, b: seq<Bytes>)
    requires Scan(args, a + b).Ok?
    requires b == [] || StartsArgument(b[0])
    ensures Scan(args, a).Ok?
    decreases |a|
  {
    if a != [] {
      var ab := a + b;
      assert ab[0] == a[0];
      if |a| >= 2 {
        assert ab[1] == a[1];
      } else if b != [] {
        assert ab[1] == b[0];
      }
      assert ScanOne(args, a) == ScanOne(args, ab);
      var k := ScanOne(args, ab).value.1;
      assert ab[k..] == a[k..] + b;
      ScanPrefix(args, a[k..], b);
    }
  }

  /** A slot that takes a value, followed by a token that begins a new
      argument or by nothing at all, has its value missing: the token list
      is refused, whatever follows. */
  lemma ValueMissingBeforeArgument(args: map<Bytes, Arg>, name: Bytes, rest: seq<Bytes>)
    requires name in args && args[name].takesValue
    requires rest == [] || StartsArgument(rest[0])
    ensures Scan(args, [LongFlag(name)] + rest) == Err(MissingValue(name))
  {
    var toks := [LongFlag(name)] + rest;
    assert toks[0][..2] == DASH_DASH && toks[0][2..] == name;
    assert rest != [] ==> toks[1] == rest[0];
  }

  /** `--name` in front of a token list that scans adds one occurrence of a
      slot that takes no value. */
  lemma ScanGivenSwitch(args: map<Bytes, Arg>, name: Bytes, rest: seq<Bytes>)
    requires name in args && !args[name].takesValue && Scan(args, rest).Ok?
    ensures Scan(args, [LongFlag(name)] + rest) == Ok([Occurrence(name, None)] + Scan(args, rest).value)
  {
    var toks := [LongFlag(name)] + rest;
    assert toks[0][..2] == DASH_DASH && toks[0][2..] == name;
    assert toks[1..] == rest;
  }

  /** Every occurrence names a slot, and carries a value exactly when that
      slot takes one. */
  lemma {:induction false} ScanShape(args: map<Bytes, Arg>, toks: seq<Bytes>, i: nat)
    requires Scan(args, toks).Ok? && i < |Scan(args, toks).value|
    ensures var o := Scan(args, toks).value[i];
      o.name in args && (o.value.Some? <==> args[o.name].takesValue)
    decreases |toks|
  {
    var k := ScanOne(args, toks).value.1;
    if i > 0 {
      ScanShape(args, toks[k..], i - 1);
    }
  }

  /** Only slots of the matcher occur in a scan. */
  lemma {:induction false} OccursOnlyIfSlot(args: map<Bytes, Arg>, toks: seq<Bytes>, n: Bytes)
    requires Scan(args, toks).Ok? && Count(Scan(args, toks).value, n) > 0
    ensures n in args
    decreases |toks|
  {
    var k := ScanOne(args, toks).value.1;
    if ScanOne(args, toks).value.0.name != n {
      OccursOnlyIfSlot(args, toks[k..], n);
    }
  }

  lemma {:induction false} CountAppend(x: seq<Occurrence>, y: seq<Occurrence>, n: Bytes)
    ensures Count(x + y, n) == Count(x, n) + Count(y, n)
    ensures ValuesIn(x + y, n) == ValuesIn(x, n) + ValuesIn(y, n)
    decreases |x|
  {
    if x == [] {
      assert x + y == y;
    } else {
      assert (x + y)[1..] == x[1..] + y;
      CountAppend(x[1..], y, n);
    }
  }

  /** Counting and collecting step over one occurrence at the front. */
  lemma CountCons(o: Occurrence, rest: seq<Occurrence>, n: Bytes)
    ensures Count([o] + rest, n) == (if o.name == n then 1 else 0) + Count(rest, n)
    ensures ValuesIn([o] + rest, n)
      == (if o.name == n && o.value.Some? then [o.value.value] else []) + ValuesIn(rest, n)
  {
    assert ([o] + rest)[1..] == rest;
  }

  /** A slot never has more values than occurrences. */
  lemma {:induction false} ValuesAtMostCount(occs: seq<Occurrence>, n: Bytes)
    ensures |ValuesIn(occs, n)| <= Count(occs, n)
    decreases |occs|
  {
    if occs != [] {
      ValuesAtMostCount(occs[1..], n);
    }
  }

  /** For a slot that keeps one value, later occurrences override earlier
      ones: what follows decides as soon as it holds a value. */
  lemma LaterValueWins(args: map<Bytes, Arg>, n: Bytes, earlier: seq<Occurrence>, later: seq<Occurrence>)
    requires n in args && !args[n].multiple && |ValuesIn(later, n)| > 0
    ensures ValuesFor(args, n, earlier + later) == Some([Last(ValuesIn(later, n))])
  {
    CountAppend(earlier, later, n);
    ValuesAtMostCount(later, n);
    var ve, vl := ValuesIn(earlier, n), ValuesIn(later, n);
    assert (ve + vl)[|ve + vl| - 1] == vl[|vl| - 1];
  }

  /** For a slot that keeps one value, earlier occurrences decide when the
      later ones do not name it. */
  lemma EarlierValueStands(args: map<Bytes, Arg>, n: Bytes, earlier: seq<Occurrence>, later: seq<Occurrence>)
    requires n in args && !args[n].multiple && |ValuesIn(earlier, n)| > 0 && Count(later, n) == 0
    ensures ValuesFor(args, n, earlier + later) == Some([Last(ValuesIn(earlier, n))])
  {
    CountAppend(earlier, later, n);
    ValuesAtMostCount(earlier, n);
    ValuesAtMostCount(later, n);
    assert ValuesIn(earlier, n) + ValuesIn(later, n) == ValuesIn(earlier, n);
  }

  /** A slot that keeps every value holds those of the earlier occurrences
      followed by those of the later ones. */
  lemma AllValuesKept(args: map<Bytes, Arg>, n: Bytes, earlier: seq<Occurrence>, later: seq<Occurrence>)
    requires n in args && args[n].multiple && Count(earlier, n) + Count(later, n) > 0
    ensures ValuesFor(args, n, earlier + later) == Some(ValuesIn(earlier, n) + ValuesIn(later, n))
  {
    CountAppend(earlier, later, n);
  }

  /** The occurrences a scan yields give a slot that takes a value one value
      per occurrence, and a flag no value at all. */
  lemma {:induction false} ValuesPerOccurrence(args: map<Bytes, Arg>, toks: seq<Bytes>, n: Bytes)
    requires Scan(args, toks).Ok? && n in args
    ensures var occs := Scan(args, toks).value;
      if args[n].takesValue then |ValuesIn(occs, n)| == Count(occs, n) else ValuesIn(occs, n) == []
    decreases |toks|
  {
    if toks != [] {
      var k := ScanOne(args, toks).value.1;
      ValuesPerOccurrence(args, toks[k..], n);
    }
  }
}
