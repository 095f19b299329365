/** Command-line handling of OSPCommon.cpp: removeArgs, which shifts argv
    down in place, and the argument loop of init, which strips the
    recognised `--osp:` flags and records their effect on the current
    device. */
module CommandLine {
  import opened Errors

  /** The three fields of Device::current that init writes. */
  class Device {
    var debugMode: bool
    var numThreads: int
    var logLevel: int

    constructor (debugMode: bool, numThreads: int, logLevel: int)
      ensures this.debugMode == debugMode && this.numThreads == numThreads && this.logLevel == logLevel
    {
      this.debugMode := debugMode;
      this.numThreads := numThreads;
      this.logLevel := logLevel;
    }

    function Current(): Settings
      reads this
    {
      Settings(debugMode, numThreads, logLevel)
    }
  }

  datatype Settings = Settings(debugMode: bool, numThreads: int, logLevel: int)

  // ---------------------------------------------------------------------
  // atoi

  predicate IsSpace(c: char) {
    c == ' ' || c == '\t' || c == '\n' || c == '\r' || c == '\U{0C}' || c == '\U{0B}'
  }

  predicate IsDigit(c: char) {
    '0' <= c <= '9'
  }

  /** The value of the run of decimal digits at the start of `s`. */
  function DigitRun(s: string, acc: nat): nat
    decreases |s|
  {
    if s != [] && IsDigit(s[0]) then DigitRun(s[1..], 10 * acc + (s[0] as int - '0' as int)) else acc
  }

  /** C's atoi: leading white space, an optional sign, then digits; anything
      after the digits is ignored, and no digits read as 0. */
  function Atoi(s: string): int
    decreases |s|
  {
    if s != [] && IsSpace(s[0]) then Atoi(s[1..])
    else if s != [] && s[0] == '-' then 0 - DigitRun(s[1..], 0)
    else if s != [] && s[0] == '+' then DigitRun(s[1..], 0)
    else DigitRun(s, 0)
  }

  // ---------------------------------------------------------------------
  // removeArgs

  /** argv after removeArgs(ac, av, where, howMany): the entries from
      where + howMany up to ac move down by howMany; the rest of the array,
      including the now stale tail, is untouched. */
  function Removed(av: seq<string>, ac: int, where: nat, howMany: nat): (r: seq<string>)
    requires ac <= |av|
    ensures |r| == |av|
  {
    seq(|av|, k requires 0 <= k < |av| => if where <= k < ac - howMany then av[k + howMany] else av[k])
  }

  lemma RemovedShifts(av: seq<string>, ac: int, where: nat, howMany: nat)
    requires ac <= |av|
    ensures forall k :: 0 <= k < where && k < |av| ==> Removed(av, ac, where, howMany)[k] == av[k]
    ensures forall k :: where <= k < ac - howMany ==> Removed(av, ac, where, howMany)[k] == av[k + howMany]
    ensures forall k :: ac - howMany <= k < |av| && where <= k ==> Removed(av, ac, where, howMany)[k] == av[k]
  {
  }

  method RemoveArgs(av: array<string>, ac: int, where: nat, howMany: nat) returns (newAc: int)
    requires ac <= av.Length
    modifies av
    ensures newAc == ac - howMany
    ensures av[..] == Removed(old(av[..]), ac, where, howMany)
  {
    var i := where + howMany;
    while i < ac
      invariant where + howMany <= i
      invariant i <= ac || i == where + howMany
      invariant forall k :: where <= k < i - howMany ==> av[k] == old(av[k + howMany])
      invariant forall k :: 0 <= k < av.Length && !(where <= k < i - howMany) ==> av[k] == old(av[k])
    {
      av[i - howMany] := av[i];
      i := i + 1;
    }
    ghost var r := Removed(old(av[..]), ac, where, howMany);
    assert forall k :: 0 <= k < av.Length ==> av[k] == r[k];
    newAc := ac - howMany;
  }

  // ---------------------------------------------------------------------
  // The argument loop of init, step by step as written

  /** The flags init recognises. */
  datatype Flag = Debug | Verbose | VeryVerbose | LogLevel | NumThreads | NotAFlag

  /** The flag names init compares an argument against, in its order. */
  const FLAG_NAMES: seq<(string, Flag)> := [
    ("--osp:debug", Debug), ("--osp:verbose", Verbose), ("--osp:vv", VeryVerbose),
    ("--osp:loglevel", LogLevel), ("--osp:numthreads", NumThreads), ("--osp:num-threads", NumThreads)]

  /** The flag of the first name in `names` that equals `p`. */
  function Lookup(p: string, names: seq<(string, Flag)>): Flag {
    if names == [] then NotAFlag
    else if p == names[0].0 then names[0].1
    else Lookup(p, names[1..])
  }

  function FlagOf(p: string): Flag {
    Lookup(p, FLAG_NAMES)
  }

  predicate IsFlag(p: string) {
    FlagOf(p) != NotAFlag
  }

  /** The flags that consume the argument after them. */
  predicate TakesValue(p: string) {
    FlagOf(p) == LogLevel || FlagOf(p) == NumThreads
  }

  /** Device settings after one flag (and its value, for the value flags). */
  function Apply(f: Flag, value: string, s: Settings): Settings {
    match f
    case Debug => s.(debugMode := true, numThreads := 1)
    case Verbose => s.(logLevel := 1)
    case VeryVerbose => s.(logLevel := 2)
    case LogLevel => s.(logLevel := Atoi(value))
    case NumThreads => s.(numThreads := Atoi(value))
    case NotAFlag => s
  }

  /** The variables of the loop: argv (with its fixed length argc, beyond
      which lies the terminating NULL), the live count ac, the index i and
      the device settings. */
  datatype ArgState = ArgState(av: seq<string>, ac: int, i: int, settings: Settings)

  predicate WellFormed(st: ArgState) {
    1 <= st.i && 0 <= st.ac <= |st.av|
  }

  /** One pass of the loop body at index i < ac. A value flag reads
      av[i + 1] whether or not it is still live; at index argc that is the
      NULL terminator, and atoi(NULL) crashes. */
  function Step(st: ArgState): (r: Result<ArgState>)
    requires WellFormed(st) && st.i < st.ac
    ensures r.Ok? ==> WellFormed(r.value) && |r.value.av| == |st.av|
    ensures r.Ok? ==> r.value.ac - r.value.i < st.ac - st.i
  {
    var f := FlagOf(st.av[st.i]);
    match f
    case Debug | Verbose | VeryVerbose =>
      Ok(st.(av := Removed(st.av, st.ac, st.i, 1), ac := st.ac - 1, settings := Apply(f, "", st.settings)))
    case LogLevel | NumThreads =>
      if st.i + 1 == |st.av| then Throw(MissingFlagValue)
      else Ok(st.(av := Removed(st.av, st.ac, st.i, 2), ac := st.ac - 2,
                  settings := Apply(f, st.av[st.i + 1], st.settings)))
    case NotAFlag =>
      Ok(st.(i := st.i + 1))
  }

  /** The whole loop, as written. */
  function Run(st: ArgState): (r: Result<ArgState>)
    requires WellFormed(st)
    ensures r.Ok? ==> WellFormed(r.value) && |r.value.av| == |st.av| && r.value.ac <= r.value.i
    decreases st.ac - st.i
  {
    if st.i >= st.ac then Ok(st)
    else
      match Step(st)
      case Throw(e) => Throw(e)
      case Ok(next) => Run(next)
  }

  /** init(&ac, &av): `av == null` stands for a null argc or argv pointer.
      argv holds exactly argc entries (the NULL terminator follows them).
      On success returns the new argc; a value flag at argv[argc - 1] makes
      atoi read the NULL terminator, modelled as the MissingFlagValue crash. */
  method Init(dev: Device, av: array?<string>, ac: int) returns (r: Result<int>)
    requires av != null ==> ac == av.Length
    modifies dev, av
    ensures av == null ==> r == Ok(ac) && dev.Current() == old(dev.Current())
    ensures av != null ==>
      var run := Run(ArgState(old(av[..]), ac, 1, old(dev.Current())));
      (r.Ok? <==> run.Ok?) &&
      (r.Ok? ==> r.value == run.value.ac && av[..] == run.value.av && dev.Current() == run.value.settings)
  {
    if av == null {
      return Ok(ac);
    }
    ghost var run := Run(ArgState(av[..], ac, 1, dev.Current()));
    var n := ac;
    var i := 1;
    while i < n
      invariant 1 <= i && 0 <= n <= av.Length
      invariant Run(ArgState(av[..], n, i, dev.Current())) == run
      decreases n - i
    {
      ghost var st := ArgState(av[..], n, i, dev.Current());
      var next := HandleArg(dev, av, n, i);
      if next.Throw? {
        RunCrash(st);
        return Throw(next.error);
      }
      n, i := next.value.0, next.value.1;
      RunContinues(st, ArgState(av[..], n, i, dev.Current()));
    }
    r := Ok(n);
  }

  /** One pass of the loop body of init: the argument at index i < ac. */
  method HandleArg(dev: Device, av: array<string>, ac: int, i: int) returns (r: Result<(int, int)>)
    requires 1 <= i < ac <= av.Length
    modifies dev, av
    ensures var step := Step(ArgState(old(av[..]), ac, i, old(dev.Current())));
      (r.Ok? <==> step.Ok?) &&
      (r.Ok? ==> step.value == ArgState(av[..], r.value.0, r.value.1, dev.Current()))
  {
    ghost var st := ArgState(av[..], ac, i, dev.Current());
    var parm := av[i];
    match FlagOf(parm)
    case Debug =>
      dev.debugMode := true;
      dev.numThreads := 1;
      assert dev.Current() == Apply(Debug, "", st.settings);
      assert av[..] == st.av;
      var n := RemoveArgs(av, ac, i, 1);
      r := Ok((n, i));
      StepSwitch(st, ArgState(av[..], n, i, dev.Current()));
    case Verbose =>
      dev.logLevel := 1;
      assert dev.Current() == Apply(Verbose, "", st.settings);
      assert av[..] == st.av;
      var n := RemoveArgs(av, ac, i, 1);
      r := Ok((n, i));
      StepSwitch(st, ArgState(av[..], n, i, dev.Current()));
    case VeryVerbose =>
      dev.logLevel := 2;
      assert dev.Current() == Apply(VeryVerbose, "", st.settings);
      assert av[..] == st.av;
      var n := RemoveArgs(av, ac, i, 1);
      r := Ok((n, i));
      StepSwitch(st, ArgState(av[..], n, i, dev.Current()));
    case LogLevel =>
      if i + 1 == av.Length {
        return Throw(MissingFlagValue);
      }
      dev.logLevel := Atoi(av[i + 1]);
      assert dev.Current() == Apply(LogLevel, st.av[i + 1], st.settings);
      assert av[..] == st.av;
      var n := RemoveArgs(av, ac, i, 2);
      r := Ok((n, i));
      StepValueFlag(st, ArgState(av[..], n, i, dev.Current()));
    case NumThreads =>
      if i + 1 == av.Length {
        return Throw(MissingFlagValue);
      }
      dev.numThreads := Atoi(av[i + 1]);
      assert dev.Current() == Apply(NumThreads, st.av[i + 1], st.settings);
      assert av[..] == st.av;
      var n := RemoveArgs(av, ac, i, 2);
      r := Ok((n, i));
      StepValueFlag(st, ArgState(av[..], n, i, dev.Current()));
    case NotAFlag =>
      r := Ok((ac, i + 1));
  }

  lemma StepSwitch(st: ArgState, next: ArgState)
    requires WellFormed(st) && st.i < st.ac
    requires IsFlag(st.av[st.i]) && !TakesValue(st.av[st.i])
    requires next == ArgState(Removed(st.av, st.ac, st.i, 1), st.ac - 1, st.i,
                              Apply(FlagOf(st.av[st.i]), "", st.settings))
    ensures Step(st) == Ok(next)
  {
  }

  lemma StepValueFlag(st: ArgState, next: ArgState)
    requires WellFormed(st) && st.i < st.ac && st.i + 1 < |st.av|
    requires TakesValue(st.av[st.i])
    requires next == ArgState(Removed(st.av, st.ac, st.i, 2), st.ac - 2, st.i,
                              Apply(FlagOf(st.av[st.i]), st.av[st.i + 1], st.settings))
    ensures Step(st) == Ok(next)
  {
  }

  lemma RunContinues(st: ArgState, next: ArgState)
    requires WellFormed(st) && st.i < st.ac && Step(st) == Ok(next)
    ensures Run(st) == Run(next)
  {
  }

  lemma RunCrash(st: ArgState)
    requires WellFormed(st) && st.i < st.ac && Step(st).Throw?
    ensures Run(st) == Throw(Step(st).error)
  {
  }

  /** Run after a flag without a value: the flag is removed. */
  lemma RunSwitch(st: ArgState, next: ArgState)
    requires WellFormed(st) && st.i < st.ac
    requires IsFlag(st.av[st.i]) && !TakesValue(st.av[st.i])
    requires next == ArgState(Removed(st.av, st.ac, st.i, 1), st.ac - 1, st.i,
                              Apply(FlagOf(st.av[st.i]), "", st.settings))
    ensures WellFormed(next) && Run(st) == Run(next)
  {
    assert Step(st) == Ok(next);
  }

  /** Run after a value flag: the flag and the entry after it are removed. */
  lemma RunValueFlag(st: ArgState, next: ArgState)
    requires WellFormed(st) && st.i < st.ac && st.i + 1 < |st.av|
    requires TakesValue(st.av[st.i])
    requires next == ArgState(Removed(st.av, st.ac, st.i, 2), st.ac - 2, st.i,
                              Apply(FlagOf(st.av[st.i]), st.av[st.i + 1], st.settings))
    ensures WellFormed(next) && Run(st) == Run(next)
  {
    assert Step(st) == Ok(next);
  }

  /** A value flag in the last slot of argv reads the NULL terminator. */
  lemma RunValueFlagCrash(st: ArgState)
    requires WellFormed(st) && st.i < st.ac && st.i + 1 == |st.av|
    requires TakesValue(st.av[st.i])
    ensures Run(st) == Throw(MissingFlagValue)
  {
  }

  /** Run after an argument that is not a flag: it stays and i moves on. */
  lemma RunKept(st: ArgState, next: ArgState)
    requires WellFormed(st) && st.i < st.ac
    requires !IsFlag(st.av[st.i])
    requires next == st.(i := st.i + 1)
    ensures WellFormed(next) && Run(st) == Run(next)
  {
    assert Step(st) == Ok(next);
  }

  // ---------------------------------------------------------------------
  // What the loop computes on a well-formed command line

  datatype Parsed = Parsed(kept: seq<string>, settings: Settings)

  /** The arguments left after the flags and their values are stripped, and
      the final settings; a value flag with no argument after it is an error. */
  function Parse(rest: seq<string>, s: Settings): Result<Parsed>
    decreases |rest|
  {
    if rest == [] then Ok(Parsed([], s))
    else if IsFlag(rest[0]) && !TakesValue(rest[0]) then Parse(rest[1..], Apply(FlagOf(rest[0]), "", s))
    else if TakesValue(rest[0]) then
      if |rest| < 2 then Throw(MissingFlagValue) else Parse(rest[2..], Apply(FlagOf(rest[0]), rest[1], s))
    else
      match Parse(rest[1..], s)
      case Throw(e) => Throw(e)
      case Ok(r) => Ok(r.(kept := [rest[0]] + r.kept))
  }

  /** The loop ended with av[0..ac) equal to `prefix` followed by the kept
      arguments of `p`, and with the settings of `p`. */
  predicate EndsAs(r: Result<ArgState>, prefix: seq<string>, p: Parsed) {
    r.Ok? && r.value.ac == |prefix| + |p.kept| && 0 <= r.value.ac <= |r.value.av| &&
    r.value.av[..r.value.ac] == prefix + p.kept && r.value.settings == p.settings
  }

  lemma RemovedWindow(av: seq<string>, ac: int, i: nat, h: nat)
    requires i + h <= ac <= |av|
    ensures Removed(av, ac, i, h)[..i] == av[..i]
    ensures Removed(av, ac, i, h)[i..ac - h] == av[i + h..ac]
  {
  }

  /** Whenever every value flag has its value, the loop as written leaves
      av[0..i) followed by exactly the kept arguments, and the settings Parse
      computes. */
  lemma {:induction false} RunAgreesWithParse(st: ArgState)
    requires WellFormed(st) && st.i <= st.ac
    requires Parse(st.av[st.i..st.ac], st.settings).Ok?
    ensures EndsAs(Run(st), st.av[..st.i], Parse(st.av[st.i..st.ac], st.settings).value)
    decreases st.ac - st.i, 1
  {
    if st.i < st.ac {
      var x := st.av[st.i];
      if IsFlag(x) && !TakesValue(x) {
        RunAgreesAtSwitch(st);
      } else if TakesValue(x) {
        RunAgreesAtValueFlag(st);
      } else {
        RunAgreesAtKept(st);
      }
    }
  }

  lemma {:induction false} RunAgreesAtSwitch(st: ArgState)
    requires WellFormed(st) && st.i < st.ac
    requires IsFlag(st.av[st.i]) && !TakesValue(st.av[st.i])
    requires Parse(st.av[st.i..st.ac], st.settings).Ok?
    ensures EndsAs(Run(st), st.av[..st.i], Parse(st.av[st.i..st.ac], st.settings).value)
    decreases st.ac - st.i, 0
  {
    var rest := st.av[st.i..st.ac];
    assert rest[0] == st.av[st.i];
    var next := ArgState(Removed(st.av, st.ac, st.i, 1), st.ac - 1, st.i, Apply(FlagOf(st.av[st.i]), "", st.settings));
    RunSwitch(st, next);
    RemovedWindow(st.av, st.ac, st.i, 1);
    assert next.av[next.i..next.ac] == rest[1..];
    RunAgreesWithParse(next);
  }

  lemma {:induction false} RunAgreesAtValueFlag(st: ArgState)
    requires WellFormed(st) && st.i < st.ac
    requires TakesValue(st.av[st.i])
    requires Parse(st.av[st.i..st.ac], st.settings).Ok?
    ensures EndsAs(Run(st), st.av[..st.i], Parse(st.av[st.i..st.ac], st.settings).value)
    decreases st.ac - st.i, 0
  {
    var rest := st.av[st.i..st.ac];
    assert rest[0] == st.av[st.i];
    assert |rest| >= 2;
    assert rest[1] == st.av[st.i + 1];
    var next := ArgState(Removed(st.av, st.ac, st.i, 2), st.ac - 2, st.i,
                         Apply(FlagOf(st.av[st.i]), st.av[st.i + 1], st.settings));
    RunValueFlag(st, next);
    RemovedWindow(st.av, st.ac, st.i, 2);
    assert next.av[next.i..next.ac] == rest[2..];
    RunAgreesWithParse(next);
  }

  lemma {:induction false} RunAgreesAtKept(st: ArgState)
    requires WellFormed(st) && st.i < st.ac
    requires !IsFlag(st.av[st.i])
    requires Parse(st.av[st.i..st.ac], st.settings).Ok?
    ensures EndsAs(Run(st), st.av[..st.i], Parse(st.av[st.i..st.ac], st.settings).value)
    decreases st.ac - st.i, 0
  {
    var rest := st.av[st.i..st.ac];
    var x := st.av[st.i];
    assert rest[0] == x;
    var next := st.(i := st.i + 1);
    RunKept(st, next);
    assert next.av[next.i..next.ac] == rest[1..];
    var pk := Parse(rest[1..], st.settings).value;
    ParseKept(rest, st.settings);
    RunAgreesWithParse(next);
    PrefixThenKept(st.av, st.i, pk.kept);
  }

  // ---------------------------------------------------------------------
  // A value flag that is the last live argument

  /** The loop as written, on a command line whose last live argument is a
      value flag after an earlier removal: atoi reads the stale copy left
      behind by the shift, and removeArgs(ac, av, i, 2) then drops the live
      argument before the flag too; here even the program name is lost. */
  lemma StaleValueRead(s: Settings)
    ensures var st := ArgState(["prog", "--osp:debug", "--osp:loglevel"], 3, 1, s);
      Parse(st.av[1..3], s) == Throw(MissingFlagValue) &&
      Run(st).Ok? && Run(st).value.ac == 0
  {
    var av := ["prog", "--osp:debug", "--osp:loglevel"];
    var st := ArgState(av, 3, 1, s);
    assert FlagOf(av[1]) == Debug;
    var av1 := Removed(av, 3, 1, 1);
    assert av1 == ["prog", "--osp:loglevel", "--osp:loglevel"];
    var st1 := ArgState(av1, 2, 1, Apply(Debug, "", s));
    RunSwitch(st, st1);
    assert FlagOf(av1[1]) == LogLevel;
    var st2 := ArgState(Removed(av1, 2, 1, 2), 0, 1, Apply(LogLevel, av1[2], st1.settings));
    RunValueFlag(st1, st2);
    var rest := av[1..3];
    assert rest[1..] == ["--osp:loglevel"];
  }

  /** One pass of the loop body with the guard the loop lacks: a value flag
      needs a live argument after it. */
  function StepChecked(st: ArgState): (r: Result<ArgState>)
    requires WellFormed(st) && st.i < st.ac
    ensures r.Ok? ==> WellFormed(r.value) && |r.value.av| == |st.av|
    ensures r.Ok? ==> r.value.ac - r.value.i < st.ac - st.i
  {
    if TakesValue(st.av[st.i]) && st.i + 1 >= st.ac then Throw(MissingFlagValue) else Step(st)
  }

  /** The loop with the guarded body. */
  function RunChecked(st: ArgState): (r: Result<ArgState>)
    requires WellFormed(st)
    ensures r.Ok? ==> WellFormed(r.value) && |r.value.av| == |st.av| && r.value.ac <= r.value.i
    decreases st.ac - st.i
  {
    if st.i >= st.ac then Ok(st)
    else
      match StepChecked(st)
      case Throw(e) => Throw(e)
      case Ok(next) => RunChecked(next)
  }

  /** The guarded loop differs from the loop as written only where Parse
      reports a missing value, and there it fails. */
  lemma {:induction false} RunCheckedMatchesRun(st: ArgState)
    requires WellFormed(st) && st.i <= st.ac
    ensures Parse(st.av[st.i..st.ac], st.settings).Ok? ==> RunChecked(st) == Run(st)
    ensures Parse(st.av[st.i..st.ac], st.settings).Throw? ==> RunChecked(st) == Throw(MissingFlagValue)
    decreases st.ac - st.i
  {
    if st.i < st.ac {
      var rest := st.av[st.i..st.ac];
      var x := st.av[st.i];
      assert rest[0] == x;
      if IsFlag(x) && !TakesValue(x) {
        var next := ArgState(Removed(st.av, st.ac, st.i, 1), st.ac - 1, st.i, Apply(FlagOf(x), "", st.settings));
        StepSwitch(st, next);
        RemovedWindow(st.av, st.ac, st.i, 1);
        assert next.av[next.i..next.ac] == rest[1..];
        RunCheckedMatchesRun(next);
      } else if TakesValue(x) {
        if st.i + 1 < st.ac {
          assert rest[1] == st.av[st.i + 1];
          var next := ArgState(Removed(st.av, st.ac, st.i, 2), st.ac - 2, st.i,
                               Apply(FlagOf(x), st.av[st.i + 1], st.settings));
          StepValueFlag(st, next);
          RemovedWindow(st.av, st.ac, st.i, 2);
          assert next.av[next.i..next.ac] == rest[2..];
          RunCheckedMatchesRun(next);
        }
      } else {
        var next := st.(i := st.i + 1);
        assert Step(st) == Ok(next);
        assert next.av[next.i..next.ac] == rest[1..];
        RunCheckedMatchesRun(next);
      }
    }
  }

  /** The guarded loop fails exactly when Parse does, and otherwise leaves
      av[0..i) followed by the kept arguments, with Parse's settings. */
  lemma RunCheckedAgreesWithParse(st: ArgState)
    requires WellFormed(st) && st.i <= st.ac
    ensures RunChecked(st).Ok? <==> Parse(st.av[st.i..st.ac], st.settings).Ok?
    ensures RunChecked(st).Throw? ==> RunChecked(st).error == MissingFlagValue
    ensures RunChecked(st).Ok? ==>
      EndsAs(RunChecked(st), st.av[..st.i], Parse(st.av[st.i..st.ac], st.settings).value)
  {
    RunCheckedMatchesRun(st);
    if Parse(st.av[st.i..st.ac], st.settings).Ok? {
      RunAgreesWithParse(st);
    }
  }

  lemma PrefixThenKept(a: seq<string>, i: nat, ks: seq<string>)
    requires i < |a|
    ensures a[..i + 1] + ks == a[..i] + ([a[i]] + ks)
  {
    assert a[..i + 1] == a[..i] + [a[i]];
  }

  lemma ParseKept(rest: seq<string>, s: Settings)
    requires rest != [] && !IsFlag(rest[0]) && Parse(rest[1..], s).Ok?
    ensures Parse(rest, s) == Ok(Parse(rest[1..], s).value.(kept := [rest[0]] + Parse(rest[1..], s).value.kept))
  {
  }

  /** b contains the elements of a, in order. */
  predicate IsSubsequence(a: seq<string>, b: seq<string>)
    decreases |b|
  {
    a == [] || (b != [] && ((a[0] == b[0] && IsSubsequence(a[1..], b[1..])) || IsSubsequence(a, b[1..])))
  }

  /** The kept arguments keep their original relative order, and none of
      them is a recognised flag. */
  lemma {:induction false} ParseKeepsOrder(rest: seq<string>, s: Settings)
    requires Parse(rest, s).Ok?
    ensures IsSubsequence(Parse(rest, s).value.kept, rest)
    ensures forall k :: 0 <= k < |Parse(rest, s).value.kept| ==> !IsFlag(Parse(rest, s).value.kept[k])
    decreases |rest|
  {
    if rest != [] {
      if IsFlag(rest[0]) && !TakesValue(rest[0]) {
        ParseKeepsOrder(rest[1..], Apply(FlagOf(rest[0]), "", s));
      } else if TakesValue(rest[0]) {
        ParseKeepsOrder(rest[2..], Apply(FlagOf(rest[0]), rest[1], s));
        assert rest[2..] == rest[1..][1..];
      } else {
        ParseKeepsOrder(rest[1..], s);
        var kept := Parse(rest, s).value.kept;
        assert kept[1..] == Parse(rest[1..], s).value.kept;
      }
    }
  }

  /** The arguments that are not recognised flags, in order. */
  function Unflagged(rest: seq<string>): seq<string> {
    if rest == [] then [] else (if IsFlag(rest[0]) then [] else [rest[0]]) + Unflagged(rest[1..])
  }

  /** Without value flags, exactly the unrecognised arguments remain. */
  lemma {:induction false} ParseWithoutValueFlags(rest: seq<string>, s: Settings)
    requires forall k :: 0 <= k < |rest| ==> !TakesValue(rest[k])
    ensures Parse(rest, s).Ok? && Parse(rest, s).value.kept == Unflagged(rest)
    decreases |rest|
  {
    if rest != [] {
      if IsFlag(rest[0]) {
        ParseWithoutValueFlags(rest[1..], Apply(FlagOf(rest[0]), "", s));
      } else {
        ParseWithoutValueFlags(rest[1..], s);
      }
    }
  }

  /** A complete prefix is parsed on its own: the rest continues from the
      settings it leaves. */
  lemma {:induction false} ParseAppend(a: seq<string>, b: seq<string>, s: Settings)
    requires Parse(a, s).Ok?
    ensures var pa := Parse(a, s).value;
      Parse(a + b, s) == match Parse(b, pa.settings)
                         case Throw(e) => Throw(e)
                         case Ok(pb) => Ok(Parsed(pa.kept + pb.kept, pb.settings))
    decreases |a|
  {
    if a != [] {
      assert (a + b)[0] == a[0];
    }
    if a == [] {
      assert a + b == b;
      match Parse(b, s)
      case Throw(e) =>
      case Ok(pb) =>
        assert [] + pb.kept == pb.kept;
    } else if IsFlag(a[0]) && !TakesValue(a[0]) {
      assert (a + b)[1..] == a[1..] + b;
      ParseAppend(a[1..], b, Apply(FlagOf(a[0]), "", s));
    } else if TakesValue(a[0]) {
      assert (a + b)[2..] == a[2..] + b && (a + b)[1] == a[1];
      ParseAppend(a[2..], b, Apply(FlagOf(a[0]), a[1], s));
    } else {
      assert (a + b)[1..] == a[1..] + b;
      ParseAppend(a[1..], b, s);
      var pa := Parse(a[1..], s).value;
      assert Parse(a, s) == Ok(pa.(kept := [a[0]] + pa.kept));
      match Parse(b, pa.settings)
      case Throw(e) =>
      case Ok(pb) =>
        assert [a[0]] + (pa.kept + pb.kept) == ([a[0]] + pa.kept) + pb.kept;
    }
  }

  /** For repeated flags the last occurrence wins: the settings after a final
      flag are that flag's effect on the settings before it. */
  lemma LastFlagWins(a: seq<string>, flag: string, value: string, s: Settings)
    requires Parse(a, s).Ok? && IsFlag(flag)
    ensures var tail := if TakesValue(flag) then [flag, value] else [flag];
      Parse(a + tail, s).Ok? &&
      Parse(a + tail, s).value.settings == Apply(FlagOf(flag), if TakesValue(flag) then value else "", Parse(a, s).value.settings) &&
      Parse(a + tail, s).value.kept == Parse(a, s).value.kept
  {
    var tail := if TakesValue(flag) then [flag, value] else [flag];
    ParseAppend(a, tail, s);
    var sa := Parse(a, s).value.settings;
    if TakesValue(flag) {
      assert tail[2..] == [];
    } else {
      assert tail[1..] == [];
    }
  }
}
