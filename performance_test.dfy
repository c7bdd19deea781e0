// The command line of the performance test: the options it reads, the
// motion qualities and thread counts it then runs, the tag that names each
// run and the hash check that ends it.

module PerformanceTestArgs {
  import opened Wrappers

  /** The two scenes -s= can select; none until one is given. */
  datatype Scene = NoScene | ConvexVsMesh | Pyramid

  /** The variables main sets from its arguments. */
  datatype Options = Options(
    quality: int,
    threads: int,
    maxIterations: int,
    disableSleep: bool,
    enableProfiler: bool,
    enableDebugRenderer: bool,
    enablePerFrameRecording: bool,
    recordState: bool,
    validateState: bool,
    scene: Scene,
    validateHash: Option<string>,
    repeat: int)

  /** The values before any argument is read. */
  const Defaults: Options :=
    Options(-1, -1, 500, false, false, false, false, false, false, NoScene, None, 1)

  /**
   * Where reading an argument leaves main: reading on with new options,
   * exiting with a code (invalid scene or quality: 1, usage: 0), or ended by
   * the NumberFormatException of Integer.parseInt.
   */
  datatype Outcome = Continue(options: Options) | Exit(code: int) | Crash

  const MinInt32: int := -0x8000_0000
  const MaxInt32: int := 0x7FFF_FFFF

  predicate StartsWith(s: string, prefix: string)
  {
    |prefix| <= |s| && s[..|prefix|] == prefix
  }

  predicate IsDigit(c: char) { '0' <= c <= '9' }

  predicate AllDigits(s: string)
  {
    forall i :: 0 <= i < |s| ==> IsDigit(s[i])
  }

  function DigitValue(c: char): nat
    requires IsDigit(c)
  {
    (c as int) - ('0' as int)
  }

  function DigitChar(d: nat): (c: char)
    requires d < 10
    ensures IsDigit(c) && DigitValue(c) == d
  {
    (('0' as int) + d) as char
  }

  /** The value of a string of decimal digits, most significant first. */
  function DigitsValue(s: string): nat
    requires AllDigits(s)
    decreases |s|
  {
    if s == [] then 0 else 10 * DigitsValue(s[..|s| - 1]) + DigitValue(s[|s| - 1])
  }

  /** The decimal digits of n, without leading zeros. */
  function NatToString(n: nat): (s: string)
    decreases n
  {
    if n < 10 then [DigitChar(n)] else NatToString(n / 10) + [DigitChar(n % 10)]
  }

  /** The decimal form of n, with a minus sign when negative. */
  function IntToString(n: int): string
  {
    if n < 0 then "-" + NatToString(-n) else NatToString(n)
  }

  /**
   * Integer.parseInt: an optional sign, then one or more decimal digits,
   * whose value fits in 32 bits; anything else is None.
   */
  function ParseInt(s: string): (r: Option<int>)
    ensures r.Some? ==> MinInt32 <= r.value <= MaxInt32
  {
    if s == [] then None
    else
      var negative := s[0] == '-';
      var digits := if s[0] == '-' || s[0] == '+' then s[1..] else s;
      if digits == [] || !AllDigits(digits) then None
      else
        var v: int := if negative then -(DigitsValue(digits) as int) else DigitsValue(digits);
        if MinInt32 <= v <= MaxInt32 then Some(v) else None
  }

  /** The digits of n are digits and read back as n. */
  lemma {:induction false} NatToStringDigits(n: nat)
    ensures NatToString(n) != [] && AllDigits(NatToString(n))
    ensures DigitsValue(NatToString(n)) == n
    decreases n
  {
    if n >= 10 {
      NatToStringDigits(n / 10);
      var s := NatToString(n);
      assert s[..|s| - 1] == NatToString(n / 10);
    }
  }

  /** Integer.parseInt reads back every 32-bit integer written in decimal. */
  lemma ParseIntToString(n: int)
    requires MinInt32 <= n <= MaxInt32
    ensures ParseInt(IntToString(n)) == Some(n)
  {
    if n < 0 {
      NatToStringDigits(-n);
      assert IntToString(n)[1..] == NatToString(-n);
    } else {
      NatToStringDigits(n);
    }
  }

  /** What main makes of one argument, tested in the order of its if-else chain. */
  datatype Command =
    | SetScene(name: string)
    | SetIterations(text: string)
    | SetQuality(name: string)
    | ThreadsMax
    | SetThreads(text: string)
    | NoSleep
    | Profiler
    | DebugRenderer
    | PerFrameRecording
    | RecordState
    | ValidateState
    | ValidateHash(hash: string)
    | SetRepeat(text: string)
    | Help
    | Ignored

  function Classify(arg: string): Command
  {
    if StartsWith(arg, "-s=") then SetScene(arg[3..])
    else if StartsWith(arg, "-i=") then SetIterations(arg[3..])
    else if StartsWith(arg, "-q=") then SetQuality(arg[3..])
    else if StartsWith(arg, "-t=max") then ThreadsMax
    else if StartsWith(arg, "-t=") then SetThreads(arg[3..])
    else if arg == "-no_sleep" then NoSleep
    else if arg == "-p" then Profiler
    else if arg == "-r" then DebugRenderer
    else if arg == "-f" then PerFrameRecording
    else if arg == "-rs" then RecordState
    else if arg == "-vs" then ValidateState
    else if StartsWith(arg, "-validate_hash=") then ValidateHash(arg[15..])
    else if StartsWith(arg, "-repeat=") then SetRepeat(arg[8..])
    else if arg == "-h" then Help
    else Ignored
  }

  /** The effect of one command on the options read so far. */
  function Apply(o: Options, c: Command, hardwareThreads: int): Outcome
  {
    match c
    case SetScene(name) =>
      if name == "ConvexVsMesh" then Continue(o.(scene := ConvexVsMesh))
      else if name == "Pyramid" then Continue(o.(scene := Pyramid))
      else Exit(1)
    case SetIterations(text) =>
      if ParseInt(text).None? then Crash else Continue(o.(maxIterations := ParseInt(text).value))
    case SetQuality(name) =>
      if name == "Discrete" then Continue(o.(quality := 0))
      else if name == "LinearCast" then Continue(o.(quality := 1))
      else Exit(1)
    case ThreadsMax => Continue(o.(threads := hardwareThreads))
    case SetThreads(text) =>
      if ParseInt(text).None? then Crash else Continue(o.(threads := ParseInt(text).value))
    case NoSleep => Continue(o.(disableSleep := true))
    case Profiler => Continue(o.(enableProfiler := true))
    case DebugRenderer => Continue(o.(enableDebugRenderer := true))
    case PerFrameRecording => Continue(o.(enablePerFrameRecording := true))
    case RecordState => Continue(o.(recordState := true))
    case ValidateState => Continue(o.(validateState := true))
    case ValidateHash(hash) => Continue(o.(validateHash := Some(hash)))
    case SetRepeat(text) =>
      if ParseInt(text).None? then Crash else Continue(o.(repeat := ParseInt(text).value))
    case Help => Exit(0)
    case Ignored => Continue(o)
  }

  /** The effect of one argument. */
  function Step(o: Options, arg: string, hardwareThreads: int): Outcome
  {
    Apply(o, Classify(arg), hardwareThreads)
  }

  /** Read the arguments in order from o, stopping at the first exit or crash. */
  function ParseFrom(o: Options, args: seq<string>, hardwareThreads: int): Outcome
    decreases |args|
  {
    if args == [] then Continue(o)
    else
      match Step(o, args[0], hardwareThreads)
      case Continue(next) => ParseFrom(next, args[1..], hardwareThreads)
      case stop => stop
  }

  /** The parse of main's argv, which starts at index 1. */
  function ParseCommandLine(argv: seq<string>, hardwareThreads: int): Outcome
  {
    if |argv| <= 1 then Continue(Defaults) else ParseFrom(Defaults, argv[1..], hardwareThreads)
  }

  /** The argument loop of main. */
  method ParseArguments(argv: seq<string>, hardwareThreads: int) returns (r: Outcome)
    ensures r == ParseCommandLine(argv, hardwareThreads)
  {
    var options := Defaults;
    var argidx := 1;
    while argidx < |argv|
      invariant 1 <= argidx
      invariant argidx <= |argv| || |argv| <= 1
      invariant |argv| > 1 ==> ParseFrom(options, argv[argidx..], hardwareThreads) == ParseCommandLine(argv, hardwareThreads)
      invariant |argv| <= 1 ==> options == Defaults
      decreases |argv| - argidx
    {
      var arg := argv[argidx];
      assert argv[argidx..][1..] == argv[argidx + 1..];
      var step := Step(options, arg, hardwareThreads);
      if !step.Continue? {
        return step;
      }
      options := step.options;
      argidx := argidx + 1;
    }
    return Continue(options);
  }

  /** argv[0] is never read. */
  lemma ProgramNameIgnored(name1: string, name2: string, rest: seq<string>, hardwareThreads: int)
    ensures ParseCommandLine([name1] + rest, hardwareThreads) == ParseCommandLine([name2] + rest, hardwareThreads)
  {
    assert ([name1] + rest)[1..] == rest == ([name2] + rest)[1..];
  }

  /** An argument main does not recognise. */
  predicate Unrecognised(arg: string)
  {
    && !StartsWith(arg, "-s=") && !StartsWith(arg, "-i=") && !StartsWith(arg, "-q=")
    && !StartsWith(arg, "-t=") && !StartsWith(arg, "-validate_hash=") && !StartsWith(arg, "-repeat=")
    && arg !in ["-no_sleep", "-p", "-r", "-f", "-rs", "-vs", "-h"]
  }

  /** An unrecognised argument, wherever it stands, changes nothing. */
  lemma {:induction false} UnrecognisedIgnored(o: Options, before: seq<string>, arg: string, after: seq<string>, hardwareThreads: int)
    requires Unrecognised(arg)
    ensures ParseFrom(o, before + [arg] + after, hardwareThreads) == ParseFrom(o, before + after, hardwareThreads)
    decreases |before|
  {
    if before == [] {
      assert Classify(arg) == Ignored;
      assert Step(o, arg, hardwareThreads) == Continue(o);
      assert before + [arg] + after == [arg] + after && before + after == after;
      assert ([arg] + after)[1..] == after;
    } else {
      assert (before + [arg] + after)[0] == (before + after)[0] == before[0];
      assert (before + [arg] + after)[1..] == before[1..] + [arg] + after;
      assert (before + after)[1..] == before[1..] + after;
      match Step(o, before[0], hardwareThreads)
      case Continue(next) => UnrecognisedIgnored(next, before[1..], arg, after, hardwareThreads);
      case _ =>
    }
  }

  /** -t=max is tested before -t=, so it takes the hardware thread count. */
  lemma ThreadsMaxTakesHardwareCount(o: Options, hardwareThreads: int)
    ensures Step(o, "-t=max", hardwareThreads) == Continue(o.(threads := hardwareThreads))
  {
    assert "-t=max"[..3] == "-t=";
    assert Classify("-t=max") == ThreadsMax;
  }

  /** -t= with a number sets exactly that thread count. */
  lemma ThreadsNumber(o: Options, n: nat, hardwareThreads: int)
    requires n <= MaxInt32
    ensures Step(o, "-t=" + NatToString(n), hardwareThreads) == Continue(o.(threads := n))
  {
    var arg := "-t=" + NatToString(n);
    NatToStringDigits(n);
    assert arg[3..] == NatToString(n);
    assert !StartsWith(arg, "-t=max") by {
      assert IsDigit(arg[3]);
    }
    ParseIntToString(n);
  }

  /** -q= maps Discrete to 0 and LinearCast to 1, and exits with 1 on anything else. */
  lemma QualityNames(o: Options, name: string, hardwareThreads: int)
    ensures Step(o, "-q=" + name, hardwareThreads)
         == if name == "Discrete" then Continue(o.(quality := 0))
            else if name == "LinearCast" then Continue(o.(quality := 1))
            else Exit(1)
  {
    assert ("-q=" + name)[3..] == name;
  }

  /** The option a command sets; 0 for the usage and ignored arguments. */
  function Field(c: Command): nat
  {
    match c
    case SetScene(_) => 1
    case SetIterations(_) => 2
    case SetQuality(_) => 3
    case ThreadsMax => 4
    case SetThreads(_) => 4
    case NoSleep => 5
    case Profiler => 6
    case DebugRenderer => 7
    case PerFrameRecording => 8
    case RecordState => 9
    case ValidateState => 10
    case ValidateHash(_) => 11
    case SetRepeat(_) => 12
    case Help => 0
    case Ignored => 0
  }

  /** A later argument for the same option overrides an earlier one. */
  lemma LaterOverrides(o: Options, first: Command, second: Command, hardwareThreads: int)
    requires Field(first) == Field(second) != 0 && Apply(o, first, hardwareThreads).Continue?
    ensures Apply(Apply(o, first, hardwareThreads).options, second, hardwareThreads) == Apply(o, second, hardwareThreads)
  {
    if Field(first) in {1, 3, 11} {
      LaterNameOverrides(o, first, second, hardwareThreads);
    } else if Field(first) in {2, 4, 12} {
      LaterNumberOverrides(o, first, second, hardwareThreads);
    } else {
      LaterFlagOverrides(o, first, second, hardwareThreads);
    }
  }

  lemma LaterNameOverrides(o: Options, first: Command, second: Command, hardwareThreads: int)
    requires Field(first) == Field(second) && Field(first) in {1, 3, 11} && Apply(o, first, hardwareThreads).Continue?
    ensures Apply(Apply(o, first, hardwareThreads).options, second, hardwareThreads) == Apply(o, second, hardwareThreads)
  {
    match first
    case SetScene(_) => assert second.SetScene?;
    case SetQuality(_) => assert second.SetQuality?;
    case ValidateHash(_) => assert second.ValidateHash?;
  }

  lemma LaterNumberOverrides(o: Options, first: Command, second: Command, hardwareThreads: int)
    requires Field(first) == Field(second) && Field(first) in {2, 4, 12} && Apply(o, first, hardwareThreads).Continue?
    ensures Apply(Apply(o, first, hardwareThreads).options, second, hardwareThreads) == Apply(o, second, hardwareThreads)
  {
    match first
    case SetIterations(_) => assert second.SetIterations?;
    case ThreadsMax => assert second.ThreadsMax? || second.SetThreads?;
    case SetThreads(_) => assert second.ThreadsMax? || second.SetThreads?;
    case SetRepeat(_) => assert second.SetRepeat?;
  }

  lemma LaterFlagOverrides(o: Options, first: Command, second: Command, hardwareThreads: int)
    requires Field(first) == Field(second) && 5 <= Field(first) <= 10
    ensures Apply(Apply(o, first, hardwareThreads).options, second, hardwareThreads) == Apply(o, second, hardwareThreads)
  {
    match first
    case NoSleep => assert second.NoSleep?;
    case Profiler => assert second.Profiler?;
    case DebugRenderer => assert second.DebugRenderer?;
    case PerFrameRecording => assert second.PerFrameRecording?;
    case RecordState => assert second.RecordState?;
    case ValidateState => assert second.ValidateState?;
  }

  /** No command that lets the parse go on leaves the quality outside -1, 0 and 1. */
  lemma ApplyKeepsQuality(o: Options, c: Command, hardwareThreads: int)
    requires o.quality in {-1, 0, 1} && Apply(o, c, hardwareThreads).Continue?
    ensures Apply(o, c, hardwareThreads).options.quality in {-1, 0, 1}
  {
    match c
    case SetQuality(name) =>
    case _ =>
  }

  /** Every parse that goes on leaves the quality at -1, 0 or 1. */
  lemma {:induction false} ParsedQualityInRange(o: Options, args: seq<string>, hardwareThreads: int)
    requires o.quality in {-1, 0, 1}
    ensures ParseFrom(o, args, hardwareThreads).Continue? ==> ParseFrom(o, args, hardwareThreads).options.quality in {-1, 0, 1}
    decreases |args|
  {
    if args != [] {
      var c := Classify(args[0]);
      var r := Apply(o, c, hardwareThreads);
      assert Step(o, args[0], hardwareThreads) == r;
      if r.Continue? {
        ApplyKeepsQuality(o, c, hardwareThreads);
        ParsedQualityInRange(r.options, args[1..], hardwareThreads);
      }
    }
  }

  /** Whether the run skips motion quality mq. */
  predicate SkipQuality(specifiedQuality: int, mq: int)
  {
    specifiedQuality != -1 && mq != specifiedQuality
  }

  /** The motion qualities the test loop runs, in order. */
  method SelectQualities(specifiedQuality: int) returns (qualities: seq<int>)
    ensures specifiedQuality == -1 ==> qualities == [0, 1]
    ensures specifiedQuality in {0, 1} ==> qualities == [specifiedQuality]
    ensures specifiedQuality !in {-1, 0, 1} ==> qualities == []
  {
    qualities := [];
    var mq := 0;
    while mq < 2
      invariant 0 <= mq <= 2
      invariant qualities == if specifiedQuality == -1 then seq(mq, i => i)
                             else if 0 <= specifiedQuality < mq then [specifiedQuality]
                             else []
    {
      if SkipQuality(specifiedQuality, mq) {
        mq := mq + 1;
        continue;
      }
      qualities := qualities + [mq];
      mq := mq + 1;
    }
  }

  /**
   * The thread counts to test: the one asked for, less one, when positive;
   * otherwise every count from 0 up to the hardware count.
   */
  method ThreadPermutations(specifiedThreads: int, numThreads: int) returns (permutations: seq<int>)
    ensures specifiedThreads > 0 ==> permutations == [specifiedThreads - 1]
    ensures specifiedThreads <= 0 ==> |permutations| == (if numThreads < 0 then 0 else numThreads + 1)
    ensures specifiedThreads <= 0 ==> forall i :: 0 <= i < |permutations| ==> permutations[i] == i
  {
    permutations := [];
    if specifiedThreads > 0 {
      permutations := permutations + [specifiedThreads - 1];
    } else {
      var n := 0;
      while n <= numThreads
        invariant 0 <= n && (n <= numThreads + 1 || numThreads < 0)
        invariant numThreads < 0 ==> n == 0
        invariant |permutations| == n
        invariant forall i :: 0 <= i < n ==> permutations[i] == i
      {
        permutations := permutations + [n];
        n := n + 1;
      }
    }
  }

  /** The name of motion quality mq. */
  function QualityName(mq: int): string
  {
    if mq == 0 then "Discrete" else "LinearCast"
  }

  /** The name of motion quality mq after toLowerCase. */
  function LowerQualityName(mq: int): string
  {
    if mq == 0 then "discrete" else "linearcast"
  }

  /** The tag naming one run: the lower-case quality, "_th", then the thread count. */
  function Tag(mq: int, numThreads: nat): string
  {
    LowerQualityName(mq) + "_th" + NatToString(numThreads + 1)
  }

  /** Different runs carry different tags. */
  lemma TagIdentifiesRun(mq1: int, n1: nat, mq2: int, n2: nat)
    requires mq1 in {0, 1} && mq2 in {0, 1}
    requires Tag(mq1, n1) == Tag(mq2, n2)
    ensures mq1 == mq2 && n1 == n2
  {
    var name1, name2 := LowerQualityName(mq1), LowerQualityName(mq2);
    var t1, t2 := Tag(mq1, n1), Tag(mq2, n2);
    assert t1[0] == name1[0] && t2[0] == name2[0];
    assert mq1 == mq2;
    var k := |name1 + "_th"|;
    assert t1[k..] == NatToString(n1 + 1);
    assert t2[k..] == NatToString(n2 + 1);
    NatToStringDigits(n1 + 1);
    NatToStringDigits(n2 + 1);
  }

  /** Lower-case hexadecimal digits of n, without leading zeros. */
  function HexDigits(n: nat): (s: string)
    decreases n
  {
    var d := n % 16;
    var c := if d < 10 then DigitChar(d) else (('a' as int) + d - 10) as char;
    if n < 16 then [c] else HexDigits(n / 16) + [c]
  }

  /** The value of one lower-case hexadecimal digit, if it is one. */
  function HexValue(c: char): Option<nat>
  {
    if '0' <= c <= '9' then Some((c as int) - ('0' as int))
    else if 'a' <= c <= 'f' then Some((c as int) - ('a' as int) + 10)
    else None
  }

  /** The value of a string of lower-case hexadecimal digits, if it is one. */
  function ReadHex(s: string): Option<nat>
    decreases |s|
  {
    if s == [] then Some(0)
    else
      match (ReadHex(s[..|s| - 1]), HexValue(s[|s| - 1]))
      case (Some(high), Some(low)) => Some(16 * high + low)
      case _ => None
  }

  /** The digits HexDigits writes read back as the number. */
  lemma {:induction false} HexDigitsRoundTrip(n: nat)
    ensures ReadHex(HexDigits(n)) == Some(n)
    decreases n
  {
    var s := HexDigits(n);
    if n >= 16 {
      HexDigitsRoundTrip(n / 16);
      assert s[..|s| - 1] == HexDigits(n / 16);
    } else {
      assert s[..|s| - 1] == [];
    }
  }

  /** The two's-complement value of a Java long as the unsigned value %x prints. */
  function Unsigned64(hash: int): (u: nat)
    requires -0x8000_0000_0000_0000 <= hash < 0x8000_0000_0000_0000
    ensures u < 0x1_0000_0000_0000_0000
    ensures u % 0x1_0000_0000_0000_0000 == hash % 0x1_0000_0000_0000_0000
  {
    if hash < 0 then hash + 0x1_0000_0000_0000_0000 else hash
  }

  /** String.format("0x%x", hash). */
  function HashString(hash: int): string
    requires -0x8000_0000_0000_0000 <= hash < 0x8000_0000_0000_0000
  {
    "0x" + HexDigits(Unsigned64(hash))
  }

  /** The hash check: it fails exactly when a hash was given and the run's differs. */
  predicate FailsHashValidation(validateHash: Option<string>, hash: int)
    requires -0x8000_0000_0000_0000 <= hash < 0x8000_0000_0000_0000
  {
    validateHash.Some? && HashString(hash) != validateHash.value
  }

  /** A run checked against its own printed hash passes, and different hashes print differently. */
  lemma HashStringIdentifiesHash(h1: int, h2: int)
    requires -0x8000_0000_0000_0000 <= h1 < 0x8000_0000_0000_0000
    requires -0x8000_0000_0000_0000 <= h2 < 0x8000_0000_0000_0000
    ensures !FailsHashValidation(Some(HashString(h1)), h1)
    ensures HashString(h1) == HashString(h2) ==> h1 == h2
  {
    if HashString(h1) == HashString(h2) {
      assert HashString(h1)[2..] == HexDigits(Unsigned64(h1));
      assert HashString(h2)[2..] == HexDigits(Unsigned64(h2));
      HexDigitsRoundTrip(Unsigned64(h1));
      HexDigitsRoundTrip(Unsigned64(h2));
    }
  }
}
