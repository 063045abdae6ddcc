/// The desktop simulator's own logic: the command-line parser, the
/// project directory derived from the program's path, and the table that
/// turns a key press into the remote code the sketch receives. The
/// window, the renderer and the event queue are not modelled.
module Simulator {
  import opened Wrappers
  import opened Arduino
  import opened IRremote
  import opened Remote

  // ---------------------------------------------------------------------
  // atoi
  // ---------------------------------------------------------------------

  /** The characters C's `isspace` accepts: space, tab, newline, vertical
      tab, form feed and carriage return. */
  predicate IsSpace(c: char)
  {
    c == ' ' || '\t' <= c <= '\r'
  }

  /** The length of the run of leading characters satisfying `IsSpace`. */
  function SpaceRun(s: string): (r: nat)
    ensures r <= |s|
    ensures forall i :: 0 <= i < r ==> IsSpace(s[i])
    ensures r < |s| ==> !IsSpace(s[r])
  {
    if s == [] || !IsSpace(s[0]) then 0 else 1 + SpaceRun(s[1..])
  }

  /** The length of the run of leading decimal digits. */
  function DigitRun(s: string): (r: nat)
    ensures r <= |s|
    ensures forall i :: 0 <= i < r ==> IsDigit(s[i])
    ensures r < |s| ==> !IsDigit(s[r])
  {
    if s == [] || !IsDigit(s[0]) then 0 else 1 + DigitRun(s[1..])
  }

  /** The value of the leading digits of `s` (0 when there are none). */
  function LeadingValue(s: string): nat
  {
    DecimalValue(s[..DigitRun(s)])
  }

  /** `atoi(s)`: leading white space, an optional sign, then the longest
      run of digits; 0 when no digit follows. */
  function Atoi(s: string): (r: int)
    ensures r < 0 ==> var t := s[SpaceRun(s)..]; t != [] && t[0] == '-'
  {
    var t := s[SpaceRun(s)..];
    if t != [] && t[0] == '-' then -(LeadingValue(t[1..]) as int)
    else if t != [] && t[0] == '+' then LeadingValue(t[1..])
    else LeadingValue(t)
  }

  lemma {:induction false} DigitRunOfDigits(s: string)
    requires forall i :: 0 <= i < |s| ==> IsDigit(s[i])
    ensures DigitRun(s) == |s|
  {
    if s != [] {
      DigitRunOfDigits(s[1..]);
    }
  }

  /** `atoi` reads back the decimal text of every integer. */
  lemma AtoiRoundTrip(n: int)
    ensures Atoi(IntToDecimal(n)) == n
  {
    var m := if n < 0 then -n else n;
    var digits := NatToDecimal(m);
    DigitRunOfDigits(digits);
    assert digits[..|digits|] == digits;
    DecimalRoundTrip(m);
    var s := IntToDecimal(n);
    assert !IsSpace(s[0]);
    assert s[SpaceRun(s)..] == s;
    if n < 0 {
      assert s[1..] == digits;
    }
  }

  /** Text that starts with neither white space, a sign nor a digit reads
      as 0. */
  lemma AtoiOfNonNumeric(s: string)
    requires s != [] && !IsSpace(s[0]) && !IsDigit(s[0]) && s[0] != '-' && s[0] != '+'
    ensures Atoi(s) == 0
  {
    assert s[SpaceRun(s)..] == s;
  }

  // ---------------------------------------------------------------------
  // Command line
  // ---------------------------------------------------------------------

  const DefaultScale: int := 8
  const DefaultGap: int := 1
  const MinScale: int := 1
  const MaxScale: int := 20
  const FallbackBasePath: string := "../.."

  /** The settings the command line controls: the pixel scale, the gap
      between pixels, and the project directory the images are read from. */
  datatype Settings = Settings(scale: int, gap: int, basePath: string)

  /** How argument parsing ends: `--help` prints the usage and makes the
      program exit with status 0; otherwise the simulator runs. */
  datatype ParseOutcome = ShowUsage | Run(settings: Settings)

  /** The two checks after `g_scale = atoi(...)`. */
  function ClampedScale(v: int): (r: int)
    ensures MinScale <= r <= MaxScale
    ensures MinScale <= v <= MaxScale ==> r == v
    ensures v < MinScale ==> r == MinScale
    ensures v > MaxScale ==> r == MaxScale
  {
    if v < MinScale then MinScale else if v > MaxScale then MaxScale else v
  }

  /** The argument loop from position `i` on, with the settings so far.
      A flag that needs a value and comes last is skipped like any other
      unknown argument; an argument that is a flag's value is never read
      as a flag. */
  function ParseFrom(argv: seq<string>, i: nat, st: Settings): (r: ParseOutcome)
    requires i <= |argv|
    ensures r.Run? && MinScale <= st.scale <= MaxScale ==> MinScale <= r.settings.scale <= MaxScale
    ensures r.Run? ==> r.settings.gap == st.gap || r.settings.gap == 0
    decreases |argv| - i
  {
    if i == |argv| then Run(st)
    else
      var arg := argv[i];
      if arg == "--help" || arg == "-h" then ShowUsage
      else if arg == "--scale" && i + 1 < |argv| then
        ParseFrom(argv, i + 2, st.(scale := ClampedScale(Atoi(argv[i + 1]))))
      else if arg == "--no-gap" then ParseFrom(argv, i + 1, st.(gap := 0))
      else if arg == "--base-path" && i + 1 < |argv| then ParseFrom(argv, i + 2, st.(basePath := argv[i + 1]))
      else ParseFrom(argv, i + 1, st)
  }

  /** The argument loop of `main`, from `argv[1]` on, starting from `st`. */
  method ParseArgs(argv: seq<string>, st: Settings) returns (outcome: ParseOutcome)
    requires |argv| >= 1
    ensures outcome == ParseFrom(argv, 1, st)
  {
    var scale, gap, basePath := st.scale, st.gap, st.basePath;
    var i := 1;
    while i < |argv|
      invariant 1 <= i <= |argv|
      invariant ParseFrom(argv, i, Settings(scale, gap, basePath)) == ParseFrom(argv, 1, st)
      decreases |argv| - i
    {
      var arg := argv[i];
      if arg == "--help" || arg == "-h" {
        return ShowUsage;
      } else if arg == "--scale" && i + 1 < |argv| {
        i := i + 1;
        scale := Atoi(argv[i]);
        if scale < MinScale {
          scale := MinScale;
        }
        if scale > MaxScale {
          scale := MaxScale;
        }
      } else if arg == "--no-gap" {
        gap := 0;
      } else if arg == "--base-path" && i + 1 < |argv| {
        i := i + 1;
        basePath := argv[i];
      }
      i := i + 1;
    }
    return Run(Settings(scale, gap, basePath));
  }

  /** Starting from a scale in range, the parsed scale is in range, and
      the gap is either the one given or 0. */
  lemma {:induction false} ParsedSettingsInRange(argv: seq<string>, i: nat, st: Settings)
    requires i <= |argv| && MinScale <= st.scale <= MaxScale
    ensures var o := ParseFrom(argv, i, st);
            o.Run? ==> MinScale <= o.settings.scale <= MaxScale && (o.settings.gap == st.gap || o.settings.gap == 0)
    decreases |argv| - i
  {
    if i < |argv| {
      var arg := argv[i];
      if arg == "--help" || arg == "-h" {
      } else if arg == "--scale" && i + 1 < |argv| {
        ParsedSettingsInRange(argv, i + 2, st.(scale := ClampedScale(Atoi(argv[i + 1]))));
      } else if arg == "--no-gap" {
        ParsedSettingsInRange(argv, i + 1, st.(gap := 0));
      } else if arg == "--base-path" && i + 1 < |argv| {
        ParsedSettingsInRange(argv, i + 2, st.(basePath := argv[i + 1]));
      } else {
        ParsedSettingsInRange(argv, i + 1, st);
      }
    }
  }

  /** The parsed base path is the one given, or the value that follows
      some `--base-path` flag. */
  lemma {:induction false} ParsedBasePathOrigin(argv: seq<string>, i: nat, st: Settings)
    requires i <= |argv|
    ensures var o := ParseFrom(argv, i, st);
            o.Run? ==> o.settings.basePath == st.basePath
                       || exists k :: i <= k < |argv| - 1 && argv[k] == "--base-path" && argv[k + 1] == o.settings.basePath
    decreases |argv| - i
  {
    if i < |argv| {
      var arg := argv[i];
      if arg == "--help" || arg == "-h" {
      } else if arg == "--scale" && i + 1 < |argv| {
        ParsedBasePathOrigin(argv, i + 2, st.(scale := ClampedScale(Atoi(argv[i + 1]))));
      } else if arg == "--no-gap" {
        ParsedBasePathOrigin(argv, i + 1, st.(gap := 0));
      } else if arg == "--base-path" && i + 1 < |argv| {
        ParsedBasePathOrigin(argv, i + 2, st.(basePath := argv[i + 1]));
      } else {
        ParsedBasePathOrigin(argv, i + 1, st);
      }
    }
  }

  /** `--help` stops the loop: whatever follows it is never looked at, so
      arguments appended after a parse that showed the usage change
      nothing. */
  lemma {:induction false} UsageIgnoresLaterArguments(argv: seq<string>, more: seq<string>, i: nat, st: Settings)
    requires i <= |argv| && ParseFrom(argv, i, st) == ShowUsage
    ensures ParseFrom(argv + more, i, st) == ShowUsage
    decreases |argv| - i
  {
    var all := argv + more;
    assert all[i] == argv[i];
    var arg := argv[i];
    if arg == "--help" || arg == "-h" {
    } else if arg == "--scale" && i + 1 < |argv| {
      assert all[i + 1] == argv[i + 1];
      UsageIgnoresLaterArguments(argv, more, i + 2, st.(scale := ClampedScale(Atoi(argv[i + 1]))));
    } else if arg == "--no-gap" {
      UsageIgnoresLaterArguments(argv, more, i + 1, st.(gap := 0));
    } else if arg == "--base-path" && i + 1 < |argv| {
      assert all[i + 1] == argv[i + 1];
      UsageIgnoresLaterArguments(argv, more, i + 2, st.(basePath := argv[i + 1]));
    } else {
      UsageIgnoresLaterArguments(argv, more, i + 1, st);
    }
  }

  /** A value flag given last, with nothing after it, is ignored. */
  lemma TrailingValueFlagIgnored(argv: seq<string>, st: Settings)
    requires |argv| >= 1 && (argv[|argv| - 1] == "--scale" || argv[|argv| - 1] == "--base-path")
    ensures ParseFrom(argv, |argv| - 1, st) == Run(st)
  {
  }

  /** Examples: a non-numeric scale becomes 1, a large one 20, and
      `--no-gap` and `--base-path` set their settings. */
  lemma CommandLineExamples(st: Settings)
    ensures ParseFrom(["sim", "--scale", "abc"], 1, st) == Run(st.(scale := 1))
    ensures ParseFrom(["sim", "--scale", "50", "--no-gap"], 1, st) == Run(st.(scale := 20, gap := 0))
    ensures ParseFrom(["sim", "--base-path", "/tmp/x", "--scale", "3"], 1, st) == Run(st.(scale := 3, basePath := "/tmp/x"))
    ensures ParseFrom(["sim", "--scale", "4", "-h", "--no-gap"], 1, st) == ShowUsage
  {
    AtoiOfNonNumeric("abc");
    AtoiRoundTrip(50);
    assert IntToDecimal(50) == "50";
    AtoiRoundTrip(3);
    assert IntToDecimal(3) == "3";
  }

  // ---------------------------------------------------------------------
  // Base path
  // ---------------------------------------------------------------------

  /** `s.substr(0, s.rfind('/'))`, or nothing when `s` has no '/'. */
  function BeforeLastSlash(s: string): (r: Option<string>)
    ensures r.None? <==> '/' !in s
    ensures r.Some? ==> |r.value| < |s| && r.value == s[..|r.value|] && s[|r.value|] == '/'
                        && '/' !in s[|r.value| + 1..]
  {
    var pos := LastIndexOf(s, "/");
    if pos < 0 then
      assert '/' !in s by {
        forall j | 0 <= j < |s| ensures s[j] != '/' {
          assert !OccursAt(s, "/", j);
        }
      }
      None
    else
      assert s[pos] == '/' by { assert OccursAt(s, "/", pos); }
      assert '/' !in s[pos + 1..] by {
        forall j | pos + 1 <= j < |s| ensures s[j] != '/' {
          assert !OccursAt(s, "/", j);
        }
      }
      Some(s[..pos])
  }

  /** The project directory: the program's path with its last three
      '/'-separated parts removed, or "../.." when that leaves nothing. */
  function BasePathFor(exePath: string): (r: string)
    ensures r != []
  {
    var stripped :=
      match BeforeLastSlash(exePath)
      case None => ""
      case Some(build) =>
        match BeforeLastSlash(build)
        case None => ""
        case Some(simulator) =>
          match BeforeLastSlash(simulator)
          case None => ""
          case Some(project) => project;
    if stripped == [] then FallbackBasePath else stripped
  }

  /** The start of `main`: `pos` and `dir` step up from the program's
      directory, one '/' at a time. */
  method DeriveBasePath(exePath: string) returns (basePath: string)
    ensures basePath == BasePathFor(exePath)
  {
    basePath := "";
    var pos := LastIndexOf(exePath, "/");
    if pos >= 0 {
      var dir := exePath[..pos];
      pos := LastIndexOf(dir, "/");
      if pos >= 0 {
        dir := dir[..pos];
        pos := LastIndexOf(dir, "/");
        if pos >= 0 {
          basePath := dir[..pos];
        }
      }
    }
    if basePath == [] {
      basePath := FallbackBasePath;
    }
  }

  /** When `s` ends in "/" followed by a part without '/', the text before
      that '/' is what `BeforeLastSlash` returns. */
  lemma BeforeLastSlashOf(p: string, a: string)
    requires '/' !in a
    ensures BeforeLastSlash(p + "/" + a) == Some(p)
  {
    var s := p + "/" + a;
    var r := BeforeLastSlash(s);
    assert s[|p|] == '/';
    assert r.Some? by { assert s[|p|] in s; }
    assert r.value == s[..|p|] == p;
  }

  /** A program at `project/simulator-dir/build-dir/name` takes `project`
      as its base path, unless `project` is empty. */
  lemma BasePathStripsThreeParts(project: string, sim: string, build: string, name: string)
    requires '/' !in sim && '/' !in build && '/' !in name
    ensures BasePathFor(project + "/" + sim + "/" + build + "/" + name)
            == if project == [] then FallbackBasePath else project
  {
    BeforeLastSlashOf(project + "/" + sim + "/" + build, name);
    BeforeLastSlashOf(project + "/" + sim, build);
    BeforeLastSlashOf(project, sim);
  }

  /** A program path with fewer than three '/' falls back to "../..". */
  lemma BasePathFallback(exePath: string)
    requires multiset(exePath)['/'] < 3
    ensures BasePathFor(exePath) == FallbackBasePath
  {
    match BeforeLastSlash(exePath)
    case None =>
    case Some(b) =>
      match BeforeLastSlash(b)
      case None =>
      case Some(d) =>
        match BeforeLastSlash(d)
        case None =>
        case Some(p) =>
          SlashBefore(exePath, |b|);
          SlashBefore(b, |d|);
          SlashBefore(d, |p|);
          assert false;
  }

  /** A '/' at position `k` adds one to the count of the prefix before it. */
  lemma SlashBefore(s: string, k: nat)
    requires k < |s| && s[k] == '/'
    ensures multiset(s)['/'] >= multiset(s[..k])['/'] + 1
  {
    assert s == s[..k] + [s[k]] + s[k + 1..];
  }

  /** `main` up to the render loop: the base path, then the arguments. */
  method ParseCommandLine(argv: seq<string>) returns (outcome: ParseOutcome)
    requires |argv| >= 1
    ensures outcome == ParseFrom(argv, 1, Settings(DefaultScale, DefaultGap, BasePathFor(argv[0])))
    ensures outcome.Run? ==> MinScale <= outcome.settings.scale <= MaxScale
    ensures outcome.Run? ==> outcome.settings.gap == 0 || outcome.settings.gap == DefaultGap
  {
    var basePath := DeriveBasePath(argv[0]);
    outcome := ParseArgs(argv, Settings(DefaultScale, DefaultGap, basePath));
    ParsedSettingsInRange(argv, 1, Settings(DefaultScale, DefaultGap, basePath));
  }

  // ---------------------------------------------------------------------
  // Keyboard
  // ---------------------------------------------------------------------

  type DigitKey = d: int | 0 <= d <= 9

  /** The keys the render loop tells apart; every other key is `Unmapped`. */
  datatype Key =
    | Minus | KeypadMinus | Equals | Plus | KeypadPlus
    | LeftArrow | RightArrow | UpArrow | DownArrow
    | Return | KeypadEnter | Space | Backspace | Escape | LetterS
    | Number(n: DigitKey) | KeypadNumber(n: DigitKey)
    | LetterQ
    | Unmapped(sym: int)

  /** The code the key-down switch leaves in `code` (0 for no code). */
  function KeyCode(k: Key): (r: IRRawDataType)
    ensures r == 0 <==> k.Unmapped?
  {
    match k
    case Minus | KeypadMinus => 0xFF00BF00
    case Equals | Plus | KeypadPlus => 0xFD02BF00
    case LeftArrow => 0xF708BF00
    case RightArrow => 0xF50ABF00
    case UpArrow => 0xFA05BF00
    case DownArrow => 0xF20DBF00
    case Return | KeypadEnter => 0xF609BF00
    case Space => 0xFE01BF00
    case Backspace | Escape => 0xF10EBF00
    case LetterS => 0xF906BF00
    case Number(n) => DigitCode(n)
    case KeypadNumber(n) => DigitCode(n)
    case LetterQ => 0xFFFFFFFF
    case Unmapped(_) => 0
  }

  function DigitCode(n: DigitKey): IRRawDataType
  {
    if n == 0 then 0xF30CBF00
    else if n == 1 then 0xEF10BF00
    else if n == 2 then 0xEE11BF00
    else if n == 3 then 0xED12BF00
    else if n == 4 then 0xEB14BF00
    else if n == 5 then 0xEA15BF00
    else if n == 6 then 0xE916BF00
    else if n == 7 then 0xE718BF00
    else if n == 8 then 0xE619BF00
    else 0xE51ABF00
  }

  /** The remote button each key stands for, as the simulator's key
      legend names it. */
  function KeyButton(k: Key): Option<Button>
  {
    match k
    case Minus | KeypadMinus => Some(VolDown)
    case Equals | Plus | KeypadPlus => Some(VolUp)
    case LeftArrow => Some(Left)
    case RightArrow => Some(Right)
    case UpArrow => Some(Up)
    case DownArrow => Some(Down)
    case Return | KeypadEnter => Some(Enter)
    case Space => Some(Play)
    case Backspace | Escape => Some(Back)
    case LetterS => Some(Stop)
    case Number(n) => Some(DigitButton(n))
    case KeypadNumber(n) => Some(DigitButton(n))
    case LetterQ => None
    case Unmapped(_) => None
  }

  function DigitButton(n: DigitKey): Button
  {
    [Digit0, Digit1, Digit2, Digit3, Digit4, Digit5, Digit6, Digit7, Digit8, Digit9][n]
  }

  /** Every mapped key injects its button's code, which the sketch
      recognises as that button; Q injects the quit code, which the sketch
      rejects as unknown; any other key gives 0 and injects nothing. */
  lemma KeyCodesMatchButtons(k: Key)
    ensures KeyButton(k).Some? ==> KeyCode(k) == CodeOf(KeyButton(k).value) && ButtonOf(KeyCode(k)) == KeyButton(k)
    ensures k == LetterQ ==> KeyCode(k) == 0xFFFFFFFF && ButtonOf(KeyCode(k)).None?
    ensures k.Unmapped? ==> KeyCode(k) == 0
    ensures KeyCode(k) != 0 <==> !k.Unmapped?
  {
    if KeyButton(k).Some? {
      ButtonOfCodeOf(KeyButton(k).value);
      match k
      case Number(n) => DigitKeyCode(n);
      case KeypadNumber(n) => DigitKeyCode(n);
      case _ =>
    }
  }

  lemma DigitKeyCode(n: DigitKey)
    ensures DigitCode(n) == CodeOf(DigitButton(n))
  {
  }

  /** The key-down branch of the render loop: a non-zero code joins the
      receiver's queue. The result says whether the loop keeps running
      (Q stops it). */
  method HandleKeyDown(receiver: IRrecv, k: Key) returns (running: bool)
    requires receiver.Valid()
    modifies receiver
    ensures receiver.Valid()
    ensures receiver.inputQueue == old(receiver.inputQueue) + (if k.Unmapped? then [] else [KeyCode(k)])
    ensures running <==> k != LetterQ
  {
    running := true;
    var code: IRRawDataType := 0;
    match k {
      case LetterQ =>
        running := false;
        code := 0xFFFFFFFF;
      case _ =>
        code := KeyCode(k);
    }
    KeyCodesMatchButtons(k);
    if code != 0 {
      receiver.InjectCode(code);
    }
  }
}
