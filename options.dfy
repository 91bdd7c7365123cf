/** The harness's command line: `-x<value>` tokens scanned left to right
    into the run configuration. */
module Options {

  /** The pixel format images are converted to before template creation. */
  datatype ImageFormat = Rgb888 | Grayscale8

  datatype Config = Config(
    inputDir: string,       // -i
    outputDir: string,      // -o
    resourcesPath: string,  // -r
    vtpp: nat,              // -v: verification templates per person
    etpp: nat,              // -e: enrollment templates per person
    rocPoints: nat,         // -p: points of the ROC curve
    verbose: bool,          // -b
    rewriteOutput: bool,    // -w
    shuffle: bool,          // -s
    format: ImageFormat)    // -g selects grayscale

  /** The values in force before any option is read. */
  function Defaults(): Config
  {
    Config("", "", "", 1, 1, 512, false, false, false, Rgb888)
  }

  /** Largest `uint` (32 bits). */
  const UIntMax: nat := 0xFFFF_FFFF

  predicate IsDigit(c: char)
  {
    '0' <= c <= '9'
  }

  predicate AllDigits(s: string)
  {
    forall i :: 0 <= i < |s| ==> IsDigit(s[i])
  }

  /** The value of a string of decimal digits. */
  function DigitsValue(s: string): nat
    requires AllDigits(s)
  {
    if s == [] then 0
    else 10 * DigitsValue(s[..|s| - 1]) + (s[|s| - 1] - '0') as nat
  }

  /** `QString::toUInt()`: the decimal value of the string, or 0 when the
      string is not a number or does not fit in 32 bits. */
  function ToUInt(s: string): (r: nat)
    ensures r <= UIntMax
    ensures r != 0 ==> AllDigits(s) && s != [] && DigitsValue(s) == r
  {
    if s != [] && AllDigits(s) && DigitsValue(s) <= UIntMax then DigitsValue(s) else 0
  }

  /** The decimal digits of `n`, the inverse of `DigitsValue`. */
  function Decimal(n: nat): (s: string)
    ensures s != [] && AllDigits(s)
  {
    var d := ['0' + (n % 10) as char];
    if n < 10 then d else Decimal(n / 10) + d
  }

  /** Reading back the decimal digits of a 32-bit value gives the value. */
  lemma {:induction false} ToUIntDecimal(n: nat)
    requires n <= UIntMax
    ensures ToUInt(Decimal(n)) == n
  {
    DigitsValueDecimal(n);
  }

  lemma {:induction false} DigitsValueDecimal(n: nat)
    ensures DigitsValue(Decimal(n)) == n
  {
    var s := Decimal(n);
    if n >= 10 {
      DigitsValueDecimal(n / 10);
      assert s[..|s| - 1] == Decimal(n / 10);
    }
  }

  predicate StartsWithDash(token: string)
  {
    |token| > 0 && token[0] == '-'
  }

  /** One option token: the letter after `-` selects the setting and the
      rest of the token is its value. A letter the harness does not know
      (including a bare `-`) changes nothing. */
  function ApplyOption(cfg: Config, token: string): Config
    requires StartsWithDash(token)
  {
    if |token| == 1 then cfg
    else
      var value := token[2..];
      match token[1]
      case 'g' => cfg.(format := Grayscale8)
      case 'i' => cfg.(inputDir := value)
      case 'o' => cfg.(outputDir := value)
      case 'r' => cfg.(resourcesPath := value)
      case 'v' => cfg.(vtpp := ToUInt(value))
      case 'e' => cfg.(etpp := ToUInt(value))
      case 'p' => cfg.(rocPoints := ToUInt(value))
      case 'b' => cfg.(verbose := true)
      case 's' => cfg.(shuffle := true)
      case 'w' => cfg.(rewriteOutput := true)
      case _ => cfg
  }

  /** Tokens applied in order up to the first one not starting with `-`. */
  function Scan(cfg: Config, tokens: seq<string>): Config
    decreases |tokens|
  {
    if tokens == [] || !StartsWithDash(tokens[0]) then cfg
    else Scan(ApplyOption(cfg, tokens[0]), tokens[1..])
  }

  /** What the command line asks for: the help text (no arguments at all)
      or a run with a configuration. */
  datatype Request = Help | Run(config: Config)

  /** The argument loop of `main`: walks `argv` after the program name,
      stopping at the first token not starting with `-`. */
  method ParseArgs(argv: seq<string>) returns (request: Request)
    ensures |argv| == 1 <==> request == Help
    ensures |argv| != 1 ==> request == Run(Scan(Defaults(), if argv == [] then [] else argv[1..]))
  {
    if |argv| == 1 {
      return Help;
    }
    var inputDir, outputDir, resourcesPath := "", "", "";
    var vtpp: nat, etpp: nat, rocPoints: nat := 1, 1, 512;
    var verbose, rewriteOutput, shuffle := false, false, false;
    var format := Rgb888;
    ghost var tokens := if argv == [] then [] else argv[1..];
    var k := 1;
    while k < |argv| && StartsWithDash(argv[k])
      invariant 1 <= k && (argv == [] || k <= |argv|)
      invariant Scan(Defaults(), tokens) ==
        Scan(Config(inputDir, outputDir, resourcesPath, vtpp, etpp, rocPoints,
                    verbose, rewriteOutput, shuffle, format),
             if argv == [] then [] else argv[k..])
    {
      var token := argv[k];
      if |token| > 1 {
        var value := token[2..];
        match token[1]
        case 'g' => format := Grayscale8;
        case 'i' => inputDir := value;
        case 'o' => outputDir := value;
        case 'r' => resourcesPath := value;
        case 'v' => vtpp := ToUInt(value);
        case 'e' => etpp := ToUInt(value);
        case 'p' => rocPoints := ToUInt(value);
        case 'b' => verbose := true;
        case 's' => shuffle := true;
        case 'w' => rewriteOutput := true;
        case _ =>
      }
      assert argv[k..][1..] == argv[k + 1..];
      k := k + 1;
    }
    request := Run(Config(inputDir, outputDir, resourcesPath, vtpp, etpp, rocPoints,
                          verbose, rewriteOutput, shuffle, format));
  }

  /** Scanning stops at the first token that does not start with `-`:
      whatever follows it is never read. */
  lemma {:induction false} ScanStopsAtPlainToken(cfg: Config, options: seq<string>, rest: seq<string>)
    requires rest != [] && !StartsWithDash(rest[0])
    ensures Scan(cfg, options + rest) == Scan(cfg, options)
    decreases |options|
  {
    if options != [] && StartsWithDash(options[0]) {
      assert (options + rest)[1..] == options[1..] + rest;
      ScanStopsAtPlainToken(ApplyOption(cfg, options[0]), options[1..], rest);
    }
  }

  /** Options are applied left to right: the last of a run of option tokens
      is applied to the result of the ones before it. */
  lemma {:induction false} ScanAppend(cfg: Config, options: seq<string>, last: string)
    requires forall i :: 0 <= i < |options| ==> StartsWithDash(options[i])
    requires StartsWithDash(last)
    ensures Scan(cfg, options + [last]) == ApplyOption(Scan(cfg, options), last)
    decreases |options|
  {
    if options == [] {
      assert Scan(ApplyOption(cfg, last), []) == ApplyOption(cfg, last);
    } else {
      assert (options + [last])[1..] == options[1..] + [last];
      ScanAppend(ApplyOption(cfg, options[0]), options[1..], last);
    }
  }

  /** A later option with the same letter overrides an earlier one. */
  lemma LaterOptionOverrides(cfg: Config, first: string, second: string)
    requires |first| > 1 && |second| > 1 && first[0] == '-' && second[0] == '-'
    requires first[1] == second[1]
    ensures ApplyOption(ApplyOption(cfg, first), second) == ApplyOption(cfg, second)
  {
    var mid := ApplyOption(cfg, first);
    match first[1]
    case 'g' =>
    case 'i' =>
    case 'o' =>
    case 'r' =>
    case 'v' => assert mid == cfg.(vtpp := mid.vtpp);
    case 'e' => assert mid == cfg.(etpp := mid.etpp);
    case 'p' => assert mid == cfg.(rocPoints := mid.rocPoints);
    case 'b' =>
    case 's' =>
    case 'w' =>
    case _ =>
  }

  /** A command line whose first argument is not an option runs with the
      defaults: one verification and one enrollment template per person,
      512 ROC points, every switch off, RGB888 images. */
  lemma DefaultsWhenNoOptions(argv: seq<string>)
    requires |argv| >= 2 && !StartsWithDash(argv[1])
    ensures var cfg := Scan(Defaults(), argv[1..]);
      && cfg.vtpp == 1 && cfg.etpp == 1 && cfg.rocPoints == 512
      && !cfg.verbose && !cfg.rewriteOutput && !cfg.shuffle && cfg.format == Rgb888
      && cfg.inputDir == "" && cfg.outputDir == "" && cfg.resourcesPath == ""
  {
  }
}
