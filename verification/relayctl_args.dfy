/**
  Command-line validation of the relay tool: the option loop, the
  case-insensitive command match, and the channel and mask argument checks.
  A successful parse yields a fully validated argument record.
*/
module RelayArgs {
  import opened Wrappers
  import opened CLib
  import opened UsbRelay

  /** The codes of the `ERR <CODE> ...` diagnostics the tool prints. */
  datatype ErrorCode =
    | BadCommand
    | BadChannel
    | BadState
    | BadMask
    | DeviceUnavailable
    | ReadFailure
    | WriteFailure
    | InternalError

  datatype CommandKind =
    | NoCommand
    | Set
    | Get
    | GetAll
    | Toggle
    | WriteMask
    | ReadMask
    | Reset
    | Ping
    | Version
    | Help

  datatype SwitchState = Off | On

  /** The parsed command line; fields a command does not use keep their zero defaults. */
  datatype Args = Args(
    cmd: CommandKind,
    channel: int,
    state: SwitchState,
    mask: bv8,
    devPath: string,
    interactive: bool,
    verbose: bool)

  /** A parse failure: either the usage text or one `ERR` diagnostic. */
  datatype ArgError = Usage | Rejected(code: ErrorCode)

  /** `PATH_MAX` as the C library headers define it on Linux. */
  const PathMax: int := 4096

  predicate TakesChannel(k: CommandKind) {
    k == Set || k == Get || k == Toggle
  }

  /**
    What a successful parse guarantees: a command was named, its channel or
    mask is in range, and fields it does not use are at their defaults.
  */
  predicate Validated(a: Args) {
    && a.cmd != NoCommand
    && (TakesChannel(a.cmd) ==> ValidChannel(a.channel))
    && (!TakesChannel(a.cmd) ==> a.channel == 0)
    && (a.cmd != Set ==> a.state == Off)
    && (a.cmd == WriteMask ==> a.mask & !MaskAll == 0)
    && (a.cmd != WriteMask ==> a.mask == 0)
    && |a.devPath| < PathMax
  }

  // ---------------------------------------------------------------------
  // Argument checks

  /** A channel argument: the whole text must convert, in decimal, to 1..4. */
  function ParseChannelArg(arg: string): (r: Result<int, ErrorCode>)
    ensures r.Ok? ==> ValidChannel(r.value)
    ensures r.Err? ==> r.error == BadChannel
    ensures |arg| == 0 ==> r.Err?
  {
    var c := Strtol(arg, Decimal);
    if |arg| == 0 || c.end != |arg| || c.value < MinChannel || c.value > MaxChannel then
      Err(BadChannel)
    else
      Ok(c.value)
  }

  /** The two range checks on a converted mask: it must fit a byte, then have no bit outside `MaskAll`. */
  function CheckMaskValue(val: int): (r: Result<bv8, ErrorCode>)
    ensures r.Ok? <==> 0 <= val <= 0x0F
    ensures r.Ok? ==> r.value as int == val
    ensures r.Err? ==> r.error == BadMask
  {
    if val < 0 || val > 0xFF then
      Err(BadMask)
    else if (val as bv8) & !MaskAll != 0 then
      Err(BadMask)
    else
      Ok(val as bv8)
  }

  /** A mask argument: the whole text must convert, with C's base prefixes, to 0x00..0x0F. */
  function ParseMaskArg(arg: string): (r: Result<bv8, ErrorCode>)
    ensures r.Ok? ==> r.value & !MaskAll == 0 && r.value <= 0x0F
    ensures r.Err? ==> r.error == BadMask
    ensures |arg| == 0 ==> r.Err?
  {
    var c := Strtol(arg, Auto);
    if |arg| == 0 || c.end != |arg| then Err(BadMask) else CheckMaskValue(c.value)
  }

  // ---------------------------------------------------------------------
  // The same checks stated as grammars

  /**
    Channel texts the tool accepts: optional white space, an optional '+',
    then a decimal numeral, with nothing after it, whose value is 1..4.
  */
  function ChannelGrammar(arg: string): Result<int, ErrorCode> {
    var digits := arg[SignEnd(arg)..];
    if !Negative(arg) && |digits| > 0 && AllDigitsIn(digits, 10) && ValidChannel(NumeralValue(digits, 10)) then
      Ok(NumeralValue(digits, 10))
    else
      Err(BadChannel)
  }

  /** A whole numeral in C source syntax: "0x"/"0X" and hexadecimal digits, "0" and octal digits, or decimal. */
  function NumeralText(t: string): Option<nat> {
    if |t| >= 3 && t[0] == '0' && (t[1] == 'x' || t[1] == 'X') && AllDigitsIn(t[2..], 16) then
      Some(NumeralValue(t[2..], 16))
    else if |t| >= 1 && t[0] == '0' && AllDigitsIn(t, 8) then
      Some(NumeralValue(t, 8))
    else if |t| >= 1 && t[0] != '0' && AllDigitsIn(t, 10) then
      Some(NumeralValue(t, 10))
    else
      None
  }

  /**
    Mask texts the tool accepts: optional white space, an optional sign, then
    a whole numeral whose signed value is 0..15.
  */
  function MaskGrammar(arg: string): Result<bv8, ErrorCode> {
    match NumeralText(arg[SignEnd(arg)..])
    case None => Err(BadMask)
    case Some(v) =>
      var x := Signed(arg, v);
      if 0 <= x <= 0x0F then Ok(x as bv8) else Err(BadMask)
  }

  /** Saturation never moves a value into or out of a small non-negative range. */
  lemma ClampKeepsSmallRange(x: int, lo: int, hi: int)
    requires 0 <= lo <= hi <= 0xFF
    ensures lo <= Clamp(x) <= hi <==> lo <= x <= hi
    ensures lo <= x <= hi ==> Clamp(x) == x
  {
  }

  /** The channel check accepts exactly the texts of `ChannelGrammar`, with the same value. */
  lemma ParseChannelArgIsGrammar(arg: string)
    ensures ParseChannelArg(arg) == ChannelGrammar(arg)
  {
    if |arg| > 0 {
      var j := SignEnd(arg);
      assert BaseAndStart(arg, j, Decimal) == (10, j);
      StrtolConsumesAll(arg, Decimal);
      if Strtol(arg, Decimal).end == |arg| {
        ClampKeepsSmallRange(Signed(arg, NumeralValue(arg[j..], 10)), 1, 4);
      }
    }
  }

  /** The mask check accepts exactly the texts of `MaskGrammar`, with the same value. */
  lemma ParseMaskArgIsGrammar(arg: string)
    ensures ParseMaskArg(arg) == MaskGrammar(arg)
  {
    if |arg| > 0 {
      var j := SignEnd(arg);
      var t := arg[j..];
      var (base, k) := BaseAndStart(arg, j, Auto);
      StrtolConsumesAll(arg, Auto);
      NumeralTextByBase(arg, j, base, k);
      if Strtol(arg, Auto).end == |arg| {
        ClampKeepsSmallRange(Signed(arg, NumeralValue(arg[k..], base)), 0, 15);
      }
    }
  }

  /** `NumeralText` reads the numeral with the base and start `strtol` chooses. */
  lemma NumeralTextByBase(arg: string, j: nat, base: nat, k: nat)
    requires j <= |arg| && (base, k) == BaseAndStart(arg, j, Auto)
    ensures NumeralText(arg[j..]) ==
      if k < |arg| && AllDigitsIn(arg[k..], base) then Some(NumeralValue(arg[k..], base)) else None
  {
    var t := arg[j..];
    if base == 16 {
      assert k == j + 2 && arg[k..] == t[2..];
      assert !AllDigitsIn(t, 8) by {
        assert !IsDigitIn(t[1], 8);
      }
    } else if base == 8 {
      assert k == j && arg[k..] == t;
      assert !(|t| >= 3 && (t[1] == 'x' || t[1] == 'X'));
    } else {
      assert k == j && arg[k..] == t;
      if |t| > 0 && t[0] == '0' {
        assert false;
      }
    }
  }

  /** Every valid channel, printed with `%d`, passes the channel check. */
  lemma ChannelTextRoundTrip(ch: int)
    requires ValidChannel(ch)
    ensures ParseChannelArg(FormatDecimal(ch)) == Ok(ch)
  {
    var s := FormatDecimal(ch);
    FormatDecimalReadsBack(ch);
    assert SpaceRun(s) == 0;
    assert SignEnd(s) == 0 && s[0..] == s;
    ParseChannelArgIsGrammar(s);
  }

  /** Every mask the tool reports, written as `0x%02X`, passes the mask check and reads back unchanged. */
  lemma MaskTextRoundTrip(m: bv8)
    requires m & !MaskAll == 0
    ensures ParseMaskArg("0x" + FormatHex2(m)) == Ok(m)
  {
    var h := FormatHex2(m);
    var s := "0x" + h;
    FormatHex2ReadsBack(m);
    assert SpaceRun(s) == 0;
    assert SignEnd(s) == 0 && s[0..] == s && s[2..] == h;
    assert NumeralText(s) == Some(m as int);
    ParseMaskArgIsGrammar(s);
  }

  /** Masks with a bit above channel 4 are refused, e.g. "0x10". */
  lemma WideMaskRejected()
    ensures ParseMaskArg("0x10") == Err(BadMask)
  {
    var s := "0x10";
    assert SpaceRun(s) == 0;
    assert SignEnd(s) == 0 && !Negative(s) && s[0..] == s;
    assert s[2..] == "10" && "10"[..1] == "1";
    assert AllDigitsIn(s[2..], 16);
    assert NumeralValue("10", 16) == 16;
    assert NumeralText(s) == Some(16);
    ParseMaskArgIsGrammar(s);
  }

  /** Every byte with a bit above channel 4, written as the tool prints masks (`0x%02X`), is refused. */
  lemma WideMasksRejected(m: bv8)
    requires m & !MaskAll != 0
    ensures ParseMaskArg("0x" + FormatHex2(m)) == Err(BadMask)
  {
    var h := FormatHex2(m);
    var s := "0x" + h;
    FormatHex2ReadsBack(m);
    assert SpaceRun(s) == 0;
    assert SignEnd(s) == 0 && !Negative(s) && s[0..] == s && s[2..] == h;
    assert NumeralText(s) == Some(m as int);
    assert m as int > 0x0F;
    ParseMaskArgIsGrammar(s);
  }

  // ---------------------------------------------------------------------
  // The command line

  /** `argv[i][0] == '-'`: the word is taken as an option. */
  predicate IsOption(w: string) {
    |w| > 0 && w[0] == '-'
  }

  /** `strncpy` into a `PATH_MAX` buffer whose last byte is then forced to the terminator. */
  function CopyPath(p: string): (r: string)
    ensures r <= p
    ensures |r| == if |p| < PathMax then |p| else PathMax - 1
  {
    if |p| < PathMax then p else p[..PathMax - 1]
  }

  function InitialArgs(): Args {
    Args(NoCommand, 0, Off, 0, DefaultDevice, false, false)
  }

  /** The option loop: "-v", "-i" and "-d <path>" are consumed while the next word starts with '-'. */
  function ParseOptions(argv: seq<string>, i: nat, a: Args): (r: Result<(nat, Args), ArgError>)
    requires i <= |argv|
    requires |a.devPath| < PathMax
    ensures r.Ok? ==> i <= r.value.0 <= |argv|
    ensures r.Ok? ==> r.value.0 == |argv| || !IsOption(argv[r.value.0])
    ensures r.Ok? ==> r.value.1 == a.(devPath := r.value.1.devPath, interactive := r.value.1.interactive, verbose := r.value.1.verbose)
    ensures r.Ok? ==> |r.value.1.devPath| < PathMax
    ensures r.Err? ==> r.error == Rejected(BadCommand)
    // a flag, once set, stays set; a flag the loop sets was named by a word it read
    ensures r.Ok? && a.verbose ==> r.value.1.verbose
    ensures r.Ok? && a.interactive ==> r.value.1.interactive
    ensures r.Ok? && r.value.1.verbose && !a.verbose ==> exists j | i <= j < r.value.0 :: argv[j] == "-v"
    ensures r.Ok? && r.value.1.interactive && !a.interactive ==> exists j | i <= j < r.value.0 :: argv[j] == "-i"
    ensures r.Ok? && r.value.1.devPath != a.devPath ==>
      exists j | i <= j && j + 1 < r.value.0 :: argv[j] == "-d" && r.value.1.devPath == CopyPath(argv[j + 1])
    // "-d" as the last word, and any option other than the three, are refused
    ensures i + 1 == |argv| && argv[i] == "-d" ==> r == Err(Rejected(BadCommand))
    ensures i < |argv| && IsOption(argv[i]) && argv[i] != "-v" && argv[i] != "-i" && argv[i] != "-d" ==>
      r == Err(Rejected(BadCommand))
    decreases |argv| - i
  {
    if i < |argv| && IsOption(argv[i]) then
      if argv[i] == "-v" then
        ParseOptions(argv, i + 1, a.(verbose := true))
      else if argv[i] == "-i" then
        ParseOptions(argv, i + 1, a.(interactive := true))
      else if argv[i] == "-d" then
        if i + 1 >= |argv| then Err(Rejected(BadCommand))
        else ParseOptions(argv, i + 2, a.(devPath := CopyPath(argv[i + 1])))
      else
        Err(Rejected(BadCommand))
    else
      Ok((i, a))
  }

  /** The name of each command as the tool matches it. */
  function CommandName(k: CommandKind): string
    requires k != NoCommand
  {
    match k
    case Set => "set"
    case Get => "get"
    case GetAll => "getall"
    case Toggle => "toggle"
    case WriteMask => "write-mask"
    case ReadMask => "read-mask"
    case Reset => "reset"
    case Ping => "ping"
    case Version => "version"
    case Help => "help"
  }

  /** How many argument words a command reads after its name. */
  function Arity(k: CommandKind): nat {
    match k
    case Set => 2
    case Get => 1
    case Toggle => 1
    case WriteMask => 1
    case _ => 0
  }

  /**
    The command a word names: the first name, in the order the tool tries
    them, that equals the word ignoring ASCII case.
  */
  function CommandOf(w: string): (r: Option<CommandKind>)
    ensures r.Some? ==> r.value != NoCommand && StrCaseCmp(w, CommandName(r.value)) == 0
  {
    if StrCaseCmp(w, "set") == 0 then Some(Set)
    else if StrCaseCmp(w, "get") == 0 then Some(Get)
    else if StrCaseCmp(w, "getall") == 0 then Some(GetAll)
    else if StrCaseCmp(w, "toggle") == 0 then Some(Toggle)
    else if StrCaseCmp(w, "write-mask") == 0 then Some(WriteMask)
    else if StrCaseCmp(w, "read-mask") == 0 then Some(ReadMask)
    else if StrCaseCmp(w, "reset") == 0 then Some(Reset)
    else if StrCaseCmp(w, "ping") == 0 then Some(Ping)
    else if StrCaseCmp(w, "version") == 0 then Some(Version)
    else if StrCaseCmp(w, "help") == 0 then Some(Help)
    else None
  }

  /**
    The diagnostic for the arguments of command `c` named at `argv[k]` when
    they are all present, or None when they are valid; the channel is
    checked before the state word.
  */
  function ArgumentError(argv: seq<string>, k: nat, c: CommandKind): Option<ErrorCode>
    requires k + Arity(c) < |argv|
  {
    if TakesChannel(c) && ParseChannelArg(argv[k + 1]).Err? then Some(BadChannel)
    else if c == WriteMask && ParseMaskArg(argv[k + 1]).Err? then Some(BadMask)
    else if c == Set && StrCaseCmp(argv[k + 2], "on") != 0 && StrCaseCmp(argv[k + 2], "off") != 0 then Some(BadState)
    else None
  }

  /** The record's channel, mask and state are the values of the words after the name at `argv[k]`. */
  predicate ReadsArguments(argv: seq<string>, k: nat, b: Args)
    requires k + Arity(b.cmd) < |argv|
  {
    && (TakesChannel(b.cmd) ==> ParseChannelArg(argv[k + 1]) == Ok(b.channel))
    && (b.cmd == WriteMask ==> ParseMaskArg(argv[k + 1]) == Ok(b.mask))
    && (b.cmd == Set ==> (b.state == On <==> StrCaseCmp(argv[k + 2], "on") == 0))
  }

  /** A command that takes one channel argument at `argv[i]`. */
  function ChannelCommand(argv: seq<string>, i: nat, a: Args, kind: CommandKind): (r: Result<(nat, Args), ArgError>)
    requires i <= |argv|
    requires Unnamed(a) == a && |a.devPath| < PathMax && (kind == Get || kind == Toggle)
    ensures i == |argv| ==> r == Err(Rejected(BadCommand))
    ensures i < |argv| && ParseChannelArg(argv[i]).Err? ==> r == Err(Rejected(BadChannel))
    ensures i < |argv| && ParseChannelArg(argv[i]).Ok? ==> r.Ok?
    ensures r.Ok? ==> Validated(r.value.1) && r.value.1.cmd == kind && r.value.0 == i + 1
    ensures r.Ok? ==> Ok(r.value.1.channel) == ParseChannelArg(argv[i]) && Unnamed(r.value.1) == a
  {
    if i >= |argv| then
      Err(Rejected(BadCommand))
    else
      match ParseChannelArg(argv[i])
      case Err(e) => Err(Rejected(e))
      case Ok(ch) => Ok((i + 1, a.(cmd := kind, channel := ch)))
  }

  /** "write-mask <mask>" with the mask at `argv[i]`. */
  function MaskCommand(argv: seq<string>, i: nat, a: Args): (r: Result<(nat, Args), ArgError>)
    requires i <= |argv|
    requires Unnamed(a) == a && |a.devPath| < PathMax
    ensures i == |argv| ==> r == Err(Rejected(BadCommand))
    ensures i < |argv| && ParseMaskArg(argv[i]).Err? ==> r == Err(Rejected(BadMask))
    ensures i < |argv| && ParseMaskArg(argv[i]).Ok? ==> r.Ok?
    ensures r.Ok? ==> Validated(r.value.1) && r.value.1.cmd == WriteMask && r.value.0 == i + 1
    ensures r.Ok? ==> Ok(r.value.1.mask) == ParseMaskArg(argv[i]) && Unnamed(r.value.1) == a
  {
    if i >= |argv| then
      Err(Rejected(BadCommand))
    else
      match ParseMaskArg(argv[i])
      case Err(e) => Err(Rejected(e))
      case Ok(m) => Ok((i + 1, a.(cmd := WriteMask, mask := m)))
  }

  /** "set <ch> <on|off>" with the channel at `argv[i]`. */
  function SetCommand(argv: seq<string>, i: nat, a: Args): (r: Result<(nat, Args), ArgError>)
    requires i <= |argv|
    requires Unnamed(a) == a && |a.devPath| < PathMax
    ensures i + 1 >= |argv| ==> r == Err(Rejected(BadCommand))
    ensures i + 1 < |argv| && ParseChannelArg(argv[i]).Err? ==> r == Err(Rejected(BadChannel))
    ensures i + 1 < |argv| && ParseChannelArg(argv[i]).Ok? ==>
      (r.Err? <==> StrCaseCmp(argv[i + 1], "on") != 0 && StrCaseCmp(argv[i + 1], "off") != 0)
    ensures i + 1 < |argv| && ParseChannelArg(argv[i]).Ok? && r.Err? ==> r == Err(Rejected(BadState))
    ensures r.Ok? ==> Validated(r.value.1) && r.value.1.cmd == Set && r.value.0 == i + 2
    ensures r.Ok? ==> Ok(r.value.1.channel) == ParseChannelArg(argv[i]) && Unnamed(r.value.1) == a
    ensures r.Ok? ==> (r.value.1.state == On <==> StrCaseCmp(argv[i + 1], "on") == 0)
  {
    if i + 1 >= |argv| then
      Err(Rejected(BadCommand))
    else
      match ParseChannelArg(argv[i])
      case Err(e) => Err(Rejected(e))
      case Ok(ch) =>
        if StrCaseCmp(argv[i + 1], "on") == 0 then
          Ok((i + 2, a.(cmd := Set, channel := ch, state := On)))
        else if StrCaseCmp(argv[i + 1], "off") == 0 then
          Ok((i + 2, a.(cmd := Set, channel := ch, state := Off)))
        else
          Err(Rejected(BadState))
  }

  /** The command word at `argv[i]`, matched ignoring case, and its arguments; returns the index after them. */
  function ParseCommand(argv: seq<string>, i: nat, a: Args): (r: Result<(nat, Args), ArgError>)
    requires i < |argv|
    requires Unnamed(a) == a && |a.devPath| < PathMax
    ensures CommandOf(argv[i]).None? ==> r == Err(Rejected(BadCommand))
    ensures CommandOf(argv[i]).Some? && i + Arity(CommandOf(argv[i]).value) >= |argv| ==> r == Err(Rejected(BadCommand))
    ensures CommandOf(argv[i]).Some? && i + Arity(CommandOf(argv[i]).value) < |argv| ==>
      match ArgumentError(argv, i, CommandOf(argv[i]).value)
      case Some(e) => r == Err(Rejected(e))
      case None => r.Ok?
    ensures r.Ok? ==> Validated(r.value.1) && CommandOf(argv[i]) == Some(r.value.1.cmd) && Unnamed(r.value.1) == a
    ensures r.Ok? ==> r.value.0 == i + 1 + Arity(r.value.1.cmd) && ReadsArguments(argv, i, r.value.1)
  {
    match CommandOf(argv[i])
    case None => Err(Rejected(BadCommand))
    case Some(c) =>
      if c == Set then SetCommand(argv, i + 1, a)
      else if c == Get || c == Toggle then ChannelCommand(argv, i + 1, a, c)
      else if c == WriteMask then MaskCommand(argv, i + 1, a)
      else Ok((i + 1, a.(cmd := c)))
  }

  /**
    What `parse_args` reports once the options end at `argv[k]` with the
    record `o`: the usage text when no command word follows; BAD_COMMAND for
    an unknown word, a missing argument or a word left over; the argument's
    own diagnostic; otherwise the record the words describe.
  */
  predicate CommandLineOutcome(argv: seq<string>, k: nat, o: Args, r: Result<Args, ArgError>)
    requires k <= |argv|
  {
    if k == |argv| then r == Err(Usage)
    else match CommandOf(argv[k])
      case None => r == Err(Rejected(BadCommand))
      case Some(c) =>
        if k + Arity(c) >= |argv| then r == Err(Rejected(BadCommand))
        else match ArgumentError(argv, k, c)
          case Some(e) => r == Err(Rejected(e))
          case None =>
            if k + Arity(c) + 1 < |argv| then r == Err(Rejected(BadCommand))
            else r.Ok? && r.value.cmd == c && Unnamed(r.value) == o && ReadsArguments(argv, k, r.value)
  }

  /**
    `parse_args`: options, then one command with exactly its arguments.
    A success is a validated record; any word left over is refused.
  */
  function ParseArgs(argv: seq<string>): (r: Result<Args, ArgError>)
    ensures r.Ok? ==> Validated(r.value)
    ensures |argv| < 2 ==> r == Err(Usage)
    ensures |argv| >= 2 && ParseOptions(argv, 1, InitialArgs()).Err? ==> r == Err(Rejected(BadCommand))
    ensures |argv| >= 2 && ParseOptions(argv, 1, InitialArgs()).Ok? ==>
      var (k, o) := ParseOptions(argv, 1, InitialArgs()).value;
      CommandLineOutcome(argv, k, o, r)
  {
    if |argv| < 2 then
      Err(Usage)
    else
      match ParseOptions(argv, 1, InitialArgs())
      case Err(e) => Err(e)
      case Ok((i, a)) =>
        if i >= |argv| then
          Err(Usage)
        else
          match ParseCommand(argv, i, a)
          case Err(e) => Err(e)
          case Ok((j, b)) => if j < |argv| then Err(Rejected(BadCommand)) else Ok(b)
  }

  // ---------------------------------------------------------------------
  // Rendering a validated command line back into words

  function OptionWords(a: Args): seq<string> {
    (if a.verbose then ["-v"] else [])
    + (if a.interactive then ["-i"] else [])
    + (if a.devPath != DefaultDevice then ["-d", a.devPath] else [])
  }

  function CommandWords(a: Args): seq<string>
    requires Validated(a)
  {
    match a.cmd
    case Set => ["set", FormatDecimal(a.channel), if a.state == On then "on" else "off"]
    case Get => ["get", FormatDecimal(a.channel)]
    case GetAll => ["getall"]
    case Toggle => ["toggle", FormatDecimal(a.channel)]
    case WriteMask => ["write-mask", "0x" + FormatHex2(a.mask)]
    case ReadMask => ["read-mask"]
    case Reset => ["reset"]
    case Ping => ["ping"]
    case Version => ["version"]
    case Help => ["help"]
  }

  /** One option word, consumed. */
  lemma OptionStep(argv: seq<string>, i: nat, a: Args)
    requires i < |argv| && |a.devPath| < PathMax
    ensures argv[i] == "-v" ==> ParseOptions(argv, i, a) == ParseOptions(argv, i + 1, a.(verbose := true))
    ensures argv[i] == "-i" ==> ParseOptions(argv, i, a) == ParseOptions(argv, i + 1, a.(interactive := true))
    ensures argv[i] == "-d" && i + 1 < |argv| && |argv[i + 1]| < PathMax ==>
      ParseOptions(argv, i, a) == ParseOptions(argv, i + 2, a.(devPath := argv[i + 1]))
    ensures !IsOption(argv[i]) ==> ParseOptions(argv, i, a) == Ok((i, a))
  {
  }

  /** The option loop reads back exactly the options `OptionWords` renders, and stops at the next word. */
  lemma OptionsRoundTrip(prog: string, a: Args, rest: seq<string>)
    requires |a.devPath| < PathMax
    requires |rest| > 0 && !IsOption(rest[0])
    ensures ParseOptions([prog] + OptionWords(a) + rest, 1, InitialArgs())
      == Ok((1 + |OptionWords(a)|, InitialArgs().(devPath := a.devPath, interactive := a.interactive, verbose := a.verbose)))
  {
    OptionLayout(prog, a, rest);
    ReadOptions([prog] + OptionWords(a) + rest, a);
  }

  /** The index after the rendered "-v", and after the rendered "-i". */
  function VerboseEnd(a: Args): nat { if a.verbose then 2 else 1 }
  function InteractiveEnd(a: Args): nat { VerboseEnd(a) + if a.interactive then 1 else 0 }

  /** The positions of the rendered option words in a command line that starts with them. */
  lemma OptionLayout(prog: string, a: Args, rest: seq<string>)
    requires |rest| > 0
    ensures var argv := [prog] + OptionWords(a) + rest;
      && 1 + |OptionWords(a)| < |argv| && argv[1 + |OptionWords(a)|] == rest[0]
      && (a.verbose ==> argv[1] == "-v")
      && (a.interactive ==> argv[VerboseEnd(a)] == "-i")
      && (a.devPath != DefaultDevice ==> argv[InteractiveEnd(a)] == "-d" && argv[InteractiveEnd(a) + 1] == a.devPath)
      && 1 + |OptionWords(a)| == InteractiveEnd(a) + if a.devPath != DefaultDevice then 2 else 0
  {
  }

  /** The loop, started after the program name, reads options laid out as `OptionWords` lays them out. */
  lemma ReadOptions(argv: seq<string>, a: Args)
    requires |a.devPath| < PathMax
    requires 1 + |OptionWords(a)| < |argv| && !IsOption(argv[1 + |OptionWords(a)|])
    requires a.verbose ==> argv[1] == "-v"
    requires a.interactive ==> argv[VerboseEnd(a)] == "-i"
    requires a.devPath != DefaultDevice ==> argv[InteractiveEnd(a)] == "-d" && argv[InteractiveEnd(a) + 1] == a.devPath
    requires 1 + |OptionWords(a)| == InteractiveEnd(a) + if a.devPath != DefaultDevice then 2 else 0
    ensures ParseOptions(argv, 1, InitialArgs())
      == Ok((1 + |OptionWords(a)|, InitialArgs().(devPath := a.devPath, interactive := a.interactive, verbose := a.verbose)))
  {
    var i1 := VerboseEnd(a);
    var i2 := InteractiveEnd(a);
    var i3 := 1 + |OptionWords(a)|;
    var a0 := InitialArgs();
    var a1 := a0.(verbose := a.verbose);
    var a2 := a1.(interactive := a.interactive);
    var a3 := a2.(devPath := a.devPath);
    assert ParseOptions(argv, 1, a0) == ParseOptions(argv, i1, a1) by {
      if a.verbose {
        OptionStep(argv, 1, a0);
      }
    }
    assert ParseOptions(argv, i1, a1) == ParseOptions(argv, i2, a2) by {
      if a.interactive {
        OptionStep(argv, i1, a1);
      }
    }
    assert ParseOptions(argv, i2, a2) == ParseOptions(argv, i3, a3) by {
      if a.devPath != DefaultDevice {
        OptionStep(argv, i2, a2);
      }
    }
    OptionStep(argv, i3, a3);
  }

  /** Each command's name is recognised as that command: no earlier name matches it, ignoring case. */
  lemma CommandNameRecognized(k: CommandKind)
    requires k != NoCommand
    ensures CommandOf(CommandName(k)) == Some(k)
  {
    if k == Set || k == Get || k == GetAll || k == Toggle {
      ChannelNamesRecognized(k);
    } else if k == WriteMask || k == ReadMask {
      MaskNamesRecognized(k);
    } else if k == Reset {
      ResetNameRecognized();
    } else {
      PlainNamesRecognized(k);
    }
  }

  lemma ChannelNamesRecognized(k: CommandKind)
    requires k == Set || k == Get || k == GetAll || k == Toggle
    ensures CommandOf(CommandName(k)) == Some(k)
  {
    var w := CommandName(k);
    SameName(w);
    if k != Set {
      assert StrCaseCmp(w, "set") != 0;
    }
    if k == GetAll {
      assert StrCaseCmp(w, "get") != 0;
    } else if k == Toggle {
      assert StrCaseCmp(w, "get") != 0 && StrCaseCmp(w, "getall") != 0;
    }
  }

  lemma MaskNamesRecognized(k: CommandKind)
    requires k == WriteMask || k == ReadMask
    ensures CommandOf(CommandName(k)) == Some(k)
  {
    var w := CommandName(k);
    SameName(w);
    assert StrCaseCmp(w, "set") != 0 && StrCaseCmp(w, "get") != 0;
    assert StrCaseCmp(w, "getall") != 0 && StrCaseCmp(w, "toggle") != 0;
    if k == ReadMask {
      assert StrCaseCmp(w, "write-mask") != 0;
    }
  }

  /** "reset" first differs from "read-mask" in its third letter. */
  lemma ResetNameRecognized()
    ensures CommandOf("reset") == Some(Reset)
  {
    var w := "reset";
    SameName(w);
    assert StrCaseCmp(w, "set") != 0 && StrCaseCmp(w, "get") != 0 && StrCaseCmp(w, "getall") != 0;
    assert StrCaseCmp(w, "toggle") != 0 && StrCaseCmp(w, "write-mask") != 0;
    assert w[1..] == "eset" && "read-mask"[1..] == "ead-mask";
    assert "eset"[1..] == "set" && "ead-mask"[1..] == "ad-mask";
    assert StrCaseCmp(w, "read-mask") == StrCaseCmp("eset", "ead-mask") == StrCaseCmp("set", "ad-mask") != 0;
  }

  lemma PlainNamesRecognized(k: CommandKind)
    requires k == Ping || k == Version || k == Help
    ensures CommandOf(CommandName(k)) == Some(k)
  {
    var w := CommandName(k);
    SameName(w);
    NotAnEarlierName(w);
    if k != Ping {
      assert StrCaseCmp(w, "ping") != 0;
    }
    if k == Help {
      assert StrCaseCmp(w, "version") != 0;
    }
  }

  /** A name without NUL characters matches itself. */
  lemma SameName(w: string)
    requires NoNul(w)
    ensures StrCaseCmp(w, w) == 0
  {
    StrCaseCmpZeroIff(w, w);
  }

  /** "ping", "version" and "help" differ from the first seven names in their first letter. */
  lemma NotAnEarlierName(w: string)
    requires w == "ping" || w == "version" || w == "help"
    ensures StrCaseCmp(w, "set") != 0 && StrCaseCmp(w, "get") != 0 && StrCaseCmp(w, "getall") != 0
    ensures StrCaseCmp(w, "toggle") != 0 && StrCaseCmp(w, "write-mask") != 0
    ensures StrCaseCmp(w, "read-mask") != 0 && StrCaseCmp(w, "reset") != 0
  {
  }

  /** A word names no command exactly when it matches none of the ten names. */
  lemma CommandOfNone(w: string)
    ensures CommandOf(w).None? <==> forall k :: k != NoCommand ==> StrCaseCmp(w, CommandName(k)) != 0
  {
    assert CommandName(Set) == "set" && CommandName(Get) == "get" && CommandName(GetAll) == "getall";
    assert CommandName(Toggle) == "toggle" && CommandName(WriteMask) == "write-mask";
    assert CommandName(ReadMask) == "read-mask" && CommandName(Reset) == "reset";
    assert CommandName(Ping) == "ping" && CommandName(Version) == "version" && CommandName(Help) == "help";
  }

  /** The command words of a validated record parse back to it, consuming exactly those words. */
  lemma CommandRoundTrip(argv: seq<string>, i: nat, a: Args)
    requires Validated(a)
    requires i + |CommandWords(a)| == |argv| && argv[i..] == CommandWords(a)
    ensures ParseCommand(argv, i, Unnamed(a)) == Ok((|argv|, a))
  {
    CommandLayout(argv, i, a);
    CommandNameRecognized(a.cmd);
    ArgumentsRoundTrip(argv, i, a);
    ReadCommand(argv, i, a);
  }

  /** Where `CommandWords` puts the name and each argument. */
  lemma CommandLayout(argv: seq<string>, i: nat, a: Args)
    requires Validated(a)
    requires i + |CommandWords(a)| == |argv| && argv[i..] == CommandWords(a)
    ensures argv[i] == CommandName(a.cmd) && i + Arity(a.cmd) + 1 == |argv|
    ensures TakesChannel(a.cmd) ==> argv[i + 1] == FormatDecimal(a.channel)
    ensures a.cmd == Set ==> argv[i + 2] == if a.state == On then "on" else "off"
    ensures a.cmd == WriteMask ==> argv[i + 1] == "0x" + FormatHex2(a.mask)
  {
    assert argv[i] == CommandWords(a)[0];
    if Arity(a.cmd) > 0 {
      assert argv[i + 1] == CommandWords(a)[1];
    }
    if a.cmd == Set {
      assert argv[i + 2] == CommandWords(a)[2];
    }
  }

  /** The argument words the tool prints for a validated record are valid and read back as its fields. */
  lemma ArgumentsRoundTrip(argv: seq<string>, i: nat, a: Args)
    requires Validated(a) && i + Arity(a.cmd) < |argv|
    requires TakesChannel(a.cmd) ==> argv[i + 1] == FormatDecimal(a.channel)
    requires a.cmd == Set ==> argv[i + 2] == if a.state == On then "on" else "off"
    requires a.cmd == WriteMask ==> argv[i + 1] == "0x" + FormatHex2(a.mask)
    ensures ArgumentError(argv, i, a.cmd) == None && ReadsArguments(argv, i, a)
  {
    if TakesChannel(a.cmd) {
      ChannelTextRoundTrip(a.channel);
      if a.cmd == Set {
        assert StrCaseCmp("off", "on") != 0;
      }
    } else if a.cmd == WriteMask {
      MaskTextRoundTrip(a.mask);
    }
  }

  /** A command word and arguments that describe the record exactly parse to it. */
  lemma ReadCommand(argv: seq<string>, i: nat, a: Args)
    requires Validated(a) && i + Arity(a.cmd) + 1 == |argv| && CommandOf(argv[i]) == Some(a.cmd)
    requires ArgumentError(argv, i, a.cmd) == None && ReadsArguments(argv, i, a)
    ensures ParseCommand(argv, i, Unnamed(a)) == Ok((|argv|, a))
  {
    var r := ParseCommand(argv, i, Unnamed(a));
    RecordDetermined(argv, i, r.value.1, a);
  }

  /** A validated record is fixed by its command, its options and the argument words it read. */
  lemma RecordDetermined(argv: seq<string>, k: nat, a: Args, b: Args)
    requires Validated(a) && Validated(b) && a.cmd == b.cmd && Unnamed(a) == Unnamed(b)
    requires k + Arity(a.cmd) < |argv| && ReadsArguments(argv, k, a) && ReadsArguments(argv, k, b)
    ensures a == b
  {
    assert a.channel == b.channel && a.mask == b.mask && a.state == b.state;
  }

  /** The record before the command word is read: options only. */
  function Unnamed(a: Args): Args {
    a.(cmd := NoCommand, channel := 0, state := Off, mask := 0)
  }

  /** Every validated command line, rendered as words, parses back to itself. */
  lemma ParseArgsRoundTrip(prog: string, a: Args)
    requires Validated(a)
    ensures ParseArgs([prog] + OptionWords(a) + CommandWords(a)) == Ok(a)
  {
    var cw := CommandWords(a);
    var argv := [prog] + OptionWords(a) + cw;
    var i := 1 + |OptionWords(a)|;
    assert argv[i..] == cw;
    OptionsRoundTrip(prog, a, cw);
    assert InitialArgs().(devPath := a.devPath, interactive := a.interactive, verbose := a.verbose) == Unnamed(a);
    CommandRoundTrip(argv, i, a);
  }

  // ---------------------------------------------------------------------
  // Properties of the whole command line

  /** A word appended after the words the option loop stops at does not change what the loop does. */
  lemma {:induction false} ParseOptionsIgnoresAppended(argv: seq<string>, i: nat, a: Args, x: string)
    requires i <= |argv| && |a.devPath| < PathMax
    requires ParseOptions(argv, i, a).Ok? && ParseOptions(argv, i, a).value.0 < |argv|
    ensures ParseOptions(argv + [x], i, a) == ParseOptions(argv, i, a)
    decreases |argv| - i
  {
    var ext := argv + [x];
    assert ext[i] == argv[i];
    if IsOption(argv[i]) {
      if argv[i] == "-v" {
        ParseOptionsIgnoresAppended(argv, i + 1, a.(verbose := true), x);
      } else if argv[i] == "-i" {
        ParseOptionsIgnoresAppended(argv, i + 1, a.(interactive := true), x);
      } else {
        assert argv[i] == "-d" && i + 1 < |argv|;
        assert ext[i + 1] == argv[i + 1];
        ParseOptionsIgnoresAppended(argv, i + 2, a.(devPath := CopyPath(argv[i + 1])), x);
      }
    }
  }

  /** A command that parsed reads the same words, and only those, once a word is appended. */
  lemma ParseCommandIgnoresAppended(argv: seq<string>, i: nat, a: Args, x: string)
    requires i < |argv| && Unnamed(a) == a && |a.devPath| < PathMax && ParseCommand(argv, i, a).Ok?
    ensures ParseCommand(argv + [x], i, a) == ParseCommand(argv, i, a)
    ensures ParseCommand(argv, i, a).value.0 <= |argv|
  {
    var ext := argv + [x];
    assert ext[i] == argv[i];
    if i + 1 < |argv| {
      assert ext[i + 1] == argv[i + 1];
    }
    if i + 2 < |argv| {
      assert ext[i + 2] == argv[i + 2];
    }
  }

  /** Any word after a complete command line makes it a BAD_COMMAND. */
  lemma ExtraArgumentRejected(argv: seq<string>, x: string)
    requires ParseArgs(argv).Ok?
    ensures ParseArgs(argv + [x]) == Err(Rejected(BadCommand))
  {
    var (i, a) := ParseOptions(argv, 1, InitialArgs()).value;
    ParseOptionsIgnoresAppended(argv, 1, InitialArgs(), x);
    ParseCommandIgnoresAppended(argv, i, a, x);
  }

  /** Two words that differ only in ASCII case name the same command. */
  lemma CommandOfIgnoresCase(w: string, v: string)
    requires Lower(w) == Lower(v)
    ensures CommandOf(w) == CommandOf(v)
  {
    StrCaseCmpIgnoresCase(w, v, "set");
    StrCaseCmpIgnoresCase(w, v, "get");
    StrCaseCmpIgnoresCase(w, v, "getall");
    StrCaseCmpIgnoresCase(w, v, "toggle");
    StrCaseCmpIgnoresCase(w, v, "write-mask");
    StrCaseCmpIgnoresCase(w, v, "read-mask");
    StrCaseCmpIgnoresCase(w, v, "reset");
    StrCaseCmpIgnoresCase(w, v, "ping");
    StrCaseCmpIgnoresCase(w, v, "version");
    StrCaseCmpIgnoresCase(w, v, "help");
  }

  /** The command word is matched ignoring ASCII case: swapping it for a case variant changes nothing. */
  lemma CommandWordIgnoresCase(argv: seq<string>, i: nat, a: Args, w: string)
    requires i < |argv| && Unnamed(a) == a && |a.devPath| < PathMax && Lower(w) == Lower(argv[i])
    ensures ParseCommand(argv[i := w], i, a) == ParseCommand(argv, i, a)
  {
    CommandOfIgnoresCase(w, argv[i]);
    var argv' := argv[i := w];
    if i + 1 < |argv| {
      assert argv'[i + 1] == argv[i + 1];
    }
    if i + 2 < |argv| {
      assert argv'[i + 2] == argv[i + 2];
    }
  }

  /** Replacing the word the option loop stops at by another non-option word does not change the loop. */
  lemma {:induction false} ParseOptionsIgnoresStopWord(argv: seq<string>, i: nat, a: Args, k: nat, w: string)
    requires i <= |argv| && |a.devPath| < PathMax
    requires ParseOptions(argv, i, a).Ok? && ParseOptions(argv, i, a).value.0 == k && k < |argv|
    requires !IsOption(w)
    ensures ParseOptions(argv[k := w], i, a) == ParseOptions(argv, i, a)
    decreases |argv| - i
  {
    var alt := argv[k := w];
    if !IsOption(argv[i]) {
      assert k == i && alt[i] == w;
    } else if argv[i] == "-v" {
      assert alt[i] == argv[i];
      ParseOptionsIgnoresStopWord(argv, i + 1, a.(verbose := true), k, w);
    } else if argv[i] == "-i" {
      assert alt[i] == argv[i];
      ParseOptionsIgnoresStopWord(argv, i + 1, a.(interactive := true), k, w);
    } else {
      assert argv[i] == "-d" && i + 1 < |argv|;
      assert alt[i] == argv[i] && alt[i + 1] == argv[i + 1];
      ParseOptionsIgnoresStopWord(argv, i + 2, a.(devPath := CopyPath(argv[i + 1])), k, w);
    }
  }

  /** A case variant of a word starts with '-' exactly when the word does. */
  lemma CaseVariantIsOption(w: string, w': string)
    requires Lower(w) == Lower(w')
    ensures IsOption(w') == IsOption(w)
  {
    assert |w'| == |Lower(w')| == |w|;
    if |w'| > 0 {
      assert ToLower(w'[0]) == Lower(w')[0] == Lower(w)[0] == ToLower(w[0]);
    }
  }

  /**
    Two command lines that differ only in the case of the command word, after
    any options, parse alike.
  */
  lemma ParseArgsIgnoresCommandCase(argv: seq<string>, w': string)
    requires |argv| >= 2
    requires ParseOptions(argv, 1, InitialArgs()).Ok? && ParseOptions(argv, 1, InitialArgs()).value.0 < |argv|
    requires Lower(w') == Lower(argv[ParseOptions(argv, 1, InitialArgs()).value.0])
    ensures ParseArgs(argv[ParseOptions(argv, 1, InitialArgs()).value.0 := w']) == ParseArgs(argv)
  {
    var (k, a) := ParseOptions(argv, 1, InitialArgs()).value;
    CaseVariantIsOption(argv[k], w');
    ParseOptionsIgnoresStopWord(argv, 1, InitialArgs(), k, w');
    CommandWordIgnoresCase(argv, k, a, w');
  }
}
