/**
  The relay tool's command engine: each handler reads the one-byte relay
  mask from the device, changes it, writes it back, and prints one response
  line. The device is an abstract byte cell whose read or write may fail.
*/
module RelayEngine {
  import opened Wrappers
  import opened CLib
  import opened UsbRelay
  import opened RelayArgs

  const ToolVersion: string := "0.1"

  /** The relay device behind the tool's file descriptor: the byte a read returns and a write replaces. */
  datatype Device = Device(cell: bv8)

  /**
    Whether the next `read` or `write` on the device fails (returns anything
    but one byte), and whether a failed write still leaves the attempted byte
    in the device: the driver's write path is not part of this model, so both
    outcomes of a failed write are allowed.
  */
  datatype Faults = Faults(readFails: bool, writeFails: bool, failedWriteLands: bool)

  const NoFaults: Faults := Faults(false, false, false)

  /** The mask cached in `struct relay_context`; its descriptor, path and flags live outside this model. */
  datatype Context = Context(mask: bv8)

  /** What a command prints: an `OK` line, the help or usage text, or `ERR` diagnostics. */
  datatype Response =
    | Reply(line: string)
    | HelpText
    | UsageText
    | Diagnostics(codes: seq<ErrorCode>)

  /** A handler's response together with the context and device it leaves behind. */
  datatype Effect = Effect(response: Response, ctx: Context, dev: Device)

  /** `relay_sanitize_mask`: only the channel bits survive. */
  function Sanitize(m: bv8): (r: bv8)
    ensures r & !MaskAll == 0
    ensures forall ch | ValidChannel(ch) :: IsOn(r, ch) == IsOn(m, ch)
    ensures m & !MaskAll == 0 ==> r == m
  {
    m & MaskAll
  }

  // ---------------------------------------------------------------------
  // Device access

  /** `relay_read_mask`: the device byte, reduced to the channel bits, replaces the cached mask. */
  function ReadDevice(dev: Device, f: Faults): Result<Context, ErrorCode> {
    if f.readFails then Err(ReadFailure) else Ok(Context(Sanitize(dev.cell)))
  }

  /**
    `relay_write_mask`: the cached mask is reduced to the channel bits and
    written. Returns the cached mask, the device afterwards, and the failure
    if the write did not report one byte.
  */
  function WriteDevice(ctx: Context, dev: Device, f: Faults): (Context, Device, Option<ErrorCode>) {
    var c := Context(Sanitize(ctx.mask));
    var lands := !f.writeFails || f.failedWriteLands;
    (c, if lands then Device(c.mask) else dev, if f.writeFails then Some(WriteFailure) else None)
  }

  // ---------------------------------------------------------------------
  // Response lines

  /** `OK CH=%d STATE=%s`. */
  function ChannelLine(ch: int, on: bool): string
    requires ValidChannel(ch)
  {
    "OK CH=" + FormatDecimal(ch) + " STATE=" + (if on then "ON" else "OFF")
  }

  /** `OK MASK=0x%02X`. */
  function MaskLine(m: bv8): string {
    "OK MASK=0x" + FormatHex2(m)
  }

  const VersionLine: string := "OK VERSION=" + ProtoVersion + " TOOL=relayctl/" + ToolVersion

  // ---------------------------------------------------------------------
  // Handlers

  /** Read, change one channel's bit, write back; report the channel and the state asked for. */
  function HandleSet(ctx: Context, dev: Device, f: Faults, args: Args): (e: Effect)
    ensures e.dev == dev || e.dev.cell & !MaskAll == 0
    ensures !ValidChannel(args.channel) ==> e == Effect(Diagnostics([BadChannel]), ctx, dev)
    ensures ValidChannel(args.channel) && f.readFails ==> e == Effect(Diagnostics([ReadFailure]), ctx, dev)
    ensures ValidChannel(args.channel) && !f.readFails && f.writeFails ==>
      e.response == Diagnostics([WriteFailure]) && (!f.failedWriteLands ==> e.dev == dev)
    ensures ValidChannel(args.channel) && !f.readFails && !f.writeFails ==>
      && e.response == Reply(ChannelLine(args.channel, args.state == On))
      && IsOn(e.dev.cell, args.channel) == (args.state == On)
      && e.dev.cell & !ChToBit(args.channel) == Sanitize(dev.cell) & !ChToBit(args.channel)
      && e.dev.cell & !MaskAll == 0
  {
    var ch := args.channel;
    if !ValidChannel(ch) then
      Effect(Diagnostics([BadChannel]), ctx, dev)
    else
      match ReadDevice(dev, f)
      case Err(code) => Effect(Diagnostics([code]), ctx, dev)
      case Ok(read) =>
        SwitchedBits(dev.cell, ch, args.state == On);
        SwitchAfterRead(read.mask, dev, f, ch, args.state == On)
  }

  /** `set` once the device has been read: `m0` is the mask read. */
  function SwitchAfterRead(m0: bv8, dev: Device, f: Faults, ch: int, on: bool): (e: Effect)
    requires ValidChannel(ch) && m0 & !MaskAll == 0
    ensures e.response == if f.writeFails then Diagnostics([WriteFailure]) else Reply(ChannelLine(ch, on))
    ensures e.dev == if !f.writeFails || f.failedWriteLands then Device(WithChannel(m0, ch, on)) else dev
    // a write that reaches the device switches that channel as asked and no other bit
    ensures !f.writeFails || f.failedWriteLands ==>
      && IsOn(e.dev.cell, ch) == on
      && e.dev.cell & !ChToBit(ch) == m0 & !ChToBit(ch)
      && e.dev.cell & !MaskAll == 0
    ensures f.writeFails && !f.failedWriteLands ==> e.dev == dev
  {
    WriteBack(WithChannel(m0, ch, on), dev, f, ChannelLine(ch, on))
  }

  /** `toggle` once the device has been read: `m0` is the mask read; the line reports the bit as written. */
  function FlipAfterRead(m0: bv8, dev: Device, f: Faults, ch: int): (e: Effect)
    requires ValidChannel(ch) && m0 & !MaskAll == 0
    ensures e.response == if f.writeFails then Diagnostics([WriteFailure]) else Reply(ChannelLine(ch, !IsOn(m0, ch)))
    ensures e.dev == if !f.writeFails || f.failedWriteLands then Device(FlipChannel(m0, ch)) else dev
  {
    var m := FlipChannel(m0, ch);
    WriteBack(m, dev, f, ChannelLine(ch, IsOn(m, ch)))
  }

  /**
    The write half of `set`, `toggle`, `write-mask` and `reset`: the new mask
    becomes the cached mask and is written; `line` is printed on success.
  */
  function WriteBack(m: bv8, dev: Device, f: Faults, line: string): (e: Effect)
    requires m & !MaskAll == 0
    ensures e.ctx == Context(m)
    ensures e.response == if f.writeFails then Diagnostics([WriteFailure]) else Reply(line)
    ensures e.dev == if !f.writeFails || f.failedWriteLands then Device(m) else dev
  {
    var (written, d, w) := WriteDevice(Context(m), dev, f);
    match w
    case Some(code) => Effect(Diagnostics([code]), written, d)
    case None => Effect(Reply(line), written, d)
  }

  /** What `set` writes: the read channel bits with one channel switched. */
  lemma SwitchedBits(cell: bv8, ch: int, on: bool)
    requires ValidChannel(ch)
    ensures IsOn(WithChannel(Sanitize(cell), ch, on), ch) == on
    ensures WithChannel(Sanitize(cell), ch, on) & !ChToBit(ch) == Sanitize(cell) & !ChToBit(ch)
    ensures WithChannel(Sanitize(cell), ch, on) & !MaskAll == 0
  {
  }

  /** What `toggle` writes: the read channel bits with one channel flipped. */
  lemma FlippedBits(cell: bv8, ch: int)
    requires ValidChannel(ch)
    ensures IsOn(FlipChannel(Sanitize(cell), ch), ch) == !IsOn(cell, ch)
    ensures FlipChannel(Sanitize(cell), ch) & !ChToBit(ch) == Sanitize(cell) & !ChToBit(ch)
    ensures FlipChannel(Sanitize(cell), ch) & !MaskAll == 0
  {
  }

  /** Read and report one channel; the device is never written. */
  function HandleGet(ctx: Context, dev: Device, f: Faults, args: Args): (e: Effect)
    ensures e.dev == dev
    ensures !ValidChannel(args.channel) ==> e.response == Diagnostics([BadChannel])
    ensures ValidChannel(args.channel) && f.readFails ==> e.response == Diagnostics([ReadFailure])
    ensures ValidChannel(args.channel) && !f.readFails ==>
      e.response == Reply(ChannelLine(args.channel, IsOn(dev.cell, args.channel)))
  {
    var ch := args.channel;
    if !ValidChannel(ch) then
      Effect(Diagnostics([BadChannel]), ctx, dev)
    else
      match ReadDevice(dev, f)
      case Err(code) => Effect(Diagnostics([code]), ctx, dev)
      case Ok(read) => Effect(Reply(ChannelLine(ch, read.mask & ChToBit(ch) != 0)), read, dev)
  }

  /** `getall` and `read-mask`: read and report the whole mask. */
  function HandleReadMask(ctx: Context, dev: Device, f: Faults): (e: Effect)
    ensures e.dev == dev
    ensures f.readFails ==> e.response == Diagnostics([ReadFailure])
    ensures !f.readFails ==> e.response == Reply(MaskLine(Sanitize(dev.cell)))
  {
    match ReadDevice(dev, f)
    case Err(code) => Effect(Diagnostics([code]), ctx, dev)
    case Ok(read) => Effect(Reply(MaskLine(read.mask)), read, dev)
  }

  /** Read, flip one channel's bit, write back; report the bit's new state. */
  function HandleToggle(ctx: Context, dev: Device, f: Faults, args: Args): (e: Effect)
    ensures e.dev == dev || e.dev.cell & !MaskAll == 0
    ensures !ValidChannel(args.channel) ==> e == Effect(Diagnostics([BadChannel]), ctx, dev)
    ensures ValidChannel(args.channel) && f.readFails ==> e == Effect(Diagnostics([ReadFailure]), ctx, dev)
    ensures ValidChannel(args.channel) && !f.readFails && f.writeFails ==>
      e.response == Diagnostics([WriteFailure]) && (!f.failedWriteLands ==> e.dev == dev)
    ensures ValidChannel(args.channel) && !f.readFails && !f.writeFails ==>
      && IsOn(e.dev.cell, args.channel) == !IsOn(dev.cell, args.channel)
      && e.response == Reply(ChannelLine(args.channel, IsOn(e.dev.cell, args.channel)))
      && e.dev.cell & !ChToBit(args.channel) == Sanitize(dev.cell) & !ChToBit(args.channel)
      && e.dev.cell & !MaskAll == 0
  {
    var ch := args.channel;
    if !ValidChannel(ch) then
      Effect(Diagnostics([BadChannel]), ctx, dev)
    else
      match ReadDevice(dev, f)
      case Err(code) => Effect(Diagnostics([code]), ctx, dev)
      case Ok(read) =>
        FlippedBits(dev.cell, ch);
        FlipAfterRead(read.mask, dev, f, ch)
  }

  /** Write the given mask as it is; a mask with a bit above channel 4 is refused before the device is touched. */
  function HandleWriteMask(ctx: Context, dev: Device, f: Faults, args: Args): (e: Effect)
    ensures e.dev == dev || e.dev.cell & !MaskAll == 0
    ensures args.mask & !MaskAll != 0 ==> e == Effect(Diagnostics([BadMask]), ctx, dev)
    ensures args.mask & !MaskAll == 0 && f.writeFails ==>
      e.response == Diagnostics([WriteFailure]) && e.dev == (if f.failedWriteLands then Device(args.mask) else dev)
    ensures args.mask & !MaskAll == 0 && !f.writeFails ==>
      e.dev.cell == args.mask && e.response == Reply(MaskLine(args.mask))
  {
    var m := args.mask;
    if m & !MaskAll != 0 then
      Effect(Diagnostics([BadMask]), ctx, dev)
    else
      WriteBack(m, dev, f, MaskLine(m))
  }

  /** Turn every channel off, whatever the device held. */
  function HandleReset(ctx: Context, dev: Device, f: Faults): (e: Effect)
    ensures e.dev == dev || e.dev.cell & !MaskAll == 0
    ensures f.writeFails ==> e.response == Diagnostics([WriteFailure]) && e.dev == (if f.failedWriteLands then Device(0x00) else dev)
    ensures !f.writeFails ==> e.dev.cell == 0x00 && e.response == Reply(MaskLine(0x00))
  {
    assert MaskLine(0x00) == "OK MASK=0x00";
    WriteBack(0x00, dev, f, "OK MASK=0x00")
  }

  /** Read the device and discard the value; a failed read prints a second, device-unavailable diagnostic. */
  function HandlePing(ctx: Context, dev: Device, f: Faults): (e: Effect)
    ensures e.dev == dev
    ensures e.response == if f.readFails then Diagnostics([ReadFailure, DeviceUnavailable]) else Reply("OK")
  {
    match ReadDevice(dev, f)
    case Err(code) => Effect(Diagnostics([code, DeviceUnavailable]), ctx, dev)
    case Ok(read) => Effect(Reply("OK"), read, dev)
  }

  // ---------------------------------------------------------------------
  // Dispatch

  /** The command switch of the interactive loop, which also answers `version` and `help`. */
  function Dispatch(args: Args, ctx: Context, dev: Device, f: Faults): (e: Effect)
    ensures args.cmd == NoCommand ==> e.response == Diagnostics([InternalError])
  {
    match args.cmd
    case Set => HandleSet(ctx, dev, f, args)
    case Get => HandleGet(ctx, dev, f, args)
    case GetAll => HandleReadMask(ctx, dev, f)
    case Toggle => HandleToggle(ctx, dev, f, args)
    case WriteMask => HandleWriteMask(ctx, dev, f, args)
    case ReadMask => HandleReadMask(ctx, dev, f)
    case Reset => HandleReset(ctx, dev, f)
    case Ping => HandlePing(ctx, dev, f)
    case Version => Effect(Reply(VersionLine), ctx, dev)
    case Help => Effect(HelpText, ctx, dev)
    case NoCommand => Effect(Diagnostics([InternalError]), ctx, dev)
  }

  /** Reading commands leave the device alone; the others leave it alone or holding only channel bits. */
  lemma DispatchFrame(args: Args, ctx: Context, dev: Device, f: Faults)
    ensures var e := Dispatch(args, ctx, dev, f);
      && (e.dev == dev || e.dev.cell & !MaskAll == 0)
      && (args.cmd in {Get, GetAll, ReadMask, Ping, Version, Help, NoCommand} ==> e.dev == dev)
  {
    if args.cmd in {Set, Toggle, WriteMask, Reset} {
      WritesKeepChannelBits(args, ctx, dev, f);
    } else {
      ReadsKeepDevice(args, ctx, dev, f);
    }
  }

  lemma WritesKeepChannelBits(args: Args, ctx: Context, dev: Device, f: Faults)
    requires args.cmd in {Set, Toggle, WriteMask, Reset}
    ensures var e := Dispatch(args, ctx, dev, f);
      e.dev == dev || e.dev.cell & !MaskAll == 0
  {
    var e := Dispatch(args, ctx, dev, f);
    if args.cmd == Set {
      assert e == HandleSet(ctx, dev, f, args);
    } else if args.cmd == Toggle {
      assert e == HandleToggle(ctx, dev, f, args);
    } else if args.cmd == WriteMask {
      assert e == HandleWriteMask(ctx, dev, f, args);
    } else {
      assert e == HandleReset(ctx, dev, f);
    }
  }

  lemma ReadsKeepDevice(args: Args, ctx: Context, dev: Device, f: Faults)
    requires args.cmd !in {Set, Toggle, WriteMask, Reset}
    ensures Dispatch(args, ctx, dev, f).dev == dev
  {
  }

  /**
    When the write fails after a good read, the device holds either what it
    held before or exactly what the same command leaves behind without faults.
  */
  lemma FailedWriteOutcome(args: Args, ctx: Context, dev: Device, f: Faults)
    requires !f.readFails && f.writeFails
    ensures f.failedWriteLands ==> Dispatch(args, ctx, dev, f).dev == Dispatch(args, ctx, dev, NoFaults).dev
    ensures !f.failedWriteLands ==> Dispatch(args, ctx, dev, f).dev == dev
  {
    var e := Dispatch(args, ctx, dev, f);
    var e0 := Dispatch(args, ctx, dev, NoFaults);
    if args.cmd == Set {
      assert e == HandleSet(ctx, dev, f, args) && e0 == HandleSet(ctx, dev, NoFaults, args);
      SetFailureLands(ctx, dev, f, args);
    } else if args.cmd == Toggle {
      assert e == HandleToggle(ctx, dev, f, args) && e0 == HandleToggle(ctx, dev, NoFaults, args);
      ToggleFailureLands(ctx, dev, f, args);
    } else if args.cmd == WriteMask {
      assert e == HandleWriteMask(ctx, dev, f, args) && e0 == HandleWriteMask(ctx, dev, NoFaults, args);
    } else if args.cmd == Reset {
      assert e == HandleReset(ctx, dev, f) && e0 == HandleReset(ctx, dev, NoFaults);
    } else {
      ReadsKeepDevice(args, ctx, dev, f);
      ReadsKeepDevice(args, ctx, dev, NoFaults);
    }
  }

  lemma SetFailureLands(ctx: Context, dev: Device, f: Faults, args: Args)
    requires !f.readFails && f.writeFails
    ensures f.failedWriteLands ==> HandleSet(ctx, dev, f, args).dev == HandleSet(ctx, dev, NoFaults, args).dev
  {
  }

  lemma ToggleFailureLands(ctx: Context, dev: Device, f: Faults, args: Args)
    requires !f.readFails && f.writeFails
    ensures f.failedWriteLands ==> HandleToggle(ctx, dev, f, args).dev == HandleToggle(ctx, dev, NoFaults, args).dev
  {
  }

  predicate NeedsDevice(k: CommandKind) {
    k != Help && k != Version
  }

  /** How one run of the tool ends: an exit status with its response, or the interactive loop entered with an open device. */
  datatype Outcome =
    | Exit(status: int, response: Response, dev: Device)
    | Interactive(ctx: Context, dev: Device)

  /** A handler's return value: 1 when it printed a diagnostic, 0 otherwise. */
  function HandlerStatus(r: Response): int {
    if r.Diagnostics? then 1 else 0
  }

  /**
    `main`: parse, answer `help` and `version` without the device, open the
    device (`openOk` says whether `open` succeeded), then run one command.
  */
  function Main(argv: seq<string>, openOk: bool, dev: Device, f: Faults): (o: Outcome)
    ensures o.Exit? ==> o.status in {0, 1, 2}
    ensures ParseArgs(argv).Err? ==> o.Exit? && o.status == 1 && o.dev == dev
    ensures (o.Exit? && o.status == 2) <==> (ParseArgs(argv).Ok? && NeedsDevice(ParseArgs(argv).value.cmd) && !openOk)
    ensures o.Exit? && o.status == 0 ==> !o.response.Diagnostics?
    ensures o.Exit? ==> o.dev == dev || o.dev.cell & !MaskAll == 0
  {
    match ParseArgs(argv)
    case Err(Usage) => Exit(1, UsageText, dev)
    case Err(Rejected(code)) => Exit(1, Diagnostics([code]), dev)
    case Ok(args) =>
      if args.cmd == Help then
        Exit(0, HelpText, dev)
      else if args.cmd == Version then
        Exit(0, Reply(VersionLine), dev)
      else
        var ctx := Context(args.mask);
        if !openOk then
          Exit(2, Diagnostics([DeviceUnavailable]), dev)
        else if args.interactive then
          Interactive(ctx, dev)
        else
          var e := Dispatch(args, ctx, dev, f);
          DispatchFrame(args, ctx, dev, f);
          Exit(HandlerStatus(e.response), e.response, e.dev)
  }

  // ---------------------------------------------------------------------
  // Properties

  /** After `set`, every channel other than the one named is as the device held it. */
  lemma SetLeavesOtherChannels(ctx: Context, dev: Device, args: Args)
    requires ValidChannel(args.channel)
    ensures forall c | ValidChannel(c) && c != args.channel ::
      IsOn(HandleSet(ctx, dev, NoFaults, args).dev.cell, c) == IsOn(dev.cell, c)
  {
    var e := HandleSet(ctx, dev, NoFaults, args);
    OnlyBitChanges(Sanitize(dev.cell), e.dev.cell, args.channel);
  }

  /** After `toggle`, every channel other than the one named is as the device held it. */
  lemma ToggleLeavesOtherChannels(ctx: Context, dev: Device, args: Args)
    requires ValidChannel(args.channel)
    ensures forall c | ValidChannel(c) && c != args.channel ::
      IsOn(HandleToggle(ctx, dev, NoFaults, args).dev.cell, c) == IsOn(dev.cell, c)
  {
    var e := HandleToggle(ctx, dev, NoFaults, args);
    OnlyBitChanges(Sanitize(dev.cell), e.dev.cell, args.channel);
  }

  /** Toggling the same channel twice gives back the device's channel bits. */
  lemma ToggleTwiceRestores(ctx: Context, dev: Device, args: Args)
    requires ValidChannel(args.channel)
    ensures var e := HandleToggle(ctx, dev, NoFaults, args);
      HandleToggle(e.ctx, e.dev, NoFaults, args).dev.cell == Sanitize(dev.cell)
  {
    var e1 := HandleToggle(ctx, dev, NoFaults, args);
    var e2 := HandleToggle(e1.ctx, e1.dev, NoFaults, args);
    var ch := args.channel;
    ToggleLeavesOtherChannels(ctx, dev, args);
    ToggleLeavesOtherChannels(e1.ctx, e1.dev, args);
    MaskDeterminedByChannels(e2.dev.cell, Sanitize(dev.cell));
  }

  /** `get` right after `set` reports the state that was set. */
  lemma SetThenGet(ctx: Context, dev: Device, args: Args, query: Args)
    requires ValidChannel(args.channel) && query.channel == args.channel
    ensures var e := HandleSet(ctx, dev, NoFaults, args);
      HandleGet(e.ctx, e.dev, NoFaults, query).response == Reply(ChannelLine(args.channel, args.state == On))
  {
  }

  /** Setting a channel twice to the same state is the same as setting it once. */
  lemma SetIdempotent(ctx: Context, dev: Device, args: Args)
    requires ValidChannel(args.channel)
    ensures var e := HandleSet(ctx, dev, NoFaults, args);
      HandleSet(e.ctx, e.dev, NoFaults, args).dev == e.dev
  {
    var e1 := HandleSet(ctx, dev, NoFaults, args);
    var e2 := HandleSet(e1.ctx, e1.dev, NoFaults, args);
    SameChannelState(e1.dev.cell, e2.dev.cell, args.channel);
  }

  /** A sanitized mask, and a mask that matches its sanitized form outside channel `ch` and agrees on `ch`, are equal. */
  lemma SameChannelState(m1: bv8, m2: bv8, ch: int)
    requires ValidChannel(ch) && m1 & !MaskAll == 0
    requires IsOn(m2, ch) == IsOn(m1, ch)
    requires m2 & !ChToBit(ch) == Sanitize(m1) & !ChToBit(ch)
    ensures m2 == m1
  {
    EqualByBit(m2, m1, ChToBit(ch));
  }

  /** `read-mask` right after `write-mask` reports the mask written. */
  lemma WriteThenRead(ctx: Context, dev: Device, args: Args)
    requires args.mask & !MaskAll == 0
    ensures var e := HandleWriteMask(ctx, dev, NoFaults, args);
      HandleReadMask(e.ctx, e.dev, NoFaults).response == Reply(MaskLine(args.mask))
  {
  }

  /**
    Save and restore: the text after `OK MASK=` in `read-mask`'s reply is an
    argument `write-mask` accepts, and writing it back leaves the device with
    the channel bits it had when it was read.
  */
  lemma ReadMaskTextRestores(ctx: Context, dev: Device, later: Device, args: Args)
    ensures var text := "0x" + FormatHex2(Sanitize(dev.cell));
      && HandleReadMask(ctx, dev, NoFaults).response == Reply("OK MASK=" + text)
      && ParseMaskArg(text) == Ok(Sanitize(dev.cell))
      && HandleWriteMask(ctx, later, NoFaults, args.(mask := Sanitize(dev.cell))).dev.cell == Sanitize(dev.cell)
  {
    var m := Sanitize(dev.cell);
    assert "OK MASK=0x" + FormatHex2(m) == "OK MASK=" + ("0x" + FormatHex2(m));
    MaskTextRoundTrip(m);
  }

  /**
    Every command reads the device before it uses the cached mask, or
    overwrites it: what a command prints and leaves on the device does not
    depend on the mask the context started with.
  */
  lemma ContextIrrelevant(args: Args, ctx: Context, ctx': Context, dev: Device, f: Faults)
    ensures Dispatch(args, ctx, dev, f).response == Dispatch(args, ctx', dev, f).response
    ensures Dispatch(args, ctx, dev, f).dev == Dispatch(args, ctx', dev, f).dev
  {
    if args.cmd in {Set, Toggle} {
      ChannelWritesIgnoreContext(args, ctx, ctx', dev, f);
    } else if args.cmd in {WriteMask, Reset} {
      MaskWritesIgnoreContext(args, ctx, ctx', dev, f);
    }
  }

  lemma ChannelWritesIgnoreContext(args: Args, ctx: Context, ctx': Context, dev: Device, f: Faults)
    requires args.cmd in {Set, Toggle}
    ensures Dispatch(args, ctx, dev, f).response == Dispatch(args, ctx', dev, f).response
    ensures Dispatch(args, ctx, dev, f).dev == Dispatch(args, ctx', dev, f).dev
  {
  }

  lemma MaskWritesIgnoreContext(args: Args, ctx: Context, ctx': Context, dev: Device, f: Faults)
    requires args.cmd in {WriteMask, Reset}
    ensures Dispatch(args, ctx, dev, f).response == Dispatch(args, ctx', dev, f).response
    ensures Dispatch(args, ctx, dev, f).dev == Dispatch(args, ctx', dev, f).dev
  {
  }

  /**
    The tool run on the words that spell a command, with the device opened,
    runs that command once and exits with the handler's status.
  */
  lemma MainRunsCommand(prog: string, a: Args, dev: Device, f: Faults)
    requires Validated(a) && NeedsDevice(a.cmd) && !a.interactive
    ensures var e := Dispatch(a, Context(a.mask), dev, f);
      Main([prog] + OptionWords(a) + CommandWords(a), true, dev, f) == Exit(HandlerStatus(e.response), e.response, e.dev)
  {
    ParseArgsRoundTrip(prog, a);
  }

  function Command(cmd: CommandKind, ch: int, state: SwitchState, mask: bv8): Args {
    Args(cmd, ch, state, mask, DefaultDevice, false, false)
  }

  /** Switching channel 1 on with every relay off. */
  lemma SessionStep1()
    ensures var e := Dispatch(Command(Set, 1, On, 0), Context(0), Device(0x00), NoFaults);
      e.dev == Device(0x01) && e.response == Reply("OK CH=1 STATE=ON")
  {
    assert FormatDecimal(1) == "1";
  }

  /** Switching channel 3 on next to channel 1. */
  lemma SessionStep2()
    ensures var e := Dispatch(Command(Set, 3, On, 0), Context(0), Device(0x01), NoFaults);
      e.dev == Device(0x05) && e.response == Reply("OK CH=3 STATE=ON")
  {
    assert FormatDecimal(3) == "3";
  }

  /** Toggling channel 1 off again. */
  lemma SessionStep3()
    ensures var e := Dispatch(Command(Toggle, 1, Off, 0), Context(0), Device(0x05), NoFaults);
      e.dev == Device(0x04) && e.response == Reply("OK CH=1 STATE=OFF")
  {
    assert FormatDecimal(1) == "1";
  }

  /** Reading all channels: only channel 3 is on. */
  lemma SessionStep4()
    ensures var e := Dispatch(Command(GetAll, 0, Off, 0), Context(0), Device(0x04), NoFaults);
      e.dev == Device(0x04) && e.response == Reply("OK MASK=0x04")
  {
    assert FormatHex2(0x04) == "04";
  }

  /** Writing 0x0A: channels 2 and 4 on. */
  lemma SessionStep5()
    ensures var e := Dispatch(Command(WriteMask, 0, Off, 0x0A), Context(0x0A), Device(0x04), NoFaults);
      e.dev == Device(0x0A) && e.response == Reply("OK MASK=0x0A")
  {
    assert FormatHex2(0x0A) == "0A";
  }

  /** Writing 0x10 is refused and the device keeps 0x0A. */
  lemma SessionStep6()
    ensures var e := Dispatch(Command(WriteMask, 0, Off, 0x10), Context(0x10), Device(0x0A), NoFaults);
      e.dev == Device(0x0A) && e.response == Diagnostics([BadMask])
  {
  }

  /**
    A worked session on a device that starts with every relay off: switch
    channels 1 and 3 on, toggle channel 1, read all, write 0x0A, then try to
    write 0x10, which is refused and leaves 0x0A in place.
  */
  lemma Session()
    ensures var d0 := Device(0x00);
      var e1 := Dispatch(Command(Set, 1, On, 0), Context(0), d0, NoFaults);
      var e2 := Dispatch(Command(Set, 3, On, 0), Context(0), e1.dev, NoFaults);
      var e3 := Dispatch(Command(Toggle, 1, Off, 0), Context(0), e2.dev, NoFaults);
      var e4 := Dispatch(Command(GetAll, 0, Off, 0), Context(0), e3.dev, NoFaults);
      var e5 := Dispatch(Command(WriteMask, 0, Off, 0x0A), Context(0x0A), e4.dev, NoFaults);
      var e6 := Dispatch(Command(WriteMask, 0, Off, 0x10), Context(0x10), e5.dev, NoFaults);
      && e1.dev == Device(0x01) && e1.response == Reply("OK CH=1 STATE=ON")
      && e2.dev == Device(0x05) && e2.response == Reply("OK CH=3 STATE=ON")
      && e3.dev == Device(0x04) && e3.response == Reply("OK CH=1 STATE=OFF")
      && e4.dev == Device(0x04) && e4.response == Reply("OK MASK=0x04")
      && e5.dev == Device(0x0A) && e5.response == Reply("OK MASK=0x0A")
      && e6.dev == Device(0x0A) && e6.response == Diagnostics([BadMask])
  {
    SessionStep1();
    SessionStep2();
    SessionStep3();
    SessionStep4();
    SessionStep5();
    SessionStep6();
  }
}
