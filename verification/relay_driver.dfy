/**
  The USB relay kernel driver's attach and detach paths as a ledger of held
  resources. Each kernel call becomes an event; whether it succeeds is an
  input. The ledger checks that resources are taken in the fixed probe order
  and given back in exactly the reverse order.
*/
module RelayDriver {
  import opened Wrappers

  const ENOMEM: int := 12
  const ENODEV: int := 19
  const EIO: int := 5

  /** wValue of the bit-bang request: all eight pins as outputs (high byte), bit-bang mode (low byte). */
  const BitBangValue: int := 0xFF * 256 + 0x01

  // ---------------------------------------------------------------------
  // Endpoints

  /** An endpoint descriptor's address and attributes fields (section 9.6.6 of the USB 2.0 specification). */
  datatype Endpoint = Endpoint(address: bv8, attributes: bv8)

  /** A bulk endpoint (transfer type 2 in the low two attribute bits) whose direction bit says host to device. */
  predicate IsBulkOut(e: Endpoint) {
    e.attributes & 0x03 == 0x02 && e.address & 0x80 == 0
  }

  /** A bulk endpoint whose direction bit says device to host. */
  predicate IsBulkIn(e: Endpoint) {
    e.attributes & 0x03 == 0x02 && e.address & 0x80 != 0
  }

  /**
    The address the endpoint scan keeps for bulk OUT: the last bulk OUT
    endpoint in descriptor order, or 0 (the zeroed instance's value) when
    there is none.
  */
  function LastBulkOut(eps: seq<Endpoint>): (a: bv8)
    ensures (forall i | 0 <= i < |eps| :: !IsBulkOut(eps[i])) ==> a == 0
    ensures a != 0 ==> exists i | 0 <= i < |eps| :: IsBulkOut(eps[i]) && eps[i].address == a
  {
    if |eps| == 0 then 0
    else if IsBulkOut(eps[|eps| - 1]) then
      eps[|eps| - 1].address
    else
      var init := eps[..|eps| - 1];
      assert forall i | 0 <= i < |init| :: init[i] == eps[i];
      LastBulkOut(init)
  }

  /** The scan keeps the address of the bulk OUT endpoint that no other bulk OUT endpoint follows. */
  lemma {:induction false} LastBulkOutWins(eps: seq<Endpoint>, i: nat)
    requires i < |eps| && IsBulkOut(eps[i])
    requires forall j | i < j < |eps| :: !IsBulkOut(eps[j])
    ensures LastBulkOut(eps) == eps[i].address
    decreases |eps|
  {
    if i < |eps| - 1 {
      var init := eps[..|eps| - 1];
      assert !IsBulkOut(eps[|eps| - 1]);
      assert init[i] == eps[i];
      LastBulkOutWins(init, i);
    }
  }

  /** The address the scan keeps for bulk IN, by the same rule. */
  function LastBulkIn(eps: seq<Endpoint>): (a: bv8)
    ensures (forall i | 0 <= i < |eps| :: !IsBulkIn(eps[i])) ==> a == 0
    ensures a != 0 ==> exists i | 0 <= i < |eps| :: IsBulkIn(eps[i]) && eps[i].address == a
  {
    if |eps| == 0 then 0
    else if IsBulkIn(eps[|eps| - 1]) then
      eps[|eps| - 1].address
    else
      var init := eps[..|eps| - 1];
      assert forall i | 0 <= i < |init| :: init[i] == eps[i];
      LastBulkIn(init)
  }

  /** The scan loop of probe: each bulk OUT endpoint overwrites the OUT address, each other bulk IN endpoint the IN address. */
  method DiscoverEndpoints(eps: seq<Endpoint>) returns (bulkOut: bv8, bulkIn: bv8)
    ensures bulkOut == LastBulkOut(eps) && bulkIn == LastBulkIn(eps)
  {
    bulkOut, bulkIn := 0, 0;
    var i := 0;
    while i < |eps|
      invariant 0 <= i <= |eps|
      invariant bulkOut == LastBulkOut(eps[..i]) && bulkIn == LastBulkIn(eps[..i])
    {
      assert eps[..i + 1][..i] == eps[..i];
      if IsBulkOut(eps[i]) {
        bulkOut := eps[i].address;
      } else if IsBulkIn(eps[i]) {
        bulkIn := eps[i].address;
      }
      i := i + 1;
    }
    assert eps[..i] == eps;
  }

  // ---------------------------------------------------------------------
  // Resources and events

  /** What probe acquires and must give back: the instance memory, the USB device reference, the chrdev region, the cdev, the device node. */
  datatype Resource = Memory | UsbRef | ChrdevRegion | Cdev | DevNode

  /** The order in which a successful probe holds them. */
  const FullStack: seq<Resource> := [Memory, UsbRef, ChrdevRegion, Cdev, DevNode]

  /** One step of probe or disconnect, as seen from outside. */
  datatype Event =
    | Acquire(r: Resource)
    | Release(r: Resource)
    | BindIntfData
    | ClearIntfData
    | CreateClass
    | SetBitMode(value: int)
    | BulkWrite(byte: bv8)

  /** The per-interface instance left bound by a successful probe. */
  datatype Instance = Instance(relayState: bv8, bulkOut: bv8, bulkIn: bv8)

  /** Driver state: the instance bound to the interface, if any, and whether the global device class exists. */
  datatype Driver = Driver(bound: Option<Instance>, classUp: bool)

  /** A bound instance always has its class: probe only succeeds after the class exists, and nothing destroys it. */
  predicate Wf(d: Driver) {
    d.bound.Some? ==> d.classUp
  }

  // ---------------------------------------------------------------------
  // The ledger

  /** Resources held (in acquisition order), whether interface data points at an instance, whether the class exists. */
  datatype Ledger = Ledger(held: seq<Resource>, intfData: bool, classUp: bool)

  /**
    One event applied to the ledger, or `None` when the event breaks the
    discipline: acquiring out of the fixed order, releasing anything but the
    most recent resource, binding interface data without memory, creating the
    class twice, or talking to the device without a USB reference.
  */
  function Apply(l: Ledger, e: Event): Option<Ledger> {
    match e
    case Acquire(r) =>
      if |l.held| < |FullStack| && l.held == FullStack[..|l.held|] && r == FullStack[|l.held|]
      then Some(l.(held := l.held + [r])) else None
    case Release(r) =>
      if |l.held| > 0 && l.held[|l.held| - 1] == r then Some(l.(held := l.held[..|l.held| - 1])) else None
    case BindIntfData => if Memory in l.held then Some(l.(intfData := true)) else None
    case ClearIntfData => Some(l.(intfData := false))
    case CreateClass => if !l.classUp then Some(l.(classUp := true)) else None
    case SetBitMode(_) => if UsbRef in l.held then Some(l) else None
    case BulkWrite(_) => if UsbRef in l.held then Some(l) else None
  }

  function Replay(l: Ledger, log: seq<Event>): Option<Ledger>
    decreases |log|
  {
    if |log| == 0 then Some(l)
    else match Apply(l, log[0])
      case None => None
      case Some(l') => Replay(l', log[1..])
  }

  /** Replaying two logs one after the other is replaying their concatenation. */
  lemma {:induction false} ReplayAppend(l: Ledger, a: seq<Event>, b: seq<Event>)
    ensures Replay(l, a + b) == if Replay(l, a).Some? then Replay(Replay(l, a).value, b) else None
    decreases |a|
  {
    if |a| > 0 {
      assert (a + b)[1..] == a[1..] + b;
      if Apply(l, a[0]).Some? {
        ReplayAppend(Apply(l, a[0]).value, a[1..], b);
      }
    } else {
      assert a + b == b;
    }
  }

  /** The ledger a driver state stands for. */
  function LedgerOf(d: Driver): Ledger {
    if d.bound.Some? then Ledger(FullStack, true, d.classUp) else Ledger([], false, d.classUp)
  }

  /** The resources acquired in a log, in order. */
  function Acquired(log: seq<Event>): seq<Resource>
    decreases |log|
  {
    if |log| == 0 then [] else (if log[0].Acquire? then [log[0].r] else []) + Acquired(log[1..])
  }

  /** The resources released in a log, in order. */
  function Released(log: seq<Event>): seq<Resource>
    decreases |log|
  {
    if |log| == 0 then [] else (if log[0].Release? then [log[0].r] else []) + Released(log[1..])
  }

  function Reverse<T>(s: seq<T>): seq<T>
    decreases |s|
  {
    if |s| == 0 then [] else [s[|s| - 1]] + Reverse(s[..|s| - 1])
  }

  // ---------------------------------------------------------------------
  // Probe

  /** The outcomes of the kernel calls probe makes, in the order it makes them. */
  datatype Env = Env(
    allocOk: bool,             // kzalloc returned memory
    endpoints: seq<Endpoint>,  // the current altsetting's endpoint descriptors
    regionRet: int,            // alloc_chrdev_region's return
    cdevRet: int,              // cdev_add's return
    classErrno: nat,           // 0 when class_create succeeds, else its error number
    deviceOk: bool,            // device_create returned a device
    controlRet: int,           // usb_control_msg's return for the bit-bang request
    bulkRet: int,              // usb_bulk_msg's return for the initial byte
    bulkLen: int)              // the byte count usb_bulk_msg reports

  /** The code as written, or with the short-write return value corrected. */
  datatype Revision = AsWritten | Corrected

  datatype ProbeResult = ProbeResult(ret: int, log: seq<Event>, driver: Driver)

  /** The goto labels of probe's unwind, top to bottom; each falls through to the next. */
  datatype Label = DestroyDevice | DelCdev | UnregisterChrdev | ErrorExit(hasInstance: bool)

  function LabelRank(l: Label): nat {
    match l
    case DestroyDevice => 3
    case DelCdev => 2
    case UnregisterChrdev => 1
    case ErrorExit(_) => 0
  }

  /** The releases from a label to the end of probe. */
  function UnwindFrom(l: Label): seq<Event>
    decreases LabelRank(l)
  {
    match l
    case DestroyDevice => [Release(DevNode)] + UnwindFrom(DelCdev)
    case DelCdev => [Release(Cdev)] + UnwindFrom(UnregisterChrdev)
    case UnregisterChrdev => [Release(ChrdevRegion)] + UnwindFrom(ErrorExit(true))
    case ErrorExit(hasInstance) => (if hasInstance then [Release(UsbRef), Release(Memory)] else []) + [ClearIntfData]
  }

  /** A failed probe: what was done, then the unwind from the label jumped to; nothing stays bound. */
  function Failed(ret: int, done: seq<Event>, l: Label, classUp: bool): ProbeResult {
    ProbeResult(ret, done + UnwindFrom(l), Driver(None, classUp))
  }

  /** Whether the initial bulk write went through: no error and exactly one byte accepted. */
  predicate InitialWriteOk(env: Env) {
    env.bulkRet >= 0 && env.bulkLen == 1
  }

  /** Probe's return value after a failed initial write: the code keeps the transfer's own status, which is 0 for a short write. */
  function InitialWriteRet(rev: Revision, env: Env): int {
    match rev
    case AsWritten => env.bulkRet
    case Corrected => if env.bulkRet < 0 then env.bulkRet else -EIO
  }

  /** The class after the "create if missing" step, and the events that step logs. */
  function ClassStep(env: Env, classUp: bool): (bool, seq<Event>) {
    if classUp then (true, []) else if env.classErrno != 0 then (false, []) else (true, [CreateClass])
  }

  /** `usbrelay_probe`, called by the USB core only on an interface with nothing bound. */
  function Probe(rev: Revision, env: Env, d: Driver): (p: ProbeResult)
    requires d.bound.None?
    ensures p.driver.bound.Some? ==>
      && p.ret == 0 && p.driver.classUp
      && p.driver.bound.value.relayState == 0x00
      && p.driver.bound.value.bulkOut == LastBulkOut(env.endpoints) != 0
      && |p.log| > 0 && p.log[|p.log| - 1] == BulkWrite(0x00)
    ensures d.classUp ==> p.driver.classUp
    ensures !env.allocOk ==> p == ProbeResult(-ENOMEM, [ClearIntfData], d)
  {
    var classUp := d.classUp;
    if !env.allocOk then
      Failed(-ENOMEM, [], ErrorExit(false), classUp)
    else
      var setup := [Acquire(Memory), Acquire(UsbRef), BindIntfData];
      var out := LastBulkOut(env.endpoints);
      if out == 0 then
        Failed(-ENODEV, setup, ErrorExit(true), classUp)
      else if env.regionRet != 0 then
        Failed(env.regionRet, setup, ErrorExit(true), classUp)
      else
        var registered := setup + [Acquire(ChrdevRegion)];
        if env.cdevRet != 0 then
          Failed(env.cdevRet, registered, UnregisterChrdev, classUp)
        else
          var added := registered + [Acquire(Cdev)];
          var (up, classLog) := ClassStep(env, classUp);
          if !up then
            Failed(-(env.classErrno as int), added, DelCdev, false)
          else if !env.deviceOk then
            Failed(-ENODEV, added + classLog, DelCdev, true)
          else
            var configured := added + classLog + [Acquire(DevNode), SetBitMode(BitBangValue)];
            if env.controlRet < 0 then
              Failed(env.controlRet, configured, DestroyDevice, true)
            else
              var pushed := configured + [BulkWrite(0x00)];
              if !InitialWriteOk(env) then
                Failed(InitialWriteRet(rev, env), pushed, DestroyDevice, true)
              else
                ProbeResult(0, pushed, Driver(Some(Instance(0x00, out, LastBulkIn(env.endpoints))), true))
  }

  // ---------------------------------------------------------------------
  // Disconnect

  /** `usbrelay_disconnect`: nothing to do without an instance; otherwise tear down in the reverse of probe's order. */
  function Disconnect(d: Driver): (r: (seq<Event>, Driver))
    ensures r.1 == Driver(None, d.classUp)
    ensures d.bound.None? ==> r.0 == []
    ensures d.bound.Some? ==>
      r.0 == (if d.classUp then [Release(DevNode)] else []) + TeardownLog([Cdev, ChrdevRegion, UsbRef, Memory], ChrdevRegion)
  {
    if d.bound.None? then
      ([], d)
    else
      ((if d.classUp then [Release(DevNode)] else [])
        + [Release(Cdev), Release(ChrdevRegion), ClearIntfData, Release(UsbRef), Release(Memory)],
       Driver(None, d.classUp))
  }

  // ---------------------------------------------------------------------
  // Stages

  /** The probe steps that can fail, in the order probe reaches them. */
  datatype Stage = Alloc | Endpoints | Region | CdevAdd | ClassCreate | NodeCreate | BitMode | InitialWrite

  /** The first step that fails, independently of how probe unwinds it. */
  function FailingStage(env: Env, d: Driver): Option<Stage> {
    if !env.allocOk then Some(Alloc)
    else if LastBulkOut(env.endpoints) == 0 then Some(Endpoints)
    else if env.regionRet != 0 then Some(Region)
    else if env.cdevRet != 0 then Some(CdevAdd)
    else if !d.classUp && env.classErrno != 0 then Some(ClassCreate)
    else if !env.deviceOk then Some(NodeCreate)
    else if env.controlRet < 0 then Some(BitMode)
    else if !InitialWriteOk(env) then Some(InitialWrite)
    else None
  }

  /** How many resources, a prefix of `FullStack`, are held when a stage fails. */
  function HeldAt(s: Stage): nat {
    match s
    case Alloc => 0
    case Endpoints => 2
    case Region => 2
    case CdevAdd => 3
    case ClassCreate => 4
    case NodeCreate => 4
    case BitMode => 5
    case InitialWrite => 5
  }

  lemma {:induction false} AcquiredAppend(a: seq<Event>, b: seq<Event>)
    ensures Acquired(a + b) == Acquired(a) + Acquired(b)
    decreases |a|
  {
    if |a| == 0 {
      assert a + b == b;
    } else {
      var ab := a + b;
      assert ab[0] == a[0] && ab[1..] == a[1..] + b;
      AcquiredAppend(a[1..], b);
      var head := if a[0].Acquire? then [a[0].r] else [];
      assert Acquired(ab) == head + Acquired(a[1..] + b);
      assert Acquired(a) == head + Acquired(a[1..]);
    }
  }

  lemma {:induction false} ReleasedAppend(a: seq<Event>, b: seq<Event>)
    ensures Released(a + b) == Released(a) + Released(b)
    decreases |a|
  {
    if |a| == 0 {
      assert a + b == b;
    } else {
      var ab := a + b;
      assert ab[0] == a[0] && ab[1..] == a[1..] + b;
      ReleasedAppend(a[1..], b);
      var head := if a[0].Release? then [a[0].r] else [];
      assert Released(ab) == head + Released(a[1..] + b);
      assert Released(a) == head + Released(a[1..]);
    }
  }

  /** What a label's unwind releases, and that it acquires nothing. */
  lemma UnwindReleases(l: Label)
    ensures Acquired(UnwindFrom(l)) == []
    ensures Released(UnwindFrom(l)) == match l
      case DestroyDevice => [DevNode, Cdev, ChrdevRegion, UsbRef, Memory]
      case DelCdev => [Cdev, ChrdevRegion, UsbRef, Memory]
      case UnregisterChrdev => [ChrdevRegion, UsbRef, Memory]
      case ErrorExit(hasInstance) => if hasInstance then [UsbRef, Memory] else []
  {
    match l {
      case DestroyDevice => UnwindDestroy();
      case DelCdev => UnwindDelCdev();
      case UnregisterChrdev => UnwindUnregister();
      case ErrorExit(hasInstance) => UnwindErrorExit(hasInstance);
    }
  }

  lemma UnwindErrorExit(hasInstance: bool)
    ensures Acquired(UnwindFrom(ErrorExit(hasInstance))) == []
    ensures Released(UnwindFrom(ErrorExit(hasInstance))) == if hasInstance then [UsbRef, Memory] else []
  {
    LogCons(ClearIntfData, []);
    assert [ClearIntfData] + [] == [ClearIntfData];
    if hasInstance {
      LogCons(Release(Memory), [ClearIntfData]);
      LogCons(Release(UsbRef), [Release(Memory), ClearIntfData]);
      assert UnwindFrom(ErrorExit(true)) == [Release(UsbRef)] + ([Release(Memory)] + [ClearIntfData]);
    } else {
      assert UnwindFrom(ErrorExit(false)) == [ClearIntfData] + [];
    }
  }

  lemma UnwindUnregister()
    ensures Acquired(UnwindFrom(UnregisterChrdev)) == []
    ensures Released(UnwindFrom(UnregisterChrdev)) == [ChrdevRegion, UsbRef, Memory]
  {
    UnwindErrorExit(true);
    LogCons(Release(ChrdevRegion), UnwindFrom(ErrorExit(true)));
  }

  lemma UnwindDelCdev()
    ensures Acquired(UnwindFrom(DelCdev)) == []
    ensures Released(UnwindFrom(DelCdev)) == [Cdev, ChrdevRegion, UsbRef, Memory]
  {
    UnwindUnregister();
    LogCons(Release(Cdev), UnwindFrom(UnregisterChrdev));
  }

  lemma UnwindDestroy()
    ensures Acquired(UnwindFrom(DestroyDevice)) == []
    ensures Released(UnwindFrom(DestroyDevice)) == [DevNode, Cdev, ChrdevRegion, UsbRef, Memory]
  {
    UnwindDelCdev();
    LogCons(Release(DevNode), UnwindFrom(DelCdev));
  }

  /** The label each failing stage jumps to. */
  function LabelFor(s: Stage): Label {
    match s
    case Alloc => ErrorExit(false)
    case Endpoints => ErrorExit(true)
    case Region => ErrorExit(true)
    case CdevAdd => UnregisterChrdev
    case ClassCreate => DelCdev
    case NodeCreate => DelCdev
    case BitMode => DestroyDevice
    case InitialWrite => DestroyDevice
  }

  const Setup: seq<Event> := [Acquire(Memory), Acquire(UsbRef), BindIntfData]

  function StageRank(s: Stage): nat {
    match s
    case Alloc => 0
    case Endpoints => 1
    case Region => 2
    case CdevAdd => 3
    case ClassCreate => 4
    case NodeCreate => 5
    case BitMode => 6
    case InitialWrite => 7
  }

  /** The stage probe reaches just before `s`. */
  function Previous(s: Stage): (t: Stage)
    requires s != Alloc
    ensures StageRank(t) + 1 == StageRank(s)
  {
    match s
    case Endpoints => Alloc
    case Region => Endpoints
    case CdevAdd => Region
    case ClassCreate => CdevAdd
    case NodeCreate => ClassCreate
    case BitMode => NodeCreate
    case InitialWrite => BitMode
  }

  /** What probe logs between reaching `Previous(s)` and reaching `s`. */
  function StepLog(s: Stage, classLog: seq<Event>): seq<Event> {
    match s
    case Alloc => []
    case Endpoints => Setup
    case Region => []
    case CdevAdd => [Acquire(ChrdevRegion)]
    case ClassCreate => [Acquire(Cdev)]
    case NodeCreate => classLog
    case BitMode => [Acquire(DevNode), SetBitMode(BitBangValue)]
    case InitialWrite => [BulkWrite(0x00)]
  }

  /** The events probe has logged when stage `s` fails; `classLog` is what the class step logged. */
  function Prefix(s: Stage, classLog: seq<Event>): seq<Event>
    decreases StageRank(s)
  {
    if s == Alloc then [] else Prefix(Previous(s), classLog) + StepLog(s, classLog)
  }

  /** The code probe returns when stage `s` fails. */
  function FailureRet(rev: Revision, env: Env, s: Stage): int {
    match s
    case Alloc => -ENOMEM
    case Endpoints => -ENODEV
    case Region => env.regionRet
    case CdevAdd => env.cdevRet
    case ClassCreate => -(env.classErrno as int)
    case NodeCreate => -ENODEV
    case BitMode => env.controlRet
    case InitialWrite => InitialWriteRet(rev, env)
  }

  /** What a failed probe leaves: the stage's return code, the work before it followed by its unwind, and no instance. */
  ghost predicate FailedAt(rev: Revision, env: Env, d: Driver, s: Stage, p: ProbeResult) {
    && p.ret == FailureRet(rev, env, s)
    && p.driver == Driver(None, if s in {NodeCreate, BitMode, InitialWrite} then true else d.classUp)
    && p.log == Prefix(s, ClassStep(env, d.classUp).1) + UnwindFrom(LabelFor(s))
  }

  /** A failed probe logs the work of the stages before the failing one, then unwinds from that stage's label. */
  lemma ProbeFailureLog(rev: Revision, env: Env, d: Driver)
    requires d.bound.None? && FailingStage(env, d).Some?
    ensures var s := FailingStage(env, d).value;
      var p := Probe(rev, env, d);
      && p.ret == FailureRet(rev, env, s)
      && p.driver == Driver(None, if s in {NodeCreate, BitMode, InitialWrite} then true else d.classUp)
      && p.log == Prefix(s, ClassStep(env, d.classUp).1) + UnwindFrom(LabelFor(s))
  {
    var s := FailingStage(env, d).value;
    if s in {Alloc, Endpoints, Region} {
      EarlyFailureLog(rev, env, d, s);
    } else if s == CdevAdd {
      CdevFailureLog(rev, env, d);
    } else if s in {ClassCreate, NodeCreate} {
      ClassFailureLog(rev, env, d, s);
    } else {
      LateFailureLog(rev, env, d, s);
    }
  }

  lemma EarlyFailureLog(rev: Revision, env: Env, d: Driver, s: Stage)
    requires d.bound.None? && FailingStage(env, d) == Some(s) && s in {Alloc, Endpoints, Region}
    ensures FailedAt(rev, env, d, s, Probe(rev, env, d))
  {
    assert Prefix(Endpoints, ClassStep(env, d.classUp).1) == Setup;
  }

  lemma CdevFailureLog(rev: Revision, env: Env, d: Driver)
    requires d.bound.None? && FailingStage(env, d) == Some(CdevAdd)
    ensures FailedAt(rev, env, d, CdevAdd, Probe(rev, env, d))
  {
    assert Prefix(CdevAdd, ClassStep(env, d.classUp).1) == Setup + [Acquire(ChrdevRegion)];
  }

  lemma ClassFailureLog(rev: Revision, env: Env, d: Driver, s: Stage)
    requires d.bound.None? && FailingStage(env, d) == Some(s) && s in {ClassCreate, NodeCreate}
    ensures FailedAt(rev, env, d, s, Probe(rev, env, d))
  {
    var cl := ClassStep(env, d.classUp).1;
    var added := Setup + [Acquire(ChrdevRegion)] + [Acquire(Cdev)];
    assert Prefix(ClassCreate, cl) == added;
    assert Prefix(NodeCreate, cl) == added + cl;
  }

  lemma LateFailureLog(rev: Revision, env: Env, d: Driver, s: Stage)
    requires d.bound.None? && FailingStage(env, d) == Some(s) && s in {BitMode, InitialWrite}
    ensures FailedAt(rev, env, d, s, Probe(rev, env, d))
  {
    var cl := ClassStep(env, d.classUp).1;
    var configured := Setup + [Acquire(ChrdevRegion)] + [Acquire(Cdev)] + cl + [Acquire(DevNode), SetBitMode(BitBangValue)];
    assert Prefix(BitMode, cl) == configured;
    assert Prefix(InitialWrite, cl) == configured + [BulkWrite(0x00)];
  }

  /** Appending one event to a log. */
  lemma AcquiredSnoc(log: seq<Event>, e: Event)
    ensures Acquired(log + [e]) == Acquired(log) + (if e.Acquire? then [e.r] else [])
    ensures Released(log + [e]) == Released(log) + (if e.Release? then [e.r] else [])
  {
    assert [e][1..] == [];
    AcquiredAppend(log, [e]);
    ReleasedAppend(log, [e]);
  }

  /** The work before a failing stage acquires exactly the first `HeldAt(s)` resources and releases none. */
  lemma {:induction false} PrefixHolds(s: Stage, classLog: seq<Event>)
    requires classLog == [] || classLog == [CreateClass]
    ensures Acquired(Prefix(s, classLog)) == FullStack[..HeldAt(s)]
    ensures Released(Prefix(s, classLog)) == []
    decreases StageRank(s)
  {
    if s != Alloc {
      var t := Previous(s);
      var before := Prefix(t, classLog);
      var step := StepLog(s, classLog);
      assert Prefix(s, classLog) == before + step;
      PrefixHolds(t, classLog);
      StepHolds(s, classLog);
      AcquiredAppend(before, step);
      ReleasedAppend(before, step);
      SliceSplit(FullStack, HeldAt(t), HeldAt(s));
    }
  }

  lemma SliceSplit<T>(s: seq<T>, a: nat, b: nat)
    requires a <= b <= |s|
    ensures s[..b] == s[..a] + s[a..b]
  {
  }

  /** Each step acquires the next resources of `FullStack`, in order, and releases none. */
  lemma StepHolds(s: Stage, classLog: seq<Event>)
    requires s != Alloc
    requires classLog == [] || classLog == [CreateClass]
    ensures HeldAt(Previous(s)) <= HeldAt(s)
    ensures Acquired(StepLog(s, classLog)) == FullStack[HeldAt(Previous(s))..HeldAt(s)]
    ensures Released(StepLog(s, classLog)) == []
  {
    match s
    case Endpoints =>
      AcquiredSnoc([], Acquire(Memory));
      assert [] + [Acquire(Memory)] == [Acquire(Memory)];
      AcquiredSnoc([Acquire(Memory)], Acquire(UsbRef));
      assert [Acquire(Memory)] + [Acquire(UsbRef)] == [Acquire(Memory), Acquire(UsbRef)];
      AcquiredSnoc([Acquire(Memory), Acquire(UsbRef)], BindIntfData);
      assert [Acquire(Memory), Acquire(UsbRef)] + [BindIntfData] == Setup;
    case Region =>
    case CdevAdd => AcquiredSnoc([], Acquire(ChrdevRegion));
      assert [] + [Acquire(ChrdevRegion)] == [Acquire(ChrdevRegion)];
    case ClassCreate => AcquiredSnoc([], Acquire(Cdev));
      assert [] + [Acquire(Cdev)] == [Acquire(Cdev)];
    case NodeCreate =>
      if classLog == [CreateClass] {
        AcquiredSnoc([], CreateClass);
        assert [] + [CreateClass] == classLog;
      }
    case BitMode =>
      AcquiredSnoc([], Acquire(DevNode));
      assert [] + [Acquire(DevNode)] == [Acquire(DevNode)];
      AcquiredSnoc([Acquire(DevNode)], SetBitMode(BitBangValue));
      assert [Acquire(DevNode)] + [SetBitMode(BitBangValue)] == StepLog(s, classLog);
    case InitialWrite => AcquiredSnoc([], BulkWrite(0x00));
      assert [] + [BulkWrite(0x00)] == [BulkWrite(0x00)];
  }

  // ---------------------------------------------------------------------
  // Ledger replays

  lemma ReplayCons(l: Ledger, e: Event, rest: seq<Event>)
    ensures Replay(l, [e] + rest) == if Apply(l, e).Some? then Replay(Apply(l, e).value, rest) else None
  {
    assert ([e] + rest)[0] == e && ([e] + rest)[1..] == rest;
  }

  /** How many resources an unwind label expects to find held. */
  function HeldFor(l: Label): nat {
    match l
    case DestroyDevice => 5
    case DelCdev => 4
    case UnregisterChrdev => 3
    case ErrorExit(hasInstance) => if hasInstance then 2 else 0
  }

  /** Unwinding from a label, with exactly the resources it expects held, leaves nothing held and no interface data. */
  lemma ReplayUnwind(l: Label, intfData: bool, classUp: bool)
    requires l == ErrorExit(false) ==> !intfData
    ensures Replay(Ledger(FullStack[..HeldFor(l)], intfData, classUp), UnwindFrom(l)) == Some(Ledger([], false, classUp))
    decreases LabelRank(l)
  {
    var held := FullStack[..HeldFor(l)];
    var here := Ledger(held, intfData, classUp);
    match l
    case DestroyDevice =>
      ReplayCons(here, Release(DevNode), UnwindFrom(DelCdev));
      assert held[..4] == FullStack[..4];
      ReplayUnwind(DelCdev, intfData, classUp);
    case DelCdev =>
      ReplayCons(here, Release(Cdev), UnwindFrom(UnregisterChrdev));
      assert held[..3] == FullStack[..3];
      ReplayUnwind(UnregisterChrdev, intfData, classUp);
    case UnregisterChrdev =>
      ReplayCons(here, Release(ChrdevRegion), UnwindFrom(ErrorExit(true)));
      assert held[..2] == FullStack[..2];
      ReplayUnwind(ErrorExit(true), intfData, classUp);
    case ErrorExit(hasInstance) =>
      ReplayErrorExit(hasInstance, intfData, classUp);
  }

  /** The `error` label: drop the USB reference, free the instance, clear interface data. */
  lemma ReplayErrorExit(hasInstance: bool, intfData: bool, classUp: bool)
    requires !hasInstance ==> !intfData
    ensures var l := ErrorExit(hasInstance);
      Replay(Ledger(FullStack[..HeldFor(l)], intfData, classUp), UnwindFrom(l)) == Some(Ledger([], false, classUp))
  {
    var here := Ledger(FullStack[..HeldFor(ErrorExit(hasInstance))], intfData, classUp);
    if hasInstance {
      assert here.held == [Memory, UsbRef];
      var afterPut := Ledger([Memory], intfData, classUp);
      var afterFree := Ledger([], intfData, classUp);
      ReplayCons(here, Release(UsbRef), [Release(Memory), ClearIntfData]);
      ReplayCons(afterPut, Release(Memory), [ClearIntfData]);
      ReplayCons(afterFree, ClearIntfData, []);
      assert [Release(UsbRef), Release(Memory)] + [ClearIntfData] == [Release(UsbRef), Release(Memory), ClearIntfData];
    } else {
      ReplayCons(here, ClearIntfData, []);
      assert [] + [ClearIntfData] == [ClearIntfData] + [];
    }
  }

  /** The ledger after the work before a failing stage: the first `HeldAt(s)` resources and, past allocation, interface data. */
  function LedgerAt(s: Stage, classUp: bool): Ledger {
    Ledger(FullStack[..HeldAt(s)], s != Alloc, classUp)
  }

  /** The class flag once the class step's events are in the log. */
  function ClassAfter(s: Stage, classUp: bool, classLog: seq<Event>): bool {
    if StageRank(s) >= StageRank(NodeCreate) then classUp || classLog == [CreateClass] else classUp
  }

  /** Replaying the work before a failing stage from an empty ledger is legal and ends in `LedgerAt`. */
  lemma {:induction false} ReplayPrefix(s: Stage, classUp: bool, classLog: seq<Event>)
    requires classLog == [] || (classLog == [CreateClass] && !classUp)
    ensures Replay(Ledger([], false, classUp), Prefix(s, classLog)) == Some(LedgerAt(s, ClassAfter(s, classUp, classLog)))
    decreases StageRank(s)
  {
    if s != Alloc {
      var t := Previous(s);
      ReplayPrefix(t, classUp, classLog);
      ReplayAppend(Ledger([], false, classUp), Prefix(t, classLog), StepLog(s, classLog));
      ReplayStep(s, classUp, classLog);
    }
  }

  /** Each step of probe moves the ledger from one stage's state to the next's. */
  lemma ReplayStep(s: Stage, classUp: bool, classLog: seq<Event>)
    requires s != Alloc
    requires classLog == [] || (classLog == [CreateClass] && !classUp)
    ensures var t := Previous(s);
      Replay(LedgerAt(t, ClassAfter(t, classUp, classLog)), StepLog(s, classLog)) == Some(LedgerAt(s, ClassAfter(s, classUp, classLog)))
  {
    if s in {Endpoints, Region, CdevAdd, ClassCreate} {
      ReplayStepEarly(s, classUp, classLog);
    } else {
      ReplayStepLate(s, classUp, classLog);
    }
  }

  /** The steps up to adding the cdev: each pushes resources, none touches the class. */
  lemma ReplayStepEarly(s: Stage, classUp: bool, classLog: seq<Event>)
    requires s in {Endpoints, Region, CdevAdd, ClassCreate}
    requires classLog == [] || (classLog == [CreateClass] && !classUp)
    ensures var t := Previous(s);
      Replay(LedgerAt(t, ClassAfter(t, classUp, classLog)), StepLog(s, classLog)) == Some(LedgerAt(s, ClassAfter(s, classUp, classLog)))
  {
    match s {
      case Endpoints => ReplaySetup(classUp);
      case Region =>
      case CdevAdd => ReplayPush(2, true, classUp);
      case ClassCreate => ReplayPush(3, true, classUp);
    }
  }

  /** The class step, the device node with the bit-bang request, and the initial write. */
  lemma ReplayStepLate(s: Stage, classUp: bool, classLog: seq<Event>)
    requires s in {NodeCreate, BitMode, InitialWrite}
    requires classLog == [] || (classLog == [CreateClass] && !classUp)
    ensures var t := Previous(s);
      Replay(LedgerAt(t, ClassAfter(t, classUp, classLog)), StepLog(s, classLog)) == Some(LedgerAt(s, ClassAfter(s, classUp, classLog)))
  {
    var t := Previous(s);
    var from := LedgerAt(t, ClassAfter(t, classUp, classLog));
    match s {
      case NodeCreate =>
        if classLog == [CreateClass] {
          ReplayCons(from, CreateClass, []);
          assert [CreateClass] + [] == classLog;
        }
      case BitMode =>
        assert FullStack[..HeldAt(BitMode)] == FullStack;
        assert ClassAfter(BitMode, classUp, classLog) == from.classUp;
        ReplayBitMode(from.classUp);
      case InitialWrite =>
        assert FullStack[..5] == FullStack;
        ReplayCons(from, BulkWrite(0x00), []);
        assert [BulkWrite(0x00)] + [] == [BulkWrite(0x00)];
    }
  }

  /** Creating the device node, then the bit-bang request with all five resources held. */
  lemma ReplayBitMode(classUp: bool)
    ensures Replay(Ledger(FullStack[..4], true, classUp), [Acquire(DevNode), SetBitMode(BitBangValue)])
      == Some(Ledger(FullStack, true, classUp))
  {
    var from := Ledger(FullStack[..4], true, classUp);
    ReplayPush(4, true, classUp);
    assert FullStack[..5] == FullStack;
    ReplayAppend(from, [Acquire(DevNode)], [SetBitMode(BitBangValue)]);
    ReplayCons(Ledger(FullStack, true, classUp), SetBitMode(BitBangValue), []);
    assert [SetBitMode(BitBangValue)] + [] == [SetBitMode(BitBangValue)];
    assert [Acquire(DevNode)] + [SetBitMode(BitBangValue)] == [Acquire(DevNode), SetBitMode(BitBangValue)];
  }

  /** Acquiring the next resource of the fixed order. */
  lemma ReplayPush(k: nat, intfData: bool, classUp: bool)
    requires k < |FullStack|
    ensures Replay(Ledger(FullStack[..k], intfData, classUp), [Acquire(FullStack[k])])
      == Some(Ledger(FullStack[..k + 1], intfData, classUp))
  {
    var l := Ledger(FullStack[..k], intfData, classUp);
    ReplayCons(l, Acquire(FullStack[k]), []);
    assert [Acquire(FullStack[k])] + [] == [Acquire(FullStack[k])];
    assert FullStack[..k] + [FullStack[k]] == FullStack[..k + 1];
  }

  /** Allocation, the USB reference and binding interface data, from an empty ledger. */
  lemma ReplaySetup(classUp: bool)
    ensures Replay(Ledger([], false, classUp), Setup) == Some(Ledger(FullStack[..2], true, classUp))
  {
    assert FullStack[..0] == [];
    ReplayPush(0, false, classUp);
    ReplayPush(1, false, classUp);
    var l2 := Ledger(FullStack[..2], false, classUp);
    assert Memory in l2.held;
    ReplayCons(l2, BindIntfData, []);
    assert [BindIntfData] + [] == [BindIntfData];
    ReplayAppend(Ledger([], false, classUp), [Acquire(Memory)], [Acquire(UsbRef)]);
    assert [Acquire(Memory)] + [Acquire(UsbRef)] == [Acquire(Memory), Acquire(UsbRef)];
    ReplayAppend(Ledger([], false, classUp), [Acquire(Memory), Acquire(UsbRef)], [BindIntfData]);
    assert [Acquire(Memory), Acquire(UsbRef)] + [BindIntfData] == Setup;
  }

  // ---------------------------------------------------------------------
  // Probe properties

  /** A successful probe logs the work of every stage. */
  lemma ProbeSuccessLog(rev: Revision, env: Env, d: Driver)
    requires d.bound.None? && FailingStage(env, d).None?
    ensures Probe(rev, env, d).log == Prefix(InitialWrite, ClassStep(env, d.classUp).1)
  {
    var cl := ClassStep(env, d.classUp).1;
    assert Prefix(CdevAdd, cl) == Setup + [Acquire(ChrdevRegion)];
    assert Prefix(ClassCreate, cl) == Setup + [Acquire(ChrdevRegion)] + [Acquire(Cdev)];
    assert Prefix(InitialWrite, cl)
      == Setup + [Acquire(ChrdevRegion)] + [Acquire(Cdev)] + cl + [Acquire(DevNode), SetBitMode(BitBangValue)] + [BulkWrite(0x00)];
  }

  /**
    Probe is a legal walk of the ledger from an unbound interface to the
    state it reports: everything held on success, nothing on failure.
  */
  lemma ProbeKeepsLedger(rev: Revision, env: Env, d: Driver)
    requires d.bound.None?
    ensures var p := Probe(rev, env, d);
      Replay(LedgerOf(d), p.log) == Some(LedgerOf(p.driver)) && Wf(p.driver)
  {
    if FailingStage(env, d).None? {
      SuccessKeepsLedger(rev, env, d);
    } else {
      FailureKeepsLedger(rev, env, d);
    }
  }

  lemma SuccessKeepsLedger(rev: Revision, env: Env, d: Driver)
    requires d.bound.None? && FailingStage(env, d).None?
    ensures var p := Probe(rev, env, d);
      Replay(LedgerOf(d), p.log) == Some(LedgerOf(p.driver)) && Wf(p.driver)
  {
    var cl := ClassStep(env, d.classUp).1;
    ProbeSuccessLog(rev, env, d);
    ReplayPrefix(InitialWrite, d.classUp, cl);
    assert ClassAfter(InitialWrite, d.classUp, cl);
    assert FullStack[..HeldAt(InitialWrite)] == FullStack;
  }

  lemma FailureKeepsLedger(rev: Revision, env: Env, d: Driver)
    requires d.bound.None? && FailingStage(env, d).Some?
    ensures var p := Probe(rev, env, d);
      Replay(LedgerOf(d), p.log) == Some(LedgerOf(p.driver)) && Wf(p.driver)
  {
    var s := FailingStage(env, d).value;
    var cl := ClassStep(env, d.classUp).1;
    var after := ClassAfter(s, d.classUp, cl);
    ProbeFailureLog(rev, env, d);
    ClassAfterFailure(env, d);
    LabelFits(s);
    ReplayAppend(LedgerOf(d), Prefix(s, cl), UnwindFrom(LabelFor(s)));
    ReplayPrefix(s, d.classUp, cl);
    ReplayUnwind(LabelFor(s), s != Alloc, after);
  }

  /** Each stage's label expects exactly the resources held when that stage fails. */
  lemma LabelFits(s: Stage)
    ensures HeldFor(LabelFor(s)) == HeldAt(s)
    ensures LabelFor(s) == ErrorExit(false) <==> s == Alloc
  {
  }

  /** The class flag after a failed probe is what the class step left. */
  lemma ClassAfterFailure(env: Env, d: Driver)
    requires FailingStage(env, d).Some?
    ensures var s := FailingStage(env, d).value;
      ClassAfter(s, d.classUp, ClassStep(env, d.classUp).1) == (if s in {NodeCreate, BitMode, InitialWrite} then true else d.classUp)
    ensures ClassStep(env, d.classUp).1 == [] || (ClassStep(env, d.classUp).1 == [CreateClass] && !d.classUp)
  {
  }

  /**
    After a failure at any stage, probe has acquired a prefix of the fixed
    order and released exactly those resources, last acquired first, and
    nothing is left bound.
  */
  lemma ProbeFailureUnwinds(rev: Revision, env: Env, d: Driver)
    requires d.bound.None? && FailingStage(env, d).Some?
    ensures var p := Probe(rev, env, d);
      && Acquired(p.log) == FullStack[..HeldAt(FailingStage(env, d).value)]
      && Released(p.log) == Reverse(Acquired(p.log))
      && p.driver.bound.None?
  {
    var p := Probe(rev, env, d);
    var s := FailingStage(env, d).value;
    var cl := ClassStep(env, d.classUp).1;
    ProbeFailureLog(rev, env, d);
    PrefixHolds(s, cl);
    UnwindReleases(LabelFor(s));
    AcquiredAppend(Prefix(s, cl), UnwindFrom(LabelFor(s)));
    ReleasedAppend(Prefix(s, cl), UnwindFrom(LabelFor(s)));
    ReverseStack(s);
  }

  /** The reverse of each failing stage's held prefix is what its label releases. */
  lemma ReverseStack(s: Stage)
    ensures Reverse(FullStack[..HeldAt(s)]) == Released(UnwindFrom(LabelFor(s)))
  {
    UnwindReleases(LabelFor(s));
    StackReversals();
  }

  /** The reverse of each prefix of the acquisition order. */
  lemma StackReversals()
    ensures Reverse(FullStack[..0]) == []
    ensures Reverse(FullStack[..2]) == [UsbRef, Memory]
    ensures Reverse(FullStack[..3]) == [ChrdevRegion, UsbRef, Memory]
    ensures Reverse(FullStack[..4]) == [Cdev, ChrdevRegion, UsbRef, Memory]
    ensures Reverse(FullStack[..5]) == [DevNode, Cdev, ChrdevRegion, UsbRef, Memory]
  {
    assert FullStack[..2][..1] == [Memory] && Reverse([Memory]) == [Memory];
    assert FullStack[..3][..2] == FullStack[..2];
    assert FullStack[..4][..3] == FullStack[..3];
    assert FullStack[..5][..4] == FullStack[..4];
  }

  /** With the short write corrected, probe returns 0 exactly when every stage succeeds, and then an instance is bound. */
  lemma ProbeSucceedsIffReady(env: Env, d: Driver)
    requires d.bound.None?
    ensures var p := Probe(Corrected, env, d);
      && (p.ret == 0 <==> FailingStage(env, d).None?)
      && (p.driver.bound.Some? <==> FailingStage(env, d).None?)
  {
    if FailingStage(env, d).Some? {
      ProbeFailureUnwinds(Corrected, env, d);
    }
  }

  /** In either revision an instance is bound exactly when every stage succeeds. */
  lemma ProbeBindsIffReady(rev: Revision, env: Env, d: Driver)
    requires d.bound.None?
    ensures Probe(rev, env, d).driver.bound.Some? <==> FailingStage(env, d).None?
  {
    if FailingStage(env, d).Some? {
      ProbeFailureUnwinds(rev, env, d);
    }
  }

  /**
    As written, an initial write that reports no error but accepts other
    than one byte unwinds everything and still returns 0: the USB core is
    told the interface is bound while no instance exists.
  */
  lemma ShortWriteReportsSuccess(env: Env, d: Driver)
    requires d.bound.None? && FailingStage(env, d) == Some(InitialWrite) && env.bulkRet == 0
    ensures var p := Probe(AsWritten, env, d);
      p.ret == 0 && p.driver.bound.None? && Replay(LedgerOf(d), p.log) == Some(Ledger([], false, true))
  {
    ProbeKeepsLedger(AsWritten, env, d);
  }

  /** A concrete interface that shows it: one bulk OUT endpoint, every call succeeds, the write accepts no bytes. */
  lemma ShortWriteExample()
    ensures var env := Env(true, [Endpoint(0x02, 0x02)], 0, 0, 0, true, 0, 0, 0);
      var p := Probe(AsWritten, env, Driver(None, false));
      FailingStage(env, Driver(None, false)) == Some(InitialWrite) && p.ret == 0 && p.driver.bound.None?
  {
    var env := Env(true, [Endpoint(0x02, 0x02)], 0, 0, 0, true, 0, 0, 0);
    assert IsBulkOut(env.endpoints[0]);
    assert LastBulkOut(env.endpoints) == 0x02;
  }

  /** A missing bulk OUT endpoint: -ENODEV, no chrdev region, the USB reference and memory given back, interface data cleared. */
  lemma MissingBulkOut(rev: Revision, env: Env, d: Driver)
    requires d.bound.None? && env.allocOk && LastBulkOut(env.endpoints) == 0
    ensures var p := Probe(rev, env, d);
      && p.ret == -ENODEV
      && p.log == [Acquire(Memory), Acquire(UsbRef), BindIntfData, Release(UsbRef), Release(Memory), ClearIntfData]
      && ChrdevRegion !in Acquired(p.log)
      && p.driver == d
  {
    ProbeFailureUnwinds(rev, env, d);
  }

  /** A failed `cdev_add`: its error code, and the region, USB reference and memory released in that order. */
  lemma CdevAddFailure(rev: Revision, env: Env, d: Driver)
    requires d.bound.None? && FailingStage(env, d) == Some(CdevAdd)
    ensures var p := Probe(rev, env, d);
      && p.ret == env.cdevRet
      && Released(p.log) == [ChrdevRegion, UsbRef, Memory]
      && p.log[|p.log| - 1] == ClearIntfData
  {
    assert HeldAt(CdevAdd) == 3 && LabelFor(CdevAdd) == UnregisterChrdev;
    ProbeFailureUnwinds(rev, env, d);
    ReverseStack(CdevAdd);
    UnwindReleases(UnregisterChrdev);
    ProbeFailureLog(rev, env, d);
    UnwindEndsClearing(Prefix(CdevAdd, ClassStep(env, d.classUp).1), UnregisterChrdev);
  }

  /** Every unwind, whatever precedes it, ends by clearing the interface data. */
  lemma UnwindEndsClearing(before: seq<Event>, l: Label)
    ensures var log := before + UnwindFrom(l);
      |log| > 0 && log[|log| - 1] == ClearIntfData
  {
    var tail := UnwindFrom(l);
    match l {
      case DestroyDevice =>
        assert tail == [Release(DevNode), Release(Cdev), Release(ChrdevRegion), Release(UsbRef), Release(Memory), ClearIntfData];
      case DelCdev =>
        assert tail == [Release(Cdev), Release(ChrdevRegion), Release(UsbRef), Release(Memory), ClearIntfData];
      case UnregisterChrdev =>
        assert tail == [Release(ChrdevRegion), Release(UsbRef), Release(Memory), ClearIntfData];
      case ErrorExit(_) =>
    }
    assert (before + tail)[|before + tail| - 1] == tail[|tail| - 1];
  }

  /** A failure after the device node exists (bit-bang setup or the initial write) runs the whole unwind. */
  lemma LateFailure(rev: Revision, env: Env, d: Driver)
    requires d.bound.None? && FailingStage(env, d) in {Some(BitMode), Some(InitialWrite)}
    ensures var p := Probe(rev, env, d);
      && Released(p.log) == [DevNode, Cdev, ChrdevRegion, UsbRef, Memory]
      && p.driver == Driver(None, true)
  {
    var s := FailingStage(env, d).value;
    assert HeldAt(s) == 5 && LabelFor(s) == DestroyDevice;
    ProbeFailureUnwinds(rev, env, d);
    ReverseStack(s);
    UnwindReleases(DestroyDevice);
    ProbeFailureLog(rev, env, d);
  }

  // ---------------------------------------------------------------------
  // Disconnect properties

  /** Disconnect of a bound instance gives back everything probe took, last acquired first, and acquires nothing. */
  lemma DisconnectReleasesAll(d: Driver)
    requires Wf(d) && d.bound.Some?
    ensures Released(Disconnect(d).0) == Reverse(FullStack)
    ensures Acquired(Disconnect(d).0) == []
  {
    BoundDisconnectLog(d);
    TeardownReleases();
  }

  /** What the written-out teardown log gives back and takes. */
  lemma TeardownReleases()
    ensures Released([Release(DevNode), Release(Cdev), Release(ChrdevRegion), ClearIntfData, Release(UsbRef), Release(Memory)]) == Reverse(FullStack)
    ensures Acquired([Release(DevNode), Release(Cdev), Release(ChrdevRegion), ClearIntfData, Release(UsbRef), Release(Memory)]) == []
  {
    var t5 := [Release(Memory)];
    var t4 := [Release(UsbRef)] + t5;
    var t3 := [ClearIntfData] + t4;
    var t2 := [Release(ChrdevRegion)] + t3;
    var t1 := [Release(Cdev)] + t2;
    var t0 := [Release(DevNode)] + t1;
    LogCons(Release(Memory), []);
    assert t5 == [Release(Memory)] + [];
    LogCons(Release(UsbRef), t5);
    LogCons(ClearIntfData, t4);
    LogCons(Release(ChrdevRegion), t3);
    LogCons(Release(Cdev), t2);
    LogCons(Release(DevNode), t1);
    StackReversals();
    assert FullStack[..5] == FullStack;
  }

  /** The log of a bound disconnect, written out event by event. */
  lemma BoundDisconnectLog(d: Driver)
    requires Wf(d) && d.bound.Some?
    ensures Disconnect(d).0 == [Release(DevNode), Release(Cdev), Release(ChrdevRegion), ClearIntfData, Release(UsbRef), Release(Memory)]
  {
  }

  /**
    The teardown a reference order prescribes: release `rs` front to back,
    clearing the interface data right after `clearAfter` is released.
  */
  function TeardownLog(rs: seq<Resource>, clearAfter: Resource): seq<Event>
    decreases |rs|
  {
    if |rs| == 0 then []
    else [Release(rs[0])] + (if rs[0] == clearAfter then [ClearIntfData] else []) + TeardownLog(rs[1..], clearAfter)
  }

  /**
    Disconnect of a bound instance releases the stack last-acquired first and
    clears the interface data between giving back the char-device region and
    dropping the USB device reference.
  */
  lemma {:induction false} DisconnectOrder(d: Driver)
    requires Wf(d) && d.bound.Some?
    ensures Disconnect(d).0 == TeardownLog(Reverse(FullStack), ChrdevRegion)
  {
    StackReversals();
    var s4 := [Memory];
    var s3 := [UsbRef] + s4;
    var s2 := [ChrdevRegion] + s3;
    var s1 := [Cdev] + s2;
    var s0 := [DevNode] + s1;
    assert s0[1..] == s1 && s1[1..] == s2 && s2[1..] == s3 && s3[1..] == s4 && s4[1..] == [];
    assert TeardownLog(s4, ChrdevRegion) == [Release(Memory)];
    assert TeardownLog(s3, ChrdevRegion) == [Release(UsbRef), Release(Memory)];
    assert TeardownLog(s2, ChrdevRegion) == [Release(ChrdevRegion), ClearIntfData, Release(UsbRef), Release(Memory)];
    assert TeardownLog(s0, ChrdevRegion) == [Release(DevNode), Release(Cdev)] + TeardownLog(s2, ChrdevRegion);
    assert FullStack[..5] == FullStack && Reverse(FullStack) == s0;
  }

  lemma LogCons(e: Event, rest: seq<Event>)
    ensures Acquired([e] + rest) == (if e.Acquire? then [e.r] else []) + Acquired(rest)
    ensures Released([e] + rest) == (if e.Release? then [e.r] else []) + Released(rest)
  {
    assert ([e] + rest)[1..] == rest;
  }

  /** Disconnect walks the ledger from the driver's state to the unbound state. */
  lemma DisconnectKeepsLedger(d: Driver)
    requires Wf(d)
    ensures Replay(LedgerOf(d), Disconnect(d).0) == Some(LedgerOf(Disconnect(d).1))
  {
    if d.bound.Some? {
      var c := d.classUp;
      var l5 := Ledger(FullStack, true, c);
      var l4 := Ledger(FullStack[..4], true, c);
      var l3 := Ledger(FullStack[..3], true, c);
      var l2 := Ledger(FullStack[..2], true, c);
      assert FullStack[..4][..3] == FullStack[..3] && FullStack[..3][..2] == FullStack[..2];
      ReplayCons(l5, Release(DevNode), [Release(Cdev), Release(ChrdevRegion), ClearIntfData, Release(UsbRef), Release(Memory)]);
      ReplayCons(l4, Release(Cdev), [Release(ChrdevRegion), ClearIntfData, Release(UsbRef), Release(Memory)]);
      ReplayCons(l3, Release(ChrdevRegion), [ClearIntfData, Release(UsbRef), Release(Memory)]);
      ReplayCons(l2, ClearIntfData, [Release(UsbRef), Release(Memory)]);
      ReplayCons(l2.(intfData := false), Release(UsbRef), [Release(Memory)]);
      ReplayCons(Ledger([Memory], false, c), Release(Memory), []);
    }
  }

  // ---------------------------------------------------------------------
  // Hotplug lifecycle

  /** The USB core's calls into the driver: probe on attach, disconnect on detach. */
  datatype Hotplug = Attach(env: Env) | Detach

  /** One hotplug event; the USB core never probes an interface that is already bound. */
  function Step(rev: Revision, d: Driver, h: Hotplug): (Driver, seq<Event>) {
    match h
    case Attach(env) =>
      if d.bound.Some? then (d, []) else var p := Probe(rev, env, d); (p.driver, p.log)
    case Detach =>
      var (log, d') := Disconnect(d); (d', log)
  }

  function Run(rev: Revision, d: Driver, hs: seq<Hotplug>): (Driver, seq<Event>)
    decreases |hs|
  {
    if |hs| == 0 then (d, [])
    else
      var (d1, log1) := Step(rev, d, hs[0]);
      var (d2, log2) := Run(rev, d1, hs[1..]);
      (d2, log1 + log2)
  }

  /**
    Any sequence of attaches and detaches is a legal walk of the ledger:
    no resource is taken out of order or given back twice, and what is held
    at the end is exactly what the final driver state accounts for.
  */
  lemma {:induction false} RunKeepsLedger(rev: Revision, d: Driver, hs: seq<Hotplug>)
    requires Wf(d)
    ensures Replay(LedgerOf(d), Run(rev, d, hs).1) == Some(LedgerOf(Run(rev, d, hs).0))
    ensures Wf(Run(rev, d, hs).0)
    decreases |hs|
  {
    if |hs| > 0 {
      var (d1, log1) := Step(rev, d, hs[0]);
      match hs[0] {
        case Attach(env) =>
          if d.bound.None? {
            ProbeKeepsLedger(rev, env, d);
          } else {
            assert log1 == [];
          }
        case Detach =>
          DisconnectKeepsLedger(d);
      }
      RunKeepsLedger(rev, d1, hs[1..]);
      ReplayAppend(LedgerOf(d), log1, Run(rev, d1, hs[1..]).1);
    }
  }
}
