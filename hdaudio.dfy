/** Attach and detach of the High Definition Audio controller driver
 *  (uspace/drv/audio/hdaudio/hdaudio.c): validation of the resource list,
 *  construction of the interrupt program by patching its static tables in
 *  place, and the error exits.
 *
 *  The driver framework, the kernel and the controller code of hdactl.c are
 *  reached only through the methods of `Ddf`, whose answers are fixed in
 *  advance by an arbitrary `Script` and which record every call in a trace.
 */
module HdAudio {
  import opened Macros

  datatype Option<T> = None | Some(value: T)

  /** A non-zero error code: 0 is EOK. */
  type NonZero = x: int | x != 0 witness 1

  /** Error codes that the driver returns itself; any other code a framework
   *  call returns is passed through unchanged as `Other`. */
  datatype Errno = EOK | ENOMEM | EINVAL | EIO | Other(code: NonZero)

  // ---------------------------------------------------------------------
  // Controller register layout (section 3.3 of the Intel High Definition
  // Audio Specification, rev. 1.0a)
  // ---------------------------------------------------------------------

  /** Offset of the one-byte RIRB status register RIRBSTS in the register block. */
  const RirbStsOffset: nat := 0x5D
  /** Bit number of RINTFL, the response-interrupt flag, in RIRBSTS. */
  const RirbStsIntFl: nat := 0

  /** BIT_V(uint8_t, bit): the byte with only bit `bit` set. */
  function BitV8(bit: nat): (v: nat)
    requires bit < 8
    ensures v < 0x100 && IsSingleBit8(v)
  {
    Pow2Eight(bit);
    Pow2(bit)
  }

  predicate IsSingleBit8(v: nat)
  {
    v in {1, 2, 4, 8, 16, 32, 64, 128}
  }

  lemma Pow2Eight(bit: nat)
    requires bit < 8
    ensures Pow2(bit) in {1, 2, 4, 8, 16, 32, 64, 128}
  {
    if bit == 0 {
    } else if bit == 1 {
      assert Pow2(1) == 2;
    } else if bit == 2 {
      assert Pow2(2) == 4;
    } else if bit == 3 {
      assert Pow2(3) == 8;
    } else if bit == 4 {
      assert Pow2(4) == 16;
    } else if bit == 5 {
      assert Pow2(5) == 32;
    } else if bit == 6 {
      assert Pow2(6) == 64;
    } else {
      assert Pow2(7) == 128;
    }
  }

  /** The mask that isolates RINTFL and, written back, acknowledges it. */
  const IntFlMask: nat := BitV8(RirbStsIntFl)

  // ---------------------------------------------------------------------
  // The interrupt program as data
  // ---------------------------------------------------------------------

  datatype IrqCmdType = PioRead8 | PioWrite8 | And | Predicate | Accept

  /** irq_cmd_t; fields a designated initializer leaves out are zero, and a
   *  zero `addr` is the NULL pointer. */
  datatype IrqCmd = IrqCmd(cmd: IrqCmdType, addr: nat, value: nat, srcarg: nat, dstarg: nat)

  /** irq_pio_range_t */
  datatype PioRange = PioRange(base: nat, size: nat)

  const Null: nat := 0

  /** Size of the I/O range the interrupt program may touch. */
  const IrqRangeSize: nat := 8192

  /** Scratch slots: the status read lands in ReadSlot, the masked flag in FlagSlot. */
  const ReadSlot: nat := 2
  const FlagSlot: nat := 3

  /** Value of the predicate command's operand. */
  const PredicateValue: nat := 2

  /** hdaudio_irq_pio_ranges as statically initialised: one range whose base
   *  is left NULL for the driver to fill in, large enough to hold RIRBSTS. */
  function StaticRanges(): (r: seq<PioRange>)
    ensures |r| == 1 && r[0].base == Null && RirbStsOffset < r[0].size
  {
    [PioRange(0, IrqRangeSize)]
  }

  /** hdaudio_irq_commands as statically initialised: read RIRBSTS, isolate
   *  RINTFL, test it, write it back to acknowledge, accept. Every address is
   *  left NULL for the driver to fill in. */
  function StaticCommands(): (r: seq<IrqCmd>)
    ensures |r| == 5 && r[4].cmd == Accept
    ensures forall i :: 0 <= i < |r| ==> r[i].addr == Null
  {
    [
      IrqCmd(PioRead8, Null, 0, 0, ReadSlot),
      IrqCmd(And, Null, IntFlMask, ReadSlot, FlagSlot),
      IrqCmd(Predicate, Null, PredicateValue, FlagSlot, 0),
      IrqCmd(PioWrite8, Null, IntFlMask, 0, 0),
      IrqCmd(Accept, Null, 0, 0, 0)
    ]
  }

  /** The consistency of the tables the program relies on: one range and five
   *  commands, counted from the arrays; the read and the acknowledgment use
   *  one address; the AND mask and the acknowledged value are the same single
   *  bit; the scratch slots are wired read -> AND -> predicate; the program
   *  ends in ACCEPT. */
  predicate WellWired(ranges: seq<PioRange>, cmds: seq<IrqCmd>, rangecount: nat, cmdcount: nat): (b: bool)
    ensures b ==> |cmds| == 5 && IsSingleBit8(cmds[1].value) && cmds[1].value < 0x100
  {
    && rangecount == |ranges| == 1
    && cmdcount == |cmds| == 5
    && cmds[0].cmd == PioRead8 && cmds[1].cmd == And && cmds[2].cmd == Predicate
    && cmds[3].cmd == PioWrite8 && cmds[4].cmd == Accept
    && cmds[0].addr == cmds[3].addr
    && cmds[1].value == cmds[3].value == IntFlMask
    && cmds[0].dstarg == ReadSlot && cmds[1].srcarg == ReadSlot
    && cmds[1].dstarg == FlagSlot && cmds[2].srcarg == FlagSlot
    && cmds[2].value == PredicateValue
    && RirbStsOffset < ranges[0].size
  }

  lemma StaticTablesWellWired()
    ensures WellWired(StaticRanges(), StaticCommands(), |StaticRanges()|, |StaticCommands()|)
  {
  }

  /** The address of RIRBSTS, &rphys->rirbsts, for registers at physical
   *  address `rwbase` (a 64-bit value cast to uintptr_t). */
  function RirbStsAddress(w: Width, rwbase: nat): (a: nat)
    ensures IsWord(w, a)
    ensures Wrap(w, rwbase) + RirbStsOffset < Modulus(w) ==> a == Wrap(w, rwbase) + RirbStsOffset
  {
    Wrap(w, Wrap(w, rwbase) + RirbStsOffset)
  }

  /** Range 0 with its base replaced. */
  function PatchedRanges(ranges: seq<PioRange>, base: nat): (r: seq<PioRange>)
    requires |ranges| >= 1
    ensures |r| == |ranges| && r[0].base == base
  {
    ranges[0 := ranges[0].(base := base)]
  }

  /** Commands 0 and 3 with their address replaced. */
  function PatchedCommands(cmds: seq<IrqCmd>, addr: nat): (r: seq<IrqCmd>)
    requires |cmds| >= 4
    ensures |r| == |cmds| && r[0].addr == addr && r[3].addr == addr
  {
    cmds[0 := cmds[0].(addr := addr)][3 := cmds[3].(addr := addr)]
  }

  /** Patching changes addresses and nothing else: every range keeps its
   *  size, every command all its other fields, and the ranges after the
   *  first and the commands other than 0 and 3 stay as they were. */
  lemma PatchChangesOnlyAddresses(ranges: seq<PioRange>, base: nat, cmds: seq<IrqCmd>, addr: nat)
    requires |ranges| >= 1 && |cmds| >= 4
    ensures var r := PatchedRanges(ranges, base);
            && (forall i :: 0 <= i < |r| ==> r[i].size == ranges[i].size)
            && (forall i :: 1 <= i < |r| ==> r[i] == ranges[i])
    ensures var c := PatchedCommands(cmds, addr);
            && (forall i :: 0 <= i < |c| ==> c[i].(addr := Null) == cmds[i].(addr := Null))
            && (forall i :: 0 <= i < |c| && i != 0 && i != 3 ==> c[i] == cmds[i])
  {
  }

  /** Patching keeps the wiring and points the read and the acknowledgment at
   *  RIRBSTS of the device's registers. */
  lemma PatchKeepsWiring(w: Width, ranges: seq<PioRange>, cmds: seq<IrqCmd>, rangecount: nat, cmdcount: nat, rwbase: nat)
    requires WellWired(ranges, cmds, rangecount, cmdcount)
    ensures var pr := PatchedRanges(ranges, Wrap(w, rwbase));
            var pc := PatchedCommands(cmds, RirbStsAddress(w, rwbase));
            && WellWired(pr, pc, rangecount, cmdcount)
            && pr[0].base == Wrap(w, rwbase)
            && pc[0].addr == pc[3].addr == RirbStsAddress(w, rwbase)
  {
    PatchChangesOnlyAddresses(ranges, Wrap(w, rwbase), cmds, RirbStsAddress(w, rwbase));
    var pc := PatchedCommands(cmds, RirbStsAddress(w, rwbase));
    assert pc[1] == cmds[1] && pc[2] == cmds[2] && pc[4] == cmds[4];
    assert pc[0].(addr := Null) == cmds[0].(addr := Null);
    assert pc[3].(addr := Null) == cmds[3].(addr := Null);
  }

  /** When range 0 does not wrap around the top of the address space, the
   *  byte the read and the acknowledgment access lies inside it, both by
   *  address comparison and by the kernel's overlaps() test. */
  lemma PatchedAccessInRange(w: Width, ranges: seq<PioRange>, cmds: seq<IrqCmd>, rangecount: nat, cmdcount: nat, rwbase: nat)
    requires WellWired(ranges, cmds, rangecount, cmdcount)
    requires Wrap(w, rwbase) + ranges[0].size < Modulus(w)
    ensures var range := PatchedRanges(ranges, Wrap(w, rwbase))[0];
            var pc := PatchedCommands(cmds, RirbStsAddress(w, rwbase));
            && range.base <= pc[0].addr < range.base + range.size
            && Overlaps(w, pc[0].addr, 1, range.base, range.size)
            && Overlaps(w, pc[3].addr, 1, range.base, range.size)
            && ExactOverlaps(pc[0].addr, 1, range.base, range.size)
  {
    var range := PatchedRanges(ranges, Wrap(w, rwbase))[0];
    var a := RirbStsAddress(w, rwbase);
    assert a == range.base + RirbStsOffset;
    assert Wrap(w, a + 1) == a + 1;
    assert Wrap(w, range.base + range.size) == range.base + range.size;
  }

  /** The static tables and the irq_code_t structure that points at them. */
  class IrqTables {
    /** hdaudio_irq_pio_ranges */
    const ranges: array<PioRange>
    /** hdaudio_irq_commands */
    const cmds: array<IrqCmd>
    /** hdaudio_irq_code.rangecount and .cmdcount */
    const rangecount: nat
    const cmdcount: nat

    ghost predicate Valid()
      reads this, ranges, cmds
    {
      WellWired(ranges[..], cmds[..], rangecount, cmdcount)
    }

    /** Static initialisation; the counts are derived from the array lengths. */
    constructor ()
      ensures Valid() && fresh(ranges) && fresh(cmds)
      ensures ranges[..] == StaticRanges() && cmds[..] == StaticCommands()
    {
      var r := new PioRange[1] (_ => PioRange(0, IrqRangeSize));
      var c := new IrqCmd[5] (i requires 0 <= i < 5 => StaticCommands()[i]);
      ranges, cmds := r, c;
      rangecount, cmdcount := r.Length, c.Length;
      new;
      assert cmds[..] == StaticCommands();
      StaticTablesWellWired();
    }

    /** The in-place patching before registration: range 0 gets the register
     *  base, commands 0 and 3 get the address of RIRBSTS. */
    method Patch(w: Width, rwbase: nat)
      requires Valid()
      modifies ranges, cmds
      ensures Valid()
      ensures ranges[..] == PatchedRanges(old(ranges[..]), Wrap(w, rwbase))
      ensures cmds[..] == PatchedCommands(old(cmds[..]), RirbStsAddress(w, rwbase))
    {
      PatchKeepsWiring(w, ranges[..], cmds[..], rangecount, cmdcount, rwbase);
      var rphys := Wrap(w, rwbase);
      ranges[0] := ranges[0].(base := rphys);
      var rirbsts := Wrap(w, rphys + RirbStsOffset);
      cmds[0] := cmds[0].(addr := rirbsts);
      cmds[3] := cmds[3].(addr := rirbsts);
    }
  }

  // ---------------------------------------------------------------------
  // Resources, soft state and the framework
  // ---------------------------------------------------------------------

  /** One parsed memory range: RNGABS and RNGSZ. */
  datatype MemRange = MemRange(address: nat, size: nat)

  /** hw_res_list_parsed_t: the memory ranges and the IRQ numbers. */
  datatype Resources = Resources(memRanges: seq<MemRange>, irqs: seq<int>)

  /** What each framework, kernel or controller call answers. */
  datatype Script = Script(
    allocOk: bool,          // ddf_dev_data_alloc returns soft state
    parentSessOk: bool,     // ddf_dev_parent_sess_create returns a session
    hwResRc: Errno,         // hw_res_get_list_parsed
    res: Resources,         //   and the list it fills in
    pioRc: Errno,           // pio_enable
    pioVirt: nat,           //   and the virtual address it maps
    registerRc: Errno,      // register_interrupt_handler
    ctlInitOk: bool,        // hda_ctl_init returns non-NULL
    ctlSetByInit: bool,     //   and leaves hda->ctl non-NULL
    funCreateOk: bool,      // ddf_fun_create returns a function
    funId: nat,             //   identified by this handle
    bindRc: Errno,          // ddf_fun_bind
    offlineRc: Errno,       // ddf_fun_offline
    unbindRc: Errno)        // ddf_fun_unbind

  /** A call the driver makes, with the arguments that matter. */
  datatype Call =
    | DevDataAlloc
    | ParentSessCreate
    | HwResGetListParsed
    | PioEnable(base: nat, size: nat)
    | RegisterInterruptHandler(irq: int, ranges: seq<PioRange>, cmds: seq<IrqCmd>,
                               rangecount: nat, cmdcount: nat)
    | CtlInit
    | FunCreate(name: string)
    | FunBind(fun: nat)
    | FunDestroy(fun: nat)
    | FunAddToCategory(fun: nat, category: string)
    | CtlFini
    | FunOffline(fun: nat)
    | FunUnbind(fun: nat)

  /** hda_t, the driver's soft state. */
  class Hda {
    var parentSess: bool
    var rwbase: nat
    var rwsize: nat
    /** hda->regs: the mapping of the register block */
    var regs: Option<nat>
    /** hda->ctl != NULL */
    var ctl: bool
    var funA: Option<nat>

    /** Zero-filled soft state. */
    constructor Zeroed()
      ensures !parentSess && rwbase == 0 && rwsize == 0
      ensures regs == None && !ctl && funA == None
    {
      parentSess, rwbase, rwsize := false, 0, 0;
      regs, ctl, funA := None, false, None;
    }
  }

  /** ddf_dev_t: the device and its soft state. */
  class Device {
    var data: Hda?

    constructor ()
      ensures data == null
    {
      data := null;
    }
  }

  /** The driver framework, the kernel and hdactl.c as the driver sees them. */
  class Ddf {
    const script: Script
    var trace: seq<Call>

    constructor (script: Script)
      ensures this.script == script && trace == []
    {
      this.script := script;
      trace := [];
    }

    method DevDataAlloc(dev: Device) returns (hda: Hda?)
      modifies this, dev
      ensures trace == old(trace) + [Call.DevDataAlloc]
      ensures script.allocOk ==> hda != null && fresh(hda) && dev.data == hda
      ensures script.allocOk ==> !hda.parentSess && hda.rwbase == 0 && hda.rwsize == 0
      ensures script.allocOk ==> hda.regs == None && !hda.ctl && hda.funA == None
      ensures !script.allocOk ==> hda == null && dev.data == old(dev.data)
    {
      trace := trace + [Call.DevDataAlloc];
      if script.allocOk {
        hda := new Hda.Zeroed();
        dev.data := hda;
      } else {
        hda := null;
      }
    }

    method ParentSessCreate(hda: Hda) returns (ok: bool)
      modifies this, hda`parentSess
      ensures trace == old(trace) + [Call.ParentSessCreate]
      ensures ok == script.parentSessOk && hda.parentSess == ok
    {
      trace := trace + [Call.ParentSessCreate];
      ok := script.parentSessOk;
      hda.parentSess := ok;
    }

    method HwResGetListParsed() returns (rc: Errno, res: Resources)
      modifies this
      ensures trace == old(trace) + [Call.HwResGetListParsed]
      ensures rc == script.hwResRc && res == script.res
    {
      trace := trace + [Call.HwResGetListParsed];
      rc, res := script.hwResRc, script.res;
    }

    method PioEnable(base: nat, size: nat) returns (rc: Errno, virt: nat)
      modifies this
      ensures trace == old(trace) + [Call.PioEnable(base, size)]
      ensures rc == script.pioRc && virt == script.pioVirt
    {
      trace := trace + [Call.PioEnable(base, size)];
      rc, virt := script.pioRc, script.pioVirt;
    }

    /** Registration hands the kernel the tables as they are at this moment. */
    method RegisterInterruptHandler(irq: int, tables: IrqTables) returns (rc: Errno)
      modifies this
      ensures trace == old(trace) + [Call.RegisterInterruptHandler(irq, tables.ranges[..],
                                       tables.cmds[..], tables.rangecount, tables.cmdcount)]
      ensures rc == script.registerRc
    {
      trace := trace + [Call.RegisterInterruptHandler(irq, tables.ranges[..],
                          tables.cmds[..], tables.rangecount, tables.cmdcount)];
      rc := script.registerRc;
    }

    method CtlInit(hda: Hda) returns (ok: bool)
      modifies this, hda`ctl
      ensures trace == old(trace) + [Call.CtlInit]
      ensures ok == script.ctlInitOk
      ensures hda.ctl == (old(hda.ctl) || script.ctlSetByInit)
    {
      trace := trace + [Call.CtlInit];
      ok := script.ctlInitOk;
      hda.ctl := hda.ctl || script.ctlSetByInit;
    }

    method FunCreate(name: string) returns (fun: Option<nat>)
      modifies this
      ensures trace == old(trace) + [Call.FunCreate(name)]
      ensures fun == if script.funCreateOk then Some(script.funId) else None
    {
      trace := trace + [Call.FunCreate(name)];
      fun := if script.funCreateOk then Some(script.funId) else None;
    }

    method FunBind(fun: nat) returns (rc: Errno)
      modifies this
      ensures trace == old(trace) + [Call.FunBind(fun)]
      ensures rc == script.bindRc
    {
      trace := trace + [Call.FunBind(fun)];
      rc := script.bindRc;
    }

    method FunDestroy(fun: nat)
      modifies this
      ensures trace == old(trace) + [Call.FunDestroy(fun)]
    {
      trace := trace + [Call.FunDestroy(fun)];
    }

    method FunAddToCategory(fun: nat, category: string)
      modifies this
      ensures trace == old(trace) + [Call.FunAddToCategory(fun, category)]
    {
      trace := trace + [Call.FunAddToCategory(fun, category)];
    }

    method CtlFini()
      modifies this
      ensures trace == old(trace) + [Call.CtlFini]
    {
      trace := trace + [Call.CtlFini];
    }

    method FunOffline(fun: nat) returns (rc: Errno)
      modifies this
      ensures trace == old(trace) + [Call.FunOffline(fun)]
      ensures rc == script.offlineRc
    {
      trace := trace + [Call.FunOffline(fun)];
      rc := script.offlineRc;
    }

    method FunUnbind(fun: nat) returns (rc: Errno)
      modifies this
      ensures trace == old(trace) + [Call.FunUnbind(fun)]
      ensures rc == script.unbindRc
    {
      trace := trace + [Call.FunUnbind(fun)];
      rc := script.unbindRc;
    }
  }

  // ---------------------------------------------------------------------
  // hda_dev_add: its decision logic as functions
  // ---------------------------------------------------------------------

  /** Where hda_dev_add stops: at the check that fails, or Attached. */
  datatype Stage =
    | NoSoftState | NoParentSession | ResListFailed | MemRangeCount | RangeTooSmall
    | PioFailed | IrqCount | RegisterFailed | CtlInitFailed | FunCreateFailed
    | BindFailed | Attached

  /** Position of a stage in the order hda_dev_add reaches them. */
  function Index(st: Stage): nat
  {
    match st
    case NoSoftState => 0
    case NoParentSession => 1
    case ResListFailed => 2
    case MemRangeCount => 3
    case RangeTooSmall => 4
    case PioFailed => 5
    case IrqCount => 6
    case RegisterFailed => 7
    case CtlInitFailed => 8
    case FunCreateFailed => 9
    case BindFailed => 10
    case Attached => 11
  }

  /** `regsSize` is sizeof(hda_regs_t). The device attaches exactly when
   *  every step succeeds and the resource list holds one memory range large
   *  enough for the registers and one IRQ; the size of the range is only
   *  checked once the range count is right. */
  function AttachStage(s: Script, regsSize: nat): (st: Stage)
    ensures st == Attached <==>
              && s.allocOk && s.parentSessOk && s.hwResRc == EOK
              && |s.res.memRanges| == 1 && s.res.memRanges[0].size >= regsSize
              && s.pioRc == EOK && |s.res.irqs| == 1 && s.registerRc == EOK
              && s.ctlInitOk && s.funCreateOk && s.bindRc == EOK
    ensures st == RangeTooSmall ==> |s.res.memRanges| == 1 && s.res.memRanges[0].size < regsSize
    ensures st == IrqCount ==> |s.res.memRanges| == 1 && |s.res.irqs| != 1
  {
    if !s.allocOk then NoSoftState
    else if !s.parentSessOk then NoParentSession
    else if s.hwResRc != EOK then ResListFailed
    else if |s.res.memRanges| != 1 then MemRangeCount
    else if s.res.memRanges[0].size < regsSize then RangeTooSmall
    else if s.pioRc != EOK then PioFailed
    else if |s.res.irqs| != 1 then IrqCount
    else if s.registerRc != EOK then RegisterFailed
    else if !s.ctlInitOk then CtlInitFailed
    else if !s.funCreateOk then FunCreateFailed
    else if s.bindRc != EOK then BindFailed
    else Attached
  }

  /** hda_dev_add got past the check at which `st` stops it. */
  predicate Passed(s: Script, regsSize: nat, st: Stage)
  {
    Index(AttachStage(s, regsSize)) > Index(st)
  }

  /** hda->ctl is non-NULL at the end: only hda_ctl_init can set it. */
  predicate CtlSet(s: Script, regsSize: nat)
  {
    Passed(s, regsSize, RegisterFailed) && s.ctlSetByInit
  }

  /** The code hda_dev_add returns, as written: on a wrong IRQ count `rc`
   *  still holds the EOK that pio_enable returned. */
  function AttachResult(s: Script, regsSize: nat): (rc: Errno)
    ensures rc == EOK <==> AttachStage(s, regsSize) in {Attached, IrqCount}
    ensures AttachStage(s, regsSize) in {MemRangeCount, RangeTooSmall} ==> rc == EINVAL
  {
    match AttachStage(s, regsSize)
    case NoSoftState => ENOMEM
    case NoParentSession => ENOMEM
    case ResListFailed => s.hwResRc
    case MemRangeCount => EINVAL
    case RangeTooSmall => EINVAL
    case PioFailed => s.pioRc
    case IrqCount => s.pioRc
    case RegisterFailed => s.registerRc
    case CtlInitFailed => EIO
    case FunCreateFailed => ENOMEM
    case BindFailed => s.bindRc
    case Attached => EOK
  }

  /** What hda_dev_add evidently means to return: the IRQ count check fails
   *  with EINVAL like the memory-range checks before it. */
  function IntendedAttachResult(s: Script, regsSize: nat): (rc: Errno)
    ensures rc == EOK <==> AttachStage(s, regsSize) == Attached
    ensures AttachStage(s, regsSize) in {MemRangeCount, RangeTooSmall, IrqCount} ==> rc == EINVAL
  {
    if AttachStage(s, regsSize) == IrqCount then EINVAL else AttachResult(s, regsSize)
  }

  /** The call `c` if `b` holds, else no call. */
  function CallIf(b: bool, c: Call): seq<Call>
  {
    if b then [c] else []
  }

  /** The pio_enable call: the 64-bit base cast to uintptr_t, and the size. */
  function PioCall(w: Width, s: Script): Call
    requires |s.res.memRanges| == 1
  {
    Call.PioEnable(Wrap(w, s.res.memRanges[0].address), s.res.memRanges[0].size)
  }

  /** The registration call, carrying the tables as patched for this device. */
  function RegisterCall(w: Width, s: Script, ranges: seq<PioRange>, cmds: seq<IrqCmd>,
                        rangecount: nat, cmdcount: nat): Call
    requires |s.res.memRanges| == 1 && |s.res.irqs| == 1
    requires |ranges| >= 1 && |cmds| >= 4
  {
    var rwbase := s.res.memRanges[0].address;
    Call.RegisterInterruptHandler(s.res.irqs[0], PatchedRanges(ranges, Wrap(w, rwbase)),
                                  PatchedCommands(cmds, RirbStsAddress(w, rwbase)), rangecount, cmdcount)
  }

  /** The trace after hda_dev_add, which starts from trace `before` with the
   *  tables as they were: the calls up to the check that fails, then the
   *  error exit, which calls hda_ctl_fini only when hda->ctl is non-NULL.
   *  hda_dev_add makes at least one call and at most ten. */
  function AttachTrace(w: Width, s: Script, regsSize: nat, before: seq<Call>, ranges: seq<PioRange>,
                       cmds: seq<IrqCmd>, rangecount: nat, cmdcount: nat): (t: seq<Call>)
    requires |ranges| >= 1 && |cmds| >= 4
    ensures |before| < |t| <= |before| + 10
  {
    var st := AttachStage(s, regsSize);
    var exit := CallIf(CtlSet(s, regsSize), Call.CtlFini);
    var t1 := before + [Call.DevDataAlloc];
    if st == NoSoftState then t1 + exit else
    var t2 := t1 + [Call.ParentSessCreate];
    if st == NoParentSession then t2 + exit else
    var t3 := t2 + [Call.HwResGetListParsed];
    if st == ResListFailed || st == MemRangeCount || st == RangeTooSmall then t3 + exit else
    var t4 := t3 + [PioCall(w, s)];
    if st == PioFailed || st == IrqCount then t4 + exit else
    var t5 := t4 + [RegisterCall(w, s, ranges, cmds, rangecount, cmdcount)];
    if st == RegisterFailed then t5 + exit else
    var t6 := t5 + [Call.CtlInit];
    if st == CtlInitFailed then t6 + exit else
    var t7 := t6 + [Call.FunCreate("a")];
    if st == FunCreateFailed then t7 + exit else
    var t8 := t7 + [Call.FunBind(s.funId)];
    if st == BindFailed then t8 + [Call.FunDestroy(s.funId)] + exit else
    t8 + [Call.FunAddToCategory(s.funId, "virtual")]
  }

  /** hda_dev_add only appends to the calls made before it, and its first
   *  call allocates the soft state. */
  lemma AttachTraceExtendsBefore(w: Width, s: Script, regsSize: nat, before: seq<Call>, ranges: seq<PioRange>,
                                 cmds: seq<IrqCmd>, rangecount: nat, cmdcount: nat)
    requires |ranges| >= 1 && |cmds| >= 4
    ensures var t := AttachTrace(w, s, regsSize, before, ranges, cmds, rangecount, cmdcount);
            t[..|before|] == before && t[|before|] == Call.DevDataAlloc
  {
  }

  /** hda_dev_add makes nine calls when it attaches the device. When binding
   *  fails it makes nine or ten: ten only when hda_ctl_init left hda->ctl
   *  set, so that the error exit also calls hda_ctl_fini. */
  lemma AttachTraceLength(w: Width, s: Script, regsSize: nat, before: seq<Call>, ranges: seq<PioRange>,
                          cmds: seq<IrqCmd>, rangecount: nat, cmdcount: nat)
    requires |ranges| >= 1 && |cmds| >= 4
    ensures var t := AttachTrace(w, s, regsSize, before, ranges, cmds, rangecount, cmdcount);
            && (AttachStage(s, regsSize) == Attached ==> |t| == |before| + 9)
            && (AttachStage(s, regsSize) == BindFailed ==>
                  |t| == |before| + 9 + (if s.ctlSetByInit then 1 else 0))
  {
  }

  /** Exactly one memory range is demanded. */
  lemma MemRangeCountRejected(w: Width, s: Script, regsSize: nat, ranges: seq<PioRange>, cmds: seq<IrqCmd>,
                              rangecount: nat, cmdcount: nat)
    requires |ranges| >= 1 && |cmds| >= 4
    requires s.allocOk && s.parentSessOk && s.hwResRc == EOK
    requires |s.res.memRanges| != 1
    ensures AttachResult(s, regsSize) == EINVAL
    ensures AttachTrace(w, s, regsSize, [], ranges, cmds, rangecount, cmdcount)
            == [Call.DevDataAlloc, Call.ParentSessCreate, Call.HwResGetListParsed]
  {
  }

  /** A range smaller than the register block is refused and PIO is never enabled. */
  lemma RangeTooSmallRejected(w: Width, s: Script, regsSize: nat, ranges: seq<PioRange>, cmds: seq<IrqCmd>,
                              rangecount: nat, cmdcount: nat)
    requires |ranges| >= 1 && |cmds| >= 4
    requires s.allocOk && s.parentSessOk && s.hwResRc == EOK
    requires |s.res.memRanges| == 1 && s.res.memRanges[0].size < regsSize
    ensures AttachResult(s, regsSize) == EINVAL
    ensures forall c :: c in AttachTrace(w, s, regsSize, [], ranges, cmds, rangecount, cmdcount) ==> !c.PioEnable?
  {
  }

  /** PIO is enabled only for a single range at least as large as the register block. */
  lemma PioEnabledOnlyForValidRange(w: Width, s: Script, regsSize: nat, ranges: seq<PioRange>, cmds: seq<IrqCmd>,
                                    rangecount: nat, cmdcount: nat, c: Call)
    requires |ranges| >= 1 && |cmds| >= 4
    requires c in AttachTrace(w, s, regsSize, [], ranges, cmds, rangecount, cmdcount) && c.PioEnable?
    ensures |s.res.memRanges| == 1 && s.res.memRanges[0].size >= regsSize
    ensures c == Call.PioEnable(Wrap(w, s.res.memRanges[0].address), s.res.memRanges[0].size)
  {
  }

  /** The flaw: with any IRQ count but one, hda_dev_add reports success
   *  although it registered no handler and created no function. */
  lemma IrqCountMismatchReportsSuccess(w: Width, s: Script, regsSize: nat, ranges: seq<PioRange>,
                                       cmds: seq<IrqCmd>, rangecount: nat, cmdcount: nat)
    requires |ranges| >= 1 && |cmds| >= 4
    requires s.allocOk && s.parentSessOk && s.hwResRc == EOK
    requires |s.res.memRanges| == 1 && s.res.memRanges[0].size >= regsSize
    requires s.pioRc == EOK && |s.res.irqs| != 1
    ensures AttachResult(s, regsSize) == EOK
    ensures IntendedAttachResult(s, regsSize) == EINVAL
    ensures forall c :: c in AttachTrace(w, s, regsSize, [], ranges, cmds, rangecount, cmdcount) ==>
                          !c.RegisterInterruptHandler? && !c.FunCreate?
  {
  }

  /** A concrete input that shows the flaw: a device with no IRQ at all. */
  lemma NoIrqAttachesWithoutHandler()
    ensures var s := Script(true, true, EOK, Resources([MemRange(0xFEBF_0000, 0x4000)], []),
                            EOK, 0x1000, EOK, true, true, true, 7, EOK, EOK, EOK);
            && AttachResult(s, 0x100) == EOK
            && forall c :: c in AttachTrace(W64, s, 0x100, [], StaticRanges(), StaticCommands(), 1, 5) ==>
                             !c.RegisterInterruptHandler?
  {
  }

  /** The two results differ only where the IRQ count is wrong. */
  lemma IntendedDiffersOnlyOnIrqCount(s: Script, regsSize: nat)
    ensures IntendedAttachResult(s, regsSize) != AttachResult(s, regsSize)
            <==> AttachStage(s, regsSize) == IrqCount
  {
  }

  /** Whatever the kernel is handed is a consistent program whose read and
   *  acknowledgment address RIRBSTS of the device's own register block. */
  lemma RegisteredProgramConsistent(w: Width, s: Script, regsSize: nat, ranges: seq<PioRange>, cmds: seq<IrqCmd>,
                                    rangecount: nat, cmdcount: nat, c: Call)
    requires WellWired(ranges, cmds, rangecount, cmdcount)
    requires c in AttachTrace(w, s, regsSize, [], ranges, cmds, rangecount, cmdcount)
    requires c.RegisterInterruptHandler?
    ensures |s.res.memRanges| == 1 && |s.res.irqs| == 1 && c.irq == s.res.irqs[0]
    ensures WellWired(c.ranges, c.cmds, c.rangecount, c.cmdcount)
    ensures c.ranges[0].base == Wrap(w, s.res.memRanges[0].address)
    ensures c.cmds[0].addr == c.cmds[3].addr == RirbStsAddress(w, s.res.memRanges[0].address)
  {
    OnlyRegisterCallRegisters(w, s, regsSize, ranges, cmds, rangecount, cmdcount, c);
    PatchKeepsWiring(w, ranges, cmds, rangecount, cmdcount, s.res.memRanges[0].address);
  }

  /** The only registration in the trace is the one after the IRQ count check. */
  lemma OnlyRegisterCallRegisters(w: Width, s: Script, regsSize: nat, ranges: seq<PioRange>, cmds: seq<IrqCmd>,
                                  rangecount: nat, cmdcount: nat, c: Call)
    requires |ranges| >= 1 && |cmds| >= 4
    requires c in AttachTrace(w, s, regsSize, [], ranges, cmds, rangecount, cmdcount)
    requires c.RegisterInterruptHandler?
    ensures Passed(s, regsSize, IrqCount)
    ensures c == RegisterCall(w, s, ranges, cmds, rangecount, cmdcount)
  {
  }

  /** hda_ctl_fini runs exactly on the error exits where hda and hda->ctl are non-NULL. */
  lemma CtlFiniOnlyWithCtl(w: Width, s: Script, regsSize: nat, ranges: seq<PioRange>, cmds: seq<IrqCmd>,
                           rangecount: nat, cmdcount: nat)
    requires |ranges| >= 1 && |cmds| >= 4
    ensures Call.CtlFini in AttachTrace(w, s, regsSize, [], ranges, cmds, rangecount, cmdcount)
            <==> s.allocOk && AttachStage(s, regsSize) != Attached && CtlSet(s, regsSize)
  {
    if !CtlSet(s, regsSize) || AttachStage(s, regsSize) == Attached {
      NoCtlFiniWithoutCtl(w, s, regsSize, ranges, cmds, rangecount, cmdcount);
    }
  }

  lemma NoCtlFiniWithoutCtl(w: Width, s: Script, regsSize: nat, ranges: seq<PioRange>, cmds: seq<IrqCmd>,
                            rangecount: nat, cmdcount: nat)
    requires |ranges| >= 1 && |cmds| >= 4
    requires !CtlSet(s, regsSize) || AttachStage(s, regsSize) == Attached
    ensures Call.CtlFini !in AttachTrace(w, s, regsSize, [], ranges, cmds, rangecount, cmdcount)
  {
    match AttachStage(s, regsSize)
    case NoSoftState =>
    case NoParentSession =>
    case ResListFailed =>
    case MemRangeCount =>
    case RangeTooSmall =>
    case PioFailed =>
    case IrqCount =>
    case RegisterFailed =>
    case CtlInitFailed =>
    case FunCreateFailed =>
    case BindFailed =>
    case Attached =>
  }

  // ---------------------------------------------------------------------
  // hda_dev_add and hda_dev_remove
  // ---------------------------------------------------------------------

  /** The `error:` exit: finish the controller if there is one. */
  method ErrorExit(hda: Hda?, ddf: Ddf)
    modifies ddf
    ensures ddf.trace == old(ddf.trace) + CallIf(hda != null && hda.ctl, Call.CtlFini)
  {
    if hda != null {
      if hda.ctl {
        ddf.CtlFini();
      }
    }
  }

  /** The tables after hda_dev_add, which found them as `ranges0` and `cmds0`:
   *  patched for the device once the IRQ count has been checked, untouched
   *  before that. */
  ghost predicate TablesAfterAdd(w: Width, s: Script, regsSize: nat, tables: IrqTables,
                                 ranges0: seq<PioRange>, cmds0: seq<IrqCmd>)
    reads tables, tables.ranges, tables.cmds
    requires |ranges0| >= 1 && |cmds0| >= 4
  {
    && tables.Valid()
    && if Passed(s, regsSize, IrqCount) then
         var rwbase := s.res.memRanges[0].address;
         && tables.ranges[..] == PatchedRanges(ranges0, Wrap(w, rwbase))
         && tables.cmds[..] == PatchedCommands(cmds0, RirbStsAddress(w, rwbase))
       else
         tables.ranges[..] == ranges0 && tables.cmds[..] == cmds0
  }

  /** The soft state after hda_dev_add: each field holds what the step that
   *  sets it produced, if that step was reached. */
  ghost predicate SoftStateAfterAdd(hda: Hda, s: Script, regsSize: nat)
    reads hda
  {
    && hda.parentSess == s.parentSessOk
    && (if Passed(s, regsSize, MemRangeCount) then
          hda.rwbase == s.res.memRanges[0].address && hda.rwsize == s.res.memRanges[0].size
        else
          hda.rwbase == 0 && hda.rwsize == 0)
    && hda.regs == (if Passed(s, regsSize, PioFailed) then Some(s.pioVirt) else None)
    && hda.ctl == CtlSet(s, regsSize)
    && hda.funA == (if Passed(s, regsSize, FunCreateFailed) then Some(s.funId) else None)
  }

  /** hda_dev_add. `regsSize` is sizeof(hda_regs_t), which contains RIRBSTS.
   *  The function is modelled as five consecutive methods, one per phase,
   *  each calling the next and each promising the end state of the whole
   *  function; this first one allocates the soft state and opens the parent
   *  session. */
  method HdaDevAdd(w: Width, regsSize: nat, dev: Device, ddf: Ddf, tables: IrqTables) returns (rc: Errno)
    requires tables.Valid()
    requires RirbStsOffset < regsSize
    modifies dev, ddf, tables.ranges, tables.cmds
    ensures rc == AttachResult(ddf.script, regsSize)
    ensures ddf.trace == AttachTrace(w, ddf.script, regsSize, old(ddf.trace), old(tables.ranges[..]),
                                     old(tables.cmds[..]), tables.rangecount, tables.cmdcount)
    ensures TablesAfterAdd(w, ddf.script, regsSize, tables, old(tables.ranges[..]), old(tables.cmds[..]))
    ensures !ddf.script.allocOk ==> dev.data == old(dev.data)
    ensures ddf.script.allocOk ==>
              dev.data != null && fresh(dev.data) && SoftStateAfterAdd(dev.data, ddf.script, regsSize)
  {
    var hda := ddf.DevDataAlloc(dev);
    if hda == null {
      rc := ENOMEM;
      assert AttachStage(ddf.script, regsSize) == NoSoftState;
      ErrorExit(hda, ddf);
      return;
    }

    var sessOk := ddf.ParentSessCreate(hda);
    if !sessOk {
      rc := ENOMEM;
      assert AttachStage(ddf.script, regsSize) == NoParentSession;
      ErrorExit(hda, ddf);
      return;
    }

    rc := CheckResources(w, regsSize, hda, ddf, tables, old(ddf.trace));
  }

  /** hda_dev_add, second phase: fetch the hardware resources, check that
   *  there is exactly one memory range and record it. */
  method CheckResources(w: Width, regsSize: nat, hda: Hda, ddf: Ddf, tables: IrqTables,
                        ghost before: seq<Call>) returns (rc: Errno)
    requires tables.Valid()
    requires ddf.script.allocOk && ddf.script.parentSessOk
    requires ddf.trace == before + [Call.DevDataAlloc] + [Call.ParentSessCreate]
    requires hda.parentSess && hda.regs == None && !hda.ctl && hda.funA == None
    requires hda.rwbase == 0 && hda.rwsize == 0
    modifies ddf, hda, tables.ranges, tables.cmds
    ensures rc == AttachResult(ddf.script, regsSize)
    ensures ddf.trace == AttachTrace(w, ddf.script, regsSize, before, old(tables.ranges[..]),
                                     old(tables.cmds[..]), tables.rangecount, tables.cmdcount)
    ensures TablesAfterAdd(w, ddf.script, regsSize, tables, old(tables.ranges[..]), old(tables.cmds[..]))
    ensures SoftStateAfterAdd(hda, ddf.script, regsSize)
  {
    var res;
    rc, res := ddf.HwResGetListParsed();
    if rc != EOK {
      assert AttachStage(ddf.script, regsSize) == ResListFailed;
      ErrorExit(hda, ddf);
      return;
    }

    if |res.memRanges| != 1 {
      rc := EINVAL;
      assert AttachStage(ddf.script, regsSize) == MemRangeCount;
      ErrorExit(hda, ddf);
      return;
    }

    hda.rwbase := res.memRanges[0].address;
    hda.rwsize := res.memRanges[0].size;

    rc := EnableRegisters(w, regsSize, hda, res, ddf, tables, before);
  }

  /** hda_dev_add, third phase: check that the memory range covers the
   *  registers, map them, and check the IRQ count. */
  method EnableRegisters(w: Width, regsSize: nat, hda: Hda, res: Resources, ddf: Ddf, tables: IrqTables,
                         ghost before: seq<Call>) returns (rc: Errno)
    requires tables.Valid()
    requires Passed(ddf.script, regsSize, MemRangeCount) && res == ddf.script.res
    requires ddf.trace == before + [Call.DevDataAlloc] + [Call.ParentSessCreate] + [Call.HwResGetListParsed]
    requires hda.parentSess && hda.regs == None && !hda.ctl && hda.funA == None
    requires hda.rwbase == res.memRanges[0].address && hda.rwsize == res.memRanges[0].size
    modifies ddf, hda, tables.ranges, tables.cmds
    ensures rc == AttachResult(ddf.script, regsSize)
    ensures ddf.trace == AttachTrace(w, ddf.script, regsSize, before, old(tables.ranges[..]),
                                     old(tables.cmds[..]), tables.rangecount, tables.cmdcount)
    ensures TablesAfterAdd(w, ddf.script, regsSize, tables, old(tables.ranges[..]), old(tables.cmds[..]))
    ensures SoftStateAfterAdd(hda, ddf.script, regsSize)
  {
    if hda.rwsize < regsSize {
      rc := EINVAL;
      assert AttachStage(ddf.script, regsSize) == RangeTooSmall;
      ErrorExit(hda, ddf);
      return;
    }

    var regs;
    rc, regs := ddf.PioEnable(Wrap(w, hda.rwbase), hda.rwsize);
    if rc != EOK {
      assert AttachStage(ddf.script, regsSize) == PioFailed;
      ErrorExit(hda, ddf);
      return;
    }
    hda.regs := Some(regs);

    if |res.irqs| != 1 {
      // rc is not assigned here: it still holds pio_enable's EOK
      assert AttachStage(ddf.script, regsSize) == IrqCount;
      ErrorExit(hda, ddf);
      return;
    }

    rc := RegisterInterrupt(w, regsSize, hda, res, ddf, tables, before);
  }

  /** hda_dev_add, fourth phase: patch the interrupt program for this device,
   *  register it, and start the controller. */
  method RegisterInterrupt(w: Width, regsSize: nat, hda: Hda, res: Resources, ddf: Ddf, tables: IrqTables,
                           ghost before: seq<Call>) returns (rc: Errno)
    requires tables.Valid()
    requires Passed(ddf.script, regsSize, IrqCount) && res == ddf.script.res
    requires ddf.trace == before + [Call.DevDataAlloc] + [Call.ParentSessCreate] + [Call.HwResGetListParsed]
                         + [PioCall(w, ddf.script)]
    requires hda.parentSess && hda.regs == Some(ddf.script.pioVirt) && !hda.ctl && hda.funA == None
    requires hda.rwbase == res.memRanges[0].address && hda.rwsize == res.memRanges[0].size
    modifies ddf, hda, tables.ranges, tables.cmds
    ensures rc == AttachResult(ddf.script, regsSize)
    ensures ddf.trace == AttachTrace(w, ddf.script, regsSize, before, old(tables.ranges[..]),
                                     old(tables.cmds[..]), tables.rangecount, tables.cmdcount)
    ensures TablesAfterAdd(w, ddf.script, regsSize, tables, old(tables.ranges[..]), old(tables.cmds[..]))
    ensures SoftStateAfterAdd(hda, ddf.script, regsSize)
  {
    tables.Patch(w, hda.rwbase);

    rc := ddf.RegisterInterruptHandler(res.irqs[0], tables);
    if rc != EOK {
      assert AttachStage(ddf.script, regsSize) == RegisterFailed;
      ErrorExit(hda, ddf);
      return;
    }

    var ctlOk := ddf.CtlInit(hda);
    if !ctlOk {
      rc := EIO;
      assert AttachStage(ddf.script, regsSize) == CtlInitFailed;
      ErrorExit(hda, ddf);
      return;
    }

    rc := CreateFunctionA(w, regsSize, hda, ddf, tables, before, old(tables.ranges[..]), old(tables.cmds[..]));
  }

  /** hda_dev_add, last phase: create, bind and categorise function 'a'. */
  method CreateFunctionA(w: Width, regsSize: nat, hda: Hda, ddf: Ddf, tables: IrqTables,
                         ghost before: seq<Call>, ghost ranges0: seq<PioRange>, ghost cmds0: seq<IrqCmd>)
    returns (rc: Errno)
    requires |ranges0| >= 1 && |cmds0| >= 4
    requires Passed(ddf.script, regsSize, CtlInitFailed)
    requires ddf.trace == before + [Call.DevDataAlloc] + [Call.ParentSessCreate] + [Call.HwResGetListParsed]
                         + [PioCall(w, ddf.script)]
                         + [RegisterCall(w, ddf.script, ranges0, cmds0, tables.rangecount, tables.cmdcount)]
                         + [Call.CtlInit]
    requires hda.funA == None
    requires hda.parentSess && hda.regs == Some(ddf.script.pioVirt) && hda.ctl == ddf.script.ctlSetByInit
    requires hda.rwbase == ddf.script.res.memRanges[0].address && hda.rwsize == ddf.script.res.memRanges[0].size
    modifies ddf, hda`funA
    ensures rc == AttachResult(ddf.script, regsSize)
    ensures ddf.trace == AttachTrace(w, ddf.script, regsSize, before, ranges0, cmds0, tables.rangecount, tables.cmdcount)
    ensures SoftStateAfterAdd(hda, ddf.script, regsSize)
  {
    var funA := ddf.FunCreate("a");
    if funA == None {
      rc := ENOMEM;
      assert AttachStage(ddf.script, regsSize) == FunCreateFailed;
      ErrorExit(hda, ddf);
      return;
    }
    hda.funA := funA;

    rc := ddf.FunBind(funA.value);
    if rc != EOK {
      ddf.FunDestroy(funA.value);
      assert AttachStage(ddf.script, regsSize) == BindFailed;
      ErrorExit(hda, ddf);
      return;
    }

    ddf.FunAddToCategory(funA.value, "virtual");
    rc := EOK;
  }

  /** The code hda_dev_remove returns: the first failure of offlining and
   *  unbinding function 'a', if the device has one. */
  function RemoveResult(hasFunA: bool, offlineRc: Errno, unbindRc: Errno): (rc: Errno)
    ensures rc == EOK <==> !hasFunA || (offlineRc == EOK && unbindRc == EOK)
    ensures rc != EOK ==> rc == offlineRc || (offlineRc == EOK && rc == unbindRc)
  {
    if !hasFunA then EOK
    else if offlineRc != EOK then offlineRc
    else unbindRc
  }

  /** The calls hda_dev_remove makes: offline, then unbind only if offlining succeeded. */
  function RemoveTrace(funA: Option<nat>, offlineRc: Errno): (t: seq<Call>)
    ensures funA == None ==> t == []
    ensures funA.Some? ==> |t| >= 1 && t[0] == Call.FunOffline(funA.value)
    ensures funA.Some? ==> (Call.FunUnbind(funA.value) in t <==> offlineRc == EOK)
  {
    match funA
    case None => []
    case Some(f) => [Call.FunOffline(f)] + CallIf(offlineRc == EOK, Call.FunUnbind(f))
  }

  /** hda_dev_remove; the soft state must exist (the source dereferences it unchecked). */
  method HdaDevRemove(dev: Device, ddf: Ddf) returns (rc: Errno)
    requires dev.data != null
    modifies ddf
    ensures rc == RemoveResult(dev.data.funA.Some?, ddf.script.offlineRc, ddf.script.unbindRc)
    ensures ddf.trace == old(ddf.trace) + RemoveTrace(dev.data.funA, ddf.script.offlineRc)
  {
    var hda := dev.data;
    if hda.funA != None {
      rc := ddf.FunOffline(hda.funA.value);
      if rc != EOK {
        return;
      }
      rc := ddf.FunUnbind(hda.funA.value);
      if rc != EOK {
        return;
      }
    }
    rc := EOK;
  }

  /** The code hda_dev_gone returns: unbinding's failure, if the device has
   *  function 'a'. */
  function GoneResult(hasFunA: bool, unbindRc: Errno): (rc: Errno)
    ensures rc == EOK <==> !hasFunA || unbindRc == EOK
    ensures rc != EOK ==> rc == unbindRc
  {
    if !hasFunA then EOK else unbindRc
  }

  /** The calls hda_dev_gone makes: unbind function 'a', never offline it. */
  function GoneTrace(funA: Option<nat>): (t: seq<Call>)
    ensures funA == None <==> t == []
    ensures forall c :: c in t ==> c == Call.FunUnbind(funA.value)
  {
    match funA
    case None => []
    case Some(f) => [Call.FunUnbind(f)]
  }

  /** A device that is gone is handled like a removal whose offlining
   *  succeeded, without the offlining call itself. */
  lemma GoneIsRemoveWithoutOffline(funA: Option<nat>, unbindRc: Errno)
    ensures GoneResult(funA.Some?, unbindRc) == RemoveResult(funA.Some?, EOK, unbindRc)
    ensures funA.Some? ==> RemoveTrace(funA, EOK) == [Call.FunOffline(funA.value)] + GoneTrace(funA)
    ensures funA == None ==> RemoveTrace(funA, EOK) == GoneTrace(funA)
  {
  }

  /** hda_dev_gone; the soft state must exist (the source dereferences it unchecked). */
  method HdaDevGone(dev: Device, ddf: Ddf) returns (rc: Errno)
    requires dev.data != null
    modifies ddf
    ensures rc == GoneResult(dev.data.funA.Some?, ddf.script.unbindRc)
    ensures ddf.trace == old(ddf.trace) + GoneTrace(dev.data.funA)
  {
    var hda := dev.data;
    if hda.funA != None {
      rc := ddf.FunUnbind(hda.funA.value);
      if rc != EOK {
        return;
      }
    }
    rc := EOK;
  }
}
