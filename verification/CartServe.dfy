/** The ROM-serving pipeline: two PIO state machines and two chained DMA channels
  * answering Z80 reads, as interleaved steps (cart_serve.pio, cart_serve.c).
  *
  * Every PIO instruction, every half of a DMA transfer and every change of the bus
  * lines is one step; any enabled step may come next. `lines` holds the levels of
  * the pins, true for HIGH. */
module CartServe {
  import opened Words
  import opened RomLut

  const FIFO_DEPTH := 4

  /** A value on its way through the pipeline, stamped with the serial number of the
    * bus cycle (or pipeline reset) during which it was produced. */
  datatype Item = Item(value: nat, stamp: nat)

  /** Where the table lies in memory, and what it holds. */
  datatype Config = Config(lutBase: nat, lut: seq<Byte>)

  ghost predicate Wf(c: Config) {
    |c.lut| == LUT_LEN && c.lutBase % LUT_LEN == 0 && c.lutBase + LUT_LEN <= U32
  }

  // PIO1 SM0, program cart_addr_read
  datatype AddrPc = PullBlock | MovX | AddrWaitSltsl | AddrJmp | InX | InPins | AddrWaitRd

  datatype AddrSm = AddrSm(pc: AddrPc, tx: seq<nat>, osr: nat, x: nat, isr: nat, rx: seq<Item>)

  // PIO2 SM0, program cart_read
  datatype ReadPc =
    | WaitSltsl | JmpRd | SetDirLow | MovOsrOnes | OutDirsOn | PullByte
    | OutPins | Nop | WaitRd | MovOsrZero | OutDirsOff | SetDirHigh

  datatype ReadSm = ReadSm(pc: ReadPc, tx: seq<Item>, osr: Item, pins: Item, pinDirs: nat, lvcHigh: bool)

  // Channel A holds the pointer it has read; channel B is busy from its trigger to its delivery.
  datatype Dma = Dma(aLatch: Option<Item>, bReadAddr: Item, bBusy: bool, bLatch: Option<Item>, lostTriggers: nat)

  datatype Lines = Lines(addr: nat, sltsl: bool, rd: bool)

  /** Configured: after cart_serve_init. HalfArmed: cart_read enabled, cart_addr_read not
    * yet. Armed: both. Off: after cart_serve_disable_drive. */
  datatype Stage = Configured | HalfArmed | Armed | Off

  /** A finished Z80 read: what the data pins carried when /RD rose, if anything. */
  datatype Served = Served(addr: nat, latched: Option<Item>, cycle: nat, serving: bool)

  datatype State = State(
    stage: Stage, pioOwnsPins: bool, a: AddrSm, r: ReadSm, dma: Dma, lines: Lines,
    cycle: nat, pushed: nat, pulled: nat, log: seq<Served>)

  datatype Step =
    | AddrTick | ReadTick | DmaALoad | DmaATrigger | DmaBFetch(elsewhere: Byte) | DmaBDeliver
    | LinesChange(lines: Lines) | ArmRead | ArmAddr | ResetPipeline | DisableDrive

  predicate Reading(l: Lines) { !l.sltsl && !l.rd }

  predicate ReadRunning(s: State) { s.stage == HalfArmed || s.stage == Armed }

  // ----- what the pads carry -----

  function PadDirs(s: State): nat { if s.pioOwnsPins then s.r.pinDirs else 0 }

  predicate PadLvcHigh(s: State) { s.pioOwnsPins ==> s.r.lvcHigh }

  /** The byte the Z80 sees from the cartridge, none unless all eight pins and the
    * level shifter drive towards it. */
  function OnBus(s: State): Option<Item> {
    if PadDirs(s) == 255 && !PadLvcHigh(s) then Some(s.r.pins) else None
  }

  // ----- the steps -----

  // A restart keeps X and the output latches; the prologue then reloads X.
  function FreshAddr(c: Config, a: AddrSm): AddrSm { AddrSm(PullBlock, [c.lutBase / LUT_LEN], 0, a.x, 0, []) }

  function FreshRead(s: ReadSm): ReadSm { ReadSm(WaitSltsl, [], Item(0, 0), s.pins, 0, true) }

  function FreshDma(): Dma { Dma(None, Item(0, 0), false, None, 0) }

  predicate Init(c: Config, s: State) {
    && s.stage == Configured && s.pioOwnsPins && s.a == FreshAddr(c, s.a)
    && s.r == FreshRead(s.r) && s.dma == FreshDma()
    && s.r.pins.stamp < s.cycle
    && s.lines.addr < 65536 && s.pushed == 0 && s.pulled == 0 && s.log == []
  }

  /** The bus timing that cart_serve relies on: a read of this slot lasts until both
    * machines wait for its end; a read starts only when both are back at their wrap
    * target; /RD stays HIGH while a machine still waits for it; and the select and
    * read lines do not change between a machine's `wait 0 gpio 29` and its `jmp pin`. */
  predicate BusTiming(s: State, l: Lines) {
    && (Reading(s.lines) ==> l == s.lines || (l.rd && s.a.pc == AddrWaitRd && s.r.pc == WaitRd))
    && (!Reading(s.lines) && Reading(l) ==> s.a.pc == AddrWaitSltsl && s.r.pc == WaitSltsl)
    && (!Reading(s.lines) && !l.rd ==> s.a.pc != AddrWaitRd && s.r.pc != WaitRd)
    && (l.sltsl != s.lines.sltsl || l.rd != s.lines.rd ==> s.a.pc != AddrJmp && s.r.pc != JmpRd)
  }

  predicate Enabled(s: State, step: Step) {
    match step
    case AddrTick =>
      && s.stage == Armed
      && (match s.a.pc
          case PullBlock => s.a.tx != []
          case AddrWaitSltsl => !s.lines.sltsl
          case InPins => |s.a.rx| < FIFO_DEPTH
          case AddrWaitRd => s.lines.rd
          case _ => true)
    case ReadTick =>
      && ReadRunning(s)
      && (match s.r.pc
          case WaitSltsl => !s.lines.sltsl
          case PullByte => s.r.tx != []
          case WaitRd => s.lines.rd
          case _ => true)
    case DmaALoad => s.stage != Off && s.a.rx != [] && s.dma.aLatch.None?
    case DmaATrigger => s.stage != Off && s.dma.aLatch.Some?
    case DmaBFetch(_) => s.stage != Off && s.dma.bBusy && s.dma.bLatch.None? && |s.r.tx| < FIFO_DEPTH
    case DmaBDeliver => s.stage != Off && s.dma.bLatch.Some? && |s.r.tx| < FIFO_DEPTH
    case LinesChange(l) => l.addr < 65536 && (ReadRunning(s) ==> BusTiming(s, l))
    case ArmRead => s.stage == Configured
    case ArmAddr => s.stage == HalfArmed
    case ResetPipeline => true
    case DisableDrive => true
  }

  /** `in x, 16` and `in pins, 16` shift left; the second one fills the register. */
  function ShiftIn(isr: nat, half: nat): nat { (isr * 65536 + half % 65536) % U32 }

  function AddrExec(s: State): State
    requires Enabled(s, AddrTick)
  {
    var a := s.a;
    match a.pc
    case PullBlock => s.(a := a.(osr := a.tx[0], tx := a.tx[1..], pc := MovX))
    case MovX => s.(a := a.(x := a.osr, pc := AddrWaitSltsl))
    case AddrWaitSltsl => s.(a := a.(pc := AddrJmp))
    case AddrJmp => s.(a := a.(pc := if s.lines.rd then AddrWaitSltsl else InX))
    case InX => s.(a := a.(isr := ShiftIn(a.isr, a.x), pc := InPins))
    case InPins =>
      s.(a := a.(isr := 0, rx := a.rx + [Item(ShiftIn(a.isr, s.lines.addr), s.cycle)], pc := AddrWaitRd),
         pushed := s.pushed + 1)
    case AddrWaitRd => s.(a := a.(pc := AddrWaitSltsl))
  }

  function ReadExec(s: State): State
    requires Enabled(s, ReadTick)
  {
    var r := s.r;
    match r.pc
    case WaitSltsl => s.(r := r.(pc := JmpRd))
    case JmpRd => s.(r := r.(pc := if s.lines.rd then WaitSltsl else SetDirLow))
    case SetDirLow => s.(r := r.(lvcHigh := false, pc := MovOsrOnes))
    case MovOsrOnes => s.(r := r.(osr := Item(U32 - 1, s.cycle), pc := OutDirsOn))
    case OutDirsOn => s.(r := r.(pinDirs := r.osr.value % 256, osr := Item(r.osr.value / 256, r.osr.stamp), pc := PullByte))
    case PullByte => s.(r := r.(osr := r.tx[0], tx := r.tx[1..], pc := OutPins), pulled := s.pulled + 1)
    case OutPins => s.(r := r.(pins := Item(r.osr.value % 256, r.osr.stamp), osr := Item(r.osr.value / 256, r.osr.stamp), pc := Nop))
    case Nop => s.(r := r.(pc := WaitRd))
    case WaitRd => s.(r := r.(pc := MovOsrZero))
    case MovOsrZero => s.(r := r.(osr := Item(0, s.cycle), pc := OutDirsOff))
    case OutDirsOff => s.(r := r.(pinDirs := r.osr.value % 256, osr := Item(r.osr.value / 256, r.osr.stamp), pc := SetDirHigh))
    case SetDirHigh => s.(r := r.(lvcHigh := true, pc := WaitSltsl))
  }

  /** Channel B reads one byte; outside the table it finds whatever lies there. */
  function Fetch(c: Config, ptr: nat, elsewhere: Byte): Byte
    requires Wf(c)
  {
    if c.lutBase <= ptr < c.lutBase + LUT_LEN then c.lut[ptr - c.lutBase] else elsewhere
  }

  function DmaExec(c: Config, s: State, step: Step): State
    requires Wf(c) && Enabled(s, step)
    requires step.DmaALoad? || step.DmaATrigger? || step.DmaBFetch? || step.DmaBDeliver?
  {
    var d := s.dma;
    match step
    case DmaALoad => s.(a := s.a.(rx := s.a.rx[1..]), dma := d.(aLatch := Some(s.a.rx[0])))
    case DmaATrigger =>
      // Writing READ_ADDR_TRIG of a busy channel moves its address and loses the trigger.
      if d.bBusy then s.(dma := d.(aLatch := None, bReadAddr := d.aLatch.value, lostTriggers := d.lostTriggers + 1))
      else s.(dma := d.(aLatch := None, bReadAddr := d.aLatch.value, bBusy := true))
    case DmaBFetch(e) =>
      s.(dma := d.(bLatch := Some(Item(Fetch(c, d.bReadAddr.value, e), d.bReadAddr.stamp))))
    case DmaBDeliver =>
      s.(r := s.r.(tx := s.r.tx + [d.bLatch.value]), dma := d.(bLatch := None, bBusy := false))
  }

  function LinesExec(s: State, l: Lines): State {
    if !Reading(s.lines) && Reading(l) then s.(lines := l, cycle := s.cycle + 1)
    else if Reading(s.lines) && !Reading(l) then
      s.(lines := l, log := s.log + [Served(s.lines.addr, OnBus(s), s.cycle, s.stage == Armed && s.pioOwnsPins)])
    else s.(lines := l)
  }

  function Apply(c: Config, s: State, step: Step): State
    requires Wf(c) && Enabled(s, step)
  {
    match step
    case AddrTick => AddrExec(s)
    case ReadTick => ReadExec(s)
    case LinesChange(l) => LinesExec(s, l)
    case ArmRead => s.(stage := HalfArmed)
    case ArmAddr => s.(stage := Armed)
    case ResetPipeline =>
      s.(stage := Armed, a := FreshAddr(c, s.a), r := FreshRead(s.r), dma := FreshDma(),
         cycle := s.cycle + 1, pushed := 0, pulled := 0)
    case DisableDrive => s.(stage := Off, pioOwnsPins := false, dma := FreshDma())
    case _ => DmaExec(c, s, step)
  }

  /** A run of any length in which any enabled step follows any other. */
  ghost predicate IsRun(c: Config, states: seq<State>, steps: seq<Step>)
    requires Wf(c)
  {
    && |states| == |steps| + 1
    && Init(c, states[0])
    && forall i :: 0 <= i < |steps| ==>
         Enabled(states[i], steps[i]) && states[i + 1] == Apply(c, states[i], steps[i])
  }
}
