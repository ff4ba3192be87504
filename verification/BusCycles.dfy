/** What captured words mean in terms of the bus: a word of a capture stream is one Z80 cycle, and what
  * the detector and the read-stream analyser make of the words is a fact about those cycles. */
module BusCycles {
  import opened Words
  import BC = BootCapture
  import BD = BootDetect
  import BI = BusIntegrity
  import TC = TxnCapture

  // ----- words are cycles -----

  /** The levels that a capture machine samples; true means asserted. rest: /SLTSL and the two pins
    * above it. */
  datatype Cycle = Cycle(addr: Half, data: Byte, rd: bool, wr: bool, mreq: bool, iorq: bool, m1: bool, rest: nat)

  predicate Sampled(c: Cycle) { c.rest < 8 }

  function WordOf(c: Cycle): Word
    requires Sampled(c)
  {
    BC.Snapshot(c.addr, c.data, c.rd, c.wr, c.mreq, c.iorq, c.m1, c.rest)
  }

  function HighOf(c: Cycle): nat {
    BC.Level(c.rd) + 2 * BC.Level(c.wr) + 4 * BC.Level(c.mreq) + 8 * BC.Level(c.iorq) + 16 * BC.Level(c.m1) + 32 * c.rest
  }

  /** The cycle that a word stands for. */
  function CycleOf(w: Word): Cycle {
    var h := w / 0x100_0000;
    Cycle(w % 0x1_0000, w / 0x1_0000 % 0x100, h % 2 == 0, h / 2 % 2 == 0, h / 4 % 2 == 0, h / 8 % 2 == 0,
          h / 16 % 2 == 0, h / 32)
  }

  lemma HighByte(h: nat)
    requires h < 0x100
    ensures h / 32 < 8
    ensures h == h % 2 + 2 * (h / 2 % 2) + 4 * (h / 4 % 2) + 8 * (h / 8 % 2) + 16 * (h / 16 % 2) + 32 * (h / 32)
  {
    assert h / 4 == h / 2 / 2 && h / 8 == h / 4 / 2 && h / 16 == h / 8 / 2 && h / 32 == h / 16 / 2;
  }

  lemma SplitWord(w: Word)
    ensures w / 0x100_0000 < 0x100
    ensures w == w % 0x1_0000 + 0x1_0000 * (w / 0x1_0000 % 0x100) + 0x100_0000 * (w / 0x100_0000)
  {
    assert w / 0x100_0000 == w / 0x1_0000 / 0x100;
  }

  /** Every word stands for exactly one cycle. */
  lemma WordIsACycle(w: Word)
    ensures Sampled(CycleOf(w)) && WordOf(CycleOf(w)) == w
  {
    SplitWord(w);
    HighByte(w / 0x100_0000);
    assert HighOf(CycleOf(w)) == w / 0x100_0000;
  }

  lemma CycleIsAWord(c: Cycle)
    requires Sampled(c)
    ensures CycleOf(WordOf(c)) == c
  {
    var h := HighOf(c);
    BC.ControlBits(c.rd, c.wr, c.mreq, c.iorq, c.m1, c.rest);
    BC.FieldsOf(c.addr, c.data, h);
    assert WordOf(c) == c.addr + 0x1_0000 * c.data + 0x100_0000 * h;
    HighHalf(c.addr, c.data, h);
    LowAndHighBit(c);
  }

  lemma HighHalf(addr: Half, data: Byte, h: nat)
    requires h < 0x100
    ensures (addr + 0x1_0000 * data + 0x100_0000 * h) / 0x100_0000 == h
  {
    assert addr + 0x1_0000 * data < 0x100_0000;
  }

  lemma LowAndHighBit(c: Cycle)
    requires Sampled(c)
    ensures HighOf(c) % 2 == BC.Level(c.rd) && HighOf(c) / 32 == c.rest
  {
    var low := BC.Level(c.rd) + 2 * BC.Level(c.wr) + 4 * BC.Level(c.mreq) + 8 * BC.Level(c.iorq) + 16 * BC.Level(c.m1);
    assert low < 32 && HighOf(c) == low + 32 * c.rest;
  }

  // ----- what the read ring's words mean -----

  /** The analyser is handed the address and the data that were on the bus. */
  lemma ReadOfCycle(c: Cycle)
    requires Sampled(c)
    ensures TC.ReadOf(WordOf(c)) == BI.Read(c.addr, c.data)
  {
    var h := HighOf(c);
    BC.ControlBits(c.rd, c.wr, c.mreq, c.iorq, c.m1, c.rest);
    BC.FieldsOf(c.addr, c.data, h);
    assert WordOf(c) == c.addr + 0x1_0000 * c.data + 0x100_0000 * h;
  }

  // ----- which cycles mean which phase -----

  /** An opcode fetch: /MREQ with /M1. */
  predicate Fetches(c: Cycle, addr: Half) { c.mreq && c.m1 && c.addr == addr }

  predicate WritesMemory(c: Cycle) { c.mreq && !c.m1 && c.wr }

  predicate ReadsMemory(c: Cycle) { c.mreq && !c.m1 && !c.wr }

  predicate WritesPort(c: Cycle, port: Byte) { c.iorq && c.wr && c.addr % 0x100 == port }

  predicate AtHeader(c: Cycle) { c.addr == 0x4000 || c.addr == 0x4001 }

  /** What a cycle in the memory ring means, by the bus levels alone. */
  predicate MemMeans(c: Cycle, p: nat) {
    || (p == BD.RESET_VECTOR && Fetches(c, 0x0000))
    || (p == BD.BIOS_ENTRY && Fetches(c, 0x02D7))
    || (p == BD.SLOT_RAM_PROBE && WritesMemory(c) && (c.addr >= 0xC000 || c.addr == 0xBF00))
    || (p == BD.BIOS_INIT_DONE && Fetches(c, 0x03F8))
    || (p == BD.BASIC_HANDOFF && Fetches(c, 0x2680))
    || (p == BD.BASIC_COLDSTART && (Fetches(c, 0x7C76) || (WritesMemory(c) && c.addr == 0xFD9A)))
    || (p == BD.BASIC_BIOS_VECS
        && (Fetches(c, 0x003B) || Fetches(c, 0x003E) || Fetches(c, 0x0069) || Fetches(c, 0x006F)))
    || (p == BD.CART_SCAN && (Fetches(c, 0x7D75) || (ReadsMemory(c) && AtHeader(c))))
  }

  /** In the I/O ring. */
  predicate IoMeans(c: Cycle, p: nat) {
    || (p == BD.BIOS_ENTRY && (WritesPort(c, 0xA8) || WritesPort(c, 0xAA) || WritesPort(c, 0xAB)))
    || (p == BD.SLOT_RAM_PROBE && WritesPort(c, 0xA8))
    || (p == BD.VDP_INIT && (WritesPort(c, 0x98) || WritesPort(c, 0x99)))
  }

  /** In the cart-read log. */
  predicate LogMeans(c: Cycle, p: nat) { p == BD.CART_SCAN && AtHeader(c) }

  predicate Means(src: BC.Source, c: Cycle, p: nat) {
    match src case MemRing => MemMeans(c, p) case IoRing => IoMeans(c, p) case Alog => LogMeans(c, p)
  }

  /** What the decoder that belongs to each stream makes of a cycle. */
  lemma DecodeOfMem(c: Cycle)
    requires Sampled(c)
    ensures var e := BC.Decode(BC.Tagged(BC.MemRing, WordOf(c)));
            if !c.mreq then e.None?
            else e == Some(BD.Event(if c.m1 then BD.Fetch else if c.wr then BD.MemWrite else BD.MemRead,
                                    c.addr, c.data, c.m1 || c.wr))
  {
    BC.DecodeSnapshot(c.addr, c.data, c.rd, c.wr, c.mreq, c.iorq, c.m1, c.rest);
  }

  lemma DecodeOfIo(c: Cycle)
    requires Sampled(c)
    ensures var e := BC.Decode(BC.Tagged(BC.IoRing, WordOf(c)));
            if !c.iorq then e.None?
            else e == Some(BD.Event(if c.wr then BD.IoWrite else BD.IoRead, c.addr, c.data, c.wr))
  {
    BC.DecodeSnapshot(c.addr, c.data, c.rd, c.wr, c.mreq, c.iorq, c.m1, c.rest);
  }

  lemma DecodeOfLog(c: Cycle)
    requires Sampled(c)
    ensures var e := BC.Decode(BC.Tagged(BC.Alog, WordOf(c)));
            if !AtHeader(c) then e.None? else e == Some(BD.Event(BD.MemRead, c.addr, c.data, true))
  {
    ReadOfCycle(c);
  }

  lemma WordMeans(src: BC.Source, c: Cycle, p: nat)
    requires Sampled(c)
    ensures BC.WordImplies(BC.Tagged(src, WordOf(c)), p) <==> Means(src, c, p)
  {
    match src
    case MemRing => DecodeOfMem(c);
    case IoRing => DecodeOfIo(c);
    case Alog => DecodeOfLog(c);
  }

  /** The cycle that a word of a stream stands for means phase p. */
  predicate TaggedMeans(t: BC.Tagged, p: nat) { Means(t.src, CycleOf(t.raw), p) }

  /** Phase by phase: set after a merged stream iff some word of it, by the stream it is from, is a
    * cycle that means it. */
  lemma {:induction false} PhaseIffCycle(ts: seq<BC.Tagged>, p: nat)
    ensures p in BC.After(ts).phaseFlags <==> exists i :: 0 <= i < |ts| && TaggedMeans(ts[i], p)
  {
    BC.PhaseIffWord(ts, p);
    forall i | 0 <= i < |ts|
      ensures BC.WordImplies(ts[i], p) <==> TaggedMeans(ts[i], p)
    {
      WordIsACycle(ts[i].raw);
      WordMeans(ts[i].src, CycleOf(ts[i].raw), p);
    }
  }

  // ----- the side flags and the header bytes -----

  predicate MeansPpi(t: BC.Tagged) {
    var c := CycleOf(t.raw); t.src.IoRing? && (WritesPort(c, 0xA8) || WritesPort(c, 0xAA) || WritesPort(c, 0xAB))
  }

  predicate MeansWorkArea(t: BC.Tagged) {
    var c := CycleOf(t.raw); t.src.MemRing? && WritesMemory(c) && c.addr == 0xFD9A
  }

  predicate MeansHeader(t: BC.Tagged, addr: Half) { t.src.Alog? && CycleOf(t.raw).addr == addr }

  /** The newest byte that the log shows at an address, $FF before any. */
  function NewestByte(ts: seq<BC.Tagged>, addr: Half): Byte {
    if ts == [] then 0xFF
    else if MeansHeader(ts[|ts| - 1], addr) then CycleOf(ts[|ts| - 1].raw).data
    else NewestByte(ts[..|ts| - 1], addr)
  }

  lemma EventOf(t: BC.Tagged)
    ensures (BC.Decode(t).Some? && BD.TouchesPpi(BC.Decode(t).value)) <==> MeansPpi(t)
    ensures (BC.Decode(t).Some? && BD.TouchesWorkArea(BC.Decode(t).value)) <==> MeansWorkArea(t)
  {
    WordIsACycle(t.raw);
    match t.src
    case MemRing => DecodeOfMem(CycleOf(t.raw));
    case IoRing => DecodeOfIo(CycleOf(t.raw));
    case Alog => DecodeOfLog(CycleOf(t.raw));
  }

  lemma HeaderOf(t: BC.Tagged, addr: Half)
    requires addr == 0x4000 || addr == 0x4001
    ensures (BC.Decode(t).Some? && BD.HeaderByte(BC.Decode(t).value, addr)) <==> MeansHeader(t, addr)
    ensures MeansHeader(t, addr) ==> BC.Decode(t).value.data == CycleOf(t.raw).data
  {
    WordIsACycle(t.raw);
    match t.src
    case MemRing => DecodeOfMem(CycleOf(t.raw));
    case IoRing => DecodeOfIo(CycleOf(t.raw));
    case Alog => DecodeOfLog(CycleOf(t.raw));
  }

  lemma {:induction false} SideFlagsIffCycle(ts: seq<BC.Tagged>)
    ensures BC.After(ts).earlyPpiWrites <==> exists i :: 0 <= i < |ts| && MeansPpi(ts[i])
    ensures BC.After(ts).workAreaInit <==> exists i :: 0 <= i < |ts| && MeansWorkArea(ts[i])
  {
    if ts != [] {
      var init, t := ts[..|ts| - 1], ts[|ts| - 1];
      SideFlagsIffCycle(init);
      assert ts == init + [t];
      BC.EventsStep(init, t);
      EventOf(t);
      assert forall i :: 0 <= i < |init| ==> init[i] == ts[i];
      assert t == ts[|init|];
    }
  }

  predicate HeaderAt(ts: seq<BC.Tagged>, n: nat)
    requires n <= |ts|
  {
    NewestByte(ts[..n], 0x4000) == 0x41 && NewestByte(ts[..n], 0x4001) == 0x42
  }

  lemma {:induction false} HeaderStep(ts: seq<BC.Tagged>)
    requires ts != []
    ensures var init := ts[..|ts| - 1];
            (exists n :: 0 <= n <= |ts| && HeaderAt(ts, n))
              <==> (exists n :: 0 <= n <= |init| && HeaderAt(init, n)) || HeaderAt(ts, |ts|)
  {
    var init := ts[..|ts| - 1];
    assert forall n :: 0 <= n <= |init| ==> init[..n] == ts[..n];
    forall n | 0 <= n <= |init| ensures HeaderAt(init, n) == HeaderAt(ts, n) {}
  }

  /** The header bytes are the newest that the log showed; the header counts as read iff, at some
    * point, they were 41 42. */
  lemma {:induction false} HeaderIsNewest(ts: seq<BC.Tagged>)
    ensures BC.After(ts).header4000 == NewestByte(ts, 0x4000) && BC.After(ts).header4001 == NewestByte(ts, 0x4001)
    ensures BC.After(ts).headerRead <==> exists n :: 0 <= n <= |ts| && HeaderAt(ts, n)
  {
    if ts == [] {
      assert ts[..0] == [];
    } else {
      var init, t := ts[..|ts| - 1], ts[|ts| - 1];
      HeaderIsNewest(init);
      assert ts == init + [t];
      BC.EventsStep(init, t);
      HeaderOf(t, 0x4000);
      HeaderOf(t, 0x4001);
      HeaderStep(ts);
      assert ts[..|ts|] == ts && init[..|init|] == init;
      if !MeansHeader(t, 0x4000) && !MeansHeader(t, 0x4001) { assert HeaderAt(ts, |ts|) == HeaderAt(init, |init|); }
    }
  }
}
