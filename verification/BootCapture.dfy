/** boot_capture.c: raw GPIO snapshots to bus events, and what the detector makes of three
  * capture streams merged in any way. */
module BootCapture {
  import opened Words
  import opened BootDetect

  const ALOG_TOTAL := 250

  // ----- decoders -----

  // Control lines in a snapshot, all active low: the line is asserted when its bit is 0.
  predicate Wr(raw: Word) { raw / 0x200_0000 % 2 == 0 }
  predicate Mreq(raw: Word) { raw / 0x400_0000 % 2 == 0 }
  predicate Iorq(raw: Word) { raw / 0x800_0000 % 2 == 0 }
  predicate M1(raw: Word) { raw / 0x1000_0000 % 2 == 0 }

  function AddrOf(raw: Word): Half { raw % 0x1_0000 }

  function DataOf(raw: Word): Byte { raw / 0x1_0000 % 0x100 }

  function DecodeMem(raw: Word): Option<Event> {
    if !Mreq(raw) then None
    else
      var kind := if M1(raw) then Fetch else if Wr(raw) then MemWrite else MemRead;
      Some(Event(kind, AddrOf(raw), DataOf(raw), kind != MemRead))
  }

  function DecodeIo(raw: Word): Option<Event> {
    if !Iorq(raw) then None
    else Some(Event(if Wr(raw) then IoWrite else IoRead, AddrOf(raw), DataOf(raw), Wr(raw)))
  }

  /** Cart reads of the two header addresses; the buffer samples at /RD rising, so their data counts. */
  function DecodeAlog(raw: Word): Option<Event> {
    if AddrOf(raw) == 0x4000 || AddrOf(raw) == 0x4001
    then Some(Event(MemRead, AddrOf(raw), DataOf(raw), true))
    else None
  }

  function Level(b: bool): nat { if b then 0 else 1 }

  /** What the capture machines push for given bus levels: A0-15, D0-7, /RD, /WR, /MREQ, /IORQ,
    * /M1, /SLTSL, then two pins the decoders ignore. */
  function Snapshot(addr: Half, data: Byte, rd: bool, wr: bool, mreq: bool, iorq: bool, m1: bool, rest: nat): Word
    requires rest < 8
  {
    addr + 0x1_0000 * data + 0x100_0000 * Level(rd) + 0x200_0000 * Level(wr) + 0x400_0000 * Level(mreq)
    + 0x800_0000 * Level(iorq) + 0x1000_0000 * Level(m1) + 0x2000_0000 * rest
  }

  lemma FieldsOf(addr: Half, data: Byte, high: nat)
    requires high < 0x100
    ensures var raw := addr + 0x1_0000 * data + 0x100_0000 * high;
            && raw % 0x1_0000 == addr && raw / 0x1_0000 % 0x100 == data
            && raw / 0x200_0000 == high / 2 && raw / 0x400_0000 == high / 4
            && raw / 0x800_0000 == high / 8 && raw / 0x1000_0000 == high / 16
  {
    var raw := addr + 0x1_0000 * data + 0x100_0000 * high;
    assert raw / 0x1_0000 == data + 0x100 * high;
  }

  lemma ControlBits(rd: bool, wr: bool, mreq: bool, iorq: bool, m1: bool, rest: nat)
    requires rest < 8
    ensures var high := Level(rd) + 2 * Level(wr) + 4 * Level(mreq) + 8 * Level(iorq) + 16 * Level(m1) + 32 * rest;
            && high < 0x100 && high / 2 % 2 == Level(wr) && high / 4 % 2 == Level(mreq)
            && high / 8 % 2 == Level(iorq) && high / 16 % 2 == Level(m1)
  {
    var h16 := Level(m1) + 2 * rest;
    var h8 := Level(iorq) + 2 * h16;
    var h4 := Level(mreq) + 2 * h8;
    var h2 := Level(wr) + 2 * h4;
    var high := Level(rd) + 2 * h2;
    assert high / 2 == h2 && high / 4 == h4 && high / 8 == h8 && high / 16 == h16;
  }

  /** Round trip: each decoder recovers address, data and cycle kind from any snapshot in which
    * its qualifier is asserted, and refuses every other. */
  lemma DecodeSnapshot(addr: Half, data: Byte, rd: bool, wr: bool, mreq: bool, iorq: bool, m1: bool, rest: nat)
    requires rest < 8
    ensures var raw := Snapshot(addr, data, rd, wr, mreq, iorq, m1, rest);
            && DecodeMem(raw) == (if !mreq then None
                                  else if m1 then Some(Event(Fetch, addr, data, true))
                                  else if wr then Some(Event(MemWrite, addr, data, true))
                                  else Some(Event(MemRead, addr, data, false)))
            && DecodeIo(raw) == (if !iorq then None
                                 else if wr then Some(Event(IoWrite, addr, data, true))
                                 else Some(Event(IoRead, addr, data, false)))
  {
    ControlBits(rd, wr, mreq, iorq, m1, rest);
    var high := Level(rd) + 2 * Level(wr) + 4 * Level(mreq) + 8 * Level(iorq) + 16 * Level(m1) + 32 * rest;
    FieldsOf(addr, data, high);
    assert Snapshot(addr, data, rd, wr, mreq, iorq, m1, rest) == addr + 0x1_0000 * data + 0x100_0000 * high;
  }

  // ----- the merged stream -----

  datatype Source = MemRing | IoRing | Alog

  datatype Tagged = Tagged(src: Source, raw: Word)

  function Decode(t: Tagged): Option<Event> {
    match t.src
    case MemRing => DecodeMem(t.raw)
    case IoRing => DecodeIo(t.raw)
    case Alog => DecodeAlog(t.raw)
  }

  /** The events that a merged stream of words stands for. */
  function Events(ts: seq<Tagged>): seq<Event> {
    if ts == [] then []
    else Events(ts[..|ts| - 1]) + match Decode(ts[|ts| - 1]) case Some(e) => [e] case None => []
  }

  /** What one source contributed, in order. */
  function Only(ts: seq<Tagged>, src: Source): seq<Tagged> {
    if ts == [] then []
    else Only(ts[..|ts| - 1], src) + if ts[|ts| - 1].src == src then [ts[|ts| - 1]] else []
  }

  function After(ts: seq<Tagged>): DetectState { FeedAll(Events(ts)) }

  lemma {:induction false} EventsStep(ts: seq<Tagged>, t: Tagged)
    ensures After(ts + [t]) == match Decode(t) case Some(e) => FeedOne(After(ts), e) case None => After(ts)
  {
    assert (ts + [t])[..|ts|] == ts;
    match Decode(t)
    case Some(e) => FeedAllStep(Events(ts), e);
    case None => assert Events(ts + [t]) == Events(ts);
  }

  lemma {:induction false} OnlyStep(ts: seq<Tagged>, t: Tagged, src: Source)
    ensures Only(ts + [t], src) == if t.src == src then Only(ts, src) + [t] else Only(ts, src)
  {
    assert (ts + [t])[..|ts|] == ts;
  }

  /** Only the alog stream may touch the header bytes. */
  lemma HeaderOnlyFromAlog(t: Tagged, addr: Half)
    requires Decode(t).Some? && HeaderByte(Decode(t).value, addr)
    ensures t.src == Alog
  {
  }

  /** The parts of the final state that the three streams determine, each on its own. */
  ghost predicate Merged(s: DetectState, m: DetectState, i: DetectState, a: DetectState) {
    && s.phaseFlags == m.phaseFlags + i.phaseFlags + a.phaseFlags
    && s.earlyPpiWrites == (m.earlyPpiWrites || i.earlyPpiWrites || a.earlyPpiWrites)
    && s.workAreaInit == (m.workAreaInit || i.workAreaInit || a.workAreaInit)
    && s.headerRead == a.headerRead && s.header4000 == a.header4000 && s.header4001 == a.header4001
  }

  lemma MergedMem(s: DetectState, m: DetectState, i: DetectState, a: DetectState, e: Event)
    requires Merged(s, m, i, a) && !HeaderByte(e, 0x4000) && !HeaderByte(e, 0x4001)
    ensures Merged(FeedOne(s, e), FeedOne(m, e), i, a)
  {
  }

  lemma MergedIo(s: DetectState, m: DetectState, i: DetectState, a: DetectState, e: Event)
    requires Merged(s, m, i, a) && !HeaderByte(e, 0x4000) && !HeaderByte(e, 0x4001)
    ensures Merged(FeedOne(s, e), m, FeedOne(i, e), a)
  {
  }

  lemma MergedAlog(s: DetectState, m: DetectState, i: DetectState, a: DetectState, e: Event)
    requires Merged(s, m, i, a)
    ensures Merged(FeedOne(s, e), m, i, FeedOne(a, e))
  {
  }

  lemma {:induction false} StreamsMerge(ts: seq<Tagged>)
    ensures Merged(After(ts), After(Only(ts, MemRing)), After(Only(ts, IoRing)), After(Only(ts, Alog)))
  {
    if ts != [] {
      var init, t := ts[..|ts| - 1], ts[|ts| - 1];
      assert ts == init + [t];
      StreamsMerge(init);
      EventsStep(init, t);
      OnlyStep(init, t, MemRing);
      OnlyStep(init, t, IoRing);
      OnlyStep(init, t, Alog);
      EventsStep(Only(init, t.src), t);
      if Decode(t).Some? {
        var e := Decode(t).value;
        var s, m, i, a := After(init), After(Only(init, MemRing)), After(Only(init, IoRing)), After(Only(init, Alog));
        if t.src != Alog && (HeaderByte(e, 0x4000) || HeaderByte(e, 0x4001)) {
          HeaderOnlyFromAlog(t, e.addr);
        }
        match t.src
        case MemRing => MergedMem(s, m, i, a, e);
        case IoRing => MergedIo(s, m, i, a, e);
        case Alog => MergedAlog(s, m, i, a, e);
      }
    }
  }

  /** Confluence: any two interleavings of the same three streams leave the detector in the same
    * state, down to the header bytes and the derived fields. */
  lemma {:induction false} Confluence(ts: seq<Tagged>, us: seq<Tagged>)
    requires forall src :: Only(ts, src) == Only(us, src)
    ensures After(ts) == After(us)
  {
    StreamsMerge(ts);
    StreamsMerge(us);
    DetectorExact(Events(ts), 0);
    DetectorExact(Events(us), 0);
  }

  predicate WordImplies(t: Tagged, p: nat) { Decode(t).Some? && Implies(Decode(t).value, p) }

  /** A phase is set after a merged stream iff one of its words decodes to an event that means it. */
  lemma {:induction false} PhaseIffWord(ts: seq<Tagged>, p: nat)
    ensures p in After(ts).phaseFlags <==> exists i :: 0 <= i < |ts| && WordImplies(ts[i], p)
  {
    if ts != [] {
      var init, t := ts[..|ts| - 1], ts[|ts| - 1];
      assert ts == init + [t];
      PhaseIffWord(init, p);
      EventsStep(init, t);
      if Decode(t).Some? { PhasesOfExactly(Decode(t).value, p); }
      assert forall i :: 0 <= i < |init| ==> init[i] == ts[i];
      assert t == ts[|init|];
    }
  }

  // ----- what the drains hand out, stream by stream -----

  function TagAll(src: Source, ws: seq<Word>): seq<Tagged> { seq(|ws|, i requires 0 <= i < |ws| => Tagged(src, ws[i])) }

  lemma {:induction false} OnlyOfTwo(ts: seq<Tagged>, us: seq<Tagged>, src: Source)
    ensures Only(ts + us, src) == Only(ts, src) + Only(us, src)
  {
    if us == [] {
      assert ts + us == ts;
    } else {
      var init := us[..|us| - 1];
      OnlyOfTwo(ts, init, src);
      assert ts + us == (ts + init) + [us[|us| - 1]];
      OnlyStep(ts + init, us[|us| - 1], src);
    }
  }

  lemma {:induction false} OnlyOfTagged(from: Source, ws: seq<Word>, src: Source)
    ensures Only(TagAll(from, ws), src) == if from == src then TagAll(from, ws) else []
  {
    if ws != [] {
      var init := ws[..|ws| - 1];
      OnlyOfTagged(from, init, src);
      assert TagAll(from, ws)[..|ws| - 1] == TagAll(from, init);
    }
  }

  /** The three streams one after the other. */
  function InTurn(mem: seq<Word>, io: seq<Word>, alog: seq<Word>): seq<Tagged> {
    TagAll(MemRing, mem) + TagAll(IoRing, io) + TagAll(Alog, alog)
  }

  function Of(mem: seq<Word>, io: seq<Word>, alog: seq<Word>, src: Source): seq<Word> {
    match src case MemRing => mem case IoRing => io case Alog => alog
  }

  lemma OnlyOfInTurn(mem: seq<Word>, io: seq<Word>, alog: seq<Word>, src: Source)
    ensures Only(InTurn(mem, io, alog), src) == TagAll(src, Of(mem, io, alog, src))
  {
    OnlyOfTwo(TagAll(MemRing, mem) + TagAll(IoRing, io), TagAll(Alog, alog), src);
    OnlyOfTwo(TagAll(MemRing, mem), TagAll(IoRing, io), src);
    OnlyOfTagged(MemRing, mem, src);
    OnlyOfTagged(IoRing, io, src);
    OnlyOfTagged(Alog, alog, src);
  }

  /** `since` merges exactly these three streams, each in its own order. */
  ghost predicate Merges(since: seq<Tagged>, mem: seq<Word>, io: seq<Word>, alog: seq<Word>) {
    forall src :: Only(since, src) == TagAll(src, Of(mem, io, alog, src))
  }

  /** A stream, one word longer if the word is its own. */
  function Longer(ws: seq<Word>, t: Tagged, src: Source): seq<Word> { if t.src == src then ws + [t.raw] else ws }

  lemma OneMoreOf(since: seq<Tagged>, ws: seq<Word>, t: Tagged, src: Source)
    requires Only(since, src) == TagAll(src, ws)
    ensures Only(since + [t], src) == TagAll(src, Longer(ws, t, src))
  {
    OnlyStep(since, t, src);
    assert TagAll(src, ws + [t.raw]) == TagAll(src, ws) + [Tagged(src, t.raw)];
  }

  lemma MergesOneMore(since: seq<Tagged>, mem: seq<Word>, io: seq<Word>, alog: seq<Word>, t: Tagged)
    requires Merges(since, mem, io, alog)
    ensures Merges(since + [t], Longer(mem, t, MemRing), Longer(io, t, IoRing), Longer(alog, t, Alog))
  {
    OneMoreOf(since, mem, t, MemRing);
    OneMoreOf(since, io, t, IoRing);
    OneMoreOf(since, alog, t, Alog);
  }

  lemma SplitOne(since: seq<Tagged>, ws: seq<Word>, src: Source, at: nat) returns (n: nat)
    requires at <= |since| && Only(since, src) == TagAll(src, ws)
    ensures n <= |ws|
    ensures Only(since[..at], src) == TagAll(src, ws[..n]) && Only(since[at..], src) == TagAll(src, ws[n..])
  {
    assert since[..at] + since[at..] == since;
    OnlyOfTwo(since[..at], since[at..], src);
    n := |Only(since[..at], src)|;
    assert TagAll(src, ws[..n]) == TagAll(src, ws)[..n];
    assert TagAll(src, ws[n..]) == TagAll(src, ws)[n..];
  }

  /** A merge cut in two: each part merges its parts of the streams. */
  lemma MergesSplit(since: seq<Tagged>, mem: seq<Word>, io: seq<Word>, alog: seq<Word>, at: nat)
    returns (i: nat, j: nat, k: nat)
    requires Merges(since, mem, io, alog) && at <= |since|
    ensures i <= |mem| && j <= |io| && k <= |alog|
    ensures Merges(since[..at], mem[..i], io[..j], alog[..k]) && Merges(since[at..], mem[i..], io[j..], alog[k..])
  {
    i := SplitOne(since, mem, MemRing, at);
    j := SplitOne(since, io, IoRing, at);
    k := SplitOne(since, alog, Alog, at);
  }

  /** However the drains were scheduled, the detector ends as if it had been fed each stream
    * whole, one after the other. */
  lemma ScheduleDoesNotMatter(before: seq<Tagged>, since: seq<Tagged>, mem: seq<Word>, io: seq<Word>, alog: seq<Word>)
    requires Merges(since, mem, io, alog)
    ensures After(before + since) == After(before + InTurn(mem, io, alog))
  {
    forall src
      ensures Only(before + since, src) == Only(before + InTurn(mem, io, alog), src)
    {
      OnlyOfTwo(before, since, src);
      OnlyOfTwo(before, InTurn(mem, io, alog), src);
      OnlyOfInTurn(mem, io, alog, src);
    }
    Confluence(before + since, before + InTurn(mem, io, alog));
  }
}
