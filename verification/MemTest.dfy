/** The RAM and VRAM tests of the diagnostic ROM, main.asm: two patterns written and read back
  * over a range, with 16-bit counters that end by wrapping.
  *
  * A byte is the set of its bit positions; a fault pins some bits of a cell to fixed levels. */
module MemTest {
  import opened Words

  type Bits8 = s: set<nat> | forall k: nat :: k in s ==> k < 8

  const AA: Bits8 := {1, 3, 5, 7}
  const FIVES: Bits8 := {0, 2, 4, 6}

  const RAM_START := 0xC000
  const RAM_END := 0xFFFF
  const VRAM_TEST_START := 0x1000
  const VRAM_TEST_END := 0x3FFF

  /** The two patterns are the bytes $AA and $55. */
  lemma PatternBytes()
    ensures Bits(0xAA, 8) == AA && Bits(0x55, 8) == FIVES
  {
    assert !Bit(0xAA, 0) && Bit(0xAA, 1) && !Bit(0xAA, 2) && Bit(0xAA, 3);
    assert !Bit(0xAA, 4) && Bit(0xAA, 5) && !Bit(0xAA, 6) && Bit(0xAA, 7);
    assert Bit(0x55, 0) && !Bit(0x55, 1) && Bit(0x55, 2) && !Bit(0x55, 3);
    assert Bit(0x55, 4) && !Bit(0x55, 5) && Bit(0x55, 6) && !Bit(0x55, 7);
  }

  datatype Fault = Fault(stuck: Bits8, high: Bits8)

  /** What a read of a faulty cell sees. */
  function Seen(stored: Bits8, f: Fault): Bits8 { (stored - f.stuck) + (f.high * f.stuck) }

  /** Every stuck bit disagrees with one of the two patterns, so both read back right only from a
    * cell without any. */
  lemma PatternsCatchAll(f: Fault)
    ensures Seen(AA, f) == AA && Seen(FIVES, f) == FIVES <==> f.stuck == {}
  {
    if f.stuck != {} {
      var k :| k in f.stuck;
      assert k in AA || k in FIVES;
      assert k in Seen(AA, f) <==> k in Seen(FIVES, f);
      assert k in AA <==> k !in FIVES;
    }
  }

  datatype Verdict = Pass | Fail(addr: nat, expected: Bits8, actual: Bits8)

  /** a is the lowest address of a range whose cell does not read back the pattern. */
  ghost predicate FirstBad(faults: seq<Fault>, p: Bits8, lo: nat, hi: nat, a: nat)
    requires lo <= hi < |faults|
  {
    && lo <= a <= hi && Seen(p, faults[a]) != p
    && forall b :: lo <= b < a ==> Seen(p, faults[b]) == p
  }

  ghost predicate AllGood(faults: seq<Fault>, p: Bits8, lo: nat, hi: nat)
    requires hi < |faults|
  {
    forall b :: lo <= b <= hi ==> Seen(p, faults[b]) == p
  }

  /** The verdict that a test of [lo, hi] must give. */
  ghost predicate Right(faults: seq<Fault>, lo: nat, hi: nat, v: Verdict)
    requires lo <= hi < |faults|
  {
    match v
    case Pass => AllGood(faults, AA, lo, hi) && AllGood(faults, FIVES, lo, hi)
    case Fail(a, e, got) =>
      lo <= a <= hi && got == Seen(e, faults[a]) && FirstBad(faults, e, lo, hi, a)
      && (e == AA || (e == FIVES && AllGood(faults, AA, lo, hi)))
  }

  /** Exactness: the test passes iff no bit of the range is stuck, otherwise it reports the lowest
    * failing address of the first failing pass; and only one verdict is right. */
  lemma RightMeans(faults: seq<Fault>, lo: nat, hi: nat, v: Verdict)
    requires lo <= hi < |faults| && Right(faults, lo, hi, v)
    ensures v == Pass <==> forall b :: lo <= b <= hi ==> faults[b].stuck == {}
    ensures v != Pass ==> faults[v.addr].stuck != {}
    ensures forall w :: Right(faults, lo, hi, w) ==> w == v
  {
    forall b | lo <= b <= hi
      ensures Seen(AA, faults[b]) == AA && Seen(FIVES, faults[b]) == FIVES <==> faults[b].stuck == {}
    {
      PatternsCatchAll(faults[b]);
    }
    assert 1 in AA && 1 !in FIVES;
  }

  // ----- RAM, addressed by HL -----

  class Ram {
    const cells: array<Bits8>
    const faults: seq<Fault>

    ghost predicate Valid() { cells.Length == 0x1_0000 == |faults| }

    constructor (faults: seq<Fault>)
      requires |faults| == 0x1_0000
      ensures Valid() && this.faults == faults && fresh(cells)
    {
      this.faults := faults;
      cells := new Bits8[0x1_0000](_ => {});
    }

    /** The counted fill loop: HL runs up from the start of RAM while the 16-bit count runs down to 0. */
    method Fill(p: Bits8)
      requires Valid()
      modifies cells
      ensures forall a :: RAM_START <= a <= RAM_END ==> cells[a] == p
      ensures forall a :: 0 <= a < RAM_START ==> cells[a] == old(cells[a])
    {
      var hl: Half := RAM_START;
      var bc: Half := RAM_END - RAM_START + 1;
      while true
        invariant 0 < bc <= 0x4000 && hl == RAM_START + (0x4000 - bc)
        invariant forall a :: RAM_START <= a < hl ==> cells[a] == p
        invariant forall a :: 0 <= a < RAM_START ==> cells[a] == old(cells[a])
        decreases bc
      {
        cells[hl] := p;
        hl := (hl + 1) % 0x1_0000;
        bc := (bc - 1) % 0x1_0000;
        if bc == 0 { break; }
      }
    }

    /** The counted compare loop, which leaves for the failure exit at the first mismatch, HL naming it. */
    method Verify(p: Bits8) returns (v: Verdict)
      requires Valid() && forall a :: RAM_START <= a <= RAM_END ==> cells[a] == p
      ensures v == Pass ==> AllGood(faults, p, RAM_START, RAM_END)
      ensures v != Pass ==> v.expected == p && FirstBad(faults, p, RAM_START, RAM_END, v.addr)
                            && v.actual == Seen(p, faults[v.addr])
    {
      var hl: Half := RAM_START;
      var bc: Half := RAM_END - RAM_START + 1;
      while true
        invariant 0 < bc <= 0x4000 && hl == RAM_START + (0x4000 - bc)
        invariant forall b :: RAM_START <= b < hl ==> Seen(p, faults[b]) == p
        decreases bc
      {
        var a := Seen(cells[hl], faults[hl]);
        if a != p { return Fail(hl, p, a); }
        hl := (hl + 1) % 0x1_0000;
        bc := (bc - 1) % 0x1_0000;
        if bc == 0 { break; }
      }
      return Pass;
    }

    method Test() returns (v: Verdict)
      requires Valid()
      modifies cells
      ensures Right(faults, RAM_START, RAM_END, v)
      ensures forall a :: 0 <= a < RAM_START ==> cells[a] == old(cells[a])
    {
      Fill(AA);
      v := Verify(AA);
      if v != Pass { return; }
      Fill(FIVES);
      v := Verify(FIVES);
    }
  }

  // ----- VRAM, behind the VDP's auto-incrementing address counter -----

  lemma SixBits(high: nat, low: nat)
    requires low < 0x100
    ensures high % 0x40 * 0x100 + low == (high * 0x100 + low) % 0x4000
  {
  }

  class Vram {
    const cells: array<Bits8>
    const faults: seq<Fault>
    var counter: nat

    ghost predicate Valid()
      reads this
    {
      cells.Length == 0x4000 == |faults| && counter < 0x4000
    }

    constructor (faults: seq<Fault>)
      requires |faults| == 0x4000
      ensures Valid() && this.faults == faults && fresh(cells)
    {
      this.faults := faults;
      cells := new Bits8[0x4000](_ => {});
      counter := 0;
    }

    /** `VDP_SetWrite` and `VDP_SetRead`: the low six bits of H above L. */
    method SetAddress(hl: Half)
      requires Valid()
      modifies this`counter
      ensures Valid() && counter == hl % 0x4000
    {
      SixBits(hl / 0x100, hl % 0x100);
      counter := hl / 0x100 % 0x40 * 0x100 + hl % 0x100;
    }

    method Out(p: Bits8)
      requires Valid()
      modifies this`counter, cells
      ensures Valid() && counter == (old(counter) + 1) % 0x4000
      ensures forall a :: 0 <= a < 0x4000 ==> cells[a] == if a == old(counter) then p else old(cells[a])
    {
      cells[counter] := p;
      counter := (counter + 1) % 0x4000;
    }

    method In() returns (a: Bits8)
      requires Valid()
      modifies this`counter
      ensures Valid() && counter == (old(counter) + 1) % 0x4000
      ensures a == Seen(cells[old(counter)], faults[old(counter)])
    {
      a := Seen(cells[counter], faults[counter]);
      counter := (counter + 1) % 0x4000;
    }

    /** The counted fill loop through the VDP's data port, whose address counter moves on by itself. */
    method Fill(p: Bits8)
      requires Valid()
      modifies this`counter, cells
      ensures Valid()
      ensures forall a :: VRAM_TEST_START <= a <= VRAM_TEST_END ==> cells[a] == p
      ensures forall a :: 0 <= a < VRAM_TEST_START ==> cells[a] == old(cells[a])
    {
      SetAddress(VRAM_TEST_START);
      var bc: Half := VRAM_TEST_END - VRAM_TEST_START + 1;
      while true
        invariant Valid() && 0 < bc <= 0x3000 && counter == VRAM_TEST_START + (0x3000 - bc)
        invariant forall a :: VRAM_TEST_START <= a < counter ==> cells[a] == p
        invariant forall a :: 0 <= a < VRAM_TEST_START ==> cells[a] == old(cells[a])
        decreases bc
      {
        Out(p);
        bc := (bc - 1) % 0x1_0000;
        if bc == 0 { break; }
      }
    }

    /** The counted compare loop through the data port: HL takes no part in the access and only counts
      * along, to name the failing address. */
    method Verify(p: Bits8) returns (v: Verdict)
      requires Valid() && forall a :: VRAM_TEST_START <= a <= VRAM_TEST_END ==> cells[a] == p
      modifies this`counter
      ensures Valid()
      ensures v == Pass ==> AllGood(faults, p, VRAM_TEST_START, VRAM_TEST_END)
      ensures v != Pass ==> v.expected == p && FirstBad(faults, p, VRAM_TEST_START, VRAM_TEST_END, v.addr)
                            && v.actual == Seen(p, faults[v.addr])
    {
      var hl: Half := VRAM_TEST_START;
      SetAddress(hl);
      var bc: Half := VRAM_TEST_END - VRAM_TEST_START + 1;
      while true
        invariant Valid() && 0 < bc <= 0x3000 && hl == counter == VRAM_TEST_START + (0x3000 - bc)
        invariant forall b :: VRAM_TEST_START <= b < hl ==> Seen(p, faults[b]) == p
        decreases bc
      {
        var a := In();
        if a != p { return Fail(hl, p, a); }
        hl := (hl + 1) % 0x1_0000;
        bc := (bc - 1) % 0x1_0000;
        if bc == 0 { break; }
      }
      return Pass;
    }

    /** The display area below VRAM_TEST_START is never written. */
    method Test() returns (v: Verdict)
      requires Valid()
      modifies this`counter, cells
      ensures Valid() && Right(faults, VRAM_TEST_START, VRAM_TEST_END, v)
      ensures forall a :: 0 <= a < VRAM_TEST_START ==> cells[a] == old(cells[a])
    {
      Fill(AA);
      v := Verify(AA);
      if v != Pass { return; }
      Fill(FIVES);
      v := Verify(FIVES);
    }
  }
}
