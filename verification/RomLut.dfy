/** The ROM image store and the 64 KB lookup table of cart_serve.c and rom_lut.c. */
module RomLut {
  import opened Words

  const LUT_LEN := 65536
  const ROM_LEN := 16384
  const WINDOW_START := 0x4000
  const WINDOW_END := 0x7FFF

  /** The plain read-only memory that the cartridge has to look like on the bus. */
  function RomByte(image: seq<Byte>, addr: int): Byte {
    if WINDOW_START <= addr <= WINDOW_END && addr - WINDOW_START < |image|
    then image[addr - WINDOW_START]
    else 0xFF
  }

  // The bus is wired 1:1, so both permutations are the identity.
  function ReversePermute(addr: nat): nat { addr }

  function PermuteData(b: Byte): Byte { b }

  method RomLutBuild(sram: array<Byte>, sramLen: nat, lut: array<Byte>)
    requires sramLen <= sram.Length && lut.Length == LUT_LEN && lut != sram
    modifies lut
    ensures forall raw :: 0 <= raw < LUT_LEN ==> lut[raw] == RomByte(sram[..sramLen], raw)
  {
    for i := 0 to LUT_LEN
      invariant forall raw :: 0 <= raw < i ==> lut[raw] == 0xFF
    {
      lut[i] := 0xFF;
    }
    for logical := WINDOW_START to WINDOW_END + 1
      invariant forall raw :: 0 <= raw < LUT_LEN ==>
        lut[raw] == if raw < logical then RomByte(sram[..sramLen], raw) else 0xFF
    {
      var srcIdx := logical - WINDOW_START;
      var byte := if srcIdx < sramLen then sram[srcIdx] else 0xFF;
      lut[ReversePermute(logical)] := PermuteData(byte);
    }
  }

  /** The statics `rom_sram` and `rom_lut`. */
  class RomStore {
    const romSram: array<Byte>
    const romLut: array<Byte>

    ghost predicate Valid() {
      romSram.Length == ROM_LEN && romLut.Length == LUT_LEN && romSram != romLut
    }

    constructor ()
      ensures Valid() && fresh(romSram) && fresh(romLut)
    {
      romSram := new Byte[ROM_LEN](_ => 0);
      romLut := new Byte[LUT_LEN](_ => 0);
    }

    /** `cart_serve_init` up to the table: copy, pad, build. A null image with a
      * non-zero size skips the copy but still pads only behind that size, so the
      * front of the store keeps what it held. */
    method Init(image: Option<seq<Byte>>, romSize: nat)
      requires Valid()
      requires image.Some? ==> romSize <= |image.value|
      modifies romSram, romLut
      ensures image.Some? ==>
        forall raw :: 0 <= raw < LUT_LEN ==> romLut[raw] == RomByte(image.value[..romSize], raw)
      ensures image.Some? ==>
        forall i :: 0 <= i < ROM_LEN ==> romSram[i] == RomByte(image.value[..romSize], WINDOW_START + i)
      ensures image.None? ==>
        forall i :: 0 <= i < ROM_LEN ==> romSram[i] == if i < romSize then old(romSram[i]) else 0xFF
      ensures forall raw :: 0 <= raw < LUT_LEN ==> romLut[raw] == RomByte(romSram[..], raw)
    {
      var copyLen := if romSize < ROM_LEN then romSize else ROM_LEN;
      if image.Some? {
        for i := 0 to copyLen
          invariant forall j :: 0 <= j < i ==> romSram[j] == image.value[j]
        {
          romSram[i] := image.value[i];
        }
      }
      for i := copyLen to ROM_LEN
        invariant forall j :: 0 <= j < copyLen ==>
          romSram[j] == if image.Some? then image.value[j] else old(romSram[j])
        invariant forall j :: copyLen <= j < i ==> romSram[j] == 0xFF
      {
        romSram[i] := 0xFF;
      }
      RomLutBuild(romSram, ROM_LEN, romLut);
      assert romSram[..ROM_LEN] == romSram[..];
    }
  }
}
