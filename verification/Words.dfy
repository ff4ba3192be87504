/** Machine words. A number is an int in range; a bit mask is the set of its bit
  * positions, so that `|`, `&`, `& ~` and a population count are union, intersection,
  * difference and cardinality. */
module Words {
  const U32 := 0x1_0000_0000

  type Byte = x: int | 0 <= x < 0x100
  type Half = x: int | 0 <= x < 0x1_0000
  type Word = x: int | 0 <= x < U32

  datatype Option<+T> = None | Some(value: T)

  /** Unsigned 32-bit arithmetic. */
  function Wrap32(x: int): (r: nat)
    ensures r < U32
  {
    x % U32
  }

  /** A string cut to at most n chars. */
  function Cut(s: string, n: nat): string { if |s| <= n then s else s[..n] }

  function Pow2(k: nat): (p: nat)
    ensures p > 0
  {
    if k == 0 then 1 else 2 * Pow2(k - 1)
  }

  predicate Bit(n: nat, k: nat) {
    if k == 0 then n % 2 == 1 else Bit(n / 2, k - 1)
  }

  /** The mask n, cut to `width` bits, and its complement. */
  function Bits(n: nat, width: nat): set<nat> { set k: nat | k < width && Bit(n, k) }

  function Unset(n: nat, width: nat): set<nat> { set k: nat | k < width && !Bit(n, k) }

  /** All positions of a mask of the given width. */
  function All(width: nat): set<nat> { Bits(0, width) + Unset(0, width) }

  lemma AllStep(width: nat)
    ensures All(width + 1) == All(width) + {width} && width !in All(width)
  {
  }

  lemma InsertSize(a: set<nat>, x: nat)
    requires x !in a
    ensures |a + {x}| == |a| + 1
  {
  }

  lemma {:induction false} AllSize(width: nat)
    ensures |All(width)| == width
  {
    if width == 0 {
      assert All(0) == {};
    } else {
      AllSize(width - 1);
      AllStep(width - 1);
      InsertSize(All(width - 1), width - 1);
    }
  }

  /** Wrap-around keeps sums and short distances. */
  lemma WrapAdd(x: nat, d: nat)
    ensures Wrap32(Wrap32(x) + d) == Wrap32(x + d)
  {
  }

  lemma WrapDistance(x: nat, d: nat)
    requires d < U32
    ensures Wrap32(Wrap32(x + d) - Wrap32(x)) == d
  {
  }

  // ----- population count -----

  lemma HalveBits(n: nat, width: nat)
    ensures |Bits(n, width + 1)| == n % 2 + |Bits(n / 2, width)|
  {
    var up := set k | k in Bits(n / 2, width) :: k + 1;
    ShiftSize(Bits(n / 2, width), up);
    forall k: nat
      ensures k in Bits(n, width + 1) <==> k in up || (k == 0 && n % 2 == 1)
    {
      if k > 0 {
        assert k in up <==> k - 1 in Bits(n / 2, width);
      }
    }
    if n % 2 == 1 {
      assert Bits(n, width + 1) == up + {0};
    } else {
      assert Bits(n, width + 1) == up;
    }
  }

  lemma {:induction false} ShiftSize(a: set<nat>, b: set<nat>)
    requires forall y: nat :: y in b <==> y > 0 && y - 1 in a
    ensures |b| == |a|
  {
    if a == {} {
      assert b == {};
    } else {
      var x :| x in a;
      ShiftSize(a - {x}, b - {x + 1});
    }
  }

  lemma {:induction false} ZeroHasNoBit(k: nat)
    ensures !Bit(0, k)
  {
    if k > 0 { ZeroHasNoBit(k - 1); }
  }

  lemma {:induction false} NoBitFrom(n: nat, k: nat, m: nat)
    requires n < Pow2(m) && m <= k
    ensures !Bit(n, k)
  {
    if m == 0 {
      ZeroHasNoBit(k);
    } else {
      NoBitFrom(n / 2, k - 1, m - 1);
    }
  }

  lemma {:induction false} MaxHasEveryBit(width: nat, k: nat)
    requires k < width
    ensures Bit(Pow2(width) - 1, k)
  {
    if k > 0 { MaxHasEveryBit(width - 1, k - 1); }
  }

  lemma NoBitsInZero(width: nat)
    ensures Bits(0, width) == {}
  {
    forall k: nat | k < width ensures !Bit(0, k) { ZeroHasNoBit(k); }
  }

  /** `popcount16`: shift the mask out and count. */
  method PopCount16(v: Half) returns (c: nat)
    ensures c == |Bits(v, 16)|
  {
    c := 0;
    var w: nat := v;
    ghost var left: nat := 16;
    assert Pow2(4) == 16 && Pow2(8) == 256 && Pow2(12) == 4096 && Pow2(16) == 65536;
    while w != 0
      invariant c + |Bits(w, left)| == |Bits(v, 16)|
      invariant w < Pow2(left)
      decreases w
    {
      HalveBits(w, left - 1);
      c := c + w % 2;
      w := w / 2;
      left := left - 1;
    }
    NoBitsInZero(left);
  }
}
