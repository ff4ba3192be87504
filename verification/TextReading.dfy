/** Reading the texts that the firmware writes: numbers, bit names and how a line ends. */
module TextReading {
  import opened Words
  import opened TextBuffer

  // ----- numbers -----

  predicate IsDigit(c: char) { '0' <= c <= '9' }

  function DigitValue(c: char): nat { if '0' <= c <= '9' then (c - '0') as nat else if 'A' <= c <= 'F' then (c - 'A') as nat + 10 else 0 }

  lemma DigitReadsBack(d: nat)
    requires d < 16
    ensures DigitValue(Digit(d)) == d && (d < 10 ==> IsDigit(Digit(d)))
  {
  }

  /** The number that a string of decimal digits denotes. */
  function ReadDec(s: string): nat { if s == "" then 0 else 10 * ReadDec(s[..|s| - 1]) + DigitValue(s[|s| - 1]) }

  predicate AllDigits(s: string) { forall i :: 0 <= i < |s| ==> IsDigit(s[i]) }

  lemma {:induction false} DecReadsBack(n: nat)
    ensures AllDigits(Dec(n)) && Dec(n) != "" && ReadDec(Dec(n)) == n
  {
    DigitReadsBack(n % 10);
    if n >= 10 {
      DecReadsBack(n / 10);
      assert Dec(n)[..|Dec(n)| - 1] == Dec(n / 10);
    } else {
      assert Dec(n)[..0] == "";
      assert ReadDec("") == 0;
    }
  }

  /** `%02X` of a mask: two digits whose value has exactly the mask's bits. */
  lemma {:induction false} BitOfSum(x: nat, w: nat, k: nat)
    requires x < Pow2(w)
    ensures Bit(x + Pow2(w), k) <==> k == w || (k < w && Bit(x, k))
    decreases w
  {
    if w == 0 {
      if k > 0 { ZeroHasNoBit(k - 1); }
    } else {
      assert (x + Pow2(w)) / 2 == x / 2 + Pow2(w - 1);
      if k > 0 { BitOfSum(x / 2, w - 1, k - 1); }
    }
  }

  lemma {:induction false} MaskHasBits(mask: set<nat>, width: nat, k: nat)
    ensures Bit(MaskValue(mask, width), k) <==> k < width && k in mask
  {
    if width == 0 {
      ZeroHasNoBit(k);
    } else {
      var x := MaskValue(mask, width - 1);
      MaskHasBits(mask, width - 1, k);
      if width - 1 in mask { BitOfSum(x, width - 1, k); } else { NoBitFrom(x, width - 1, width - 1); }
    }
  }

  function ReadHex2(s: string): nat
    requires |s| == 2
  {
    16 * DigitValue(s[0]) + DigitValue(s[1])
  }

  lemma HexOfMask(mask: set<nat>, k: nat)
    ensures |Hex2(MaskByte(mask))| == 2
    ensures Bit(ReadHex2(Hex2(MaskByte(mask))), k) <==> k < 8 && k in mask
  {
    var b := MaskByte(mask);
    DigitReadsBack(b / 16);
    DigitReadsBack(b % 16);
    MaskHasBits(mask, 8, k);
  }

  // ----- the name of a bit -----

  /** At place j stand the letter c and the number k, and the number ends there. */
  predicate NameAt(s: string, j: nat, c: char, k: nat) {
    var t := Dec(k);
    && j + 1 + |t| < |s| && s[j] == c && s[j + 1..j + 1 + |t|] == t && !IsDigit(s[j + 1 + |t|])
  }

  /** "ck" stands somewhere in the text. */
  ghost predicate Names(s: string, c: char, k: nat) { exists j :: 0 <= j < |s| && NameAt(s, j, c, k) }

  lemma DigitsAt(s: string, i: nat, n: nat)
    requires i + n <= |s| && AllDigits(s[i..i + n])
    ensures forall q :: i <= q < i + n ==> IsDigit(s[q])
  {
    forall q | i <= q < i + n ensures IsDigit(s[q]) { assert s[i..i + n][q - i] == s[q]; }
  }

  /** What is behind a number's last digit tells where it ends. */
  lemma SameNumber(s: string, i: nat, m: nat, n: nat)
    requires i + m < |s| && i + n < |s|
    requires AllDigits(s[i..i + m]) && !IsDigit(s[i + m]) && AllDigits(s[i..i + n]) && !IsDigit(s[i + n])
    ensures m == n
  {
    DigitsAt(s, i, m);
    DigitsAt(s, i, n);
  }

  lemma NumberAt(s: string, j: nat, c: char, k: nat)
    requires NameAt(s, j, c, k)
    ensures var n := |Dec(k)|;
            && j + 1 + n < |s| && AllDigits(s[j + 1..j + 1 + n]) && !IsDigit(s[j + 1 + n]) && ReadDec(s[j + 1..j + 1 + n]) == k
  {
    DecReadsBack(k);
  }

  lemma OneName(s: string, j: nat, c: char, k: nat, m: nat)
    requires NameAt(s, j, c, k) && NameAt(s, j, c, m)
    ensures k == m
  {
    NumberAt(s, j, c, k);
    NumberAt(s, j, c, m);
    SameNumber(s, j + 1, |Dec(k)|, |Dec(m)|);
  }

  // ----- how a line ends -----

  predicate EndsIn(l: string, t: string) { |t| <= |l| && l[|l| - |t|..] == t }

  function Tail(l: string): string { if |l| < 3 then l else l[|l| - 3..] }

  lemma TailOf(a: string, b: string)
    requires |b| >= 3
    ensures Tail(a + b) == Tail(b) && EndsIn(a + b, b)
  {
    assert (a + b)[|a + b| - 3..] == b[|b| - 3..];
    assert (a + b)[|a + b| - |b|..] == b;
  }

  lemma SameTail(l: string, t: string)
    requires EndsIn(l, t) && |t| >= 3
    ensures Tail(l) == Tail(t)
  {
    assert l[|l| - |t|..][|t| - 3..] == l[|l| - 3..];
  }

  lemma EndsInOwn(a: string, b: string, t: string)
    requires |t| == |b|
    ensures EndsIn(a + b, t) <==> b == t
  {
    assert (a + b)[|a + b| - |t|..] == b;
  }

  predicate Lacks(s: string, c: char) { forall i :: 0 <= i < |s| ==> s[i] != c }

  lemma JoinLacks(a: string, b: string, c: char)
    requires Lacks(a, c) && Lacks(b, c)
    ensures Lacks(a + b, c)
  {
  }
}
