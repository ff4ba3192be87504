/** Truncating appends into a caller's char buffer, and texts made of lines. */
module TextBuffer {
  import opened Words

  // ----- printf conversions -----

  function Digit(d: nat): char
    requires d < 16
  {
    if d < 10 then '0' + d as char else 'A' + (d - 10) as char
  }

  /** `%u`. */
  function Dec(n: nat): string {
    if n < 10 then [Digit(n)] else Dec(n / 10) + [Digit(n % 10)]
  }

  /** `%02X`. */
  function Hex2(b: Byte): string { [Digit(b / 16), Digit(b % 16)] }

  /** The mask as the unsigned integer it is in the source. */
  function MaskValue(mask: set<nat>, width: nat): (v: nat)
    ensures v < Pow2(width)
  {
    if width == 0 then 0
    else MaskValue(mask, width - 1) + if width - 1 in mask then Pow2(width - 1) else 0
  }

  function MaskByte(mask: set<nat>): Byte {
    assert Pow2(4) == 16 && Pow2(8) == 256;
    MaskValue(mask, 8)
  }

  /** `!mask`. */
  predicate Zero(mask: set<nat>, width: nat) { forall k: nat :: k < width ==> k !in mask }

  // ----- the buffer -----

  /** The buffer holds as much of the text as fits, and a NUL behind it. */
  ghost predicate Holds(buf: array<char>, off: nat, text: string)
    reads buf
  {
    off < buf.Length && buf[..off] == Cut(text, buf.Length - 1) && buf[off] == '\0'
  }

  /** `appendf`, given the formatted text; `soFar` is what was appended before. */
  method Append(buf: array<char>, off: nat, ghost soFar: string, s: string) returns (o: nat)
    requires off < buf.Length ==> buf[..off] == Cut(soFar, buf.Length - 1)
    modifies buf
    ensures off < buf.Length ==> Holds(buf, o, soFar + s)
    ensures off >= buf.Length ==> o == off && buf[..] == old(buf[..])
  {
    if off >= buf.Length { return off; }
    var room := buf.Length - off;
    var n := if |s| < room then |s| else room - 1;
    for i := 0 to n
      invariant buf[..off + i] == buf[..off] + s[..i]
      invariant buf[..off] == old(buf[..off])
    {
      buf[off + i] := s[i];
      assert buf[..off + i + 1] == buf[..off + i] + [s[i]];
    }
    buf[off + n] := '\0';
    assert buf[..off + n] == old(buf[..off]) + s[..n];
    o := off + |s|;
    if o >= buf.Length { o := buf.Length - 1; }
  }

  // ----- lines -----

  lemma Assoc(a: string, b: string, c: string)
    ensures a + b + c == a + (b + c)
  {
  }

  /** No newline and no NUL. */
  predicate Plain(s: string) { forall i :: 0 <= i < |s| ==> s[i] != '\n' && s[i] != '\0' }

  /** Not blank, and ended by its only newline. */
  predicate OneLine(s: string) { |s| > 1 && s[|s| - 1] == '\n' && Plain(s[..|s| - 1]) }

  predicate AllLines(ls: seq<string>) { forall l :: l in ls ==> OneLine(l) }

  lemma JoinPlain(a: string, b: string)
    requires Plain(a) && Plain(b)
    ensures Plain(a + b)
  {
  }

  lemma JoinLine(a: string, b: string)
    requires Plain(a) && OneLine(b)
    ensures OneLine(a + b)
  {
    assert (a + b)[..|a + b| - 1] == a + b[..|b| - 1];
  }

  lemma EndLine(a: string)
    requires Plain(a) && a != ""
    ensures OneLine(a + "\n")
  {
    assert (a + "\n")[..|a + "\n"| - 1] == a;
  }

  lemma {:induction false} DecIsPlain(n: nat)
    ensures Plain(Dec(n)) && |Dec(n)| > 0
  {
    if n >= 10 { DecIsPlain(n / 10); }
  }

  // ----- texts made of lines -----

  function Concat(ss: seq<string>): string {
    if ss == [] then "" else Concat(ss[..|ss| - 1]) + ss[|ss| - 1]
  }

  /** The lines f(0) to f(n - 1). */
  function Collect(f: nat -> string, n: nat): seq<string> { if n == 0 then [] else Collect(f, n - 1) + [f(n - 1)] }

  lemma CollectStep(f: nat -> string, n: nat)
    ensures Concat(Collect(f, n + 1)) == Concat(Collect(f, n)) + f(n)
  {
    ConcatStep(Collect(f, n), f(n));
  }

  lemma ConcatStep(ss: seq<string>, s: string)
    ensures Concat(ss + [s]) == Concat(ss) + s
  {
    assert (ss + [s])[..|ss|] == ss;
  }

  lemma {:induction false} ConcatTwo(ss: seq<string>, ts: seq<string>)
    ensures Concat(ss + ts) == Concat(ss) + Concat(ts)
  {
    if ts == [] {
      assert ss + ts == ss;
    } else {
      assert (ss + ts)[..|ss + ts| - 1] == ss + ts[..|ts| - 1];
      ConcatTwo(ss, ts[..|ts| - 1]);
    }
  }

  lemma ConcatOne(s: string)
    ensures Concat([s]) == s
  {
    ConcatStep([], s);
    assert [] + [s] == [s];
  }

  lemma NonEmptyConcat(ls: seq<string>)
    requires ls != [] && AllLines(ls)
    ensures Concat(ls) != ""
  {
    assert ls[|ls| - 1] in ls;
  }

  /** Lines hold no NUL, so C string functions see all of them. */
  lemma {:induction false} LinesHaveNoNul(ls: seq<string>)
    requires AllLines(ls)
    ensures '\0' !in Concat(ls)
  {
    if ls != [] {
      var n := |ls| - 1;
      LinesHaveNoNul(ls[..n]);
      assert ls[n] in ls;
      assert ls[n] == ls[n][..|ls[n]| - 1] + ['\n'];
    }
  }

  // ----- taking a text apart again -----

  /** Where `strchr(s, '\n')` points, or the length if it finds none. */
  function NewlineAt(s: string): (i: nat)
    ensures i <= |s| && (i < |s| ==> s[i] == '\n')
    ensures forall j :: 0 <= j < i ==> s[j] != '\n'
  {
    if s == "" || s[0] == '\n' then 0 else 1 + NewlineAt(s[1..])
  }

  /** A text cut after each newline; what follows the last one is a piece of its own. */
  function SplitLines(s: string): seq<string> {
    var i := NewlineAt(s);
    if s == "" then [] else if i == |s| then [s] else [s[..i + 1]] + SplitLines(s[i + 1..])
  }

  lemma SplitFirst(line: string, rest: string)
    requires OneLine(line)
    ensures SplitLines(line + rest) == [line] + SplitLines(rest)
  {
    var s := line + rest;
    var k := |line| - 1;
    assert s[k] == '\n';
    assert forall j :: 0 <= j < k ==> s[j] == line[..k][j];
    assert NewlineAt(s) == k;
    assert s[..k + 1] == line && s[k + 1..] == rest;
  }

  /** Lines, and perhaps the start of one more, are found again. */
  lemma {:induction false} SplitOfConcat(ls: seq<string>, x: string)
    requires AllLines(ls) && Plain(x)
    ensures SplitLines(Concat(ls) + x) == ls + if x == "" then [] else [x]
  {
    if ls == [] {
      assert Concat(ls) + x == x;
      assert NewlineAt(x) == |x|;
    } else {
      var first, rest := ls[0], ls[1..];
      SplitOfConcat(rest, x);
      ConcatTwo([first], rest);
      ConcatOne(first);
      assert ls == [first] + rest;
      assert Concat(ls) + x == first + (Concat(rest) + x);
      SplitFirst(first, Concat(rest) + x);
    }
  }

  lemma PrefixBreak(s: string, n: nat, i: nat)
    requires n <= |s| && i == NewlineAt(s)
    ensures NewlineAt(s[..n]) == if n <= i then n else i
    ensures n > i ==> s[..n][i + 1..] == s[i + 1..][..n - (i + 1)]
  {
    if n > i {
      assert s[..n][i] == '\n';
    }
  }

  lemma CutPiece(s: string, i: nat)
    requires i == NewlineAt(s) < |s|
    ensures |SplitLines(s)| == 1 + |SplitLines(s[i + 1..])|
  {
  }

  lemma LastPiece(s: string)
    requires NewlineAt(s) == |s|
    ensures |SplitLines(s)| == if s == "" then 0 else 1
  {
  }

  lemma {:induction false} PiecesOfPrefix(s: string, n: nat)
    requires n <= |s|
    ensures |SplitLines(s[..n])| <= |SplitLines(s)|
    decreases |s|
  {
    var i := NewlineAt(s);
    PrefixBreak(s, n, i);
    if n > i {
      PiecesOfPrefix(s[i + 1..], n - (i + 1));
      CutPiece(s, i);
      CutPiece(s[..n], i);
    } else {
      LastPiece(s[..n]);
    }
  }
}
