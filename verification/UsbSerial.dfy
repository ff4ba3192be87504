/** usb_serial.c: the line rings between the cores and the accumulator that turns received
  * bytes into command lines. */
module UsbSerial {
  import opened Words

  const USB_OUT_RING_LINES := 32
  const USB_OUT_LINE_LEN := 80
  const CMD_RING_LINES := 8
  const CMD_LINE_LEN := 64

  // ----- C strings -----

  /** What a C string function sees: everything before the first NUL. */
  function CStr(s: string): (r: string)
    ensures r <= s && '\0' !in r
    ensures |r| < |s| ==> s[|r|] == '\0'
  {
    if s == [] || s[0] == '\0' then [] else [s[0]] + CStr(s[1..])
  }

  // ----- a ring of line buffers -----

  /** Each slot holds the bytes written before its terminator. The spin lock makes every method
    * one step. */
  class LineRing {
    const lines: array<string>
    const lineLen: nat
    var writeIdx: nat
    var readIdx: nat

    ghost predicate Valid()
      reads this
    {
      lines.Length >= 2 && lineLen >= 1 && writeIdx < lines.Length && readIdx < lines.Length
    }

    function Count(): nat
      requires Valid()
      reads this
    {
      if writeIdx >= readIdx then writeIdx - readIdx else writeIdx + lines.Length - readIdx
    }

    function Slot(k: nat): nat
      requires Valid() && k < lines.Length
      reads this
    {
      if readIdx + k < lines.Length then readIdx + k else readIdx + k - lines.Length
    }

    /** The abstract queue, oldest line first. */
    ghost function Contents(): (q: seq<string>)
      requires Valid()
      reads this, lines
      ensures |q| == Count() < lines.Length
    {
      seq(Count(), k requires Valid() && 0 <= k < Count() reads this, lines => lines[Slot(k)])
    }

    constructor (n: nat, len: nat)
      requires n >= 2 && len >= 1
      ensures Valid() && lines.Length == n && lineLen == len && fresh(lines)
      ensures Contents() == []
    {
      lines := new string[n](_ => "");
      lineLen := len;
      writeIdx, readIdx := 0, 0;
    }

    /** Enqueue bytes as they are (the `memcpy` of usb_serial_task); a full ring drops them. */
    method Push(bytes: string)
      requires Valid()
      modifies this`writeIdx, lines
      ensures Valid()
      ensures Contents() == Offer(old(Contents()), bytes, lines.Length - 1)
    {
      var next := (writeIdx + 1) % lines.Length;
      NextIndex(writeIdx, lines.Length);
      ghost var q := Contents();
      if next != readIdx {
        lines[writeIdx] := bytes;
        writeIdx := next;
        assert Contents() == q + [bytes];
      }
    }

    /** `usb_serial_write_line`: `strncpy` into the slot, cut to fit. */
    method WriteLine(line: string)
      requires Valid()
      modifies this`writeIdx, lines
      ensures Valid()
      ensures Contents() == Offer(old(Contents()), Cut(CStr(line), lineLen - 1), lines.Length - 1)
    {
      Push(Cut(CStr(line), lineLen - 1));
    }

    /** `usb_serial_get_cmd`: dequeue into a caller's buffer of `buflen` chars. */
    method GetCmd(buflen: nat) returns (got: bool, buf: string)
      requires Valid() && buflen >= 1
      modifies this`readIdx
      ensures Valid()
      ensures got == (old(Contents()) != [])
      ensures got ==> buf == Cut(CStr(old(Contents())[0]), buflen - 1) && Contents() == old(Contents())[1..]
      ensures !got ==> Contents() == old(Contents())
    {
      got := readIdx != writeIdx;
      buf := "";
      if got {
        ghost var q := Contents();
        NextIndex(readIdx, lines.Length);
        buf := Cut(CStr(lines[readIdx]), buflen - 1);
        assert q[0] == lines[Slot(0)];
        readIdx := (readIdx + 1) % lines.Length;
        assert Contents() == q[1..];
      }
    }
  }

  lemma NextIndex(i: nat, n: nat)
    requires i < n
    ensures (i + 1) % n == if i + 1 == n then 0 else i + 1
  {
  }

  // ----- the queue that both rings refine -----

  /** A first-in first-out queue that drops only the new line, and only when it is full. */
  function Offer(q: seq<string>, x: string, capacity: nat): seq<string> {
    if |q| < capacity then q + [x] else q
  }

  function OfferAll(q: seq<string>, xs: seq<string>, capacity: nat): seq<string> {
    if xs == [] then q else Offer(OfferAll(q, xs[..|xs| - 1], capacity), xs[|xs| - 1], capacity)
  }

  /** Whatever is offered, the queue keeps its old lines and takes the new ones in order until it
    * is full. */
  lemma {:induction false} OfferAllTakesPrefix(q: seq<string>, xs: seq<string>, capacity: nat)
    requires |q| <= capacity
    ensures var room := capacity - |q|;
            OfferAll(q, xs, capacity) == q + xs[..if |xs| <= room then |xs| else room]
  {
    if xs != [] {
      OfferAllTakesPrefix(q, xs[..|xs| - 1], capacity);
    }
  }

  // ----- splitting the byte stream -----

  predicate Terminator(c: char) { c == '\n' || c == '\r' }

  /** Index of the first terminator, |s| if there is none. */
  function Break(s: string): (i: nat)
    ensures i <= |s| && (i < |s| ==> Terminator(s[i]))
    ensures forall j :: 0 <= j < i ==> !Terminator(s[j])
  {
    if s == [] || Terminator(s[0]) then 0 else 1 + Break(s[1..])
  }

  /** The complete lines of a byte stream: split on CR and LF, empty lines dropped, each cut to 63. */
  function Lines(s: string): seq<string> {
    var i := Break(s);
    if i == |s| then []
    else (if i > 0 then [Cut(s[..i], CMD_LINE_LEN - 1)] else []) + Lines(s[i + 1..])
  }

  /** The unfinished line at its end. */
  function Rest(s: string): string {
    var i := Break(s);
    if i == |s| then Cut(s, CMD_LINE_LEN - 1) else Rest(s[i + 1..])
  }

  lemma {:induction false} BreakStep(s: string, c: char)
    ensures Break(s + [c]) == if Break(s) < |s| then Break(s) else if Terminator(c) then |s| else |s| + 1
  {
    if s != [] && !Terminator(s[0]) {
      assert (s + [c])[1..] == s[1..] + [c];
      BreakStep(s[1..], c);
    }
  }

  /** A stream with a terminator in it: the first line, then the others. */
  lemma FirstLine(s: string, line: string, rest: string)
    requires Break(s) == |line| < |s| && s[..|line|] == line && s[|line| + 1..] == rest
    ensures Lines(s) == (if line != "" then [Cut(line, CMD_LINE_LEN - 1)] else []) + Lines(rest)
    ensures Rest(s) == Rest(rest)
  {
  }

  lemma LastByte(s: string, c: char)
    requires Break(s) == |s|
    ensures Lines(s + [c]) == if Terminator(c) && s != [] then [Cut(s, CMD_LINE_LEN - 1)] else []
    ensures Rest(s + [c]) == if Terminator(c) then [] else Cut(s + [c], CMD_LINE_LEN - 1)
  {
    BreakStep(s, c);
    if Terminator(c) {
      FirstLine(s + [c], s, []);
      assert Break([]) == 0;
    }
  }

  lemma EarlierLine(s: string, c: char, line: string, rest: string)
    requires Break(s) == |line| < |s| && s[..|line|] == line && s[|line| + 1..] == rest
    ensures Lines(s + [c]) == (if line != "" then [Cut(line, CMD_LINE_LEN - 1)] else []) + Lines(rest + [c])
    ensures Rest(s + [c]) == Rest(rest + [c])
  {
    BreakStep(s, c);
    FirstLine(s + [c], line, rest + [c]);
  }

  /** One more byte: a terminator completes the unfinished line unless it is empty, any other byte
    * lengthens it unless it is full. */
  lemma {:induction false} OneMoreByte(s: string, c: char)
    ensures Lines(s + [c]) == Lines(s) + if Terminator(c) && Rest(s) != [] then [Rest(s)] else []
    ensures Rest(s + [c]) == if Terminator(c) then [] else Cut(Rest(s) + [c], CMD_LINE_LEN - 1)
    decreases |s|
  {
    var i := Break(s);
    if i < |s| {
      FirstLine(s, s[..i], s[i + 1..]);
      EarlierLine(s, c, s[..i], s[i + 1..]);
      OneMoreByte(s[i + 1..], c);
    } else {
      LastByte(s, c);
    }
  }

  /** 1 to 63 bytes and no terminator among them. */
  predicate Clean(line: string) {
    1 <= |line| < CMD_LINE_LEN && forall j :: 0 <= j < |line| ==> !Terminator(line[j])
  }

  lemma {:induction false} LinesAreClean(s: string)
    ensures forall l :: l in Lines(s) ==> Clean(l)
    decreases |s|
  {
    var i := Break(s);
    if i < |s| {
      var line := s[..i];
      FirstLine(s, line, s[i + 1..]);
      LinesAreClean(s[i + 1..]);
      assert line != "" ==> Clean(Cut(line, CMD_LINE_LEN - 1));
    }
  }

  // ----- the accumulator -----

  class Input {
    const accum: array<char>
    const cmd: LineRing
    var accumLen: nat
    ghost var stream: string        // every byte received so far
    ghost var offered: seq<string>  // every line offered to the command ring so far

    ghost predicate Valid()
      reads this, accum, cmd
    {
      && accum.Length == CMD_LINE_LEN && accumLen < CMD_LINE_LEN
      && cmd.Valid() && cmd.lines.Length == CMD_RING_LINES
      && offered == Lines(stream) && accum[..accumLen] == Rest(stream)
    }

    constructor ()
      ensures Valid() && stream == [] && cmd.Contents() == []
    {
      accum := new char[CMD_LINE_LEN](_ => '\0');
      cmd := new LineRing(CMD_RING_LINES, CMD_LINE_LEN);
      accumLen := 0;
      stream, offered := [], [];
    }

    method Byte(c: char)
      requires Valid()
      modifies this`accumLen, this`stream, this`offered, accum, cmd`writeIdx, cmd.lines
      ensures Valid() && stream == old(stream) + [c]
      ensures old(offered) <= offered
      ensures cmd.Contents() == OfferAll(old(cmd.Contents()), offered[|old(offered)|..], CMD_RING_LINES - 1)
    {
      OneMoreByte(stream, c);
      stream := stream + [c];
      if c == '\n' || c == '\r' {
        if accumLen > 0 {
          ghost var line := accum[..accumLen];
          cmd.Push(accum[..accumLen]);
          offered := offered + [line];
          assert offered[|old(offered)|..] == [line];
          accumLen := 0;
        }
      } else if accumLen < CMD_LINE_LEN - 1 {
        accum[accumLen] := c;
        accumLen := accumLen + 1;
      }
    }

    /** The receive loop of one `usb_serial_task` call. However the bytes are spread over calls, the
      * lines offered are those of the whole stream. */
    method Receive(chunk: string)
      requires Valid()
      modifies this`accumLen, this`stream, this`offered, accum, cmd`writeIdx, cmd.lines
      ensures Valid() && stream == old(stream) + chunk
      ensures offered == Lines(old(stream) + chunk)
      ensures old(offered) <= offered
      ensures cmd.Contents() == OfferAll(old(cmd.Contents()), offered[|old(offered)|..], CMD_RING_LINES - 1)
    {
      for i := 0 to |chunk|
        invariant Valid() && stream == old(stream) + chunk[..i]
        invariant old(offered) <= offered
        invariant cmd.Contents() == OfferAll(old(cmd.Contents()), offered[|old(offered)|..], CMD_RING_LINES - 1)
      {
        ghost var before := offered;
        ghost var q := cmd.Contents();
        Byte(chunk[i]);
        OfferChain(old(cmd.Contents()), q, cmd.Contents(), old(offered), before, offered, CMD_RING_LINES - 1);
        assert chunk[..i] + [chunk[i]] == chunk[..i + 1];
      }
      assert chunk[..|chunk|] == chunk;
    }
  }

  lemma {:induction false} OfferInTwo(q: seq<string>, xs: seq<string>, ys: seq<string>, capacity: nat)
    ensures OfferAll(q, xs + ys, capacity) == OfferAll(OfferAll(q, xs, capacity), ys, capacity)
  {
    if ys == [] {
      assert xs + ys == xs;
    } else {
      assert (xs + ys)[..|xs + ys| - 1] == xs + ys[..|ys| - 1];
      OfferInTwo(q, xs, ys[..|ys| - 1], capacity);
    }
  }

  lemma OfferChain(q0: seq<string>, q1: seq<string>, q2: seq<string>,
                   o0: seq<string>, o1: seq<string>, o2: seq<string>, capacity: nat)
    requires o0 <= o1 <= o2
    requires q1 == OfferAll(q0, o1[|o0|..], capacity) && q2 == OfferAll(q1, o2[|o1|..], capacity)
    ensures o0 <= o2 && q2 == OfferAll(q0, o2[|o0|..], capacity)
  {
    OfferInTwo(q0, o1[|o0|..], o2[|o1|..], capacity);
    assert o1[|o0|..] + o2[|o1|..] == o2[|o0|..];
  }
}
