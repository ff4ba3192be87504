/** The button poll of buttons.c: debounce and arming, a two-button combo, deferred shorts
  * and a hold-to-fire button, in four passes with early returns. */
module Buttons {
  import opened Words

  const DEBOUNCE_MS := 20
  const COMBO_WINDOW_MS := 100
  const SELECT_HOLD_MS := 200

  const FIRST: nat := 0  // index of the first button

  datatype Event = NoEvent | Up | Down | Select

  datatype Btn = Btn(
    event: Event, lastChangeMs: nat, pressStartMs: nat,
    stable: bool, prevRaw: bool, pendingShort: bool, armed: bool, holdFired: bool)

  datatype Combo = Combo(
    a: Event, b: Event, holdMs: nat, bothPressedSinceMs: nat, intentActive: bool, fired: bool, consumed: bool)

  datatype State = State(btns: seq<Btn>, combo: Combo)

  /** Unsigned 32-bit elapsed time. */
  function Since(now: nat, then_: nat): nat { Wrap32(now - then_) }

  predicate IsDebouncedPressed(b: Btn, now: nat) { !b.prevRaw && Since(now, b.lastChangeMs) >= DEBOUNCE_MS }

  predicate IsComboBtn(c: Combo, e: Event) { c.holdMs > 0 && (e == c.a || e == c.b) }

  /** `find_btn`: the first button with this event. */
  function FindFrom(btns: seq<Btn>, e: Event, i: nat): int
    requires i <= |btns|
    decreases |btns| - i
  {
    if e == NoEvent || i == |btns| then -1 else if btns[i].event == e then i else FindFrom(btns, e, i + 1)
  }

  // ----- one poll, as a function of the old state -----

  /** Pass 1 for one button, first half: the raw level, and arming after a stable release. */
  function Track(b: Btn, now: nat, raw: bool): Btn {
    var b1 := if raw != b.prevRaw then b.(prevRaw := raw, lastChangeMs := now) else b;
    if b1.prevRaw && Since(now, b1.lastChangeMs) >= DEBOUNCE_MS then b1.(armed := true) else b1
  }

  /** Second half: a new debounced press, or its end; true if it dispatches at once. */
  function Register(b: Btn, isCombo: bool, now: nat): (Btn, bool) {
    if !IsDebouncedPressed(b, now) then (b.(stable := true, pendingShort := false), false)
    else if b.stable && b.armed then
      var b1 := b.(stable := false, pressStartMs := now, holdFired := false);
      if isCombo then (b1.(pendingShort := true), false) else (b1, b1.event != Select)
    else (b, false)
  }

  function Scan(b: Btn, isCombo: bool, now: nat, raw: bool): (Btn, bool) {
    Register(Track(b, now, raw), isCombo, now)
  }

  function From1(s: State, i: nat, now: nat, raw: seq<bool>): (r: (State, Event))
    requires i <= 3 && |s.btns| == 3 && |raw| == 3
    ensures |r.0.btns| == 3
    decreases 3 - i
  {
    if i == 3 then From3(Pass2(s, now), 0, now)
    else
      var (b, fires) := Scan(s.btns[i], IsComboBtn(s.combo, s.btns[i].event), now, raw[i]);
      var s' := s.(btns := s.btns[i := b]);
      if fires then (s', b.event) else From1(s', i + 1, now, raw)
  }

  function Pass2(s: State, now: nat): (r: State)
    requires |s.btns| == 3
    ensures |r.btns| == 3
  {
    var ai, bi, c := FindFrom(s.btns, s.combo.a, 0), FindFrom(s.btns, s.combo.b, 0), s.combo;
    if !(0 <= ai < 3 && 0 <= bi < 3 && c.holdMs > 0) then s
    else if IsDebouncedPressed(s.btns[ai], now) && IsDebouncedPressed(s.btns[bi], now) then
      var c1 := if c.intentActive then c
                else c.(intentActive := true, bothPressedSinceMs := now, fired := false, consumed := false);
      var b1 := s.btns[ai := s.btns[ai].(pendingShort := false)];
      var b2 := b1[bi := b1[bi].(pendingShort := false)];
      var c2 := if !c1.fired && Since(now, c1.bothPressedSinceMs) >= c1.holdMs
                then c1.(fired := true, consumed := false) else c1;
      State(b2, c2)
    else s.(combo := c.(intentActive := false))
  }

  function From3(s: State, i: nat, now: nat): (r: (State, Event))
    requires i <= 3 && |s.btns| == 3
    ensures |r.0.btns| == 3
    decreases 3 - i
  {
    if i == 3 then From4(s, 0, now)
    else if s.btns[i].pendingShort && Since(now, s.btns[i].pressStartMs) >= COMBO_WINDOW_MS then
      (s.(btns := s.btns[i := s.btns[i].(pendingShort := false)]), s.btns[i].event)
    else From3(s, i + 1, now)
  }

  predicate HoldFires(b: Btn, now: nat) {
    && b.event == Select && !b.stable && !b.holdFired && IsDebouncedPressed(b, now)
    && Since(now, b.pressStartMs) >= SELECT_HOLD_MS
  }

  function From4(s: State, i: nat, now: nat): (r: (State, Event))
    requires i <= 3 && |s.btns| == 3
    ensures |r.0.btns| == 3
    decreases 3 - i
  {
    if i == 3 then (s, NoEvent)
    else if HoldFires(s.btns[i], now) then
      (s.(btns := s.btns[i := s.btns[i].(holdFired := true)]), s.btns[i].event)
    else From4(s, i + 1, now)
  }

  function PollOf(s: State, now: nat, raw: seq<bool>): (r: (State, Event))
    requires |s.btns| == 3 && |raw| == 3
    ensures |r.0.btns| == 3
  {
    From1(s, FIRST, now, raw)
  }

  /** `buttons_combo_check`. */
  function CheckOf(s: State): (r: (State, bool))
    ensures r.0.btns == s.btns
  {
    if s.combo.fired && !s.combo.consumed then (s.(combo := s.combo.(consumed := true)), true) else (s, false)
  }

  function FreshBtn(e: Event, pressStart: nat): Btn {
    Btn(e, 0, pressStart, true, true, false, e != Select, false)
  }

  // ----- the statics that the firmware updates -----

  class Panel {
    const btns: array<Btn>
    var comboA: Event
    var comboB: Event
    var holdMs: nat
    var bothPressedSinceMs: nat
    var intentActive: bool
    var fired: bool
    var consumed: bool

    ghost predicate Valid() { btns.Length == 3 }

    function ComboValue(): Combo
      reads this
    {
      Combo(comboA, comboB, holdMs, bothPressedSinceMs, intentActive, fired, consumed)
    }

    ghost function Value(): (s: State)
      requires Valid()
      reads this, btns
      ensures |s.btns| == 3
    {
      State(btns[..], ComboValue())
    }

    /** Static storage followed by `buttons_init`. */
    constructor ()
      ensures Valid() && fresh(btns)
      ensures Value() == State([FreshBtn(Up, 0), FreshBtn(Down, 0), FreshBtn(Select, 0)],
                               Combo(NoEvent, NoEvent, 0, 0, false, false, true))
    {
      btns := new Btn[3][FreshBtn(Up, 0), FreshBtn(Down, 0), FreshBtn(Select, 0)];
      comboA, comboB, holdMs, bothPressedSinceMs := NoEvent, NoEvent, 0, 0;
      intentActive, fired, consumed := false, false, true;
    }

    method SetCombo(a: Event, b: Event, hold: nat)
      requires Valid()
      modifies this
      ensures Value() == old(Value()).(combo := Combo(a, b, hold, old(bothPressedSinceMs), false, false, true))
    {
      comboA, comboB, holdMs := a, b, hold;
      intentActive, fired, consumed := false, false, true;
    }

    method ComboCheck() returns (r: bool)
      requires Valid()
      modifies this`consumed
      ensures (Value(), r) == CheckOf(old(Value()))
    {
      if fired && !consumed {
        consumed := true;
        return true;
      }
      return false;
    }

    method FindBtn(e: Event) returns (k: int)
      requires Valid()
      ensures k == FindFrom(btns[..], e, 0) && -1 <= k < 3
    {
      if e == NoEvent { return -1; }
      for i := 0 to 3
        invariant FindFrom(btns[..], e, 0) == FindFrom(btns[..], e, i)
      {
        if btns[i].event == e { return i; }
      }
      return -1;
    }

    method ScanOne(i: nat, now: Word, raw: bool) returns (fires: bool)
      requires Valid() && i < 3
      modifies btns
      ensures btns[..] == old(btns[..])[i := Scan(old(btns[i]), IsComboBtn(ComboValue(), old(btns[i].event)), now, raw).0]
      ensures fires == Scan(old(btns[i]), IsComboBtn(ComboValue(), old(btns[i].event)), now, raw).1
    {
      fires := false;
      if raw != btns[i].prevRaw {
        btns[i] := btns[i].(prevRaw := raw, lastChangeMs := now);
      }
      if btns[i].prevRaw && Since(now, btns[i].lastChangeMs) >= DEBOUNCE_MS {
        btns[i] := btns[i].(armed := true);
      }
      var debouncedPressed := IsDebouncedPressed(btns[i], now);
      if debouncedPressed && btns[i].stable && btns[i].armed {
        btns[i] := btns[i].(stable := false, pressStartMs := now, holdFired := false);
        if IsComboBtn(ComboValue(), btns[i].event) {
          btns[i] := btns[i].(pendingShort := true);
        } else if btns[i].event != Select {
          return true;
        }
      }
      if !debouncedPressed {
        btns[i] := btns[i].(stable := true, pendingShort := false);
      }
    }

    method ComboPass(now: Word)
      requires Valid()
      modifies this, btns
      ensures Value() == Pass2(old(Value()), now)
    {
      var ai := FindBtn(comboA);
      var bi := FindBtn(comboB);
      if ai >= 0 && bi >= 0 && holdMs > 0 {
        if IsDebouncedPressed(btns[ai], now) && IsDebouncedPressed(btns[bi], now) {
          if !intentActive {
            intentActive, bothPressedSinceMs, fired, consumed := true, now, false, false;
          }
          btns[ai] := btns[ai].(pendingShort := false);
          btns[bi] := btns[bi].(pendingShort := false);
          if !fired && Since(now, bothPressedSinceMs) >= holdMs {
            fired, consumed := true, false;
          }
        } else {
          intentActive := false;
        }
      }
    }

    /** `buttons_poll`, given the time and the three pin levels. */
    method Poll(now: Word, raw: seq<bool>) returns (ev: Event)
      requires Valid() && |raw| == 3
      modifies this, btns
      ensures (Value(), ev) == PollOf(old(Value()), now, raw)
    {
      for i := 0 to 3
        invariant From1(Value(), i, now, raw) == PollOf(old(Value()), now, raw)
      {
        var fires := ScanOne(i, now, raw[i]);
        if fires { return btns[i].event; }
      }
      ComboPass(now);
      for i := 0 to 3
        invariant From3(Value(), i, now) == PollOf(old(Value()), now, raw)
      {
        if btns[i].pendingShort && Since(now, btns[i].pressStartMs) >= COMBO_WINDOW_MS {
          btns[i] := btns[i].(pendingShort := false);
          return btns[i].event;
        }
      }
      for i := 0 to 3
        invariant From4(Value(), i, now) == PollOf(old(Value()), now, raw)
      {
        if HoldFires(btns[i], now) {
          btns[i] := btns[i].(holdFired := true);
          return btns[i].event;
        }
      }
      return NoEvent;
    }
  }
}
