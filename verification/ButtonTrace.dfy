/** From the raw samples of a run to the events it emits: main.c polls, then checks the combo,
  * over and over; the combo is {UP, DOWN} and the run is shorter than 2^32 ms.
  *
  * Polls are numbered from 1; poll 0 stands for buttons_init, which behaves like a poll at
  * time 0 that saw every line HIGH. */
module ButtonTrace {
  import opened Words
  import opened Buttons
  import opened ButtonRuns

  datatype Sample = Sample(t: nat, raw: seq<bool>)

  ghost predicate Wellformed(h: seq<Sample>) {
    && (forall k :: 0 <= k < |h| ==> |h[k].raw| == 3 && h[k].t < U32)
    && (forall j, k :: 0 <= j < k < |h| ==> h[j].t <= h[k].t)
  }

  // ----- the samples -----

  function T(h: seq<Sample>, n: nat): nat
    requires n <= |h|
  {
    if n == 0 then 0 else h[n - 1].t
  }

  /** Line i at poll n, true for HIGH (released). */
  predicate High(h: seq<Sample>, i: nat, n: nat)
    requires Wellformed(h) && i < 3 && n <= |h|
  {
    n == 0 || h[n - 1].raw[i]
  }

  /** The poll at which the present level of line i was first seen. */
  function LevelSince(h: seq<Sample>, i: nat, n: nat): (s: nat)
    requires Wellformed(h) && i < 3 && n <= |h|
    ensures s <= n
    ensures forall j :: s <= j <= n ==> High(h, i, j) == High(h, i, n)
    ensures s > 0 ==> High(h, i, s - 1) != High(h, i, n)
  {
    if n > 0 && High(h, i, n) == High(h, i, n - 1) then LevelSince(h, i, n - 1) else n
  }

  predicate Settled(h: seq<Sample>, i: nat, n: nat)
    requires Wellformed(h) && i < 3 && n <= |h|
  {
    T(h, n) - T(h, LevelSince(h, i, n)) >= DEBOUNCE_MS
  }

  predicate Pressed(h: seq<Sample>, i: nat, n: nat)
    requires Wellformed(h) && i < 3 && n <= |h|
  {
    !High(h, i, n) && Settled(h, i, n)
  }

  /** SELECT has been seen HIGH, unchanged for the debounce time, at some poll up to n. */
  predicate Armed(h: seq<Sample>, n: nat)
    requires Wellformed(h) && n <= |h|
  {
    exists a :: 0 <= a <= n && High(h, 2, a) && Settled(h, 2, a)
  }

  function ViewOf(h: seq<Sample>): (v: View)
    requires Wellformed(h)
    ensures |v.t| == |v.up| == |v.down| == |v.both| == |v.sel| == |h| + 1
  {
    View(seq(|h| + 1, n requires 0 <= n <= |h| => T(h, n)),
         seq(|h| + 1, n requires 0 <= n <= |h| => Pressed(h, 0, n)),
         seq(|h| + 1, n requires 0 <= n <= |h| => Pressed(h, 1, n)),
         seq(|h| + 1, n requires 0 <= n <= |h| => Pressed(h, 0, n) && Pressed(h, 1, n)),
         seq(|h| + 1, n requires 0 <= n <= |h| => Pressed(h, 2, n) && Armed(h, n)))
  }

  lemma ViewIsWf(h: seq<Sample>)
    requires Wellformed(h)
    ensures Wf(ViewOf(h))
  {
    forall m, n | 0 <= m < n <= |h| ensures T(h, m) <= T(h, n) {}
  }

  // ----- the debouncer follows the samples -----

  ghost predicate LineInv(h: seq<Sample>, i: nat, n: nat, b: Btn)
    requires Wellformed(h) && i < 3 && n <= |h|
  {
    b.prevRaw == High(h, i, n) && b.lastChangeMs == T(h, LevelSince(h, i, n))
  }

  lemma ArmedStep(h: seq<Sample>, n: nat)
    requires Wellformed(h) && 0 < n <= |h|
    ensures Armed(h, n) <==> Armed(h, n - 1) || (High(h, 2, n) && Settled(h, 2, n))
  {
    if Armed(h, n) {
      var a :| 0 <= a <= n && High(h, 2, a) && Settled(h, 2, a);
      if a < n { assert Armed(h, n - 1); }
    }
    if Armed(h, n - 1) {
      var a :| 0 <= a <= n - 1 && High(h, 2, a) && Settled(h, 2, a);
      assert Armed(h, n);
    }
  }

  lemma TrackStep(h: seq<Sample>, i: nat, n: nat, b: Btn)
    requires Wellformed(h) && i < 3 && 0 < n <= |h| && LineInv(h, i, n - 1, b)
    ensures var b1 := Track(b, T(h, n), High(h, i, n));
            && LineInv(h, i, n, b1) && IsDebouncedPressed(b1, T(h, n)) == Pressed(h, i, n)
            && b1.armed == (b.armed || (High(h, i, n) && Settled(h, i, n)))
  {
    var s := LevelSince(h, i, n);
    assert T(h, s) <= T(h, n) < U32;
  }

  // ----- the firmware over a run -----

  function Start(hold: nat): State {
    State([FreshBtn(Up, 0), FreshBtn(Down, 0), FreshBtn(Select, 0)], Combo(Up, Down, hold, 0, false, false, true))
  }

  datatype TurnResult = TurnResult(s: State, event: Event, combo: bool)

  /** One turn of the main loop: `buttons_poll`, then `buttons_combo_check`. */
  function Turn(s: State, x: Sample): (r: TurnResult)
    requires |s.btns| == |x.raw| == 3
    ensures |r.s.btns| == 3
  {
    var polled := PollOf(s, x.t, x.raw);
    var checked := CheckOf(polled.0);
    TurnResult(checked.0, polled.1, checked.1)
  }

  function StateAfter(h: seq<Sample>, n: nat, hold: nat): (s: State)
    requires Wellformed(h) && n <= |h|
    ensures |s.btns| == 3
  {
    if n == 0 then Start(hold) else Turn(StateAfter(h, n - 1, hold), h[n - 1]).s
  }

  /** What poll k of the run emits, and what the combo check after it answers. */
  function Emitted(h: seq<Sample>, k: nat, hold: nat): Event
    requires Wellformed(h) && 1 <= k <= |h|
  {
    Turn(StateAfter(h, k - 1, hold), h[k - 1]).event
  }

  predicate Answered(h: seq<Sample>, k: nat, hold: nat)
    requires Wellformed(h) && 1 <= k <= |h|
  {
    Turn(StateAfter(h, k - 1, hold), h[k - 1]).combo
  }

  ghost predicate Inv(h: seq<Sample>, v: View, n: nat, s: State, hold: nat)
    requires Wellformed(h) && Wf(v) && n <= |h| < |v.t|
  {
    && TurnInv(v, n, s, hold)
    && LinesInv(h, n, s.btns)
  }

  ghost predicate LinesInv(h: seq<Sample>, n: nat, btns: seq<Btn>)
    requires Wellformed(h) && n <= |h| && |btns| == 3
  {
    && LineInv(h, 0, n, btns[0]) && LineInv(h, 1, n, btns[1]) && LineInv(h, 2, n, btns[2])
    && btns[0].armed && btns[1].armed && btns[2].armed == Armed(h, n)
  }

  lemma StartInv(h: seq<Sample>, v: View, hold: nat)
    requires Wellformed(h) && Wf(v) && hold > 0 && v == ViewOf(h)
    ensures Inv(h, v, 0, Start(hold), hold)
  {
    assert !Armed(h, 0);
  }

  /** What the debouncer knows after tracking poll n is what the view says of it. */
  lemma TrackAll(h: seq<Sample>, v: View, n: nat, btns: seq<Btn>, tracked: seq<Btn>)
    requires Wellformed(h) && Wf(v) && v == ViewOf(h) && 0 < n <= |h| && |btns| == |tracked| == 3
    requires LinesInv(h, n - 1, btns)
    requires tracked[0] == Track(btns[0], T(h, n), High(h, 0, n))
    requires tracked[1] == Track(btns[1], T(h, n), High(h, 1, n))
    requires tracked[2] == Track(btns[2], T(h, n), High(h, 2, n))
    ensures Agrees(v, n, tracked[0], tracked[1], tracked[2]) && LinesInv(h, n, tracked)
  {
    TrackStep(h, 0, n, btns[0]);
    TrackStep(h, 1, n, btns[1]);
    TrackStep(h, 2, n, btns[2]);
    ArmedStep(h, n);
  }

  /** One turn of the main loop keeps the invariant and emits exactly what it must. */
  lemma TurnStep(h: seq<Sample>, v: View, n: nat, s: State, r: TurnResult, hold: nat)
    requires Wellformed(h) && Wf(v) && v == ViewOf(h) && 0 < n <= |h| && Inv(h, v, n - 1, s, hold)
    requires r == Turn(s, h[n - 1])
    ensures Inv(h, v, n, r.s, hold) && r.event == EventAt(v, n) && r.combo == ComboFires(v, n, hold)
  {
    var tracked := TrackTurn(h, v, n, s.btns);
    TrackedTurn(h, v, n, s, tracked, r, hold);
  }

  lemma TrackTurn(h: seq<Sample>, v: View, n: nat, btns: seq<Btn>) returns (tracked: seq<Btn>)
    requires Wellformed(h) && Wf(v) && v == ViewOf(h) && 0 < n <= |h| && |btns| == 3 && LinesInv(h, n - 1, btns)
    ensures |tracked| == 3
    ensures tracked[0] == Track(btns[0], T(h, n), High(h, 0, n))
    ensures tracked[1] == Track(btns[1], T(h, n), High(h, 1, n))
    ensures tracked[2] == Track(btns[2], T(h, n), High(h, 2, n))
    ensures Agrees(v, n, tracked[0], tracked[1], tracked[2]) && LinesInv(h, n, tracked)
  {
    tracked := [Track(btns[0], T(h, n), High(h, 0, n)), Track(btns[1], T(h, n), High(h, 1, n)),
                Track(btns[2], T(h, n), High(h, 2, n))];
    TrackAll(h, v, n, btns, tracked);
  }

  lemma TrackedTurn(h: seq<Sample>, v: View, n: nat, s: State, tracked: seq<Btn>, r: TurnResult, hold: nat)
    requires Wellformed(h) && Wf(v) && v == ViewOf(h) && 0 < n <= |h| && TurnInv(v, n - 1, s, hold)
    requires |tracked| == 3 && r == Turn(s, h[n - 1])
    requires tracked[0] == Track(s.btns[0], T(h, n), High(h, 0, n))
    requires tracked[1] == Track(s.btns[1], T(h, n), High(h, 1, n))
    requires tracked[2] == Track(s.btns[2], T(h, n), High(h, 2, n))
    requires Agrees(v, n, tracked[0], tracked[1], tracked[2]) && LinesInv(h, n, tracked)
    ensures Inv(h, v, n, r.s, hold) && r.event == EventAt(v, n) && r.combo == ComboFires(v, n, hold)
  {
    PollStep(v, n, s, h[n - 1].raw, tracked, PollOf(s, v.t[n], h[n - 1].raw), hold);
    LinesCarry(h, n, tracked, r.s.btns);
  }

  lemma LinesCarry(h: seq<Sample>, n: nat, a: seq<Btn>, b: seq<Btn>)
    requires Wellformed(h) && n <= |h| && SameLines(b, a) && LinesInv(h, n, a)
    ensures LinesInv(h, n, b)
  {
  }

  lemma {:induction false} RunInv(h: seq<Sample>, v: View, n: nat, hold: nat)
    requires Wellformed(h) && Wf(v) && v == ViewOf(h) && n <= |h| && hold > 0
    ensures Inv(h, v, n, StateAfter(h, n, hold), hold)
    ensures n > 0 ==> Emitted(h, n, hold) == EventAt(v, n) && Answered(h, n, hold) == ComboFires(v, n, hold)
  {
    if n == 0 {
      StartInv(h, v, hold);
    } else {
      RunInv(h, v, n - 1, hold);
      var s := StateAfter(h, n - 1, hold);
      TurnStep(h, v, n, s, Turn(s, h[n - 1]), hold);
    }
  }

  /** At every poll of every run the event and the combo answer are those that the samples call
    * for, and no others. */
  lemma RunExact(h: seq<Sample>, k: nat, hold: nat)
    requires Wellformed(h) && 1 <= k <= |h| && hold > 0
    ensures Wf(ViewOf(h))
    ensures Emitted(h, k, hold) == EventAt(ViewOf(h), k)
    ensures Answered(h, k, hold) == ComboFires(ViewOf(h), k, hold)
  {
    ViewIsWf(h);
    RunInv(h, ViewOf(h), k, hold);
  }
}
