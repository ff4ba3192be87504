/** The promises of buttons.c, over every run of polls and combo checks: what is emitted, when,
  * and how often, said about the raw samples. */
module ButtonExact {
  import opened Words
  import opened Buttons
  import opened ButtonRuns
  import opened ButtonPresses
  import opened ButtonTrace

  /** Polls s to e are a maximal run of LOW samples of line i (or reach the end of the run). */
  ghost predicate LowRun(h: seq<Sample>, i: nat, s: nat, e: nat)
    requires Wellformed(h) && i < 3
  {
    && 1 <= s <= e <= |h| && High(h, i, s - 1)
    && (forall j :: s <= j <= e ==> !High(h, i, j))
    && (e < |h| ==> High(h, i, e + 1))
  }

  lemma InLowRun(h: seq<Sample>, i: nat, s: nat, e: nat, k: nat)
    requires Wellformed(h) && i < 3 && LowRun(h, i, s, e) && s <= k <= e
    ensures LevelSince(h, i, k) == s
    ensures Pressed(h, i, k) <==> T(h, k) - T(h, s) >= DEBOUNCE_MS
  {
    assert !High(h, i, s) && High(h, i, s - 1);
  }

  lemma LineAt(h: seq<Sample>, i: nat, j: nat)
    requires Wellformed(h) && i < 2 && j <= |h|
    ensures Line(ViewOf(h), i)[j] == Pressed(h, i, j) && ViewOf(h).t[j] == T(h, j)
  {
  }

  lemma LowRunIsDebounced(h: seq<Sample>, i: nat, s: nat, e: nat)
    requires Wellformed(h) && i < 2 && LowRun(h, i, s, e)
    ensures Wf(ViewOf(h)) && Debounced(ViewOf(h), Line(ViewOf(h), i), s, e)
  {
    ViewIsWf(h);
    forall j | s <= j <= e
      ensures Line(ViewOf(h), i)[j] == (ViewOf(h).t[j] - ViewOf(h).t[s] >= DEBOUNCE_MS)
    {
      InLowRun(h, i, s, e, j);
      LineAt(h, i, j);
      LineAt(h, i, s);
    }
    LineAt(h, i, s - 1);
  }

  // ----- UP and DOWN -----

  function ButtonEvent(i: nat): Event { if i == 0 then Up else Down }

  lemma EmittedIffShortFires(h: seq<Sample>, i: nat, k: nat, hold: nat)
    requires Wellformed(h) && i < 2 && 1 <= k <= |h| && hold > 0
    ensures Wf(ViewOf(h))
    ensures Emitted(h, k, hold) == ButtonEvent(i) <==> ShortFires(ViewOf(h), i, k)
    ensures Pressed(h, 0, k) && Pressed(h, 1, k) ==> Emitted(h, k, hold) != ButtonEvent(i)
  {
    RunExact(h, k, hold);
    OneShortAtATime(ViewOf(h), k);
  }

  /** Poll by poll: a poll of a LOW run of UP or DOWN emits that button's event iff it is the first
    * poll 100 ms or more after the debounced press and no poll up to it saw both pressed. */
  lemma UpDownExact(h: seq<Sample>, i: nat, s: nat, e: nat, k: nat, hold: nat)
    requires Wellformed(h) && i < 2 && LowRun(h, i, s, e) && s <= k <= e && hold > 0
    ensures Wf(ViewOf(h))
    ensures Emitted(h, k, hold) == ButtonEvent(i) <==> exists p :: ShortDue(ViewOf(h), s, p, k)
  {
    LowRunIsDebounced(h, i, s, e);
    EmittedIffShortFires(h, i, k, hold);
    ShortFiresIffDue(ViewOf(h), i, s, e, k);
  }

  lemma DueOnce(v: View, s: nat, p: nat, q: nat, p': nat, q': nat)
    requires Wf(v) && ShortDue(v, s, p, q) && ShortDue(v, s, p', q')
    ensures q == q'
  {
    FirstAfterUnique(v.t, s, p, p', DEBOUNCE_MS);
    FirstAfterUnique(v.t, p, q, q', COMBO_WINDOW_MS);
  }

  lemma OneDue(v: View, s: nat, e: nat, polls: set<nat>)
    requires Wf(v) && s <= e
    requires forall k: nat :: k in polls <==> s <= k <= e && exists p :: ShortDue(v, s, p, k)
    ensures |polls| == if exists p, q: nat :: ShortDue(v, s, p, q) && q <= e then 1 else 0
  {
    if p, q: nat :| ShortDue(v, s, p, q) && q <= e {
      forall k | k in polls ensures k == q {
        var p' :| ShortDue(v, s, p', k);
        DueOnce(v, s, p, q, p', k);
      }
      assert polls == {q};
    } else {
      assert polls == {};
    }
  }

  lemma EmittedPolls(h: seq<Sample>, i: nat, s: nat, e: nat, hold: nat) returns (polls: set<nat>)
    requires Wellformed(h) && i < 2 && LowRun(h, i, s, e) && hold > 0
    ensures Wf(ViewOf(h))
    ensures polls == set k: nat | s <= k <= e && Emitted(h, k, hold) == ButtonEvent(i)
    ensures forall k: nat :: k in polls <==> s <= k <= e && exists p :: ShortDue(ViewOf(h), s, p, k)
  {
    ViewIsWf(h);
    polls := set k: nat | s <= k <= e && Emitted(h, k, hold) == ButtonEvent(i);
    forall k: nat | s <= k <= e
      ensures k in polls <==> exists p :: ShortDue(ViewOf(h), s, p, k)
    {
      UpDownExact(h, i, s, e, k, hold);
    }
  }

  /** A whole LOW run emits exactly one event if its short falls due before its end, and none
    * otherwise: an earlier release drops the short. */
  lemma UpDownOncePerRun(h: seq<Sample>, i: nat, s: nat, e: nat, hold: nat)
    requires Wellformed(h) && i < 2 && LowRun(h, i, s, e) && hold > 0
    ensures Wf(ViewOf(h))
    ensures |(set k: nat | s <= k <= e && Emitted(h, k, hold) == ButtonEvent(i))|
         == if exists p, q: nat :: ShortDue(ViewOf(h), s, p, q) && q <= e then 1 else 0
  {
    var emitted := EmittedPolls(h, i, s, e, hold);
    OneDue(ViewOf(h), s, e, emitted);
  }

  lemma TooShortForDue(v: View, s: nat, p: nat, q: nat, e: nat)
    requires Wf(v) && ShortDue(v, s, p, q) && q <= e < |v.t| && s <= e
    ensures v.t[e] - v.t[s] >= COMBO_WINDOW_MS
  {
  }

  /** Every LOW run of less than 100 ms emits nothing, however well debounced the press was. */
  lemma EarlyReleaseEmitsNothing(h: seq<Sample>, i: nat, s: nat, e: nat, hold: nat)
    requires Wellformed(h) && i < 2 && LowRun(h, i, s, e) && hold > 0 && T(h, e) - T(h, s) < COMBO_WINDOW_MS
    ensures |(set k: nat | s <= k <= e && Emitted(h, k, hold) == ButtonEvent(i))| == 0
  {
    UpDownOncePerRun(h, i, s, e, hold);
    LineAt(h, i, e);
    LineAt(h, i, s);
    if p, q: nat :| ShortDue(ViewOf(h), s, p, q) && q <= e {
      TooShortForDue(ViewOf(h), s, p, q, e);
    }
  }

  /** UP goes LOW at 30 ms, counts as pressed at 60 ms and is released at 70 ms. */
  function EarlyRelease(): seq<Sample> {
    [Sample(30, [false, true, true]), Sample(60, [false, true, true]), Sample(70, [true, true, true])]
  }

  lemma EarlyReleaseIsARun()
    ensures Wellformed(EarlyRelease()) && LowRun(EarlyRelease(), 0, 1, 2) && Pressed(EarlyRelease(), 0, 2)
  {
    var h := EarlyRelease();
    assert !High(h, 0, 2) && !High(h, 0, 1) && High(h, 0, 0) && High(h, 0, 3);
    assert LevelSince(h, 0, 1) == 1;
  }

  /** That press is seen, and its short never comes. */
  lemma EarlyReleaseDropsTheShort(hold: nat)
    requires hold > 0
    ensures var h := EarlyRelease();
            && Wellformed(h) && LowRun(h, 0, 1, 2) && Pressed(h, 0, 2)
            && |(set k: nat | 1 <= k <= 2 && Emitted(h, k, hold) == Up)| == 0
  {
    EarlyReleaseIsARun();
    EarlyReleaseEmitsNothing(EarlyRelease(), 0, 1, 2, hold);
  }

  // ----- SELECT -----

  lemma ArmedBefore(h: seq<Sample>, s: nat, e: nat, k: nat)
    requires Wellformed(h) && LowRun(h, 2, s, e) && s <= k <= e
    ensures Armed(h, k) <==> Armed(h, s - 1)
  {
    if Armed(h, k) {
      var a :| 0 <= a <= k && High(h, 2, a) && Settled(h, 2, a);
      assert a <= s - 1;
    }
    if Armed(h, s - 1) {
      var a :| 0 <= a <= s - 1 && High(h, 2, a) && Settled(h, 2, a);
      assert a <= k;
    }
  }

  lemma SelectRunIsDebounced(h: seq<Sample>, s: nat, e: nat)
    requires Wellformed(h) && LowRun(h, 2, s, e)
    ensures Wf(ViewOf(h))
    ensures Armed(h, s - 1) ==> Debounced(ViewOf(h), ViewOf(h).sel, s, e)
    ensures !Armed(h, s - 1) ==> NoneIn(ViewOf(h).sel, s, e)
  {
    ViewIsWf(h);
    forall j | s <= j <= e
      ensures ViewOf(h).sel[j] == (Armed(h, s - 1) && ViewOf(h).t[j] - ViewOf(h).t[s] >= DEBOUNCE_MS)
    {
      InLowRun(h, 2, s, e, j);
      ArmedBefore(h, s, e, j);
    }
  }

  lemma EmittedSelect(h: seq<Sample>, k: nat, hold: nat)
    requires Wellformed(h) && 1 <= k <= |h| && hold > 0
    ensures Wf(ViewOf(h)) && (Emitted(h, k, hold) == Select <==> SelectFires(ViewOf(h), k))
  {
    RunExact(h, k, hold);
  }

  /** A poll of a LOW run emits SELECT iff the line was armed before the run and the poll is the
    * first, 200 ms or more after the debounced press, whose event UP or DOWN does not take. */
  lemma SelectExact(h: seq<Sample>, s: nat, e: nat, k: nat, hold: nat)
    requires Wellformed(h) && LowRun(h, 2, s, e) && s <= k <= e && hold > 0
    ensures Wf(ViewOf(h))
    ensures Emitted(h, k, hold) == Select <==> Armed(h, s - 1) && exists p :: HoldFiresAt(ViewOf(h), s, p, k)
  {
    SelectRunIsDebounced(h, s, e);
    EmittedSelect(h, k, hold);
    if Armed(h, s - 1) {
      SelectFiresIffHold(ViewOf(h), s, e, k);
    }
  }

  lemma HonouredMeans(h: seq<Sample>, j: nat)
    requires Wellformed(h) && Wf(ViewOf(h)) && j <= |h| && ViewOf(h).sel[j]
    ensures !High(h, 2, j) && T(h, j) - T(h, LevelSince(h, 2, j)) >= DEBOUNCE_MS && Armed(h, j)
  {
  }

  /** At a poll where SELECT fires, the press was honoured at p, 200 ms or more before, in the same
    * run of LOW samples. */
  lemma HeldSince(h: seq<Sample>, k: nat, p: nat)
    requires Wellformed(h) && Wf(ViewOf(h)) && k <= |h| && SelectFires(ViewOf(h), k)
    requires p == Onset(ViewOf(h).sel, k)
    ensures T(h, k) - T(h, p) >= SELECT_HOLD_MS
    ensures T(h, p) - T(h, LevelSince(h, 2, k)) >= DEBOUNCE_MS
  {
    forall j | p <= j <= k ensures !High(h, 2, j) {
      HonouredMeans(h, j);
    }
    SameLevelSameOnset(h, 2, p, k);
    HonouredMeans(h, p);
  }

  /** Every SELECT event ends a continuous LOW of at least 220 ms, which began after the line had
    * been seen HIGH and unchanged for 20 ms. */
  lemma SelectNeedsHold(h: seq<Sample>, k: nat, hold: nat) returns (s: nat, a: nat)
    requires Wellformed(h) && 1 <= k <= |h| && hold > 0 && Emitted(h, k, hold) == Select
    ensures 1 <= s <= k && s == LevelSince(h, 2, k)
    ensures forall j :: s <= j <= k ==> !High(h, 2, j)
    ensures T(h, k) - T(h, s) >= SELECT_HOLD_MS + DEBOUNCE_MS
    ensures a < s && High(h, 2, a) && T(h, a) - T(h, LevelSince(h, 2, a)) >= DEBOUNCE_MS
  {
    EmittedSelect(h, k, hold);
    s, a := HoldOf(h, k);
  }

  lemma HoldOf(h: seq<Sample>, k: nat) returns (s: nat, a: nat)
    requires Wellformed(h) && Wf(ViewOf(h)) && 1 <= k <= |h| && SelectFires(ViewOf(h), k)
    ensures 1 <= s <= k && s == LevelSince(h, 2, k)
    ensures forall j :: s <= j <= k ==> !High(h, 2, j)
    ensures T(h, k) - T(h, s) >= SELECT_HOLD_MS + DEBOUNCE_MS
    ensures a < s && High(h, 2, a) && T(h, a) - T(h, LevelSince(h, 2, a)) >= DEBOUNCE_MS
  {
    HonouredMeans(h, k);
    s := LevelSince(h, 2, k);
    assert High(h, 2, 0);
    HeldSince(h, k, Onset(ViewOf(h).sel, k));
    a :| 0 <= a <= k && High(h, 2, a) && Settled(h, 2, a);
  }

  lemma {:induction false} SameLevelSameOnset(h: seq<Sample>, i: nat, p: nat, k: nat)
    requires Wellformed(h) && i < 3 && p <= k <= |h|
    requires forall j :: p <= j <= k ==> High(h, i, j) == High(h, i, k)
    ensures LevelSince(h, i, p) == LevelSince(h, i, k)
    decreases k
  {
    if p < k { SameLevelSameOnset(h, i, p, k - 1); }
  }

  /** Two SELECT events are at least 220 ms apart, and more if polls are. */
  lemma SelectsFarApart(h: seq<Sample>, k: nat, k': nat, hold: nat)
    requires Wellformed(h) && 1 <= k < k' <= |h| && hold > 0
    requires Emitted(h, k, hold) == Emitted(h, k', hold) == Select
    ensures T(h, k') - T(h, k) >= SELECT_HOLD_MS + DEBOUNCE_MS
    ensures (forall j :: k <= j < k' ==> T(h, j) < T(h, j + 1)) ==>
      T(h, k') - T(h, k) > SELECT_HOLD_MS + DEBOUNCE_MS
  {
    var s, a := SelectNeedsHold(h, k', hold);
    EmittedSelect(h, k, hold);
    EmittedSelect(h, k', hold);
    var v := ViewOf(h);
    if s <= k {
      SelectOncePerPress(h, s, k, k');
    }
    assert T(h, k) <= T(h, s - 1) <= T(h, s);
  }

  lemma StaysArmed(h: seq<Sample>, k: nat, j: nat)
    requires Wellformed(h) && k <= j <= |h| && Armed(h, k)
    ensures Armed(h, j)
  {
    var a :| 0 <= a <= k && High(h, 2, a) && Settled(h, 2, a);
    assert 0 <= a <= j;
  }

  lemma StaysPressed(h: seq<Sample>, i: nat, k: nat, j: nat)
    requires Wellformed(h) && i < 3 && k <= j <= |h| && Pressed(h, i, k) && !High(h, i, j)
    requires LevelSince(h, i, k) == LevelSince(h, i, j)
    ensures Pressed(h, i, j)
  {
    assert T(h, k) <= T(h, j);
  }

  lemma HonouredIs(h: seq<Sample>, j: nat)
    requires Wellformed(h) && j <= |h|
    ensures ViewOf(h).sel[j] <==> Pressed(h, 2, j) && Armed(h, j)
  {
  }

  /** An honoured press stays honoured while the line stays LOW. */
  lemma StaysHonoured(h: seq<Sample>, k: nat, j: nat)
    requires Wellformed(h) && k <= j <= |h| && ViewOf(h).sel[k]
    requires forall i :: k <= i <= j ==> !High(h, 2, i)
    ensures ViewOf(h).sel[j]
  {
    HonouredIs(h, k);
    SameLevelSameOnset(h, 2, k, j);
    StaysPressed(h, 2, k, j);
    StaysArmed(h, k, j);
    HonouredIs(h, j);
  }

  lemma SelectOncePerPress(h: seq<Sample>, s: nat, k: nat, k': nat)
    requires Wellformed(h) && Wf(ViewOf(h)) && 1 <= s <= k < k' <= |h|
    requires forall j :: s <= j <= k' ==> !High(h, 2, j)
    requires SelectFires(ViewOf(h), k)
    ensures !SelectFires(ViewOf(h), k')
  {
    forall j | k <= j <= k' ensures ViewOf(h).sel[j] {
      StaysHonoured(h, k, j);
    }
    SameStreak(ViewOf(h).sel, k, k');
    LaterIsTooLate(ViewOf(h), k, k');
  }

  lemma LaterIsTooLate(v: View, k: nat, k': nat)
    requires Wf(v) && k < k' < |v.t| && SelectFires(v, k) && v.sel[k'] && Onset(v.sel, k) == Onset(v.sel, k')
    ensures !SelectFires(v, k')
  {
  }

  lemma {:induction false} SameStreak(p: seq<bool>, k: nat, n: nat)
    requires k <= n < |p| && forall j :: k <= j <= n ==> p[j]
    ensures Onset(p, k) == Onset(p, n)
    decreases n
  {
    if k < n { SameStreak(p, k, n - 1); }
  }

  // ----- the combo -----

  /** When every poll is followed by a check, the number of checks that answer true is the number of
    * maximal runs of polls seeing both buttons pressed that last at least `hold` ms. */
  lemma ComboChecksCount(h: seq<Sample>, hold: nat)
    requires Wellformed(h) && hold > 0
    ensures Wf(ViewOf(h))
    ensures |(set k: nat | 1 <= k <= |h| && Answered(h, k, hold))| == |LongPresses(ViewOf(h), |h|, hold)|
  {
    ViewIsWf(h);
    var v := ViewOf(h);
    forall k: nat | 1 <= k <= |h|
      ensures Answered(h, k, hold) == ComboFires(v, k, hold)
    {
      RunExact(h, k, hold);
    }
    assert (set k: nat | 1 <= k <= |h| && Answered(h, k, hold)) == Fired(v, |h|, hold);
    ComboCount(v, |h|, hold);
  }
}
