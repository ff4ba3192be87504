/** Presses in a view: when a short, a hold or a common press falls due, said without the
  * firmware's variables. */
module ButtonPresses {
  import opened Words
  import opened Buttons
  import opened ButtonRuns

  /** q is the first poll from p on that comes `ms` or more after p. */
  ghost predicate FirstAfter(t: seq<nat>, p: nat, q: nat, ms: nat) {
    p <= q < |t| && t[q] - t[p] >= ms && forall j :: p <= j < q ==> t[j] - t[p] < ms
  }

  lemma FirstAfterUnique(t: seq<nat>, p: nat, q: nat, q': nat, ms: nat)
    requires FirstAfter(t, p, q, ms) && FirstAfter(t, p, q', ms)
    ensures q == q'
  {
  }

  /** A line that is LOW from poll s to poll e: honoured there exactly once debounced. */
  ghost predicate Debounced(v: View, line: seq<bool>, s: nat, e: nat)
    requires Wf(v)
  {
    && 1 <= s <= e < |v.t| == |line| && !line[s - 1]
    && forall j :: s <= j <= e ==> line[j] == (v.t[j] - v.t[s] >= DEBOUNCE_MS)
  }

  lemma PressBegins(v: View, line: seq<bool>, s: nat, e: nat, k: nat)
    requires Wf(v) && Debounced(v, line, s, e) && s <= k <= e && line[k]
    ensures FirstAfter(v.t, s, Onset(line, k), DEBOUNCE_MS)
  {
    var b := Onset(line, k);
    if b >= s {
      forall j | s <= j < b ensures v.t[j] - v.t[s] < DEBOUNCE_MS {
        assert !line[b - 1] && v.t[j] <= v.t[b - 1];
      }
    }
  }

  /** The short of a LOW run from s falls due at q, the debounced press being at p. */
  ghost predicate ShortDue(v: View, s: nat, p: nat, q: nat)
    requires Wf(v)
  {
    && FirstAfter(v.t, s, p, DEBOUNCE_MS) && FirstAfter(v.t, p, q, COMBO_WINDOW_MS)
    && NoneIn(v.both, s, q)
  }

  lemma BothNeedsLine(v: View, i: nat, s: nat, p: nat, k: nat)
    requires Wf(v) && s <= p <= k < |v.t| && i < 2
    requires forall j :: s <= j < p ==> !Line(v, i)[j]
    ensures NoneIn(v.both, s, k) <==> NoneIn(v.both, p, k)
  {
    forall j | s <= j < p ensures !v.both[j] {
      assert !Line(v, i)[j];
    }
  }

  lemma ShortFiresIffDue(v: View, i: nat, s: nat, e: nat, k: nat)
    requires Wf(v) && i < 2 && Debounced(v, Line(v, i), s, e) && s <= k <= e
    ensures ShortFires(v, i, k) <==> exists p :: ShortDue(v, s, p, k)
  {
    var line := Line(v, i);
    if line[k] {
      var b := Onset(line, k);
      PressBegins(v, line, s, e, k);
      BothNeedsLine(v, i, s, b, k);
      assert ShortFires(v, i, k) <==> ShortDue(v, s, b, k);
      if p: nat :| ShortDue(v, s, p, k) {
        FirstAfterUnique(v.t, s, p, b, DEBOUNCE_MS);
      }
    }
  }

  /** SELECT fires at k in a LOW run from s, the debounced press being at p: the first poll held
    * long enough whose one event is not taken by UP or DOWN. */
  ghost predicate HoldFiresAt(v: View, s: nat, p: nat, k: nat)
    requires Wf(v)
  {
    && FirstAfter(v.t, s, p, DEBOUNCE_MS) && p <= k < |v.t|
    && HoldDue(v, p, k) && forall j :: p <= j < k ==> !HoldDue(v, p, j)
  }

  lemma SelectFiresIffHold(v: View, s: nat, e: nat, k: nat)
    requires Wf(v) && Debounced(v, v.sel, s, e) && s <= k <= e
    ensures SelectFires(v, k) <==> exists p :: HoldFiresAt(v, s, p, k)
  {
    if v.sel[k] {
      var b := Onset(v.sel, k);
      PressBegins(v, v.sel, s, e, k);
      assert SelectFires(v, k) <==> HoldFiresAt(v, s, b, k);
      if p: nat :| HoldFiresAt(v, s, p, k) {
        FirstAfterUnique(v.t, s, p, b, DEBOUNCE_MS);
      }
    }
  }

  // ----- common presses -----

  /** A common press begins at s, and by poll n it has lasted `hold` ms. */
  ghost predicate LongPress(v: View, s: nat, n: nat, hold: nat)
    requires Wf(v) && n < |v.t|
  {
    && 1 <= s <= n && !v.both[s - 1]
    && exists e :: s <= e <= n && AllOf(v.both, s, e) && v.t[e] - v.t[s] >= hold
  }

  predicate AllOf(p: seq<bool>, from: nat, to: nat)
    requires to < |p|
  {
    forall j :: from <= j <= to ==> p[j]
  }

  ghost function LongPresses(v: View, n: nat, hold: nat): set<nat>
    requires Wf(v) && n < |v.t|
  {
    set s: nat | 1 <= s <= n && LongPress(v, s, n, hold)
  }

  ghost function Fired(v: View, n: nat, hold: nat): set<nat>
    requires Wf(v) && n < |v.t|
  {
    set k: nat | 1 <= k <= n && ComboFires(v, k, hold)
  }

  /** A firing poll completes a press that was not yet long enough. */
  lemma FiringCompletes(v: View, n: nat, hold: nat)
    requires Wf(v) && 1 <= n < |v.t| && ComboFires(v, n, hold)
    ensures LongPress(v, Onset(v.both, n), n, hold) && !LongPress(v, Onset(v.both, n), n - 1, hold)
  {
    var b := Onset(v.both, n);
    assert AllOf(v.both, b, n);
  }

  /** A press that is long enough only now makes this poll fire. */
  lemma CompletionFires(v: View, s: nat, n: nat, hold: nat)
    requires Wf(v) && 1 <= n < |v.t| && LongPress(v, s, n, hold) && !LongPress(v, s, n - 1, hold)
    ensures ComboFires(v, n, hold) && s == Onset(v.both, n)
  {
    var e :| s <= e <= n && AllOf(v.both, s, e) && v.t[e] - v.t[s] >= hold;
    assert Onset(v.both, n) == s;
    forall j | s <= j < n ensures v.t[j] - v.t[s] < hold {
      assert AllOf(v.both, s, j);
    }
  }

  lemma LongPressStep(v: View, s: nat, n: nat, hold: nat)
    requires Wf(v) && 1 <= n < |v.t|
    ensures LongPress(v, s, n, hold) <==>
      LongPress(v, s, n - 1, hold) || (ComboFires(v, n, hold) && s == Onset(v.both, n))
    ensures ComboFires(v, n, hold) ==> !LongPress(v, Onset(v.both, n), n - 1, hold)
  {
    if ComboFires(v, n, hold) { FiringCompletes(v, n, hold); }
    if LongPress(v, s, n - 1, hold) { StaysLong(v, s, n, hold); }
    if LongPress(v, s, n, hold) && !LongPress(v, s, n - 1, hold) { CompletionFires(v, s, n, hold); }
  }

  lemma StaysLong(v: View, s: nat, n: nat, hold: nat)
    requires Wf(v) && 1 <= n < |v.t| && LongPress(v, s, n - 1, hold)
    ensures LongPress(v, s, n, hold)
  {
    var e :| s <= e <= n - 1 && AllOf(v.both, s, e) && v.t[e] - v.t[s] >= hold;
    assert e <= n;
  }

  lemma FiredStep(v: View, n: nat, hold: nat)
    requires Wf(v) && 1 <= n < |v.t|
    ensures Fired(v, n, hold) == Fired(v, n - 1, hold) + (if ComboFires(v, n, hold) then {n} else {})
    ensures n !in Fired(v, n - 1, hold)
  {
  }

  lemma LongPressesStep(v: View, n: nat, hold: nat)
    requires Wf(v) && 1 <= n < |v.t|
    ensures LongPresses(v, n, hold) ==
            LongPresses(v, n - 1, hold) + (if ComboFires(v, n, hold) then {Onset(v.both, n)} else {})
    ensures ComboFires(v, n, hold) ==> Onset(v.both, n) !in LongPresses(v, n - 1, hold)
  {
    forall s: nat
      ensures LongPress(v, s, n, hold) <==>
        LongPress(v, s, n - 1, hold) || (ComboFires(v, n, hold) && s == Onset(v.both, n))
      ensures ComboFires(v, n, hold) ==> !LongPress(v, Onset(v.both, n), n - 1, hold)
    {
      LongPressStep(v, s, n, hold);
    }
  }

  lemma CountStep(v: View, n: nat, hold: nat)
    requires Wf(v) && 1 <= n < |v.t|
    ensures |Fired(v, n, hold)| == |Fired(v, n - 1, hold)| + (if ComboFires(v, n, hold) then 1 else 0)
  {
    FiredStep(v, n, hold);
    if ComboFires(v, n, hold) {
      InsertSize(Fired(v, n - 1, hold), n);
    } else {
      assert Fired(v, n, hold) == Fired(v, n - 1, hold);
    }
  }

  lemma PressCountStep(v: View, n: nat, hold: nat)
    requires Wf(v) && 1 <= n < |v.t|
    ensures |LongPresses(v, n, hold)| == |LongPresses(v, n - 1, hold)| + (if ComboFires(v, n, hold) then 1 else 0)
  {
    LongPressesStep(v, n, hold);
    if ComboFires(v, n, hold) {
      InsertSize(LongPresses(v, n - 1, hold), Onset(v.both, n));
    } else {
      assert LongPresses(v, n, hold) == LongPresses(v, n - 1, hold);
    }
  }

  lemma CountsMoveTogether(v: View, n: nat, hold: nat)
    requires Wf(v) && 1 <= n < |v.t| && |Fired(v, n - 1, hold)| == |LongPresses(v, n - 1, hold)|
    ensures |Fired(v, n, hold)| == |LongPresses(v, n, hold)|
  {
    CountStep(v, n, hold);
    PressCountStep(v, n, hold);
  }

  lemma NothingAtStart(v: View, hold: nat)
    requires Wf(v)
    ensures Fired(v, 0, hold) == {} && LongPresses(v, 0, hold) == {}
  {
  }

  /** The combo fires once for every common press that lasts long enough, and for no other. */
  lemma {:induction false} ComboCount(v: View, n: nat, hold: nat)
    requires Wf(v) && n < |v.t|
    ensures |Fired(v, n, hold)| == |LongPresses(v, n, hold)|
  {
    if n == 0 {
      NothingAtStart(v, hold);
    } else {
      ComboCount(v, n - 1, hold);
      CountsMoveTogether(v, n, hold);
    }
  }
}
