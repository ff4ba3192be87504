/** Runs of a diagnostic round, built step by step. */
module RoundWitness {
  import opened Words
  import opened BootDiag
  import opened DiagRound
  import opened RoundRuns
  import BC = BootCapture
  import BD = BootDetect
  import BI = BusIntegrity
  import CD = CaptureDrain
  import CR = CaptureRing
  import TC = TxnCapture

  datatype Run = Run(states: seq<Sys>, steps: seq<Step>)

  ghost predicate Ok(r: Run) { IsRun(r.states, r.steps) }

  function End(r: Run): Sys
    requires r.states != []
  {
    r.states[|r.states| - 1]
  }

  /** Neither a command nor a request for another round. */
  predicate Calm(step: Step) { !step.Command? && !step.StartRequest? }

  /** u goes on where r ends, calmly. */
  ghost predicate Leads(r: Run, u: Run) {
    && Ok(r) && Ok(u) && r.states <= u.states && r.steps <= u.steps
    && forall k :: |r.steps| <= k < |u.steps| ==> Calm(u.steps[k])
  }

  lemma LeadsTwice(r: Run, u: Run, v: Run)
    requires Leads(r, u) && Leads(u, v)
    ensures Leads(r, v)
  {
    forall k | |r.steps| <= k < |v.steps|
      ensures Calm(v.steps[k])
    {
      if k < |u.steps| { assert v.steps[k] == u.steps[k]; }
    }
  }

  function Then(r: Run, step: Step): Run
    requires r.states != [] && Enabled(End(r), step)
  {
    Run(r.states + [Exec(End(r), step)], r.steps + [step])
  }

  lemma ThenRuns(r: Run, step: Step)
    requires Ok(r) && Enabled(End(r), step)
    ensures Ok(Then(r, step)) && End(Then(r, step)) == Exec(End(r), step)
    ensures r.states <= Then(r, step).states && r.steps <= Then(r, step).steps
  {
    var u := Then(r, step);
    forall i | 0 <= i < |u.steps|
      ensures Next(u.states[i], u.steps[i], u.states[i + 1])
    {
      if i < |r.steps| { assert Next(r.states[i], r.steps[i], r.states[i + 1]); }
    }
  }

  lemma One(r: Run, step: Step) returns (u: Run)
    requires Ok(r) && Enabled(End(r), step) && Calm(step)
    ensures Leads(r, u) && End(u) == Exec(End(r), step)
  {
    u := Then(r, step);
    ThenRuns(r, step);
  }

  /** What the steps of a run may rely on. */
  ghost predicate Fit(s: Sys) {
    && |s.txn.ring.slots| == CR.RING_LEN && CD.LogOk(s.cap.log, s.cap.logged) && CoreOk(s)
  }

  lemma EndFit(r: Run)
    requires Ok(r)
    ensures Fit(End(r))
  {
    RunKeepsInv(r.states, r.steps, |r.steps|);
  }

  // ----- one pass, part by part -----

  /** The DMA stores these words in the read ring. */
  lemma {:induction false} WriteReads(r: Run, ws: seq<Word>) returns (u: Run)
    requires Ok(r) && End(r).txn.armed
    ensures Leads(r, u)
    ensures var s, t := End(r), End(u);
            && t == s.(txn := s.txn.(ring := t.txn.ring))
            && t.txn.ring.hist == s.txn.ring.hist.(stream := s.txn.ring.hist.stream + ws)
            && t.txn.ring.local == s.txn.ring.local
    decreases |ws|
  {
    if ws == [] {
      u := r;
      assert End(r).txn.ring.hist.stream + ws == End(r).txn.ring.hist.stream;
    } else {
      EndFit(r);
      var v := One(r, Txn(TC.OnRing(CR.Write(ws[0]))));
      u := WriteReads(v, ws[1..]);
      LeadsTwice(r, v, u);
      var was := End(r).txn.ring.hist.stream;
      assert was + [ws[0]] + ws[1..] == was + ws;
    }
  }

  /** The DMA stores this word, if any, in the log. */
  lemma WriteLog(r: Run, w: Option<Word>) returns (u: Run)
    requires Ok(r) && End(r).cap.claimed && |Log(End(r))| < BC.ALOG_TOTAL
    ensures Leads(r, u)
    ensures var s, t := End(r), End(u);
            && t == s.(cap := s.cap.(log := t.cap.log)) && Log(t) == Log(s) + Listed(w)
            && t.cap.log.cap == s.cap.log.cap && t.cap.log.rd == s.cap.log.rd
  {
    if w.None? {
      u := r;
    } else {
      EndFit(r);
      u := One(r, Cap(CD.WriteLog(w.value)));
      LogOneMore(End(r), w.value);
    }
  }

  function Listed(w: Option<Word>): seq<Word> { if w.Some? then [w.value] else [] }

  lemma LogOneMore(s: Sys, w: Word)
    requires Fit(s) && s.cap.claimed && |Log(s)| < BC.ALOG_TOTAL
    ensures CD.Held(CD.LogWritten(s.cap.log, w)) == Log(s) + [w]
  {
  }

  /** A drain of the read ring has moved on; what the DMA wrote and the samples are as before. */
  predicate Drained(s: Sys, t: Sys) {
    && t == s.(txn := t.txn) && t.txn.ring.hist.stream == s.txn.ring.hist.stream
    && t.txn.ring.hist.gaps == s.txn.ring.hist.gaps
  }

  lemma DrainStep(s: Sys, step: CR.Step)
    requires s.draining && TC.CanDo(s.txn, TC.OnRing(step)) && (step.Load? || step.Take? || step.WriteBack?)
    ensures Enabled(s, Txn(TC.OnRing(step)))
    ensures Drained(s, Exec(s, Txn(TC.OnRing(step)))) && |Exec(s, Txn(TC.OnRing(step))).txn.ring.slots| == CR.RING_LEN
    ensures Exec(s, Txn(TC.OnRing(step))).txn.ring.local == CR.Exec(s.txn.ring, step).local
  {
  }

  /** Core 1 copies up to the count. */
  lemma {:induction false} TakeReads(r: Run) returns (u: Run)
    requires Ok(r) && End(r).draining && End(r).txn.ring.local.Copying? && |End(r).txn.ring.slots| == CR.RING_LEN
    ensures Leads(r, u) && Drained(End(r), End(u)) && TC.CanDo(End(u).txn, TC.OnRing(CR.WriteBack))
    decreases var l := End(r).txn.ring.local; CR.Left(l.t, l.cursor)
  {
    var l := End(r).txn.ring.local;
    if l.cursor == l.t {
      u := r;
    } else {
      DrainStep(End(r), CR.Take);
      var v := One(r, Txn(TC.OnRing(CR.Take)));
      CR.OneCloser(l.t, l.cursor);
      u := TakeReads(v);
      LeadsTwice(r, v, u);
    }
  }

  lemma SampleReads(r: Run) returns (u: Run)
    requires Ok(r) && End(r).draining && End(r).txn.ring.local.NoDrain?
    ensures Leads(r, u) && TC.CanDo(End(u).txn, TC.OnRing(CR.Load))
    ensures var s, t := End(r), End(u);
            && t == s.(txn := t.txn)
            && t.txn.ring.hist.stream == s.txn.ring.hist.stream
            && t.txn.ring.hist.gaps == s.txn.ring.hist.gaps + [CR.Gap(s.txn.ring.hist)]
  {
    EndFit(r);
    u := One(r, Txn(TC.OnRing(CR.Sample)));
  }

  lemma CopyReads(r: Run) returns (u: Run)
    requires Ok(r) && End(r).draining && TC.CanDo(End(r).txn, TC.OnRing(CR.Load))
    ensures Leads(r, u) && Drained(End(r), End(u)) && End(u).txn.ring.local.NoDrain?
  {
    DrainStep(End(r), CR.Load);
    var v := One(r, Txn(TC.OnRing(CR.Load)));
    var w := TakeReads(v);
    LeadsTwice(r, v, w);
    DrainStep(End(w), CR.WriteBack);
    u := One(w, Txn(TC.OnRing(CR.WriteBack)));
    LeadsTwice(r, w, u);
  }

  lemma DrainReads(r: Run) returns (u: Run)
    requires Ok(r) && End(r).draining && End(r).txn.ring.local.NoDrain?
    ensures Leads(r, u)
    ensures var s, t := End(r), End(u);
            && t == s.(txn := t.txn) && t.txn.ring.local.NoDrain?
            && t.txn.ring.hist.stream == s.txn.ring.hist.stream
            && t.txn.ring.hist.gaps == s.txn.ring.hist.gaps + [CR.Gap(s.txn.ring.hist)]
  {
    var v := SampleReads(r);
    u := CopyReads(v);
    LeadsTwice(r, v, u);
  }

  /** Log words mean no phase but CART_SCAN. */
  predicate Cold(s: Sys) { 0 !in s.cap.det.phaseFlags }

  /** The log loop has moved on; only the cursor and what the detector got are different. */
  predicate Logging(s: Sys, t: Sys) {
    t == s.(cap := t.cap) && t.cap.mem == s.cap.mem && t.cap.io == s.cap.io && Cold(t)
  }

  lemma TakeLogStep(s: Sys)
    requires s.draining && CD.CanDo(s.cap, CD.TakeLog) && Cold(s)
    ensures Enabled(s, Cap(CD.TakeLog)) && Logging(s, Exec(s, Cap(CD.TakeLog)))
    ensures Exec(s, Cap(CD.TakeLog)).cap.log == s.cap.log.(rd := s.cap.log.rd + 1)
  {
    LogWordIsCold(s.cap.det, s.cap.log.cells[s.cap.log.rd]);
  }

  lemma {:induction false} TakeLogs(r: Run) returns (u: Run)
    requires Ok(r) && End(r).draining && End(r).cap.log.cap == Some(|Log(End(r))|)
    requires End(r).cap.log.rd <= |Log(End(r))| && Cold(End(r))
    ensures Leads(r, u) && Logging(End(r), End(u)) && End(u).cap.log == End(r).cap.log.(rd := |Log(End(r))|)
    decreases |Log(End(r))| - End(r).cap.log.rd
  {
    if End(r).cap.log.rd == |Log(End(r))| {
      u := r;
    } else {
      TakeLogStep(End(r));
      var v := One(r, Cap(CD.TakeLog));
      u := TakeLogs(v);
      LeadsTwice(r, v, u);
    }
  }

  lemma LogWordIsCold(det: BD.DetectState, w: Word)
    requires 0 !in det.phaseFlags
    ensures match BC.Decode(BC.Tagged(BC.Alog, w)) case Some(e) => 0 !in BD.FeedOne(det, e).phaseFlags case None => true
  {
  }

  lemma DrainLog(r: Run) returns (u: Run)
    requires Ok(r) && End(r).draining && End(r).cap.log.cap.None? && End(r).cap.log.rd == 0 && Cold(End(r))
    ensures Leads(r, u)
    ensures var s, t := End(r), End(u);
            && t == s.(cap := t.cap) && t.cap.mem == s.cap.mem && t.cap.io == s.cap.io && Cold(t)
            && t.cap.log.cap.None? && Log(t) == Log(s) && t.cap.log.rd == |Log(s)|
  {
    EndFit(r);
    u := One(r, Cap(CD.BeginLog));
    var v := TakeLogs(u);
    LeadsTwice(r, u, v);
    u := One(v, Cap(CD.EndLog));
    LeadsTwice(r, v, u);
  }

  // ----- one pass -----

  /** What a pass of the following kind leaves behind: these reads captured and sampled once, this log
    * word captured, the whole log handed over. */
  ghost predicate PassLeaves(p: Pass, ws: seq<Word>, log: seq<Word>) {
    && p.mem == p.io == CR.NOTHING
    && p.txn.stream == ws && p.txn.gaps == [|ws|]
    && p.held == log && p.logRd == |log|
  }

  /** At the start of a pass: before the first, or between two. */
  ghost predicate AtPass(s: Sys) { s.core.phase == PassBegin && Cold(s) }

  predicate Opened(s: Sys) {
    && s.core.phase == Capturing && !s.draining && s.cap.claimed && s.txn.armed
    && s.cap.mem.hist == s.cap.io.hist == s.txn.ring.hist == CR.NOTHING && s.cap.log.rd == 0
  }

  lemma OpenPass(r: Run, now: Word, snap: Probe) returns (u: Run)
    requires Ok(r) && AtPass(End(r))
    ensures Leads(r, u) && Opened(End(u)) && Cold(End(u)) && Log(End(u)) == Log(End(r))
    ensures var s, t := End(r), End(u);
            && t.passes == s.passes && t.ends == s.ends && t.core.pass == s.core.pass
  {
    EndFit(r);
    u := One(r, Tick(now, snap));
  }

  /** In the open window: the DMA writes, core 1 drains once. */
  ghost predicate Captured(s: Sys, t: Sys, ws: seq<Word>, w: Option<Word>) {
    && t == s.(cap := t.cap, txn := t.txn) && Cold(t) && !t.draining
    && t.cap.mem.hist == t.cap.io.hist == CR.NOTHING
    && t.txn.ring.hist.stream == ws && t.txn.ring.hist.gaps == [|ws|]
    && Log(t) == Log(s) + Listed(w) && t.cap.log.rd == |Log(t)|
  }

  lemma WriteAll(r: Run, ws: seq<Word>, w: Option<Word>) returns (u: Run)
    requires Ok(r) && Opened(End(r)) && Cold(End(r)) && |Log(End(r))| + |Listed(w)| <= BC.ALOG_TOTAL
    ensures Leads(r, u)
    ensures var s, t := End(r), End(u);
            && t == s.(cap := s.cap.(log := t.cap.log), txn := t.txn)
            && t.txn.ring.local.NoDrain? && t.txn.ring.hist == CR.NOTHING.(stream := ws)
            && Log(t) == Log(s) + Listed(w) && t.cap.log.cap.None? && t.cap.log.rd == 0
  {
    EndFit(r);
    var v := WriteReads(r, ws);
    assert CR.NOTHING.stream + ws == ws;
    if w.Some? {
      u := WriteLog(v, w);
      LeadsTwice(r, v, u);
    } else {
      u := v;
      assert Log(End(r)) + [] == Log(End(r));
    }
  }

  lemma FirstGap(h: CR.History)
    requires h.gaps == []
    ensures h.gaps + [CR.Gap(h)] == [|h.stream|]
  {
  }

  lemma DrainAll(r: Run) returns (u: Run)
    requires Ok(r) && End(r).core.phase == Capturing && !End(r).draining && Cold(End(r))
    requires NoDrain(End(r)) && End(r).txn.ring.hist.gaps == [] && End(r).cap.log.rd == 0
    ensures Leads(r, u)
    ensures var s, t := End(r), End(u);
            && t == s.(cap := t.cap, txn := t.txn) && Cold(t) && !t.draining
            && t.cap.mem == s.cap.mem && t.cap.io == s.cap.io
            && t.txn.ring.hist.stream == s.txn.ring.hist.stream
            && t.txn.ring.hist.gaps == [|s.txn.ring.hist.stream|]
            && Log(t) == Log(s) && t.cap.log.rd == |Log(s)|
  {
    FirstGap(End(r).txn.ring.hist);
    var v := One(r, Enter);
    var w := DrainReads(v);
    LeadsTwice(r, v, w);
    v := DrainLog(w);
    LeadsTwice(r, w, v);
    u := One(v, Leave);
    LeadsTwice(r, v, u);
  }

  lemma Capture(r: Run, ws: seq<Word>, w: Option<Word>) returns (u: Run)
    requires Ok(r) && Opened(End(r)) && Cold(End(r)) && |Log(End(r))| + |Listed(w)| <= BC.ALOG_TOTAL
    ensures Leads(r, u) && Captured(End(r), End(u), ws, w)
  {
    EndFit(r);
    var v := WriteAll(r, ws, w);
    u := DrainAll(v);
    LeadsTwice(r, v, u);
  }

  // The two ticks that end a pass, each at its deadline.

  lemma DueNow(due: nat)
    ensures Reached(Wrap32(due), due)
  {
    assert Wrap32(due) - due == -(due / U32) * U32;
  }

  lemma CloseTick(r: Run, snap: Probe) returns (u: Run)
    requires Ok(r) && End(r).core.phase == Capturing
    ensures Leads(r, u) && exists now: Word :: End(u) == WindowClosed(End(r), now)
  {
    EndFit(r);
    DueNow(End(r).core.deadline);
    u := One(r, Tick(Wrap32(End(r).core.deadline), snap));
    assert End(u) == WindowClosed(End(r), Wrap32(End(r).core.deadline));
  }

  lemma EndTick(r: Run, snap: Probe) returns (u: Run)
    requires Ok(r) && End(r).core.phase == Settle && !End(r).draining
    ensures Leads(r, u) && End(u) == PassEnded(End(r), snap)
  {
    EndFit(r);
    DueNow(End(r).core.deadline);
    u := One(r, Tick(Wrap32(End(r).core.deadline), snap));
  }

  ghost predicate Ended(s: Sys, t: Sys, snap: Probe) {
    && t.passes == s.passes + [PassOf(s)] && t.ends == s.ends + [PassEnd(snap, ReadCount(t.passes))]
    && t.core.pass == s.core.pass + 1 && t.core.phase == (if t.core.pass >= MAX_PASSES then Done else PassBegin)
    && Log(t) == Log(s) && Cold(t)
  }

  lemma CountAtEnd(r: Run)
    requires Ok(r) && End(r).core.phase == Settle
    ensures End(r).txn.tally.counts.total == ReadCount(End(r).passes + [PassOf(End(r))])
  {
    RunKeepsInv(r.states, r.steps, |r.steps|);
    CountedAtEnd(End(r));
  }

  lemma EndedBy(s: Sys, now: Word, v: Sys, t: Sys, snap: Probe)
    requires Cold(s) && v == WindowClosed(s, now) && t == PassEnded(v, snap)
    requires v.txn.tally.counts.total == ReadCount(v.passes + [PassOf(v)])
    ensures Ended(s, t, snap)
  {
    assert PassOf(v) == PassOf(s);
    assert !AllSeen(v.cap.det.phaseFlags);
  }

  lemma ClosePass(r: Run, snap: Probe) returns (u: Run)
    requires Ok(r) && End(r).core.phase == Capturing && !End(r).draining && Cold(End(r))
    ensures Leads(r, u) && Ended(End(r), End(u), snap)
  {
    var v := CloseTick(r, snap);
    var now: Word :| End(v) == WindowClosed(End(r), now);
    u := EndTick(v, snap);
    LeadsTwice(r, v, u);
    CountAtEnd(v);
    EndedBy(End(r), now, End(v), End(u), snap);
  }

  /** A whole pass. */
  ghost predicate Passed(s: Sys, t: Sys, ws: seq<Word>, w: Option<Word>, snap: Probe) {
    && |t.passes| == |s.passes| + 1 && t.passes == s.passes + [t.passes[|s.passes|]]
    && t.ends == s.ends + [PassEnd(snap, ReadCount(t.passes))]
    && PassLeaves(t.passes[|s.passes|], ws, Log(t)) && Log(t) == Log(s) + Listed(w)
    && t.core.pass == s.core.pass + 1 && t.core.phase == (if t.core.pass >= MAX_PASSES then Done else PassBegin)
    && Cold(t)
  }

  lemma PassedBy(s: Sys, o: Sys, c: Sys, t: Sys, ws: seq<Word>, w: Option<Word>, snap: Probe)
    requires o.passes == s.passes && o.ends == s.ends && o.core.pass == s.core.pass && Log(o) == Log(s)
    requires Captured(o, c, ws, w) && Ended(c, t, snap)
    ensures Passed(s, t, ws, w, snap)
  {
    assert PassLeaves(PassOf(c), ws, Log(c));
  }

  lemma RunPass(r: Run, ws: seq<Word>, w: Option<Word>, snap: Probe) returns (u: Run)
    requires Ok(r) && AtPass(End(r)) && |Log(End(r))| + |Listed(w)| <= BC.ALOG_TOTAL
    ensures Leads(r, u) && Passed(End(r), End(u), ws, w, snap)
  {
    var o := OpenPass(r, Wrap32(End(r).core.deadline), snap);
    var c := Capture(o, ws, w);
    LeadsTwice(r, o, c);
    u := ClosePass(c, snap);
    LeadsTwice(r, c, u);
    PassedBy(End(r), End(o), End(c), End(u), ws, w, snap);
  }

  // ----- one round -----

  lemma BeginRun(r: Run, snap: Probe) returns (u: Run)
    requires Ok(r) && !Running(End(r).core.phase) && End(r).core.request
    ensures Leads(r, u) && End(u) == RoundBegun(End(r)) && |u.states| == |r.states| + 1
  {
    EndFit(r);
    u := Then(r, Tick(0, snap));
    ThenRuns(r, Tick(0, snap));
  }

  /** A request and the tick that takes it. */
  lemma Request(r: Run, snap: Probe) returns (u: Run, b: nat)
    requires Ok(r) && !Running(End(r).core.phase)
    ensures Ok(u) && r.states <= u.states && r.steps <= u.steps && |u.states| == b + 2
    ensures |r.states| == b && !Running(u.states[b].core.phase) && u.states[b] == Exec(End(r), StartRequest)
    ensures AtPass(End(u)) && Log(End(u)) == Log(End(r))
    ensures End(u).passes == [] && End(u).ends == [] && End(u).core.pass == 0
  {
    b := |r.states|;
    var v := Then(r, StartRequest);
    ThenRuns(r, StartRequest);
    u := BeginRun(v, snap);
    RoundStarts(End(v));
    assert u.states[b] == v.states[b];
  }

  lemma RoundStarts(s: Sys)
    ensures var t := RoundBegun(s);
            && AtPass(t) && Log(t) == Log(s) && t.passes == [] && t.ends == [] && t.core.pass == 0
  {
  }

  /** What the bus and the probe show in one pass. */
  datatype Job = Job(ws: seq<Word>, snap: Probe)

  /** What such passes leave, one after the other, with this in the log. */
  ghost predicate PassesLeave(ps: seq<Pass>, ends: seq<PassEnd>, jobs: seq<Job>, log: seq<Word>) {
    if ps == [] then ends == []
    else
      var n := |ps| - 1;
      && |ends| == n + 1 && n < |jobs| && PassesLeave(ps[..n], ends[..n], jobs, log)
      && PassLeaves(ps[n], jobs[n].ws, log) && ends[n] == PassEnd(jobs[n].snap, ReadCount(ps))
  }

  lemma {:induction false} PassesLeaveAt(ps: seq<Pass>, ends: seq<PassEnd>, jobs: seq<Job>, log: seq<Word>, i: nat)
    requires PassesLeave(ps, ends, jobs, log) && i < |ps|
    ensures |ends| == |ps| <= |jobs| && PassLeaves(ps[i], jobs[i].ws, log)
  {
    var n := |ps| - 1;
    if i < n { PassesLeaveAt(ps[..n], ends[..n], jobs, log, i); }
  }

  lemma {:induction false} ClassifiedAt(ps: seq<Pass>, ends: seq<PassEnd>, jobs: seq<Job>, log: seq<Word>, i: nat)
    requires PassesLeave(ps, ends, jobs, log) && i < |ps|
    ensures |ends| == |ps| <= |jobs| && ends[i] == PassEnd(jobs[i].snap, ReadCount(ps[..i + 1]))
  {
    var n := |ps| - 1;
    if i < n {
      ClassifiedAt(ps[..n], ends[..n], jobs, log, i);
      assert ps[..n][..i + 1] == ps[..i + 1];
    } else {
      assert ps[..i + 1] == ps;
    }
  }

  lemma {:induction false} OneMoreJob(ps: seq<Pass>, ends: seq<PassEnd>, jobs: seq<Job>, log: seq<Word>, p: Pass)
    requires PassesLeave(ps, ends, jobs, log) && |ps| < |jobs| && PassLeaves(p, jobs[|ps|].ws, log)
    ensures PassesLeave(ps + [p], ends + [PassEnd(jobs[|ps|].snap, ReadCount(ps + [p]))], jobs, log)
  {
    assert |ends| == |ps|;
    assert (ps + [p])[..|ps|] == ps;
    assert (ends + [PassEnd(jobs[|ps|].snap, ReadCount(ps + [p]))])[..|ps|] == ends;
  }

  lemma {:induction false} NextJob(s: Sys, t: Sys, jobs: seq<Job>, w: Option<Word>)
    requires |s.passes| < |jobs| && Passed(s, t, jobs[|s.passes|].ws, w, jobs[|s.passes|].snap)
    requires PassesLeave(s.passes, s.ends, jobs, Log(t))
    ensures PassesLeave(t.passes, t.ends, jobs, Log(t)) && |t.passes| == |s.passes| + 1
  {
    var p := t.passes[|s.passes|];
    OneMoreJob(s.passes, s.ends, jobs, Log(t), p);
    SameLists(s.passes + [p], s.ends + [PassEnd(jobs[|s.passes|].snap, ReadCount(s.passes + [p]))], jobs, Log(t), t);
  }

  lemma {:induction false} SameLists(ps: seq<Pass>, ends: seq<PassEnd>, jobs: seq<Job>, log: seq<Word>, t: Sys)
    requires PassesLeave(ps, ends, jobs, log) && t.passes == ps && t.ends == ends
    ensures PassesLeave(t.passes, t.ends, jobs, log)
  {
  }

  /** The round that three such passes leave. */
  ghost predicate RoundLeaves(t: Sys, jobs: seq<Job>, log: seq<Word>) {
    t.core.phase == Done && Log(t) == log && |t.passes| == 3 == |jobs| && PassesLeave(t.passes, t.ends, jobs, log)
  }

  lemma Listing(log: seq<Word>)
    ensures log + Listed(None) == log
  {
  }

  /** Three passes; the log word is captured in the first. */
  lemma RunRound(r: Run, jobs: seq<Job>, w: Option<Word>) returns (u: Run)
    requires Ok(r) && AtPass(End(r)) && End(r).core.pass == 0 && End(r).passes == [] && End(r).ends == []
    requires |jobs| == 3 && |Log(End(r))| + |Listed(w)| <= BC.ALOG_TOTAL
    ensures Leads(r, u) && RoundLeaves(End(u), jobs, Log(End(r)) + Listed(w))
  {
    var v := RunPass(r, jobs[0].ws, w, jobs[0].snap);
    NextJob(End(r), End(v), jobs, w);
    Listing(Log(End(v)));
    var x := RunPass(v, jobs[1].ws, None, jobs[1].snap);
    LeadsTwice(r, v, x);
    NextJob(End(v), End(x), jobs, None);
    Listing(Log(End(x)));
    u := RunPass(x, jobs[2].ws, None, jobs[2].snap);
    LeadsTwice(r, x, u);
    NextJob(End(x), End(u), jobs, None);
  }

  lemma StaysUndisturbed(r: Run, u: Run, b: nat)
    requires Leads(r, u) && |r.states| == b + 2
    requires !Running(r.states[b].core.phase) && r.states[b + 1].core.phase == PassBegin
    ensures Undisturbed(u.states, u.steps, b, |u.states| - 1)
    ensures forall k :: b < k < |u.states| - 1 ==> !u.steps[k].StartRequest?
  {
    assert u.states[b] == r.states[b] && u.states[b + 1] == r.states[b + 1];
    forall k | b < k < |u.states| - 1
      ensures Calm(u.steps[k])
    {
    }
  }
}
