/** What becomes, over every run, of a fiber that yielded, of a wake-up that was set up, and of a hooked call. */
module ProtocolOutcomes {
  import opened Basics
  import opened Jobs
  import opened Protocol
  import opened ProtocolTokens
  import opened ProtocolCalls
  import opened ProtocolStates
  import opened ProtocolWakes
  import opened ProtocolWaits
  import opened ProtocolRuns

  // ---------- fibers ----------

  /** In every run, a fiber is EXEC only while a worker has it on its hands. So a queued entry for any thread or
      for `w`, whose fiber is on no worker's hands, is eligible there, and a worker at the top of its loop can
      pick it or one before it. */
  lemma NeverStuck(states: seq<State>, steps: seq<Step>, n: nat, i: nat, w: Wid)
    requires Run(states, steps) && n < |states| && i < |states[n].queue| && w < |states[n].workers|
    requires states[n].queue[i].thread == ANY || states[n].queue[i].thread == w
    requires states[n].queue[i].job.Fib? ==> forall v :: !Has1(states[n], v, states[n].queue[i].job.f)
    ensures Eligible(states[n], w, states[n].queue[i])
    ensures states[n].workers[w].pc.Between? ==> exists j: nat :: j <= i && CanLoop(states[n], w, Pick(j))
  {
    RunInv(states, steps, n);
    var s := states[n];
    assert Housed(s);
    FirstEligible(s, w, i);
    var j: nat :| j <= i && Eligible(s, w, s.queue[j]) && forall k | 0 <= k < j :: !Eligible(s, w, s.queue[k]);
    assert s.workers[w].pc.Between? ==> CanLoop(s, w, Pick(j));
  }

  lemma {:induction false} FirstEligible(s: State, w: Wid, i: nat)
    requires i < |s.queue| && w < |s.workers| && Eligible(s, w, s.queue[i])
    ensures exists j: nat ::
              j <= i && Eligible(s, w, s.queue[j]) && forall k | 0 <= k < j :: !Eligible(s, w, s.queue[k])
  {
    if k: nat :| k < i && Eligible(s, w, s.queue[k]) {
      FirstEligible(s, w, k);
    }
  }

  ghost predicate SwapsIn(s: State, step: Step, f: Fid) {
    step.Loops? && step.loop.SwapIn? && Picks(s, step.w, f)
  }

  lemma ReadyLoop(s: State, w: Wid, loop: Loop, f: Fid)
    requires Owned(s) && CanLoop(s, w, loop) && f in s.fibers && s.fibers[f].state == READY
    requires !SwapsIn(s, Loops(w, loop), f)
    ensures f in LoopOn(s, w, loop).fibers && LoopOn(s, w, loop).fibers[f].state == READY
  {
    match loop
    case Settle => SettledIs(s, w);
    case _ =>
  }

  lemma ReadyRun(s: State, w: Wid, own: Own, f: Fid)
    requires Owned(s) && CanRun(s, w, own) && f in s.fibers && s.fibers[f].state == READY
    ensures f in RunOn(s, w, own).fibers && RunOn(s, w, own).fibers[f].state == READY
  {
    assert Has1(s, w, Fiber0(s, w)) && HandOk(s, w, Fiber0(s, w));
  }

  lemma ReadyHook(s: State, w: Wid, hook: Hook, f: Fid)
    requires CanHook(s, w, hook) && f in s.fibers && s.fibers[f].state == READY
    ensures f in HookOn(s, w, hook).fibers && HookOn(s, w, hook).fibers[f].state == READY
  {
  }

  lemma ReadyKept(s: State, step: Step, f: Fid)
    requires Owned(s) && Enabled(s, step) && f in s.fibers && s.fibers[f].state == READY && !SwapsIn(s, step, f)
    ensures f in Apply(s, step).fibers && Apply(s, step).fibers[f].state == READY
  {
    match step
    case Does(_, _) =>
    case Runs(w, own) => ReadyRun(s, w, own, f);
    case Loops(w, loop) => ReadyLoop(s, w, loop, f);
    case Hooked(w, hook) => ReadyHook(s, w, hook, f);
  }

  ghost predicate Ready(s: State, f: Fid) {
    f in s.fibers && s.fibers[f].state == READY
  }

  /** A worker took the fiber up again between the two. */
  ghost predicate Resumed(states: seq<State>, steps: seq<Step>, n: nat, m: nat, f: Fid)
    requires m <= |steps| <= |states|
  {
    exists k :: n < k < m && SwapsIn(states[k], steps[k], f)
  }

  lemma YieldsReady(s: State, w: Wid)
    requires CanRun(s, w, Yield(true))
    ensures Ready(RunOn(s, w, Yield(true)), Fiber0(s, w))
  {
  }

  lemma ReadyOn(states: seq<State>, steps: seq<Step>, n: nat, m: nat, f: Fid)
    requires Run(states, steps) && n < m < |steps|
    requires Ready(states[m], f) || Resumed(states, steps, n, m, f)
    ensures Ready(states[m + 1], f) || Resumed(states, steps, n, m + 1, f)
  {
    if Resumed(states, steps, n, m, f) {
      var k :| n < k < m && SwapsIn(states[k], steps[k], f);
      assert n < k < m + 1 && SwapsIn(states[k], steps[k], f);
    } else if SwapsIn(states[m], steps[m], f) {
      assert n < m < m + 1;
    } else {
      assert Next(states[m], steps[m], states[m + 1]);
      RunInv(states, steps, m);
      ReadyKept(states[m], steps[m], f);
    }
  }

  lemma {:induction false} ReadySince(states: seq<State>, steps: seq<Step>, n: nat, m: nat, w: Wid)
    requires Run(states, steps) && n < m < |states| && steps[n] == Runs(w, Yield(true)) && RunsNow(states[n], w)
    ensures Ready(states[m], Fiber0(states[n], w)) || Resumed(states, steps, n, m, Fiber0(states[n], w))
    decreases m
  {
    if m == n + 1 {
      assert Next(states[n], steps[n], states[n + 1]);
      YieldsReady(states[n], w);
    } else {
      ReadySince(states, steps, n, m - 1, w);
      ReadyOn(states, steps, n, m - 1, Fiber0(states[n], w));
    }
  }

  /** In every run, a fiber that yielded READY is in line to run at all times until it runs again. */
  lemma YieldComesBack(states: seq<State>, steps: seq<Step>, n: nat, m: nat, w: Wid)
    requires Run(states, steps) && n < m < |states| && steps[n] == Runs(w, Yield(true)) && RunsNow(states[n], w)
    ensures var f := Fiber0(states[n], w);
            (Ready(states[m], f) && InLine(states[m], f)) || Resumed(states, steps, n, m, f)
  {
    ReadySince(states, steps, n, m, w);
    RunInv(states, steps, m);
    assert Lined(states[m]);
  }

  // ---------- threads ----------

  /** The fiber is queued for the thread, or picked by it. */
  ghost predicate PinnedTo(s: State, f: Fid, t: Wid) {
    (exists i :: 0 <= i < |s.queue| && s.queue[i] == Entry(Fib(f), t)) || Picks(s, t, f)
  }

  lemma PinnedAppend(s: State, s': State, r: seq<Entry>, f: Fid, t: Wid)
    requires PinnedTo(s, f, t) && s'.queue == s.queue + r && (Picks(s, t, f) ==> Picks(s', t, f))
    ensures PinnedTo(s', f, t)
  {
    if !Picks(s, t, f) {
      var i :| 0 <= i < |s.queue| && s.queue[i] == Entry(Fib(f), t);
      assert s'.queue[i] == s.queue[i];
    }
  }

  lemma PinnedPick(s: State, w: Wid, i: nat, f: Fid, t: Wid)
    requires CanLoop(s, w, Pick(i)) && PinnedTo(s, f, t)
    ensures PinnedTo(LoopOn(s, w, Pick(i)), f, t)
  {
    var s' := LoopOn(s, w, Pick(i));
    if Picks(s, t, f) {
      assert Picks(s', t, f);
    } else {
      var k :| 0 <= k < |s.queue| && s.queue[k] == Entry(Fib(f), t);
      if k == i {
        assert Picks(s', t, f);
      } else {
        assert s'.queue[if k < i then k else k - 1] == s.queue[k];
      }
    }
  }

  /** A worker takes the fiber up, or finds it ended. */
  ghost predicate Takes(s: State, step: Step, f: Fid) {
    step.Loops? && (step.loop == SwapIn || step.loop == Discard) && Picks(s, step.w, f)
  }

  lemma PinnedLoop(s: State, w: Wid, loop: Loop, f: Fid, t: Wid)
    requires Single(s) && CanLoop(s, w, loop) && PinnedTo(s, f, t)
    ensures if Takes(s, Loops(w, loop), f) then w == t else PinnedTo(LoopOn(s, w, loop), f, t)
  {
    var s' := LoopOn(s, w, loop);
    if Takes(s, Loops(w, loop), f) {
      assert TokenAt(s, AtPicked(w), f);
      assert TokenAt(s, if Picks(s, t, f) then AtPicked(t) else Queued, f);
    } else if loop.Pick? {
      PinnedPick(s, w, loop.i, f, t);
    } else {
      if loop.Settle? {
        SettledIs(s, w);
      }
      PinnedAppend(s, s', s'.queue[|s.queue|..], f, t);
    }
  }

  lemma PinnedDo(s: State, a: Actor, act: Action, f: Fid, t: Wid)
    requires CanDo(s, a, act) && PinnedTo(s, f, t)
    ensures PinnedTo(Do(s, a, act), f, t)
  {
    PinnedAppend(s, Do(s, a, act), Do(s, a, act).queue[|s.queue|..], f, t);
  }

  lemma PinnedRun(s: State, w: Wid, own: Own, f: Fid, t: Wid)
    requires CanRun(s, w, own) && PinnedTo(s, f, t)
    ensures PinnedTo(RunOn(s, w, own), f, t)
  {
    PinnedAppend(s, RunOn(s, w, own), RunOn(s, w, own).queue[|s.queue|..], f, t);
  }

  lemma PinnedStep(s: State, step: Step, f: Fid, t: Wid)
    requires Single(s) && Enabled(s, step) && PinnedTo(s, f, t)
    ensures if Takes(s, step, f) then step.w == t else PinnedTo(Apply(s, step), f, t)
  {
    match step
    case Does(a, act) => PinnedDo(s, a, act, f, t);
    case Runs(w, own) => PinnedRun(s, w, own, f, t);
    case Loops(w, loop) => PinnedLoop(s, w, loop, f, t);
    case Hooked(_, _) => PinnedAppend(s, Apply(s, step), [], f, t);
  }

  lemma {:induction false} PinnedSince(states: seq<State>, steps: seq<Step>, n: nat, m: nat, a: Actor, f: Fid, t: Wid)
    requires Run(states, steps) && n < m <= |steps| && steps[n] == Does(a, Schedule(Fib(f), t))
    requires forall k | n < k < m :: !Takes(states[k], steps[k], f)
    ensures PinnedTo(states[m], f, t)
    decreases m
  {
    var k: nat := m - 1;
    assert Next(states[k], steps[k], states[m]);
    if k == n {
      assert states[m].queue[|states[k].queue|] == Entry(Fib(f), t);
    } else {
      PinnedSince(states, steps, n, k, a, f, t);
      RunInv(states, steps, k);
      PinnedStep(states[k], steps[k], f, t);
    }
  }

  /** In every run, a fiber scheduled for a thread is next taken up by that thread. */
  lemma NextOnThread(states: seq<State>, steps: seq<Step>, n: nat, m: nat, a: Actor, f: Fid, t: Wid)
    requires Run(states, steps) && n < m < |steps| && steps[n] == Does(a, Schedule(Fib(f), t))
    requires (forall k | n < k < m :: !Takes(states[k], steps[k], f)) && Takes(states[m], steps[m], f)
    ensures steps[m].w == t
  {
    PinnedSince(states, steps, n, m, a, f, t);
    RunInv(states, steps, m);
    assert Next(states[m], steps[m], states[m + 1]);
    PinnedStep(states[m], steps[m], f, t);
  }

  // ---------- wake-ups ----------

  /** In every run, a fiber's wake-up stays somewhere, wherever it is, until exactly such a step as starts the
      fiber, finds it ended, or deletes the registration or the timer. */
  lemma WakeNeverLost(states: seq<State>, steps: seq<Step>, n: nat, p: Pos, f: Fid)
    requires Run(states, steps) && n < |steps| && TokenAt(states[n], p, f)
    ensures NoToken(states[n + 1], f) <==> Spends(steps[n], p)
  {
    RunInv(states, steps, n);
    assert Next(states[n], steps[n], states[n + 1]);
    WakeConserved(states[n], steps[n], p, f);
  }

  /** In every run, the timeout of a call that waits is in the timer set, on its way, or has set the condition. */
  lemma TimeoutNeverLost(states: seq<State>, steps: seq<Step>, n: nat, c: Cid)
    requires Run(states, steps) && n < |states| && c in states[n].calls
    requires states[n].calls[c].timeout && Waiting(states[n].calls[c].pc)
    ensures Guarded(states[n], c)
  {
    RunInv(states, steps, n);
  }

  /** The registration of the call was deleted, and it has been waiting since. */
  ghost predicate Stranded(states: seq<State>, steps: seq<Step>, n: nat, c: Cid) {
    exists m: nat :: StrandedAt(states, steps, n, m, c)
  }

  ghost predicate StrandedAt(states: seq<State>, steps: seq<Step>, n: nat, m: nat, c: Cid) {
    && m < n < |states| && m < |steps| && Deletes(states[m], steps[m], c)
    && forall k | m < k <= n :: Expecting(states[k], c)
  }

  /** The call expects its event, or runs again, or was stranded. */
  ghost predicate Provided(states: seq<State>, steps: seq<Step>, n: nat, c: Cid)
    requires n < |states| && c in states[n].calls
  {
    || Expects(states[n], c)
    || (states[n].calls[c].pc == Parked && IsRunning(states[n], states[n].calls[c].f))
    || Stranded(states, steps, n, c)
  }

  /** In every run, a call that waits for its event has it registered, or its fiber is queued, picked or running
      again; unless someone deleted the registration while it waited. */
  lemma {:induction false} ParkedExpects(states: seq<State>, steps: seq<Step>, n: nat, c: Cid)
    requires Run(states, steps) && n < |states| && Expecting(states[n], c)
    ensures Provided(states, steps, n, c)
  {
    if n > 0 {
      var s, step := states[n - 1], steps[n - 1];
      assert Next(s, step, states[n]);
      RunInv(states, steps, n - 1);
      if !Expecting(s, c) {
        StepArms(s, step, c);
      } else {
        ParkedExpects(states, steps, n - 1, c);
        ExpectsOn(states, steps, n - 1, n, c);
      }
    }
  }

  lemma StrandedOn(states: seq<State>, steps: seq<Step>, k: nat, n: nat, c: Cid)
    requires n == k + 1 < |states| && k < |steps| && Expecting(states[n], c)
    requires Stranded(states, steps, k, c) || Deletes(states[k], steps[k], c)
    ensures Stranded(states, steps, n, c)
  {
    if m: nat :| StrandedAt(states, steps, k, m, c) {
      assert StrandedAt(states, steps, n, m, c);
    } else {
      assert StrandedAt(states, steps, n, k, c);
    }
  }

  lemma ExpectsOn(states: seq<State>, steps: seq<Step>, k: nat, n: nat, c: Cid)
    requires n == k + 1 < |states| && k < |steps| && Expecting(states[k], c) && Expecting(states[n], c)
    requires Inv(states[k]) && Next(states[k], steps[k], states[n]) && Provided(states, steps, k, c)
    ensures Provided(states, steps, n, c)
  {
    var s, step := states[k], steps[k];
    if Stranded(states, steps, k, c) || Deletes(s, step, c) {
      StrandedOn(states, steps, k, n, c);
    } else {
      CallStays(s, step, c);
      if Expects(s, c) {
        StepExpects(s, step, c);
      } else {
        StepRunning(s, step, c);
      }
    }
  }

  /** A call keeps its fiber and its event; one that is parked stays parked or goes on. */
  lemma CallStays(s: State, step: Step, c: Cid)
    requires Enabled(s, step) && Expecting(s, c)
    ensures var s' := Apply(s, step);
            && c in s'.calls && s'.calls[c].f == s.calls[c].f && s'.calls[c].key == s.calls[c].key
            && (s.calls[c].pc == Parked ==> s'.calls[c].pc == Parked || s'.calls[c].pc == Woken)
  {
    if step.Hooked? {
      HookStays(s, step.w, step.hook, c);
    } else {
      StepCallKept(s, step, c);
    }
  }

  lemma HookStays(s: State, w: Wid, hook: Hook, c: Cid)
    requires CanHook(s, w, hook) && Expecting(s, c)
    ensures var s' := HookOn(s, w, hook);
            && c in s'.calls && s'.calls[c].f == s.calls[c].f && s'.calls[c].key == s.calls[c].key
            && (s.calls[c].pc == Parked ==> s'.calls[c].pc == Parked || s'.calls[c].pc == Woken)
  {
  }

  // ---------- how a call ends ----------

  /** A timeout callback of the call finds the condition alive and sets out to cancel. */
  ghost predicate TimesOut(s: State, s': State, f: Fid, c: Cid) {
    Looks(s, f, c) && f in s'.fibers && s'.fibers[f].body == Cancelling(c)
  }

  ghost predicate SomeTimesOut(s: State, s': State, c: Cid) {
    exists f :: TimesOut(s, s', f, c)
  }

  ghost predicate TimedOut(states: seq<State>, n: nat, c: Cid) {
    exists m: nat, f: Fid :: m < n && TimesOutAt(states, m, f, c)
  }

  ghost predicate TimesOutAt(states: seq<State>, m: nat, f: Fid, c: Cid) {
    m + 1 < |states| && TimesOut(states[m], states[m + 1], f, c)
  }

  ghost predicate Cancelled(s: State, c: Cid) {
    c in s.calls && s.calls[c].cancelled
  }

  lemma RunCancels(s: State, w: Wid, own: Own, c: Cid)
    requires CanRun(s, w, own)
    ensures Cancelled(RunOn(s, w, own), c)
       <==> Cancelled(s, c) || TimesOut(s, RunOn(s, w, own), Fiber0(s, w), c)
    ensures forall f | TimesOut(s, RunOn(s, w, own), f, c) :: f == Fiber0(s, w)
  {
  }

  lemma HookCancels(s: State, w: Wid, hook: Hook, c: Cid)
    requires CanHook(s, w, hook)
    ensures Cancelled(HookOn(s, w, hook), c) <==> Cancelled(s, c)
    ensures forall f :: !TimesOut(s, HookOn(s, w, hook), f, c)
  {
  }

  lemma LoopCancels(s: State, w: Wid, loop: Loop, c: Cid)
    requires CanLoop(s, w, loop)
    ensures Cancelled(LoopOn(s, w, loop), c) <==> Cancelled(s, c)
    ensures forall f :: !TimesOut(s, LoopOn(s, w, loop), f, c)
  {
    if loop.Settle? {
      SettledIs(s, w);
    }
  }

  lemma StepCancels(s: State, step: Step, c: Cid)
    requires Enabled(s, step)
    ensures Cancelled(Apply(s, step), c) <==> Cancelled(s, c) || SomeTimesOut(s, Apply(s, step), c)
  {
    match step
    case Does(_, _) =>
    case Runs(w, own) => RunCancels(s, w, own, c);
    case Loops(w, loop) => LoopCancels(s, w, loop, c);
    case Hooked(w, hook) => HookCancels(s, w, hook, c);
  }

  lemma {:induction false} CancelledExact(states: seq<State>, steps: seq<Step>, n: nat, c: Cid)
    requires Run(states, steps) && n < |states|
    ensures Cancelled(states[n], c) <==> TimedOut(states, n, c)
  {
    if n > 0 {
      CancelledExact(states, steps, n - 1, c);
      assert Next(states[n - 1], steps[n - 1], states[n]);
      StepCancels(states[n - 1], steps[n - 1], c);
      TimedOutOn(states, n - 1, n, c);
    }
  }

  lemma TimedOutOn(states: seq<State>, k: nat, n: nat, c: Cid)
    requires n == k + 1 < |states|
    ensures TimedOut(states, n, c) <==> TimedOut(states, k, c) || SomeTimesOut(states[k], states[n], c)
  {
    var s, s' := states[k], states[n];
    if TimedOut(states, n, c) {
      var m: nat, f: Fid :| m < n && TimesOutAt(states, m, f, c);
      assert m < k || TimesOut(s, s', f, c);
    }
    if TimedOut(states, k, c) {
      var m: nat, f: Fid :| m < k && TimesOutAt(states, m, f, c);
      assert m < n && TimesOutAt(states, m, f, c);
    }
    if SomeTimesOut(s, s', c) {
      var f :| TimesOut(s, s', f, c);
      assert k < n && TimesOutAt(states, k, f, c);
    }
  }

  /** In every run, a call that was woken returns exactly when a timeout callback set out to cancel it before;
      otherwise it tries again. */
  lemma DecideExact(states: seq<State>, steps: seq<Step>, n: nat, w: Wid)
    requires Run(states, steps) && n < |steps| && steps[n] == Hooked(w, Decide)
    ensures RunsNow(states[n], w) && BodyOf(states[n], w).InCall?
    ensures var c := BodyOf(states[n], w).c;
            && c in states[n].calls && c in states[n + 1].calls
            && states[n + 1].calls[c].pc == if TimedOut(states, n, c) then Returned else Trying
  {
    assert Next(states[n], steps[n], states[n + 1]);
    CancelledExact(states, steps, n, BodyOf(states[n], w).c);
  }

  /** The running call ends: it got its result, its event was rejected, or it was woken after its timeout. */
  ghost predicate Ends(states: seq<State>, steps: seq<Step>, n: nat, w: Wid, c: Cid)
    requires n < |states| && n < |steps|
  {
    && RunsNow(states[n], w) && BodyOf(states[n], w) == InCall(c)
    && (steps[n] == Hooked(w, Succeed) || steps[n] == Hooked(w, GiveUp)
        || (steps[n] == Hooked(w, Decide) && TimedOut(states, n, c)))
  }

  /** In every run, a hooked call returns in these ways and no other. */
  lemma ReturnsExact(states: seq<State>, steps: seq<Step>, n: nat, c: Cid)
    requires Run(states, steps) && n < |steps| && c in states[n].calls && states[n].calls[c].pc != Returned
    ensures c in states[n + 1].calls
    ensures states[n + 1].calls[c].pc == Returned <==> exists w :: Ends(states, steps, n, w, c)
  {
    var s, step := states[n], steps[n];
    assert Next(s, step, states[n + 1]);
    CancelledExact(states, steps, n, c);
    if step.Hooked? {
      HookReturns(s, step.w, step.hook, c);
      assert Ends(states, steps, n, step.w, c) || !exists w :: Ends(states, steps, n, w, c);
    } else {
      StepCallKept(s, step, c);
    }
  }

  lemma HookReturns(s: State, w: Wid, hook: Hook, c: Cid)
    requires CanHook(s, w, hook) && c in s.calls && s.calls[c].pc != Returned
    ensures c in HookOn(s, w, hook).calls
    ensures HookOn(s, w, hook).calls[c].pc == Returned
       <==> BodyOf(s, w) == InCall(c) && (hook == Succeed || hook == GiveUp || (hook == Decide && s.calls[c].cancelled))
  {
  }

  // ---------- workers ----------

  ghost predicate IdleEnds(states: seq<State>, steps: seq<Step>, n: nat, w: Wid) {
    exists m: nat :: m < n && m < |steps| && m < |states| && LeavesStopping(states[m], steps[m], w)
  }

  ghost predicate LeavesStopping(s: State, step: Step, w: Wid) {
    step == Loops(w, LeaveIdle) && Stopping(s)
  }

  /** A worker's idle fiber ends at a step exactly when `ends`; it quits only after that. */
  ghost predicate IdleStep(s: State, s': State, w: Wid, ends: bool) {
    && |s'.workers| == |s.workers|
    && (w < |s.workers| ==>
          && (s'.workers[w].idleOver <==> s.workers[w].idleOver || ends)
          && (s'.workers[w].pc.Gone? ==> s.workers[w].pc.Gone? || s.workers[w].idleOver))
  }

  lemma LoopIdle(s: State, v: Wid, loop: Loop, w: Wid)
    requires CanLoop(s, v, loop)
    ensures IdleStep(s, LoopOn(s, v, loop), w, v == w && loop == LeaveIdle && Stopping(s))
  {
    if loop.Settle? {
      SettleIdle(s, v, w);
    }
  }

  lemma SettleIdle(s: State, v: Wid, w: Wid)
    requires CanLoop(s, v, Settle)
    ensures IdleStep(s, LoopOn(s, v, Settle), w, false)
  {
  }

  lemma RunIdle(s: State, v: Wid, own: Own, w: Wid)
    requires CanRun(s, v, own)
    ensures IdleStep(s, RunOn(s, v, own), w, false)
  {
    RunWorkers(s, v, own);
  }

  lemma HookIdle(s: State, v: Wid, hook: Hook, w: Wid)
    requires CanHook(s, v, hook)
    ensures IdleStep(s, HookOn(s, v, hook), w, false)
  {
    HookWorkers(s, v, hook);
  }

  lemma StepIdle(s: State, step: Step, w: Wid)
    requires Enabled(s, step)
    ensures IdleStep(s, Apply(s, step), w, LeavesStopping(s, step, w))
  {
    match step
    case Does(_, _) =>
    case Runs(v, own) => RunIdle(s, v, own, w);
    case Loops(v, loop) => LoopIdle(s, v, loop, w);
    case Hooked(v, hook) => HookIdle(s, v, hook, w);
  }

  /** In every run, the idle fiber of a worker is over exactly when it left idling while stopping held; a worker
      quits only after that. */
  lemma {:induction false} QuitsAfterStopping(states: seq<State>, steps: seq<Step>, n: nat, w: Wid)
    requires Run(states, steps) && n < |states| && w < |states[n].workers|
    ensures states[n].workers[w].idleOver <==> IdleEnds(states, steps, n, w)
    ensures states[n].workers[w].pc.Gone? ==> IdleEnds(states, steps, n, w)
  {
    if n > 0 {
      var s, step := states[n - 1], steps[n - 1];
      assert Next(s, step, states[n]);
      StepIdle(s, step, w);
      QuitsAfterStopping(states, steps, n - 1, w);
      if LeavesStopping(s, step, w) {
        assert IdleEnds(states, steps, n, w);
      }
    }
  }

  lemma LoopGone(s: State, v: Wid, loop: Loop, w: Wid)
    requires CanLoop(s, v, loop) && w < |s.workers| && s.workers[w].pc.Gone?
    ensures v != w && w < |LoopOn(s, v, loop).workers| && LoopOn(s, v, loop).workers[w].pc.Gone?
  {
  }

  lemma GoneKept(s: State, step: Step, w: Wid)
    requires Enabled(s, step) && w < |s.workers| && s.workers[w].pc.Gone?
    ensures w < |Apply(s, step).workers| && Apply(s, step).workers[w].pc.Gone?
    ensures !(step.Loops? && step.w == w) && !(step.Runs? && step.w == w) && !(step.Hooked? && step.w == w)
  {
    match step
    case Does(_, _) =>
    case Runs(v, own) => RunWorkers(s, v, own);
    case Loops(v, loop) => LoopGone(s, v, loop, w);
    case Hooked(v, hook) => HookWorkers(s, v, hook);
  }

  lemma {:induction false} GoneForever(states: seq<State>, steps: seq<Step>, n: nat, m: nat, w: Wid)
    requires Run(states, steps) && n < m < |states| && steps[n] == Loops(w, Quit)
    ensures w < |states[m].workers| && states[m].workers[w].pc.Gone?
    decreases m
  {
    assert Next(states[m - 1], steps[m - 1], states[m]);
    if m > n + 1 {
      GoneForever(states, steps, n, m - 1, w);
      GoneKept(states[m - 1], steps[m - 1], w);
    }
  }

  /** In every run, a worker that quit takes no further step. */
  lemma QuitIsForever(states: seq<State>, steps: seq<Step>, n: nat, m: nat, w: Wid)
    requires Run(states, steps) && n < m < |steps| && steps[n] == Loops(w, Quit)
    ensures !(steps[m].Loops? && steps[m].w == w) && !(steps[m].Runs? && steps[m].w == w)
    ensures !(steps[m].Hooked? && steps[m].w == w)
  {
    GoneForever(states, steps, n, m, w);
    assert Next(states[m], steps[m], states[m + 1]);
    GoneKept(states[m], steps[m], w);
  }

  // ---------- how a fiber ends ----------

  ghost predicate FinishedAs(s: State, step: Step, f: Fid, except: bool) {
    step.Runs? && step.own == Finish(except) && RunsNow(s, step.w) && Fiber0(s, step.w) == f
  }

  lemma LoopEnds(s: State, w: Wid, loop: Loop, f: Fid)
    requires CanLoop(s, w, loop) && f in LoopOn(s, w, loop).fibers && Ended(LoopOn(s, w, loop).fibers[f].state)
    ensures f in s.fibers && s.fibers[f].state == LoopOn(s, w, loop).fibers[f].state
  {
    if loop.Settle? {
      SettledIs(s, w);
    }
  }

  lemma HookEnds(s: State, w: Wid, hook: Hook, f: Fid)
    requires CanHook(s, w, hook) && f in HookOn(s, w, hook).fibers && Ended(HookOn(s, w, hook).fibers[f].state)
    ensures f in s.fibers && s.fibers[f].state == HookOn(s, w, hook).fibers[f].state
  {
  }

  lemma RunEnds(s: State, w: Wid, own: Own, f: Fid)
    requires CanRun(s, w, own) && f in RunOn(s, w, own).fibers && Ended(RunOn(s, w, own).fibers[f].state)
    ensures var st := RunOn(s, w, own).fibers[f].state;
            (f in s.fibers && s.fibers[f].state == st) || (f == Fiber0(s, w) && own == Finish(st == EXCEPT))
  {
  }

  lemma StepEnds(s: State, step: Step, f: Fid)
    requires Enabled(s, step) && f in Apply(s, step).fibers && Ended(Apply(s, step).fibers[f].state)
    ensures var st := Apply(s, step).fibers[f].state;
            (f in s.fibers && s.fibers[f].state == st) || FinishedAs(s, step, f, st == EXCEPT)
  {
    match step
    case Does(_, _) =>
    case Runs(w, own) => RunEnds(s, w, own, f);
    case Loops(w, loop) => LoopEnds(s, w, loop, f);
    case Hooked(w, hook) => HookEnds(s, w, hook, f);
  }

  /** In every run, a fiber is in EXCEPT only after an exception ended it, and in TERM only after it returned. */
  lemma {:induction false} EndsAs(states: seq<State>, steps: seq<Step>, n: nat, f: Fid)
    requires Run(states, steps) && n < |states| && f in states[n].fibers && Ended(states[n].fibers[f].state)
    ensures exists m: nat :: m < n && FinishedAs(states[m], steps[m], f, states[n].fibers[f].state == EXCEPT)
  {
    if n > 0 {
      var k: nat := n - 1;
      assert Next(states[k], steps[k], states[n]);
      StepEnds(states[k], steps[k], f);
      if FinishedAs(states[k], steps[k], f, states[n].fibers[f].state == EXCEPT) {
        assert k < n;
      } else {
        EndsAs(states, steps, k, f);
      }
    }
  }
}
