/** Hooked calls clean up: when one has returned, its timer is out of the set and its event is not armed. */
module ProtocolCalls {
  import opened Basics
  import opened Jobs
  import opened Protocol
  import opened ProtocolTokens

  /** A call that has not returned and its fiber know each other; a fiber that has not begun, or that has
      ended, is in no call. */
  ghost predicate BodiesOk(s: State) {
    && (forall f | f in s.fibers && s.fibers[f].body.InCall? :: InOne(s, f))
    && (forall c | c in s.calls && s.calls[c].pc != Returned ::
          s.calls[c].f in s.fibers && s.fibers[s.calls[c].f].body == InCall(c))
    && (forall f | f in s.fibers && (s.fibers[f].state == INIT || Ended(s.fibers[f].state)) :: s.fibers[f].body == Free)
  }

  ghost predicate InOne(s: State, f: Fid)
    requires f in s.fibers && s.fibers[f].body.InCall?
  {
    var c := s.fibers[f].body.c;
    c in s.calls && s.calls[c].f == f && s.calls[c].pc != Returned
  }

  /** The timeouts in the timer set are those of calls between the timer's creation and its cancellation. */
  ghost predicate TimersOk(s: State) {
    forall t | t in s.timers && s.timers[t].live && s.timers[t].code.Timeout? :: TimerOk(s, t, s.timers[t].code.call)
  }

  ghost predicate TimerOk(s: State, t: Tid, c: Cid) {
    && c in s.calls && s.calls[c].timer == Some(t)
    && (s.calls[c].pc.Timed? || s.calls[c].pc.Rejected? || s.calls[c].pc.Armed? || s.calls[c].pc.Parked?)
  }

  /** The registrations made by calls are those of calls that wait, each for its own fiber and event. */
  ghost predicate ArmsOk(s: State) {
    forall k | k in s.armed && s.armed[k].call.Some? :: ArmOk(s, k, s.armed[k].call.value)
  }

  ghost predicate ArmOk(s: State, k: Key, c: Cid)
    requires k in s.armed
  {
    && c in s.calls && s.calls[c].key == k && s.armed[k].job == Fib(s.calls[c].f)
    && (s.calls[c].pc.Armed? || s.calls[c].pc.Parked?)
  }

  /** Once the fiber of a parked call runs again, the event is no longer armed. */
  ghost predicate ParkedOk(s: State) {
    forall w: Wid | Calls(s, w, Parked) :: NotArmed(s, BodyOf(s, w).c)
  }

  ghost predicate NotArmed(s: State, c: Cid) {
    forall k | k in s.armed :: s.armed[k].call != Some(c)
  }

  ghost predicate NotTimed(s: State, c: Cid) {
    forall t | t in s.timers && s.timers[t].live :: s.timers[t].code != Timeout(c)
  }

  ghost predicate CallsOk(s: State) {
    BodiesOk(s) && TimersOk(s) && ArmsOk(s) && ParkedOk(s)
  }

  /** Registrations and timers go away, calls stay as they are up to their condition, and no worker gets a fiber
      that is in a call. */
  lemma CallsShrink(s: State, s': State)
    requires CallsOk(s)
    requires forall c | c in s.calls :: c in s'.calls && s'.calls[c] == s.calls[c].(cancelled := s'.calls[c].cancelled)
    requires forall c | c in s'.calls :: c in s.calls
    requires forall f | f in s.fibers && s.fibers[f].body.InCall? ::
               f in s'.fibers && s'.fibers[f].body == s.fibers[f].body
    requires forall f | f in s'.fibers && s'.fibers[f].body.InCall? ::
               f in s.fibers && s.fibers[f].body == s'.fibers[f].body
    requires forall f | f in s'.fibers && (s'.fibers[f].state == INIT || Ended(s'.fibers[f].state)) ::
               s'.fibers[f].body == Free
    requires forall k | k in s'.armed && s'.armed[k].call.Some? :: k in s.armed && s.armed[k] == s'.armed[k]
    requires forall t | t in s'.timers && s'.timers[t].live && s'.timers[t].code.Timeout? ::
               t in s.timers && s.timers[t].live && s.timers[t].code == s'.timers[t].code
    requires forall w: Wid | Calls(s', w, Parked) :: NotArmed(s, BodyOf(s', w).c)
    ensures CallsOk(s')
  {
    forall c | c in s'.calls && s'.calls[c].pc != Returned
      ensures s'.calls[c].f in s'.fibers && s'.fibers[s'.calls[c].f].body == InCall(c)
    {
      assert s.calls[c].f in s.fibers && s.fibers[s.calls[c].f].body == InCall(c);
    }
    forall f | f in s'.fibers && s'.fibers[f].body.InCall? ensures InOne(s', f) {
      assert InOne(s, f);
    }
    forall t | t in s'.timers && s'.timers[t].live && s'.timers[t].code.Timeout?
      ensures TimerOk(s', t, s'.timers[t].code.call)
    {
      assert TimerOk(s, t, s.timers[t].code.call);
    }
    forall k | k in s'.armed && s'.armed[k].call.Some? ensures ArmOk(s', k, s'.armed[k].call.value) {
      assert ArmOk(s, k, s.armed[k].call.value);
    }
    forall w: Wid | Calls(s', w, Parked) ensures NotArmed(s', BodyOf(s', w).c) {
      assert NotArmed(s, BodyOf(s', w).c);
    }
  }

  lemma DoCalls(s: State, a: Actor, act: Action)
    requires CallsOk(s) && CanDo(s, a, act)
    ensures CallsOk(Do(s, a, act))
  {
    var s' := Do(s, a, act);
    SameRunners(s, s');
    CallsShrink(s, s');
  }

  /** Where no worker gets a new fiber, the parked calls whose fibers run are those of before. */
  lemma SameRunners(s: State, s': State)
    requires CallsOk(s)
    requires |s'.workers| == |s.workers|
    requires forall w | 0 <= w < |s.workers| :: s'.workers[w].pc.Running? ==> s'.workers[w].pc == s.workers[w].pc
    requires forall c | c in s'.calls && s'.calls[c].pc == Parked ::
                c in s.calls && s.calls[c].pc == Parked && s.calls[c].f == s'.calls[c].f
    requires forall f | f in s'.fibers && s'.fibers[f].body.InCall? ::
               f in s.fibers && s.fibers[f].body == s'.fibers[f].body
    ensures forall w: Wid | Calls(s', w, Parked) :: Calls(s, w, Parked) && BodyOf(s', w) == BodyOf(s, w)
    ensures forall w: Wid | Calls(s', w, Parked) :: NotArmed(s, BodyOf(s', w).c)
  {
    forall w: Wid | Calls(s', w, Parked)
      ensures Calls(s, w, Parked) && BodyOf(s', w) == BodyOf(s, w) && NotArmed(s, BodyOf(s', w).c)
    {
      assert s'.workers[w].pc == s.workers[w].pc;
      assert Calls(s, w, Parked);
    }
  }

  /** The running fiber's code goes on, or the fiber swaps out. */
  lemma RunCalls(s: State, w: Wid, own: Own)
    requires CallsOk(s) && CanRun(s, w, own)
    ensures CallsOk(RunOn(s, w, own))
  {
    var s', f := RunOn(s, w, own), Fiber0(s, w);
    match own
    case Yield(ready) => StateCalls(s, s', f, if ready then READY else s.fibers[f].state);
    case Finish(except) => StateCalls(s, s', f, if except then EXCEPT else TERM);
    case WakeUp => BodyCalls(s, s', f);
    case CheckTimeout => CheckCalls(s, w);
    case CancelTimedOut(_) => BodyCalls(s, s', f);
  }

  /** A fiber that is in no call goes on to do anything; registrations may go. */
  lemma BodyCalls(s: State, s': State, f: Fid)
    requires CallsOk(s) && f in s.fibers && !s.fibers[f].body.InCall?
    requires s' == SetBody(s, f, Free).(queue := s'.queue, armed := s'.armed)
    requires forall k | k in s'.armed :: k in s.armed && s.armed[k] == s'.armed[k]
    ensures CallsOk(s')
  {
    SameRunners(s, s');
    CallsShrink(s, s');
  }

  /** Only the condition of one call and the body of a fiber that is in no call change. */
  lemma CheckCalls(s: State, w: Wid)
    requires CallsOk(s) && CanRun(s, w, CheckTimeout)
    ensures CallsOk(RunOn(s, w, CheckTimeout))
  {
    var f, c, s' := Fiber0(s, w), BodyOf(s, w).c, RunOn(s, w, CheckTimeout);
    if c in s.calls && s.calls[c].pc != Returned && !s.calls[c].cancelled {
      ConditionCalls(s, f, Cancelling(c), c, s');
    } else {
      ConditionCalls(s, f, Free, c, s');
    }
  }

  lemma ConditionCalls(s: State, f: Fid, b: Body, c: Cid, s': State)
    requires CallsOk(s) && f in s.fibers && s.fibers[f].body.Timing? && !b.InCall?
    requires s'.fibers == s.fibers[f := s.fibers[f].(body := b)]
    requires s' == s.(fibers := s'.fibers, calls := s'.calls)
    requires s'.calls == if b.Free? || c !in s.calls then s.calls else s.calls[c := s.calls[c].(cancelled := true)]
    ensures CallsOk(s')
  {
    SameRunners(s, s');
    CallsShrink(s, s');
  }

  /** A fiber swapped in carries no token: its parked call is no longer armed. */
  lemma SwapInCalls(s: State, w: Wid)
    requires Single(s) && Owned(s) && CallsOk(s) && CanLoop(s, w, SwapIn)
    ensures CallsOk(LoopOn(s, w, SwapIn))
  {
    var s', f := LoopOn(s, w, SwapIn), s.workers[w].pc.job.f;
    SwapInSingle(s, w);
    forall v: Wid | Calls(s', v, Parked) ensures NotArmed(s, BodyOf(s', v).c) {
      var c := BodyOf(s', v).c;
      if v == w {
        forall k | k in s.armed && s.armed[k].call == Some(c) ensures false {
          assert ArmOk(s, k, c);
          assert TokenAt(s', AtArmed(k), f);
        }
      } else {
        assert Calls(s, v, Parked);
      }
    }
    CallsShrink(s, s');
  }

  lemma StartFunCalls(s: State, w: Wid, f: Fid)
    requires Single(s) && Owned(s) && CallsOk(s) && CanLoop(s, w, StartFun(f))
    ensures CallsOk(LoopOn(s, w, StartFun(f)))
  {
    var s' := LoopOn(s, w, StartFun(f));
    forall v: Wid | Calls(s', v, Parked) ensures NotArmed(s, BodyOf(s', v).c) {
      assert v != w && Calls(s, v, Parked);
    }
    CallsShrink(s, s');
  }

  /** Only the state of a fiber changes, and no worker gets a fiber. */
  lemma StateCalls(s: State, s': State, f: Fid, st: FiberState)
    requires CallsOk(s) && f in s.fibers
    requires s' == SetState(s, f, st).(queue := s'.queue, workers := s'.workers) && |s'.workers| == |s.workers|
    requires forall v | 0 <= v < |s.workers| :: s'.workers[v].pc.Running? ==> s'.workers[v].pc == s.workers[v].pc
    requires st == INIT || Ended(st) ==> s.fibers[f].body == Free
    ensures CallsOk(s')
  {
    SameRunners(s, s');
    CallsShrink(s, s');
  }

  lemma SettleCalls(s: State, w: Wid)
    requires CallsOk(s) && w < |s.workers| && s.workers[w].pc.Uncounted? && s.workers[w].pc.f in s.fibers
    ensures CallsOk(Settled(s, w))
  {
    var s', f := Settled(s, w), s.workers[w].pc.f;
    SettledIs(s, w);
    StateCalls(s, s', f, SettledState(s, w));
  }

  /** Only the queue, the count and the workers change, and no worker gets a fiber. */
  lemma QueueCalls(s: State, s': State)
    requires CallsOk(s) && s' == s.(queue := s'.queue, workers := s'.workers, active := s'.active)
    requires |s'.workers| == |s.workers|
    requires forall v | 0 <= v < |s.workers| :: s'.workers[v].pc.Running? ==> s'.workers[v].pc == s.workers[v].pc
    ensures CallsOk(s')
  {
    SameRunners(s, s');
    CallsShrink(s, s');
  }

  lemma SweepCalls(s: State, w: Wid, ts: seq<Tid>)
    requires CallsOk(s) && CanLoop(s, w, Sweep(ts))
    ensures CallsOk(LoopOn(s, w, Sweep(ts)))
  {
    SameRunners(s, LoopOn(s, w, Sweep(ts)));
    CallsShrink(s, LoopOn(s, w, Sweep(ts)));
  }

  lemma DispatchCalls(s: State, w: Wid, k: Key)
    requires CallsOk(s) && CanLoop(s, w, Dispatch(k))
    ensures CallsOk(LoopOn(s, w, Dispatch(k)))
  {
    SameRunners(s, LoopOn(s, w, Dispatch(k)));
    CallsShrink(s, LoopOn(s, w, Dispatch(k)));
  }

  lemma LoopCalls(s: State, w: Wid, loop: Loop)
    requires Single(s) && Owned(s) && CallsOk(s) && CanLoop(s, w, loop)
    ensures CallsOk(LoopOn(s, w, loop))
  {
    match loop
    case SwapIn => SwapInCalls(s, w);
    case StartFun(f) => StartFunCalls(s, w, f);
    case Settle => SettleCalls(s, w);
    case Sweep(ts) => SweepCalls(s, w, ts);
    case Dispatch(k) => DispatchCalls(s, w, k);
    case _ => QueueCalls(s, LoopOn(s, w, loop));
  }

  // ---------- the call itself ----------

  /** The call `c` of the running fiber moves on; all else it may change are its timer and its registration. */
  lemma CallMoves(s: State, s': State, w: Wid, c: Cid)
    requires Owned(s) && CallsOk(s) && RunsNow(s, w) && c in s'.calls && s'.calls[c].f == Fiber0(s, w)
    requires forall d | d in s.calls :: d in s'.calls
    requires c in s.calls ==> BodyOf(s, w) == InCall(c)
    requires c !in s.calls ==> BodyOf(s, w) == Free
    requires forall d | d in s'.calls && d != c :: d in s.calls && s'.calls[d] == s.calls[d]
    requires s'.fibers == s.fibers[Fiber0(s, w) := Fiber(EXEC, if s'.calls[c].pc == Returned then Free else InCall(c))]
    requires |s'.workers| == |s.workers| && forall v | 0 <= v < |s.workers| && v != w :: s'.workers[v] == s.workers[v]
    requires s'.workers[w].pc == s.workers[w].pc || s'.workers[w].pc.Out?
    requires s'.calls[c].pc == Parked ==> s'.workers[w].pc.Out?
    requires forall t | t in s'.timers && s'.timers[t].live
                        && s'.timers[t].code.Timeout? && s'.timers[t].code.call != c ::
               t in s.timers && s.timers[t] == s'.timers[t]
    requires forall t | t in s'.timers && s'.timers[t].live && s'.timers[t].code == Timeout(c) :: TimerOk(s', t, c)
    requires forall k | k in s'.armed && s'.armed[k].call != Some(c) :: k in s.armed && s.armed[k] == s'.armed[k]
    requires forall k | k in s'.armed && s'.armed[k].call == Some(c) :: ArmOk(s', k, c)
    ensures CallsOk(s')
  {
    var f := Fiber0(s, w);
    assert Has1(s, w, f) && HandOk(s, w, f);
    forall d | d in s'.calls && d != c && s'.calls[d].pc != Returned
      ensures s'.calls[d].f in s'.fibers && s'.fibers[s'.calls[d].f].body == InCall(d)
    {
      assert s.fibers[s.calls[d].f].body == InCall(d);
    }
    forall g | g in s'.fibers && s'.fibers[g].body.InCall? ensures InOne(s', g) {
      assert g != f ==> InOne(s, g);
    }
    forall t | t in s'.timers && s'.timers[t].live && s'.timers[t].code.Timeout?
      ensures TimerOk(s', t, s'.timers[t].code.call)
    {
      var d := s'.timers[t].code.call;
      assert d != c ==> TimerOk(s, t, d);
    }
    forall k | k in s'.armed && s'.armed[k].call.Some? ensures ArmOk(s', k, s'.armed[k].call.value) {
      var d := s'.armed[k].call.value;
      assert d != c ==> ArmOk(s, k, d);
    }
    assert !Calls(s', w, Parked);
    forall v: Wid | Calls(s', v, Parked) ensures NotArmed(s', BodyOf(s', v).c) {
      assert Has1(s, v, s.workers[v].pc.f);
      assert Calls(s, v, Parked);
    }
  }

  lemma BeginCalls(s: State, w: Wid, c: Cid, k: Key, timeout: bool)
    requires Owned(s) && CallsOk(s) && CanHook(s, w, Begin(c, k, timeout))
    ensures CallsOk(HookOn(s, w, Begin(c, k, timeout)))
  {
    var s' := HookOn(s, w, Begin(c, k, timeout));
    assert Has1(s, w, Fiber0(s, w)) && HandOk(s, w, Fiber0(s, w));
    Clean(s, c);
    CallMoves(s, s', w, c);
  }

  /** A call not yet begun, or between rounds, has no timer in the set and no event armed. */
  lemma Clean(s: State, c: Cid)
    requires TimersOk(s) && ArmsOk(s)
    requires c in s.calls ==> s.calls[c].pc.Trying? || s.calls[c].pc.Woken? || s.calls[c].pc.Returned?
    ensures NotTimed(s, c) && NotArmed(s, c)
  {
    forall t | t in s.timers && s.timers[t].live ensures s.timers[t].code != Timeout(c) {
      assert s.timers[t].code == Timeout(c) ==> TimerOk(s, t, c);
    }
    forall k | k in s.armed ensures s.armed[k].call != Some(c) {
      assert s.armed[k].call == Some(c) ==> ArmOk(s, k, c);
    }
  }

  lemma KillCleans(s: State, c: Cid)
    requires TimersOk(s) && c in s.calls
    ensures NotTimed(Kill(s, s.calls[c].timer), c)
  {
    var s' := Kill(s, s.calls[c].timer);
    forall t | t in s'.timers && s'.timers[t].live ensures s'.timers[t].code != Timeout(c) {
      assert s'.timers[t].code == Timeout(c) ==> TimerOk(s, t, c);
    }
  }

  lemma AskTimerCalls(s: State, w: Wid, t: Tid)
    requires Owned(s) && CallsOk(s) && CanHook(s, w, AskTimer(t))
    ensures CallsOk(HookOn(s, w, AskTimer(t)))
  {
    var c, s' := BodyOf(s, w).c, HookOn(s, w, AskTimer(t));
    assert Has1(s, w, Fiber0(s, w)) && HandOk(s, w, Fiber0(s, w));
    Clean(s, c);
    CallMoves(s, s', w, c);
  }

  lemma ArmCallCalls(s: State, w: Wid, ok: bool)
    requires Owned(s) && CallsOk(s) && CanHook(s, w, ArmCall(ok))
    ensures CallsOk(HookOn(s, w, ArmCall(ok)))
  {
    var c, s' := BodyOf(s, w).c, HookOn(s, w, ArmCall(ok));
    assert Has1(s, w, Fiber0(s, w)) && HandOk(s, w, Fiber0(s, w));
    forall k | k in s.armed ensures s.armed[k].call != Some(c) {
      assert s.armed[k].call == Some(c) ==> ArmOk(s, k, c);
    }
    forall t | t in s'.timers && s'.timers[t].live && s'.timers[t].code == Timeout(c) ensures TimerOk(s', t, c) {
      assert TimerOk(s, t, c);
    }
    CallMoves(s, s', w, c);
  }

  lemma ParkCalls(s: State, w: Wid)
    requires Owned(s) && CallsOk(s) && CanHook(s, w, Park)
    ensures CallsOk(HookOn(s, w, Park))
  {
    var c, s' := BodyOf(s, w).c, HookOn(s, w, Park);
    assert Has1(s, w, Fiber0(s, w)) && HandOk(s, w, Fiber0(s, w));
    forall k | k in s'.armed && s'.armed[k].call == Some(c) ensures ArmOk(s', k, c) {
      assert ArmOk(s, k, c);
    }
    forall t | t in s'.timers && s'.timers[t].live && s'.timers[t].code == Timeout(c) ensures TimerOk(s', t, c) {
      assert TimerOk(s, t, c);
    }
    CallMoves(s, s', w, c);
  }

  /** The registration of a rejected call was never made; its timer leaves the set. */
  lemma GiveUpCalls(s: State, w: Wid)
    requires Owned(s) && CallsOk(s) && CanHook(s, w, GiveUp)
    ensures CallsOk(HookOn(s, w, GiveUp))
  {
    var c := BodyOf(s, w).c;
    assert Has1(s, w, Fiber0(s, w)) && HandOk(s, w, Fiber0(s, w));
    KillCleans(s, c);
    forall k | k in s.armed ensures s.armed[k].call != Some(c) {
      assert s.armed[k].call == Some(c) ==> ArmOk(s, k, c);
    }
    CallMoves(s, HookOn(s, w, GiveUp), w, c);
  }

  /** The event of a call that goes on is no longer armed; its timer leaves the set. */
  lemma ResumeCalls(s: State, w: Wid)
    requires Owned(s) && CallsOk(s) && CanHook(s, w, Resume)
    ensures CallsOk(HookOn(s, w, Resume))
  {
    assert Has1(s, w, Fiber0(s, w)) && HandOk(s, w, Fiber0(s, w));
    KillCleans(s, BodyOf(s, w).c);
    CallMoves(s, HookOn(s, w, Resume), w, BodyOf(s, w).c);
  }

  lemma DoneCalls(s: State, w: Wid, hook: Hook)
    requires Owned(s) && CallsOk(s) && CanHook(s, w, hook) && (hook.Succeed? || hook.Decide?)
    ensures CallsOk(HookOn(s, w, hook))
  {
    assert Has1(s, w, Fiber0(s, w)) && HandOk(s, w, Fiber0(s, w));
    Clean(s, BodyOf(s, w).c);
    CallMoves(s, HookOn(s, w, hook), w, BodyOf(s, w).c);
  }

  lemma HookCalls(s: State, w: Wid, hook: Hook)
    requires Owned(s) && CallsOk(s) && CanHook(s, w, hook)
    ensures CallsOk(HookOn(s, w, hook))
  {
    match hook
    case Begin(c, k, timeout) => BeginCalls(s, w, c, k, timeout);
    case Succeed => DoneCalls(s, w, Succeed);
    case AskTimer(t) => AskTimerCalls(s, w, t);
    case ArmCall(ok) => ArmCallCalls(s, w, ok);
    case GiveUp => GiveUpCalls(s, w);
    case Park => ParkCalls(s, w);
    case Resume => ResumeCalls(s, w);
    case Decide => DoneCalls(s, w, Decide);
  }

  /** Every step keeps the calls in order. */
  lemma StepCalls(s: State, step: Step)
    requires Single(s) && Owned(s) && CallsOk(s) && Enabled(s, step)
    ensures CallsOk(Apply(s, step))
  {
    match step
    case Does(a, act) => DoCalls(s, a, act);
    case Runs(w, own) => RunCalls(s, w, own);
    case Loops(w, loop) => LoopCalls(s, w, loop);
    case Hooked(w, hook) => HookCalls(s, w, hook);
  }
}
