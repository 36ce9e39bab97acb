/** What a hooked call that waits can rely on: its timeout is never lost, and neither is its event. */
module ProtocolWaits {
  import opened Basics
  import opened Jobs
  import opened Protocol
  import opened ProtocolTokens
  import opened ProtocolCalls
  import opened ProtocolStates
  import opened ProtocolWakes

  ghost predicate RunsOn(s: State, w: Wid, f: Fid) {
    w < |s.workers| && s.workers[w].pc.Running? && s.workers[w].pc.f == f
  }

  ghost predicate IsRunning(s: State, f: Fid) {
    exists w :: RunsOn(s, w, f)
  }

  /** A call that has not returned runs on a worker, but while it is parked: then its fiber is EXEC or on hold. */
  ghost predicate CallsRun(s: State) {
    && (forall c | c in s.calls && s.calls[c].pc != Returned && s.calls[c].pc != Parked :: IsRunning(s, s.calls[c].f))
    && (forall c | c in s.calls && s.calls[c].pc == Parked :: ParkedState(s, s.calls[c].f))
  }

  ghost predicate ParkedState(s: State, f: Fid) {
    f in s.fibers && (s.fibers[f].state == EXEC || s.fibers[f].state == HOLD)
  }

  /** The fibers of calls that have not returned differ from a fiber that is in no call. */
  lemma OtherFiber(s: State, f: Fid, c: Cid)
    requires BodiesOk(s) && f in s.fibers && c in s.calls && s.calls[c].pc != Returned
    requires s.fibers[f].body != InCall(c)
    ensures s.calls[c].f != f
  {
  }

  /** One worker moves on, which did not run the fiber of any call that goes on; states of such fibers stay, or
      become EXEC or HOLD. */
  lemma CallsRunMove(s: State, s': State, w: Wid)
    requires BodiesOk(s) && CallsRun(s) && |s'.workers| == |s.workers|
    requires forall v | 0 <= v < |s.workers| && v != w :: s'.workers[v] == s.workers[v]
    requires forall c | c in s'.calls && s'.calls[c].pc != Returned ::
               && c in s.calls && s.calls[c].f == s'.calls[c].f && s.calls[c].pc == s'.calls[c].pc
               && (RunsOn(s, w, s.calls[c].f) ==> RunsOn(s', w, s.calls[c].f))
               && s.calls[c].f in s'.fibers
               && (ParkedState(s, s.calls[c].f) ==> ParkedState(s', s.calls[c].f))
    ensures CallsRun(s')
  {
    forall c | c in s'.calls && s'.calls[c].pc != Returned && s'.calls[c].pc != Parked
      ensures IsRunning(s', s'.calls[c].f)
    {
      var v :| RunsOn(s, v, s.calls[c].f);
      assert RunsOn(s', v, s.calls[c].f);
    }
  }

  lemma RunCallsRun(s: State, w: Wid, own: Own)
    requires BodiesOk(s) && CallsRun(s) && CanRun(s, w, own)
    ensures CallsRun(RunOn(s, w, own))
  {
    CallsRunMove(s, RunOn(s, w, own), w);
  }

  lemma SettleCallsRun(s: State, w: Wid)
    requires BodiesOk(s) && CallsRun(s) && CanLoop(s, w, Settle)
    ensures CallsRun(LoopOn(s, w, Settle))
  {
    SettledIs(s, w);
    CallsRunMove(s, LoopOn(s, w, Settle), w);
  }

  lemma LoopCallsRun(s: State, w: Wid, loop: Loop)
    requires BodiesOk(s) && CallsRun(s) && Owned(s) && CanLoop(s, w, loop)
    ensures CallsRun(LoopOn(s, w, loop))
  {
    match loop
    case Settle => SettleCallsRun(s, w);
    case _ => CallsRunMove(s, LoopOn(s, w, loop), w);
  }

  lemma DoCallsRun(s: State, a: Actor, act: Action)
    requires BodiesOk(s) && CallsRun(s) && CanDo(s, a, act)
    ensures CallsRun(Do(s, a, act))
  {
    CallsRunMove(s, Do(s, a, act), 0);
  }

  /** A call's step, but parking, moves no worker and no other call, and parks none. */
  ghost predicate CallAlone(s: State, s': State, c: Cid) {
    && s'.workers == s.workers
    && (forall g | g in s.fibers :: g in s'.fibers && s'.fibers[g].state == s.fibers[g].state)
    && (forall d | d in s'.calls && d != c :: d in s.calls && s'.calls[d] == s.calls[d])
    && c in s'.calls && s'.calls[c].pc != Parked
  }

  ghost function CallOf(s: State, w: Wid, hook: Hook): Cid
    requires CanHook(s, w, hook)
  {
    if hook.Begin? then hook.c else BodyOf(s, w).c
  }

  lemma HookAlone(s: State, w: Wid, hook: Hook)
    requires CanHook(s, w, hook) && hook != Park
    ensures CallAlone(s, HookOn(s, w, hook), CallOf(s, w, hook))
    ensures HookOn(s, w, hook).calls[CallOf(s, w, hook)].f == Fiber0(s, w)
  {
  }

  lemma ParkCallsRun(s: State, w: Wid)
    requires BodiesOk(s) && Owned(s) && CallsRun(s) && CanHook(s, w, Park)
    ensures CallsRun(HookOn(s, w, Park))
  {
    var s', f := HookOn(s, w, Park), Fiber0(s, w);
    assert Has1(s, w, f) && HandOk(s, w, f);
    forall c | c in s'.calls && s'.calls[c].pc != Returned && s'.calls[c].pc != Parked
      ensures IsRunning(s', s'.calls[c].f)
    {
      OtherFiber(s, f, c);
      var v :| RunsOn(s, v, s.calls[c].f);
      assert RunsOn(s', v, s.calls[c].f);
    }
  }

  lemma HookCallsRun(s: State, w: Wid, hook: Hook)
    requires BodiesOk(s) && Owned(s) && CallsRun(s) && CanHook(s, w, hook)
    ensures CallsRun(HookOn(s, w, hook))
  {
    if hook == Park {
      ParkCallsRun(s, w);
    } else {
      HookAlone(s, w, hook);
      AloneCallsRun(s, HookOn(s, w, hook), w, CallOf(s, w, hook));
    }
  }

  lemma AloneCallsRun(s: State, s': State, w: Wid, c: Cid)
    requires CallsRun(s) && RunsNow(s, w) && CallAlone(s, s', c) && s'.calls[c].f == Fiber0(s, w)
    ensures CallsRun(s')
  {
    assert RunsOn(s', w, Fiber0(s, w));
    forall d | d in s'.calls && s'.calls[d].pc != Returned && s'.calls[d].pc != Parked
      ensures IsRunning(s', s'.calls[d].f)
    {
      if d != c {
        var v :| RunsOn(s, v, s.calls[d].f);
        assert RunsOn(s', v, s.calls[d].f);
      }
    }
  }

  lemma StepCallsRun(s: State, step: Step)
    requires BodiesOk(s) && Owned(s) && CallsRun(s) && Enabled(s, step)
    ensures CallsRun(Apply(s, step))
  {
    match step
    case Does(a, act) => DoCallsRun(s, a, act);
    case Runs(w, own) => RunCallsRun(s, w, own);
    case Loops(w, loop) => LoopCallsRun(s, w, loop);
    case Hooked(w, hook) => HookCallsRun(s, w, hook);
  }

  // ---------- the timeout ----------

  ghost predicate PickedJob(s: State, w: Wid, job: Job) {
    w < |s.workers| && s.workers[w].pc == Picked(job)
  }

  ghost predicate InHand(s: State, w: Wid, job: Job) {
    w < |s.workers| && s.workers[w].pc.Holding? && Listed(s.workers[w].pc.hand, job)
  }

  ghost predicate Looks(s: State, f: Fid, c: Cid) {
    f in s.fibers && s.fibers[f].body == Timing(c)
  }

  /** A timeout callback of the call is on its way: in a worker's hand, queued, picked, or about to look. */
  ghost predicate OnItsWay(s: State, c: Cid) {
    || Listed(s.queue, Fun(Timeout(c)))
    || (exists w :: PickedJob(s, w, Fun(Timeout(c))))
    || (exists w :: InHand(s, w, Fun(Timeout(c))))
    || exists f :: Looks(s, f, c)
  }

  ghost predicate Waiting(pc: CallPc) {
    pc.Timed? || pc.Rejected? || pc.Armed? || pc.Parked?
  }

  /** The timer of a call that waits with a timeout is in the set, or expired into a callback that is on its way
      or has set the condition. */
  ghost predicate Guarded(s: State, c: Cid)
    requires c in s.calls
  {
    && s.calls[c].timer.Some? && s.calls[c].timer.value in s.timers
    && (s.timers[s.calls[c].timer.value].live || s.calls[c].cancelled || OnItsWay(s, c))
  }

  ghost predicate TimeoutsOk(s: State) {
    forall c | c in s.calls && s.calls[c].timeout && Waiting(s.calls[c].pc) :: Guarded(s, c)
  }

  /** A callback on its way stays so: what it is in only grows or moves along. */
  lemma OnItsWaySame(s: State, s': State, c: Cid)
    requires OnItsWay(s, c) && s'.workers == s.workers
    requires Listed(s.queue, Fun(Timeout(c))) ==> Listed(s'.queue, Fun(Timeout(c)))
    requires forall f | Looks(s, f, c) :: Looks(s', f, c)
    ensures OnItsWay(s', c)
  {
    if w :| PickedJob(s, w, Fun(Timeout(c))) {
      assert PickedJob(s', w, Fun(Timeout(c)));
    } else if w :| InHand(s, w, Fun(Timeout(c))) {
      assert InHand(s', w, Fun(Timeout(c)));
    }
  }

  lemma OnItsWayMove(s: State, s': State, w: Wid, c: Cid)
    requires OnItsWay(s, c) && w < |s.workers| && |s'.workers| == |s.workers|
    requires forall v | 0 <= v < |s.workers| && v != w :: s'.workers[v] == s.workers[v]
    requires Listed(s.queue, Fun(Timeout(c))) ==> Listed(s'.queue, Fun(Timeout(c))) || PickedJob(s', w, Fun(Timeout(c)))
    requires PickedJob(s, w, Fun(Timeout(c))) ==> exists f :: Looks(s', f, c)
    requires InHand(s, w, Fun(Timeout(c))) ==> Listed(s'.queue, Fun(Timeout(c)))
    requires forall f | Looks(s, f, c) :: Looks(s', f, c)
    ensures OnItsWay(s', c)
  {
    if v :| PickedJob(s, v, Fun(Timeout(c))) && v != w {
      assert PickedJob(s', v, Fun(Timeout(c)));
    } else if v :| InHand(s, v, Fun(Timeout(c))) && v != w {
      assert InHand(s', v, Fun(Timeout(c)));
    }
  }

  /** The calls and their timers stay; callbacks on their way stay so. */
  lemma GuardedSame(s: State, s': State)
    requires TimeoutsOk(s) && TimersKept(s, s')
    requires forall c | c in s'.calls && s'.calls[c].timeout && Waiting(s'.calls[c].pc) :: KeptGuard(s, s', c)
    ensures TimeoutsOk(s')
  {
    forall c | c in s'.calls && s'.calls[c].timeout && Waiting(s'.calls[c].pc) ensures Guarded(s', c) {
      assert KeptGuard(s, s', c);
      assert Guarded(s, c);
    }
  }

  ghost predicate KeptGuard(s: State, s': State, c: Cid)
    requires c in s'.calls
  {
    && c in s.calls && s.calls[c].timeout && Waiting(s.calls[c].pc) && s.calls[c].timer == s'.calls[c].timer
    && (s.calls[c].cancelled ==> s'.calls[c].cancelled)
    && (OnItsWay(s, c) ==> OnItsWay(s', c) || s'.calls[c].cancelled)
    && (forall t | s.calls[c].timer == Some(t) && t in s.timers && s.timers[t].live ::
          t in s'.timers && (s'.timers[t].live || OnItsWay(s', c)))
  }

  lemma DoTimeouts(s: State, a: Actor, act: Action)
    requires TimeoutsOk(s) && CallTimers(s) && CanDo(s, a, act)
    ensures TimeoutsOk(Do(s, a, act))
  {
    var s' := Do(s, a, act);
    DoTimers(s, a, act);
    forall c | c in s'.calls && s'.calls[c].timeout && Waiting(s'.calls[c].pc) ensures KeptGuard(s, s', c) {
      assert s.calls[c].timer.Some? ==> CallTimer(s, c);
      assert s'.queue == s.queue + s'.queue[|s.queue|..];
      ListedAppend(s.queue, s'.queue[|s.queue|..], Fun(Timeout(c)));
      if OnItsWay(s, c) {
        OnItsWaySame(s, s', c);
      }
    }
    GuardedSame(s, s');
  }

  lemma RunTimeouts(s: State, w: Wid, own: Own)
    requires TimeoutsOk(s) && CanRun(s, w, own)
    ensures TimeoutsOk(RunOn(s, w, own))
  {
    var s' := RunOn(s, w, own);
    forall c | c in s'.calls && s'.calls[c].timeout && Waiting(s'.calls[c].pc) ensures KeptGuard(s, s', c) {
      if OnItsWay(s, c) && !s'.calls[c].cancelled {
        RunOnItsWay(s, w, own, c);
      }
    }
    GuardedSame(s, s');
  }

  lemma RunOnItsWay(s: State, w: Wid, own: Own, c: Cid)
    requires CanRun(s, w, own) && OnItsWay(s, c) && c in s.calls && s.calls[c].pc != Returned
    requires !RunOn(s, w, own).calls[c].cancelled
    ensures OnItsWay(RunOn(s, w, own), c)
  {
    var s' := RunOn(s, w, own);
    assert s'.queue == s.queue + s'.queue[|s.queue|..];
    ListedAppend(s.queue, s'.queue[|s.queue|..], Fun(Timeout(c)));
    if own.Yield? || own.Finish? {
      OnItsWayMove(s, s', w, c);
    } else {
      OnItsWaySame(s, s', c);
    }
  }

  lemma HookTimeouts(s: State, w: Wid, hook: Hook)
    requires TimeoutsOk(s) && CallTimers(s) && CanHook(s, w, hook)
    ensures TimeoutsOk(HookOn(s, w, hook))
  {
    var s' := HookOn(s, w, hook);
    forall c | c in s'.calls && s'.calls[c].timeout && Waiting(s'.calls[c].pc) ensures Guarded(s', c) {
      if c in s.calls && Waiting(s.calls[c].pc) {
        assert Guarded(s, c) && CallTimer(s, c);
        HookGuard(s, w, hook, c);
      }
    }
  }

  lemma HookGuard(s: State, w: Wid, hook: Hook, c: Cid)
    requires CallTimers(s) && CanHook(s, w, hook) && c in s.calls && s.calls[c].timeout && Guarded(s, c)
    requires Waiting(s.calls[c].pc) && c in HookOn(s, w, hook).calls && Waiting(HookOn(s, w, hook).calls[c].pc)
    ensures Guarded(HookOn(s, w, hook), c)
  {
    if hook.GiveUp? || hook.Resume? {
      KillGuard(s, w, hook, c);
    } else {
      if OnItsWay(s, c) {
        HookOnItsWay(s, w, hook, c);
      }
      OtherGuard(s, w, hook, c);
    }
  }

  lemma HookOnItsWay(s: State, w: Wid, hook: Hook, c: Cid)
    requires CanHook(s, w, hook) && OnItsWay(s, c)
    ensures OnItsWay(HookOn(s, w, hook), c)
  {
    if hook == Park {
      OnItsWayMove(s, HookOn(s, w, hook), w, c);
    } else {
      OnItsWaySame(s, HookOn(s, w, hook), c);
    }
  }

  lemma OtherGuard(s: State, w: Wid, hook: Hook, c: Cid)
    requires CanHook(s, w, hook) && !hook.GiveUp? && !hook.Resume? && c in s.calls && Guarded(s, c)
    requires Waiting(s.calls[c].pc) && (OnItsWay(s, c) ==> OnItsWay(HookOn(s, w, hook), c))
    ensures c in HookOn(s, w, hook).calls && Guarded(HookOn(s, w, hook), c)
  {
  }

  /** Another call takes its own timer out of the set. */
  lemma KillGuard(s: State, w: Wid, hook: Hook, c: Cid)
    requires CallTimers(s) && CanHook(s, w, hook) && (hook.GiveUp? || hook.Resume?)
    requires c in s.calls && Guarded(s, c) && c in HookOn(s, w, hook).calls && Waiting(HookOn(s, w, hook).calls[c].pc)
    ensures Guarded(HookOn(s, w, hook), c)
  {
    var d := BodyOf(s, w).c;
    assert c != d && CallTimer(s, c) && (s.calls[d].timer.Some? ==> CallTimer(s, d));
    if OnItsWay(s, c) {
      HookOnItsWay(s, w, hook, c);
    }
  }

  lemma SweepTimeouts(s: State, w: Wid, ts: seq<Tid>)
    requires TimeoutsOk(s) && CallTimers(s) && CanLoop(s, w, Sweep(ts))
    ensures TimeoutsOk(LoopOn(s, w, Sweep(ts)))
  {
    var s', hand := LoopOn(s, w, Sweep(ts)), Codes(s.timers, ts);
    forall c | c in s'.calls && s'.calls[c].timeout && Waiting(s'.calls[c].pc) ensures KeptGuard(s, s', c) {
      assert Guarded(s, c) && CallTimer(s, c);
      var t := s.calls[c].timer.value;
      if t in ts {
        var i :| 0 <= i < |ts| && ts[i] == t;
        assert hand[i].job == Fun(Timeout(c));
        assert InHand(s', w, Fun(Timeout(c)));
      }
      if OnItsWay(s, c) {
        OnItsWayMove(s, s', w, c);
      }
    }
    GuardedSame(s, s');
  }

  lemma LoopOnItsWay(s: State, w: Wid, loop: Loop, c: Cid)
    requires BodiesFree(s) && Owned(s) && CanLoop(s, w, loop) && OnItsWay(s, c)
    ensures OnItsWay(LoopOn(s, w, loop), c)
  {
    var s', job := LoopOn(s, w, loop), Fun(Timeout(c));
    match loop
    case Pick(i) =>
      if Listed(s.queue, job) && s.queue[i].job != job {
        ListedWithout(s.queue, i, job);
      }
      OnItsWayMove(s, s', w, c);
    case StartFun(f) =>
      if PickedJob(s, w, job) {
        assert Looks(s', f, c);
      }
      OnItsWayMove(s, s', w, c);
    case Flush =>
      ListedAppend(s.queue, s.workers[w].pc.hand, job);
      OnItsWayMove(s, s', w, c);
    case Dispatch(k) =>
      ListedAppend(s.queue, [Entry(s.armed[k].job, ANY)], job);
      OnItsWaySame(s, s', c);
    case Settle =>
      SettledIs(s, w);
      assert s'.queue == s.queue + s'.queue[|s.queue|..];
      ListedAppend(s.queue, s'.queue[|s.queue|..], job);
      OnItsWayMove(s, s', w, c);
    case _ => OnItsWayMove(s, s', w, c);
  }

  lemma LoopTimeouts(s: State, w: Wid, loop: Loop)
    requires TimeoutsOk(s) && CallTimers(s) && BodiesFree(s) && Owned(s) && CanLoop(s, w, loop)
    ensures TimeoutsOk(LoopOn(s, w, loop))
  {
    if loop.Sweep? {
      SweepTimeouts(s, w, loop.ts);
    } else {
      var s' := LoopOn(s, w, loop);
      LoopTimers(s, w, loop);
      forall c | c in s'.calls && s'.calls[c].timeout && Waiting(s'.calls[c].pc) ensures KeptGuard(s, s', c) {
        if OnItsWay(s, c) {
          LoopOnItsWay(s, w, loop, c);
        }
      }
      GuardedSame(s, s');
    }
  }

  /** No step loses the timeout of a call that waits. */
  lemma StepTimeouts(s: State, step: Step)
    requires TimeoutsOk(s) && CallTimers(s) && BodiesFree(s) && Owned(s) && Enabled(s, step)
    ensures TimeoutsOk(Apply(s, step))
  {
    match step
    case Does(a, act) => DoTimeouts(s, a, act);
    case Runs(w, own) => RunTimeouts(s, w, own);
    case Loops(w, loop) => LoopTimeouts(s, w, loop);
    case Hooked(w, hook) => HookTimeouts(s, w, hook);
  }

  // ---------- the event ----------

  ghost predicate Expecting(s: State, c: Cid) {
    c in s.calls && (s.calls[c].pc.Armed? || s.calls[c].pc.Parked?)
  }

  ghost predicate HasEvent(s: State, c: Cid)
    requires c in s.calls
  {
    s.calls[c].key in s.armed && s.armed[s.calls[c].key].call == Some(c)
  }

  /** The call's event is registered, or has fired: then its fiber is queued or picked. */
  ghost predicate Expects(s: State, c: Cid)
    requires c in s.calls
  {
    HasEvent(s, c) || Listed(s.queue, Fib(s.calls[c].f)) || exists w :: Picks(s, w, s.calls[c].f)
  }

  /** The step deletes the registration of the call. */
  ghost predicate Deletes(s: State, step: Step, c: Cid) {
    step.Does? && step.act.Disarm? && step.act.k in s.armed && s.armed[step.act.k].call == Some(c)
  }

  /** After the step the call still expects its event, or its fiber runs again. */
  ghost predicate Goes(s: State, s': State, c: Cid)
    requires c in s.calls && c in s'.calls
  {
    Expects(s', c) || (s.calls[c].pc == Parked && IsRunning(s', s.calls[c].f))
  }

  lemma ExpectsSame(s: State, s': State, c: Cid)
    requires c in s.calls && c in s'.calls && s'.calls[c].f == s.calls[c].f && s'.calls[c].key == s.calls[c].key
    requires Expects(s, c)
    requires HasEvent(s, c) ==> HasEvent(s', c) || Listed(s'.queue, Fib(s.calls[c].f))
    requires Listed(s.queue, Fib(s.calls[c].f)) ==>
               Listed(s'.queue, Fib(s.calls[c].f)) || exists w :: Picks(s', w, s.calls[c].f)
    requires forall w | Picks(s, w, s.calls[c].f) :: Picks(s', w, s.calls[c].f)
    ensures Expects(s', c)
  {
  }

  lemma FireExpects(s: State, k: Key, c: Cid)
    requires ArmsOk(s) && k in s.armed && c in s.calls && Expects(s, c)
    ensures Expects(Fire(s, k), c)
  {
    var r := [Entry(s.armed[k].job, ANY)];
    ListedAppend(s.queue, r, Fib(s.calls[c].f));
    if HasEvent(s, c) && s.calls[c].key == k {
      assert ArmOk(s, k, c);
      assert r[0].job == Fib(s.calls[c].f);
    }
    forall w | Picks(s, w, s.calls[c].f) ensures Picks(Fire(s, k), w, s.calls[c].f) {
    }
    ExpectsSame(s, Fire(s, k), c);
  }

  lemma DoExpects(s: State, a: Actor, act: Action, c: Cid)
    requires ArmsOk(s) && CanDo(s, a, act) && Expecting(s, c) && Expects(s, c) && !Deletes(s, Does(a, act), c)
    ensures Expects(Do(s, a, act), c)
  {
    var s' := Do(s, a, act);
    match act
    case Trigger(k) => FireExpects(s, k, c);
    case _ =>
      assert s'.queue == s.queue + s'.queue[|s.queue|..];
      ListedAppend(s.queue, s'.queue[|s.queue|..], Fib(s.calls[c].f));
      ExpectsSame(s, s', c);
  }

  lemma RunExpects(s: State, w: Wid, own: Own, c: Cid)
    requires ArmsOk(s) && CanRun(s, w, own) && Expecting(s, c) && Expects(s, c)
    ensures Expects(RunOn(s, w, own), c)
  {
    var s' := RunOn(s, w, own);
    if own.CancelTimedOut? && s.calls[BodyOf(s, w).c].key in s.armed && !own.refused {
      var s1 := SetBody(s, Fiber0(s, w), Free);
      ExpectsSame(s, s1, c);
      FireExpects(s1, s.calls[BodyOf(s, w).c].key, c);
    } else {
      assert s'.queue == s.queue + s'.queue[|s.queue|..];
      ListedAppend(s.queue, s'.queue[|s.queue|..], Fib(s.calls[c].f));
      ExpectsSame(s, s', c);
    }
  }

  lemma HookExpects(s: State, w: Wid, hook: Hook, c: Cid)
    requires CanHook(s, w, hook) && Expecting(s, c) && Expects(s, c) && Expecting(HookOn(s, w, hook), c)
    ensures Expects(HookOn(s, w, hook), c)
  {
    ExpectsSame(s, HookOn(s, w, hook), c);
  }

  lemma RunningExec(s: State, f: Fid)
    requires Owned(s) && IsRunning(s, f)
    ensures f in s.fibers && s.fibers[f].state == EXEC
  {
    var v :| RunsOn(s, v, f);
    assert Has1(s, v, f) && HandOk(s, v, f);
  }

  /** The fiber of a call that waits for its event has not ended, and is not picked before it swapped out. */
  lemma PickedParked(s: State, w: Wid, c: Cid)
    requires Owned(s) && CallsRun(s) && Expecting(s, c) && Picks(s, w, s.calls[c].f)
    ensures s.calls[c].pc == Parked && !Ended(s.fibers[s.calls[c].f].state)
  {
    if s.calls[c].pc.Armed? {
      RunningExec(s, s.calls[c].f);
    }
  }

  lemma LoopExpects(s: State, w: Wid, loop: Loop, c: Cid)
    requires Owned(s) && ArmsOk(s) && CallsRun(s) && CanLoop(s, w, loop) && Expecting(s, c) && Expects(s, c)
    ensures c in LoopOn(s, w, loop).calls && Goes(s, LoopOn(s, w, loop), c)
  {
    var s', f := LoopOn(s, w, loop), s.calls[c].f;
    if Picks(s, w, f) {
      PickedParked(s, w, c);
      assert loop == SwapIn;
      assert RunsOn(s', w, f);
    } else {
      match loop
      case Pick(i) =>
        if s.queue[i].job == Fib(f) {
          assert Picks(s', w, f);
        } else if Listed(s.queue, Fib(f)) {
          ListedWithout(s.queue, i, Fib(f));
        }
        ExpectsSame(s, s', c);
      case Dispatch(k) => FireExpects(s, k, c);
      case _ => LoopStill(s, w, loop, c);
    }
  }

  lemma LoopStill(s: State, w: Wid, loop: Loop, c: Cid)
    requires CanLoop(s, w, loop) && !loop.Pick? && !loop.Dispatch? && c in s.calls && Expects(s, c)
    requires !Picks(s, w, s.calls[c].f)
    ensures Expects(LoopOn(s, w, loop), c)
  {
    var s' := LoopOn(s, w, loop);
    if loop.Settle? {
      SettledIs(s, w);
    }
    assert s'.queue == s.queue + s'.queue[|s.queue|..];
    ListedAppend(s.queue, s'.queue[|s.queue|..], Fib(s.calls[c].f));
    ExpectsSame(s, s', c);
  }

  /** Whatever the step, a call that expects its event goes on to, unless its registration is deleted. */
  lemma StepExpects(s: State, step: Step, c: Cid)
    requires Owned(s) && ArmsOk(s) && CallsRun(s) && Enabled(s, step)
    requires Expecting(s, c) && Expects(s, c) && !Deletes(s, step, c) && Expecting(Apply(s, step), c)
    ensures Goes(s, Apply(s, step), c)
  {
    match step
    case Does(a, act) => DoExpects(s, a, act, c);
    case Runs(w, own) => RunExpects(s, w, own, c);
    case Loops(w, loop) => LoopExpects(s, w, loop, c);
    case Hooked(w, hook) => HookExpects(s, w, hook, c);
  }

  lemma RunRunning(s: State, w: Wid, own: Own, v: Wid, f: Fid)
    requires CanRun(s, w, own) && RunsOn(s, v, f) && f in s.fibers && s.fibers[f].body.InCall?
    ensures RunsOn(RunOn(s, w, own), v, f)
  {
  }

  lemma LoopRunning(s: State, w: Wid, loop: Loop, v: Wid, f: Fid)
    requires CanLoop(s, w, loop) && RunsOn(s, v, f)
    ensures RunsOn(LoopOn(s, w, loop), v, f)
  {
  }

  lemma HookRunning(s: State, w: Wid, hook: Hook, v: Wid, f: Fid)
    requires CanHook(s, w, hook) && RunsOn(s, v, f) && (hook == Park ==> v != w)
    ensures RunsOn(HookOn(s, w, hook), v, f)
  {
  }

  /** A parked call whose fiber runs again stays so until it goes on. */
  lemma StepRunning(s: State, step: Step, c: Cid)
    requires BodiesOk(s) && Enabled(s, step) && c in s.calls && s.calls[c].pc == Parked && IsRunning(s, s.calls[c].f)
    ensures IsRunning(Apply(s, step), s.calls[c].f)
  {
    var f := s.calls[c].f;
    var v :| RunsOn(s, v, f);
    assert BodyOf(s, v) == InCall(c);
    match step
    case Does(a, act) => assert RunsOn(Do(s, a, act), v, f);
    case Runs(w, own) => RunRunning(s, w, own, v, f);
    case Loops(w, loop) => LoopRunning(s, w, loop, v, f);
    case Hooked(w, hook) => HookRunning(s, w, hook, v, f);
  }

  /** The call is as it was, up to its condition. */
  ghost predicate CallKept(s: State, s': State, c: Cid) {
    && (c in s.calls <==> c in s'.calls)
    && (c in s.calls ==> s'.calls[c] == s.calls[c].(cancelled := s'.calls[c].cancelled))
  }

  lemma DoCallKept(s: State, a: Actor, act: Action, c: Cid)
    requires CanDo(s, a, act)
    ensures CallKept(s, Do(s, a, act), c)
  {
  }

  lemma RunCallKept(s: State, w: Wid, own: Own, c: Cid)
    requires CanRun(s, w, own)
    ensures CallKept(s, RunOn(s, w, own), c)
  {
  }

  lemma LoopCallKept(s: State, w: Wid, loop: Loop, c: Cid)
    requires CanLoop(s, w, loop)
    ensures CallKept(s, LoopOn(s, w, loop), c)
  {
  }

  /** No step but a call's own moves it. */
  lemma StepCallKept(s: State, step: Step, c: Cid)
    requires Enabled(s, step) && !step.Hooked?
    ensures CallKept(s, Apply(s, step), c)
  {
    match step
    case Does(a, act) => DoCallKept(s, a, act, c);
    case Runs(w, own) => RunCallKept(s, w, own, c);
    case Loops(w, loop) => LoopCallKept(s, w, loop, c);
  }

  lemma HookArms(s: State, w: Wid, hook: Hook, c: Cid)
    requires CanHook(s, w, hook) && !Expecting(s, c) && Expecting(HookOn(s, w, hook), c)
    ensures HasEvent(HookOn(s, w, hook), c)
  {
  }

  /** A call comes to wait by registering its event. */
  lemma StepArms(s: State, step: Step, c: Cid)
    requires Enabled(s, step) && !Expecting(s, c) && Expecting(Apply(s, step), c)
    ensures HasEvent(Apply(s, step), c)
  {
    if step.Hooked? {
      HookArms(s, step.w, step.hook, c);
    } else {
      StepCallKept(s, step, c);
    }
  }
}
