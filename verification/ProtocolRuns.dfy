/** What holds over every run of the protocol, in every interleaving. */
module ProtocolRuns {
  import opened Basics
  import opened Jobs
  import opened Protocol
  import opened ProtocolTokens
  import opened ProtocolOwners
  import opened ProtocolCalls
  import opened ProtocolStates
  import opened ProtocolWakes
  import opened ProtocolWaits

  ghost predicate Inv(s: State) {
    && Single(s) && Owned(s) && Counted(s) && CallsOk(s)
    && Housed(s) && Lined(s) && CacheFree(s) && CallTimers(s) && CallsRun(s) && TimeoutsOk(s)
  }

  lemma InitInv(s: State)
    requires Init(s)
    ensures Inv(s)
  {
    forall p: Pos, f: Fid ensures !TokenAt(s, p, f) {
      match p
      case AtBack(_) =>
      case _ =>
    }
    forall w: Wid, f: Fid ensures !Has1(s, w, f) {
    }
    BusyZero(s.workers);
    forall w: Wid ensures !Calls(s, w, Parked) {
    }
  }

  lemma StepInv(s: State, step: Step)
    requires Inv(s) && Enabled(s, step)
    ensures Inv(Apply(s, step))
  {
    StepSingle(s, step);
    StepOwned(s, step);
    StepCounted(s, step);
    StepCalls(s, step);
    StepHoused(s, step);
    StepLined(s, step);
    StepCacheFree(s, step);
    StepCallTimers(s, step);
    StepCallsRun(s, step);
    StepTimeouts(s, step);
  }

  lemma {:induction false} RunInv(states: seq<State>, steps: seq<Step>, n: nat)
    requires Run(states, steps) && n < |states|
    ensures Inv(states[n])
  {
    if n == 0 {
      InitInv(states[0]);
    } else {
      RunInv(states, steps, n - 1);
      var s, step := states[n - 1], steps[n - 1];
      assert Next(s, step, states[n]);
      StepInv(s, step);
    }
  }

  // ---------- a fiber never runs twice at once ----------

  /** In every interleaving with single-wake registration, no fiber is executed by two workers at once, from its
      swap-in until the worker has requeued it or put it on hold; and it has at most one token. */
  lemma NeverTwice(states: seq<State>, steps: seq<Step>, n: nat)
    requires Run(states, steps) && n < |states|
    ensures forall w, v, f :: Has1(states[n], w, f) && Has1(states[n], v, f) ==> w == v
    ensures forall p, q, f :: TokenAt(states[n], p, f) && TokenAt(states[n], q, f) ==> p == q
    ensures Distinct(states[n].queue)
  {
    RunInv(states, steps, n);
  }

  /** The assertions in the fiber's methods: one swapped in is not EXEC, one that yields is, and one that is
      reset for a new function is INIT, TERM or EXCEPT. */
  ghost predicate FiberAsserts(s: State, step: Step)
    requires Enabled(s, step)
  {
    match step
    case Loops(w, SwapIn) => s.fibers[s.workers[w].pc.job.f].state != EXEC
    case Loops(w, StartFun(f)) => f in s.fibers ==> s.fibers[f].state == INIT
    case Loops(w, Settle) =>
      Settled(s, w).workers[w].cached != s.workers[w].cached ==> Ended(s.fibers[s.workers[w].pc.f].state)
    case Runs(w, _) => s.fibers[s.workers[w].pc.f].state == EXEC
    case Hooked(w, _) => s.fibers[s.workers[w].pc.f].state == EXEC
    case _ => true
  }

  lemma FiberAssertions(states: seq<State>, steps: seq<Step>, n: nat)
    requires Run(states, steps) && n < |steps|
    ensures Enabled(states[n], steps[n]) && FiberAsserts(states[n], steps[n])
  {
    RunInv(states, steps, n);
    assert Next(states[n], steps[n], states[n + 1]);
    AssertsHold(states[n], steps[n]);
  }

  lemma AssertsHold(s: State, step: Step)
    requires Inv(s) && Enabled(s, step)
    ensures FiberAsserts(s, step)
  {
    match step
    case Loops(w, SwapIn) => FreeToRun(s, w);
    case Runs(w, _) => assert Has1(s, w, Fiber0(s, w));
    case Hooked(w, _) => assert Has1(s, w, Fiber0(s, w));
    case _ =>
  }

  // ---------- hooked calls ----------

  /** Whenever a hooked call has returned, on any path and after any number of rounds, none of its timers is in
      the timer set and none of its registrations is armed; so too whenever it is between rounds. */
  lemma ReturnedClean(states: seq<State>, steps: seq<Step>, n: nat, c: Cid)
    requires Run(states, steps) && n < |states| && c in states[n].calls
    requires states[n].calls[c].pc.Trying? || states[n].calls[c].pc.Woken? || states[n].calls[c].pc.Returned?
    ensures NotTimed(states[n], c) && NotArmed(states[n], c)
  {
    RunInv(states, steps, n);
    Clean(states[n], c);
  }

  /** The call is as it was, and a fiber that is to cancel for it was to before. */
  ghost predicate Past(s: State, s': State, c: Cid, f: Fid)
    requires c in s.calls
  {
    && c in s'.calls && s'.calls[c] == s.calls[c]
    && (f in s'.fibers && s'.fibers[f].body == Cancelling(c) ==> f in s.fibers && s.fibers[f].body == Cancelling(c))
  }

  lemma ReturnedDo(s: State, a: Actor, act: Action, c: Cid, f: Fid)
    requires CanDo(s, a, act) && c in s.calls
    ensures Past(s, Do(s, a, act), c, f)
  {
  }

  lemma ReturnedLoop(s: State, w: Wid, loop: Loop, c: Cid, f: Fid)
    requires CanLoop(s, w, loop) && c in s.calls
    ensures Past(s, LoopOn(s, w, loop), c, f)
  {
    match loop
    case StartFun(_) => assert !BodyFor(s.workers[w].pc.job.code).Cancelling?;
    case _ =>
  }

  lemma ReturnedHook(s: State, w: Wid, hook: Hook, c: Cid, f: Fid)
    requires CanHook(s, w, hook) && c in s.calls && s.calls[c].pc == Returned
    ensures Past(s, HookOn(s, w, hook), c, f)
  {
  }

  /** No step touches a call that has returned, and none makes a fiber set out to cancel for it. */
  lemma ReturnedStep(s: State, step: Step, c: Cid, f: Fid)
    requires Enabled(s, step) && c in s.calls && s.calls[c].pc == Returned
    ensures Past(s, Apply(s, step), c, f)
  {
    match step
    case Does(a, act) => ReturnedDo(s, a, act, c, f);
    case Runs(w, own) =>
    case Loops(w, loop) => ReturnedLoop(s, w, loop, c, f);
    case Hooked(w, hook) => ReturnedHook(s, w, hook, c, f);
  }

  lemma {:induction false} ReturnedForever(states: seq<State>, steps: seq<Step>, a: nat, b: nat, c: Cid, f: Fid)
    requires Run(states, steps) && a <= b < |states|
    requires c in states[a].calls && states[a].calls[c].pc == Returned
    ensures c in states[b].calls && states[b].calls[c] == states[a].calls[c]
    ensures f in states[b].fibers && states[b].fibers[f].body == Cancelling(c) ==>
              f in states[a].fibers && states[a].fibers[f].body == Cancelling(c)
    decreases b
  {
    if a < b {
      ReturnedForever(states, steps, a, b - 1, c, f);
      assert Next(states[b - 1], steps[b - 1], states[b]);
      ReturnedStep(states[b - 1], steps[b - 1], c, f);
    }
  }

  /** Over every run: after a call returned, a timeout callback of any of its rounds that looks at the condition
      finds it gone, and changes nothing but to end. A fiber that cancels for the call then, was about to when
      the call returned. */
  lemma LateTimeout(states: seq<State>, steps: seq<Step>, a: nat, b: nat, c: Cid, w: Wid)
    requires Run(states, steps) && a <= b < |steps| && c in states[a].calls && states[a].calls[c].pc == Returned
    ensures steps[b] == Runs(w, CheckTimeout) && RunsNow(states[b], w) && BodyOf(states[b], w) == Timing(c) ==>
              var (s, s') := (states[b], states[b + 1]);
              && s'.queue == s.queue && s'.armed == s.armed && s'.timers == s.timers && s'.calls == s.calls
              && s'.workers == s.workers && s'.active == s.active && s'.stop == s.stop
              && s'.fibers == s.fibers[Fiber0(s, w) := Fiber(EXEC, Free)]
    ensures RunsNow(states[b], w) && BodyOf(states[b], w) == Cancelling(c) ==>
              var f := Fiber0(states[b], w);
              f in states[a].fibers && states[a].fibers[f].body == Cancelling(c)
  {
    assert Next(states[b], steps[b], states[b + 1]);
    RunInv(states, steps, b);
    AssertsHold(states[b], steps[b]);
    ReturnedForever(states, steps, a, b, c, if RunsNow(states[b], w) then Fiber0(states[b], w) else 0);
  }

  /** One that saw its condition alive, but cancels only after the call returned, changes nothing exactly when
      no one is registered for the event then (or the kernel refuses). Else it hands over a registration that
      is not its call's, and leaves all calls as they are: a call woken this way was not cancelled by it. */
  lemma LateCancel(states: seq<State>, steps: seq<Step>, n: nat, w: Wid, refused: bool)
    requires Run(states, steps) && n < |states| && CanRun(states[n], w, CancelTimedOut(refused))
    requires states[n].calls[BodyOf(states[n], w).c].pc == Returned
    ensures var s := states[n];
            var c := BodyOf(s, w).c;
            var k := s.calls[c].key;
            var s' := RunOn(s, w, CancelTimedOut(refused));
            && (s' == SetBody(s, Fiber0(s, w), Free) <==> refused || k !in s.armed)
            && s'.calls == s.calls && s'.timers == s.timers
            && (k in s.armed && !refused ==>
                  && s.armed[k].call != Some(c) && s'.armed == s.armed - {k}
                  && s'.queue == s.queue + [Entry(s.armed[k].job, ANY)])
  {
    var s := states[n];
    ReturnedClean(states, steps, n, BodyOf(s, w).c);
    assert |RunOn(s, w, CancelTimedOut(refused)).queue| == |s.queue|
      <==> refused || s.calls[BodyOf(s, w).c].key !in s.armed;
  }

  // ---------- quiescence ----------

  /** A worker is about to requeue a fiber it no longer counts, or to schedule expired callbacks it holds. */
  ghost predicate Leaks(s: State) {
    exists w: Wid :: LeaksAt(s, w)
  }

  ghost predicate LeaksAt(s: State, w: Wid) {
    && w < |s.workers|
    && match s.workers[w].pc
       case Uncounted(f, _) => f in s.fibers && s.fibers[f].state == READY
       case Holding(hand) => hand != []
       case _ => false
  }

  /** A step taken by a worker, its idle fiber or the fiber running on it. */
  predicate Inside(step: Step) {
    !(step.Does? && step.a.Outside?)
  }

  lemma NoOneRuns(s: State)
    requires Inv(s) && Stopping(s)
    ensures forall w | 0 <= w < |s.workers| :: !Active(s.workers[w])
    ensures forall w: Wid :: !RunsNow(s, w)
  {
    BusyZero(s.workers);
  }

  /** Only the loops of the workers can go on. */
  lemma QuietStep(s: State, step: Step)
    requires Inv(s) && Stopping(s) && !Leaks(s) && Enabled(s, step) && Inside(step)
    ensures Stopping(Apply(s, step)) && !Leaks(Apply(s, step))
  {
    NoOneRuns(s);
    match step
    case Loops(w, loop) =>
      assert !LeaksAt(s, w);
      var s' := Apply(s, step);
      forall v: Wid ensures !LeaksAt(s', v) {
        QuietLoop(s, w, loop, v);
      }
    case _ =>
  }

  lemma FirstIn<T>(q: seq<T>)
    requires q != []
    ensures exists x :: x in q
  {
    assert q[0] in q;
  }

  lemma QuietSettle(s: State, w: Wid, v: Wid)
    requires Inv(s) && Stopping(s) && CanLoop(s, w, Settle) && !LeaksAt(s, w) && !LeaksAt(s, v)
    ensures Stopping(Settled(s, w)) && !LeaksAt(Settled(s, w), v)
  {
    assert Has1(s, w, s.workers[w].pc.f);
    assert v < |s.workers| && s.workers[v].pc.Uncounted? ==> Has1(s, v, s.workers[v].pc.f);
  }

  lemma QuietLoop(s: State, w: Wid, loop: Loop, v: Wid)
    requires Inv(s) && Stopping(s) && !Leaks(s) && CanLoop(s, w, loop) && !Active(s.workers[w])
    ensures Stopping(LoopOn(s, w, loop)) && !LeaksAt(LoopOn(s, w, loop), v)
  {
    assert !LeaksAt(s, w) && !LeaksAt(s, v);
    match loop
    case Settle => QuietSettle(s, w, v);
    case Sweep(ts) =>
      if ts != [] {
        FirstIn(ts);
      }
    case _ =>
  }

  lemma QuietNext(s: State, step: Step, s': State)
    requires Inv(s) && Stopping(s) && !Leaks(s) && Next(s, step, s') && Inside(step)
    ensures Stopping(s') && !Leaks(s')
  {
    QuietStep(s, step);
  }

  /** Quiescence is closed: once there is nothing to do and nothing leaks, no step from inside ever makes a
      queue entry, an event or a timer again. */
  lemma {:induction false} QuietForever(states: seq<State>, steps: seq<Step>, a: nat, b: nat)
    requires Run(states, steps) && a <= b < |states| && Stopping(states[a]) && !Leaks(states[a])
    requires forall n | a <= n < b :: Inside(steps[n])
    ensures Stopping(states[b]) && !Leaks(states[b])
    decreases b
  {
    if a < b {
      QuietForever(states, steps, a, b - 1);
      RunInv(states, steps, b - 1);
      QuietNext(states[b - 1], steps[b - 1], states[b]);
    }
  }

  /** And exactly then: where stopping holds but something leaks, the leaking worker's next step makes a queue
      entry. */
  lemma LeakExact(s: State)
    requires Inv(s) && Stopping(s)
    ensures Leaks(s) <==> exists step :: Inside(step) && Enabled(s, step) && !Stopping(Apply(s, step))
  {
    if Leaks(s) {
      var w: Wid :| LeaksAt(s, w);
      var step := Loops(w, if s.workers[w].pc.Holding? then Flush else Settle);
      assert Enabled(s, step) && Apply(s, step).queue != [];
    } else {
      forall step | Inside(step) && Enabled(s, step) ensures Stopping(Apply(s, step)) {
        QuietStep(s, step);
      }
    }
  }

  // ---------- the leak is real ----------

  /** Nobody holds a token for `f` when nothing is queued, armed, timed, cached or swapped out. */
  lemma Bare(s: State, f: Fid)
    requires s.queue == [] && s.armed == map[] && s.timers == map[]
    requires forall w | 0 <= w < |s.workers| ::
               s.workers[w].cached.None? && (s.workers[w].pc.Between? || s.workers[w].pc.Running?)
    requires forall g | g in s.fibers :: s.fibers[g].body.Free?
    ensures NoToken(s, f)
  {
    forall p: Pos ensures !TokenAt(s, p, f) {
      match p
      case AtBack(_) =>
      case _ =>
    }
  }

  ghost function Alone(state: FiberState, queue: seq<Entry>, pc: Pc, active: int, stop: bool): State {
    State(map[0 := Fiber(state, Free)], queue, [Worker(pc, None, false)], active, map[], map[], map[], stop)
  }

  const START := State(map[], [], [Worker(Between, None, false)], 0, map[], map[], map[], false)
  const TASK := [Entry(Fib(0), ANY)]

  lemma QueuedAndPicked()
    ensures Next(START, Does(Outside, Create(0)), Alone(INIT, [], Between, 0, false))
    ensures Next(Alone(INIT, [], Between, 0, false), Does(Outside, Schedule(Fib(0), ANY)),
                Alone(INIT, TASK, Between, 0, false))
    ensures Next(Alone(INIT, TASK, Between, 0, false), Does(Outside, Stop), Alone(INIT, TASK, Between, 0, true))
    ensures Next(Alone(INIT, TASK, Between, 0, true), Loops(0, Pick(0)), Alone(INIT, [], Picked(Fib(0)), 1, true))
  {
    Bare(Alone(INIT, [], Between, 0, false), 0);
  }

  lemma RunAndOut()
    ensures Next(Alone(INIT, [], Picked(Fib(0)), 1, true), Loops(0, SwapIn),
                Alone(EXEC, [], Running(0, false), 1, true))
    ensures Next(Alone(EXEC, [], Running(0, false), 1, true), Runs(0, Yield(true)),
                Alone(READY, [], Out(0, false), 1, true))
    ensures Next(Alone(READY, [], Out(0, false), 1, true), Loops(0, Decrement),
                Alone(READY, [], Uncounted(0, false), 0, true))
  {
    Bare(Alone(EXEC, [], Running(0, false), 1, true), 0);
  }

  lemma EndLeaks()
    ensures Stopping(Alone(READY, [], Uncounted(0, false), 0, true))
    ensures Leaks(Alone(READY, [], Uncounted(0, false), 0, true))
  {
    assert LeaksAt(Alone(READY, [], Uncounted(0, false), 0, true), 0);
  }

  ghost function LeakStates(): seq<State> {
    [START,
     Alone(INIT, [], Between, 0, false),
     Alone(INIT, TASK, Between, 0, false),
     Alone(INIT, TASK, Between, 0, true),
     Alone(INIT, [], Picked(Fib(0)), 1, true),
     Alone(EXEC, [], Running(0, false), 1, true),
     Alone(READY, [], Out(0, false), 1, true),
     Alone(READY, [], Uncounted(0, false), 0, true)]
  }

  ghost function LeakSteps(): seq<Step> {
    [Does(Outside, Create(0)),
     Does(Outside, Schedule(Fib(0), ANY)),
     Does(Outside, Stop),
     Loops(0, Pick(0)),
     Loops(0, SwapIn),
     Runs(0, Yield(true)),
     Loops(0, Decrement)]
  }

  lemma LeakRun()
    ensures Run(LeakStates(), LeakSteps())
  {
    QueuedAndPicked();
    RunAndOut();
    assert Init(START);
  }

  /** One fiber, one worker: the fiber is queued, picked and swapped in, yields READY and is no longer counted.
      Then stopping holds although the worker is about to queue the fiber again. */
  lemma LeakReached()
    ensures exists states, steps :: Run(states, steps) && Stopping(states[|steps|]) && Leaks(states[|steps|])
  {
    LeakRun();
    EndLeaks();
    var states, steps := LeakStates(), LeakSteps();
    assert states[|steps|] == Alone(READY, [], Uncounted(0, false), 0, true);
  }

  /** A worker, a one-shot timer, no fiber. */
  ghost function Timed1(live: bool, pc: Pc, stop: bool): State {
    State(map[], [], [Worker(pc, None, false)], 0, map[], map[0 := Timer(Plain(0), false, live)], map[], stop)
  }

  const HAND := [Entry(Fun(Plain(0)), ANY)]

  lemma TimerSet()
    ensures Next(START, Does(Outside, SetTimer(0, Plain(0), false)), Timed1(true, Between, false))
  {
    assert Wakeable(START, Fun(Plain(0)));
  }

  lemma StopAndIdle()
    ensures Next(Timed1(true, Between, false), Does(Outside, Stop), Timed1(true, Between, true))
    ensures Next(Timed1(true, Between, true), Loops(0, EnterIdle), Timed1(true, Idle, true))
  {
  }

  lemma SweptInHand()
    ensures Next(Timed1(true, Idle, true), Loops(0, Sweep([0])), Timed1(false, Holding(HAND), true))
  {
    var s := Timed1(true, Idle, true);
    assert Expire(s.timers, [0]) == map[0 := Timer(Plain(0), false, false)];
    assert Codes(s.timers, [0]) == HAND;
  }

  lemma HandLeaks()
    ensures Stopping(Timed1(false, Holding(HAND), true)) && LeaksAt(Timed1(false, Holding(HAND), true), 0)
  {
  }

  /** One timer, one worker: the idle fiber takes the expired timer out of the set, and holds its callback. Then
      stopping holds although the worker is about to queue the callback. */
  lemma HandLeakReached()
    ensures exists states: seq<State>, steps: seq<Step>, w: Wid ::
              && Run(states, steps) && Stopping(states[|steps|]) && LeaksAt(states[|steps|], w)
              && states[|steps|].workers[w].pc.Holding?
  {
    TimerSet();
    StopAndIdle();
    SweptInHand();
    HandLeaks();
    var states := [START, Timed1(true, Between, false), Timed1(true, Between, true), Timed1(true, Idle, true),
                   Timed1(false, Holding(HAND), true)];
    var steps := [Does(Outside, SetTimer(0, Plain(0), false)), Does(Outside, Stop), Loops(0, EnterIdle),
                  Loops(0, Sweep([0]))];
    assert Init(START);
    assert Run(states, steps);
    assert states[|steps|] == Timed1(false, Holding(HAND), true);
    assert LeaksAt(states[|steps|], 0);
  }
}
