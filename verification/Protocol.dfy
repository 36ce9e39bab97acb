/** The scheduler, its worker threads, the fibers, the event table, the timers and the hooked calls, as one
    machine of atomic steps. */
module Protocol {
  import opened Basics
  import opened Jobs
  import EventSpec

  type Key = EventSpec.Key

  type Fid = nat
  type Wid = nat
  type Tid = nat
  type Cid = nat

  /** What a fiber's code is about to do: anything; schedule a fiber it was asked to wake; look at the condition
      of a timeout; cancel the event of a call that timed out; go on with a hooked call. */
  datatype Body = Free | Waking(g: Fid) | Timing(c: Cid) | Cancelling(c: Cid) | InCall(c: Cid)

  datatype Fiber = Fiber(state: FiberState, body: Body)

  /** Where a worker thread is in its run loop. `cb` tells that the fiber was made for a function. */
  datatype Pc =
    | Between
    | Picked(job: Job)                   // counted as active
    | Running(f: Fid, cb: bool)          // the fiber is swapped in; counted as active
    | Out(f: Fid, cb: bool)              // the fiber swapped out; still counted
    | Uncounted(f: Fid, cb: bool)          // no longer counted, the fiber not yet requeued or put on hold
    | Idle                               // in the idle fiber
    | Holding(hand: seq<Entry>)          // there, with expired callbacks not yet scheduled
    | Gone

  /** `cached` is the fiber kept for the next function; `idleOver` tells that the idle fiber has terminated. */
  datatype Worker = Worker(pc: Pc, cached: Option<Fid>, idleOver: bool)

  /** A registration: what to run, and the hooked call that made it, if one did. */
  datatype Wakeup = Wakeup(job: Job, call: Option<Cid>)

  datatype Timer = Timer(code: Code, recurring: bool, live: bool)

  datatype CallPc = Trying | Timed | Rejected | Armed | Parked | Woken | Returned

  /** A hooked call: its fiber and event, whether it has a timeout, the condition shared with its timeout
      callbacks, and the timer of its latest round. */
  datatype Call = Call(f: Fid, key: Key, timeout: bool, pc: CallPc, cancelled: bool, timer: Option<Tid>)

  datatype State = State(
    fibers: map<Fid, Fiber>,
    queue: seq<Entry>,
    workers: seq<Worker>,
    active: int,
    armed: map<Key, Wakeup>,
    timers: map<Tid, Timer>,
    calls: map<Cid, Call>,
    stop: bool)

  // ---------- tokens: what will make a fiber run again ----------

  function Target(job: Job): Option<Fid> {
    match job
    case Fib(f) => Some(f)
    case Fun(Wake(f)) => Some(f)
    case Fun(_) => None
  }

  ghost predicate Has(q: seq<Entry>, f: Fid) {
    exists i :: 0 <= i < |q| && Target(q[i].job) == Some(f)
  }

  /** No fiber is the target of two entries. */
  ghost predicate Distinct(q: seq<Entry>) {
    forall i, j | 0 <= i < j < |q| :: Target(q[i].job).Some? ==> Target(q[i].job) != Target(q[j].job)
  }

  datatype Pos =
    | Queued
    | AtPicked(w: Wid)
    | AtArmed(k: Key)
    | AtTimer(t: Tid)
    | AtHand(w: Wid)
    | AtBody(g: Fid)
    | AtBack(w: Wid)     // swapped out, about to be requeued or to be kept for the next function
    | AtCache(w: Wid)

  predicate Ended(st: FiberState) {
    st == TERM || st == EXCEPT
  }

  ghost predicate Back(s: State, w: Wid, f: Fid) {
    && w < |s.workers| && (s.workers[w].pc.Out? || s.workers[w].pc.Uncounted?) && s.workers[w].pc.f == f
    && f in s.fibers && (s.fibers[f].state == READY || (s.workers[w].pc.cb && Ended(s.fibers[f].state)))
  }

  /** There is a token for `f` at `p`. */
  ghost predicate TokenAt(s: State, p: Pos, f: Fid) {
    match p
    case Queued => Has(s.queue, f)
    case AtPicked(w) => w < |s.workers| && s.workers[w].pc.Picked? && Target(s.workers[w].pc.job) == Some(f)
    case AtArmed(k) => k in s.armed && Target(s.armed[k].job) == Some(f)
    case AtTimer(t) => t in s.timers && s.timers[t].live && Target(Fun(s.timers[t].code)) == Some(f)
    case AtHand(w) => w < |s.workers| && s.workers[w].pc.Holding? && Has(s.workers[w].pc.hand, f)
    case AtBody(g) => g in s.fibers && s.fibers[g].body == Waking(f)
    case AtBack(w) => Back(s, w, f)
    case AtCache(w) => w < |s.workers| && s.workers[w].cached == Some(f)
  }

  ghost predicate NoToken(s: State, f: Fid) {
    forall p: Pos :: !TokenAt(s, p, f)
  }

  /** Single-wake registration: a wake-up of a fiber is set up only when the fiber has none. */
  ghost predicate Wakeable(s: State, job: Job) {
    match Target(job)
    case None => true
    case Some(f) => f in s.fibers && NoToken(s, f)
  }

  // ---------- steps ----------

  /** Who acts: a thread outside the scheduler, or the fiber running on a worker. */
  datatype Actor = Outside | By(w: Wid)

  /** What a running fiber, or a thread outside, does to the scheduler. */
  datatype Action =
    | Create(f: Fid)
    | Schedule(job: Job, thread: int)
    | Arm(k: Key, job: Job)
    | Disarm(k: Key)
    | Trigger(k: Key)
    | SetTimer(t: Tid, code: Code, recurring: bool)
    | CancelTimer(t: Tid)
    | Stop

  /** How the running fiber of a worker goes on by itself. */
  datatype Own =
    | Yield(ready: bool)
    | Finish(except: bool)
    | WakeUp
    | CheckTimeout
    | CancelTimedOut(refused: bool)

  /** The run loop and the idle fiber of a worker. */
  datatype Loop =
    | Pick(i: nat)
    | SwapIn
    | Discard
    | StartFun(f: Fid)
    | Decrement
    | Settle
    | EnterIdle
    | Sweep(ts: seq<Tid>)
    | Flush
    | Dispatch(k: Key)
    | LeaveIdle
    | Quit

  /** A hooked call of the running fiber. */
  datatype Hook =
    | Begin(c: Cid, k: Key, timeout: bool)
    | Succeed
    | AskTimer(t: Tid)
    | ArmCall(ok: bool)
    | GiveUp
    | Park
    | Resume
    | Decide

  datatype Step =
    | Does(a: Actor, act: Action)
    | Runs(w: Wid, own: Own)
    | Loops(w: Wid, loop: Loop)
    | Hooked(w: Wid, hook: Hook)

  ghost predicate RunsNow(s: State, w: Wid) {
    w < |s.workers| && s.workers[w].pc.Running? && s.workers[w].pc.f in s.fibers
  }

  ghost function Fiber0(s: State, w: Wid): Fid
    requires RunsNow(s, w)
  {
    s.workers[w].pc.f
  }

  ghost function BodyOf(s: State, w: Wid): Body
    requires RunsNow(s, w)
  {
    s.fibers[s.workers[w].pc.f].body
  }

  ghost predicate CanAct(s: State, a: Actor) {
    a.By? ==> RunsNow(s, a.w) && BodyOf(s, a.w) == Free
  }

  /** The running fiber of `w` is in a call that is at `pc`. */
  ghost predicate Calls(s: State, w: Wid, pc: CallPc) {
    && RunsNow(s, w) && BodyOf(s, w).InCall?
    && BodyOf(s, w).c in s.calls && s.calls[BodyOf(s, w).c].pc == pc
    && s.calls[BodyOf(s, w).c].f == Fiber0(s, w)
  }

  ghost predicate Eligible(s: State, w: Wid, e: Entry) {
    && (e.thread == ANY || e.thread == w)
    && (e.job.Fib? && e.job.f in s.fibers ==> s.fibers[e.job.f].state != EXEC)
  }

  ghost predicate Stopping(s: State) {
    s.stop && (forall t | t in s.timers :: !s.timers[t].live) && s.armed == map[] && s.queue == [] && s.active == 0
  }

  ghost predicate At(s: State, w: Wid, pc: Pc) {
    w < |s.workers| && s.workers[w].pc == pc
  }

  function SetPc(s: State, w: Wid, pc: Pc): State
    requires w < |s.workers|
  {
    s.(workers := s.workers[w := s.workers[w].(pc := pc)])
  }

  function SetState(s: State, f: Fid, st: FiberState): State
    requires f in s.fibers
  {
    s.(fibers := s.fibers[f := s.fibers[f].(state := st)])
  }

  function SetBody(s: State, f: Fid, b: Body): State
    requires f in s.fibers
  {
    s.(fibers := s.fibers[f := s.fibers[f].(body := b)])
  }

  function SetCall(s: State, c: Cid, pc: CallPc): State
    requires c in s.calls
  {
    s.(calls := s.calls[c := s.calls[c].(pc := pc)])
  }

  function Append(s: State, job: Job, thread: int): State {
    s.(queue := s.queue + [Entry(job, thread)])
  }

  function Kill(s: State, t: Option<Tid>): State {
    if t.Some? && t.value in s.timers then s.(timers := s.timers[t.value := s.timers[t.value].(live := false)]) else s
  }

  function Fire(s: State, k: Key): State
    requires k in s.armed
  {
    Append(s.(armed := s.armed - {k}), s.armed[k].job, ANY)
  }

  function Without<T>(q: seq<T>, i: nat): seq<T>
    requires i < |q|
  {
    q[..i] + q[i + 1..]
  }

  /** The fiber a worker runs next for a function: the cached one, else a new one. */
  ghost predicate FunFiber(s: State, w: Wid, f: Fid)
    requires w < |s.workers|
  {
    if s.workers[w].cached.Some? then f == s.workers[w].cached.value && f in s.fibers else f !in s.fibers
  }

  function BodyFor(code: Code): Body {
    match code
    case Plain(_) => Free
    case Wake(g) => Waking(g)
    case Timeout(c) => Timing(c)
  }

  function Expire(timers: map<Tid, Timer>, ts: seq<Tid>): map<Tid, Timer> {
    map t | t in timers :: if t in ts && !timers[t].recurring then timers[t].(live := false) else timers[t]
  }

  function Codes(timers: map<Tid, Timer>, ts: seq<Tid>): (hand: seq<Entry>)
    requires forall t | t in ts :: t in timers
    ensures |hand| == |ts| && forall i | 0 <= i < |ts| :: hand[i] == Entry(Fun(timers[ts[i]].code), ANY)
  {
    seq(|ts|, i requires 0 <= i < |ts| => Entry(Fun(timers[ts[i]].code), ANY))
  }

  ghost predicate CanDo(s: State, a: Actor, act: Action) {
    CanAct(s, a) &&
    match act
    case Create(f) => f !in s.fibers
    case Schedule(job, thread) => Wakeable(s, job)
    case Arm(k, job) => k !in s.armed && Wakeable(s, job) && (job.Fib? ==> a.By? && job.f == Fiber0(s, a.w))
    case Disarm(k) => k in s.armed
    case Trigger(k) => k in s.armed
    case SetTimer(t, code, recurring) =>
      t !in s.timers && Wakeable(s, Fun(code)) && !code.Timeout? && (recurring ==> code.Plain?)
    case CancelTimer(t) => t in s.timers && !s.timers[t].code.Timeout?
    case Stop => true
  }

  ghost predicate CanRun(s: State, w: Wid, own: Own) {
    RunsNow(s, w) &&
    match own
    case Yield(ready) => BodyOf(s, w).Free? && (ready ==> NoToken(s, Fiber0(s, w)))
    case Finish(_) => BodyOf(s, w).Free? && (s.workers[w].pc.cb ==> NoToken(s, Fiber0(s, w)))
    case WakeUp => BodyOf(s, w).Waking?
    case CheckTimeout => BodyOf(s, w).Timing?
    case CancelTimedOut(_) => BodyOf(s, w).Cancelling? && BodyOf(s, w).c in s.calls
  }

  ghost predicate CanLoop(s: State, w: Wid, loop: Loop) {
    w < |s.workers| && var pc := s.workers[w].pc;
    match loop
    case Pick(i) =>
      && pc.Between? && i < |s.queue| && Eligible(s, w, s.queue[i])
      && forall j | 0 <= j < i :: !Eligible(s, w, s.queue[j])
    case SwapIn => pc.Picked? && pc.job.Fib? && pc.job.f in s.fibers && !Ended(s.fibers[pc.job.f].state)
    case Discard => pc.Picked? && pc.job.Fib? && pc.job.f in s.fibers && Ended(s.fibers[pc.job.f].state)
    case StartFun(f) => pc.Picked? && pc.job.Fun? && FunFiber(s, w, f)
    case Decrement => pc.Out?
    case Settle => pc.Uncounted? && pc.f in s.fibers
    case EnterIdle =>
      pc.Between? && !s.workers[w].idleOver && forall i | 0 <= i < |s.queue| :: !Eligible(s, w, s.queue[i])
    case Sweep(ts) =>
      && pc.Idle? && (forall t | t in ts :: t in s.timers && s.timers[t].live)
      && forall i, j | 0 <= i < j < |ts| :: ts[i] != ts[j]
    case Flush => pc.Holding?
    case Dispatch(k) => pc.Idle? && k in s.armed
    case LeaveIdle => pc.Idle?
    case Quit => pc.Between? && s.workers[w].idleOver && forall i | 0 <= i < |s.queue| :: !Eligible(s, w, s.queue[i])
  }

  ghost predicate CanHook(s: State, w: Wid, hook: Hook) {
    RunsNow(s, w) &&
    match hook
    case Begin(c, k, _) => BodyOf(s, w).Free? && c !in s.calls
    case Succeed => Calls(s, w, Trying)
    case AskTimer(t) => Calls(s, w, Trying) && t !in s.timers
    case ArmCall(ok) =>
      Calls(s, w, Timed) && (ok ==> s.calls[BodyOf(s, w).c].key !in s.armed && NoToken(s, Fiber0(s, w)))
    case GiveUp => Calls(s, w, Rejected)
    case Park => Calls(s, w, Armed)
    case Resume => Calls(s, w, Parked)
    case Decide => Calls(s, w, Woken)
  }

  /** When a step is possible. */
  ghost predicate Enabled(s: State, step: Step) {
    match step
    case Does(a, act) => CanDo(s, a, act)
    case Runs(w, own) => CanRun(s, w, own)
    case Loops(w, loop) => CanLoop(s, w, loop)
    case Hooked(w, hook) => CanHook(s, w, hook)
  }

  /** After the fiber swapped out and the count dropped: a READY fiber is queued again; one that ended is kept
      for the next function when it was made for one; any other is put on hold. */
  function Settled(s: State, w: Wid): State
    requires w < |s.workers| && s.workers[w].pc.Uncounted? && s.workers[w].pc.f in s.fibers
  {
    var (f, cb) := (s.workers[w].pc.f, s.workers[w].pc.cb);
    var s' := SetPc(s, w, Between);
    if s.fibers[f].state == READY then
      Append(s', Fib(f), ANY)
    else if Ended(s.fibers[f].state) then
      if cb then SetState(s'.(workers := s'.workers[w := s'.workers[w].(cached := Some(f))]), f, INIT) else s'
    else
      SetState(s', f, HOLD)
  }

  ghost function Do(s: State, a: Actor, act: Action): State
    requires CanDo(s, a, act)
  {
    match act
    case Create(f) => s.(fibers := s.fibers[f := Fiber(INIT, Free)])
    case Schedule(job, thread) => Append(s, job, thread)
    case Arm(k, job) => s.(armed := s.armed[k := Wakeup(job, None)])
    case Disarm(k) => s.(armed := s.armed - {k})
    case Trigger(k) => Fire(s, k)
    case SetTimer(t, code, recurring) => s.(timers := s.timers[t := Timer(code, recurring, true)])
    case CancelTimer(t) => Kill(s, Some(t))
    case Stop => s.(stop := true)
  }

  ghost function RunOn(s: State, w: Wid, own: Own): State
    requires CanRun(s, w, own)
  {
    var f, cb := Fiber0(s, w), s.workers[w].pc.cb;
    match own
    case Yield(ready) => SetPc(if ready then SetState(s, f, READY) else s, w, Out(f, cb))
    case Finish(except) => SetPc(SetState(s, f, if except then EXCEPT else TERM), w, Out(f, cb))
    case WakeUp => Append(SetBody(s, f, Free), Fib(BodyOf(s, w).g), ANY)
    case CheckTimeout =>
      var c := BodyOf(s, w).c;
      if c in s.calls && s.calls[c].pc != Returned && !s.calls[c].cancelled then
        SetBody(s, f, Cancelling(c)).(calls := s.calls[c := s.calls[c].(cancelled := true)])
      else
        SetBody(s, f, Free)
    case CancelTimedOut(refused) =>
      var k := s.calls[BodyOf(s, w).c].key;
      if k in s.armed && !refused then Fire(SetBody(s, f, Free), k) else SetBody(s, f, Free)
  }

  ghost function LoopOn(s: State, w: Wid, loop: Loop): State
    requires CanLoop(s, w, loop)
  {
    var pc := s.workers[w].pc;
    match loop
    case Pick(i) => SetPc(s.(queue := Without(s.queue, i), active := s.active + 1), w, Picked(s.queue[i].job))
    case SwapIn => SetPc(SetState(s, pc.job.f, EXEC), w, Running(pc.job.f, false))
    case Discard => SetPc(s.(active := s.active - 1), w, Between)
    case StartFun(f) =>
      s.(fibers := s.fibers[f := Fiber(EXEC, BodyFor(pc.job.code))],
         workers := s.workers[w := Worker(Running(f, true), None, s.workers[w].idleOver)])
    case Decrement => SetPc(s.(active := s.active - 1), w, Uncounted(pc.f, pc.cb))
    case Settle => Settled(s, w)
    case EnterIdle => SetPc(s, w, Idle)
    case Sweep(ts) => SetPc(s.(timers := Expire(s.timers, ts)), w, Holding(Codes(s.timers, ts)))
    case Flush => SetPc(s.(queue := s.queue + pc.hand), w, Idle)
    case Dispatch(k) => Fire(s, k)
    case LeaveIdle =>
      s.(workers := s.workers[w := Worker(Between, s.workers[w].cached, s.workers[w].idleOver || Stopping(s))])
    case Quit => SetPc(s, w, Gone)
  }

  ghost function HookOn(s: State, w: Wid, hook: Hook): State
    requires CanHook(s, w, hook)
  {
    var f := Fiber0(s, w);
    match hook
    case Begin(c, k, timeout) =>
      SetBody(s, f, InCall(c)).(calls := s.calls[c := Call(f, k, timeout, Trying, false, None)])
    case Succeed => SetBody(SetCall(s, BodyOf(s, w).c, Returned), f, Free)
    case AskTimer(t) =>
      var c := BodyOf(s, w).c;
      if s.calls[c].timeout then
        s.(timers := s.timers[t := Timer(Timeout(c), false, true)],
           calls := s.calls[c := s.calls[c].(pc := Timed, timer := Some(t))])
      else
        s.(calls := s.calls[c := s.calls[c].(pc := Timed, timer := None)])
    case ArmCall(ok) =>
      var c := BodyOf(s, w).c;
      if ok then SetCall(s.(armed := s.armed[s.calls[c].key := Wakeup(Fib(f), Some(c))]), c, Armed)
      else SetCall(s, c, Rejected)
    case GiveUp =>
      var c := BodyOf(s, w).c;
      SetBody(SetCall(Kill(s, s.calls[c].timer), c, Returned), f, Free)
    case Park => SetPc(SetCall(s, BodyOf(s, w).c, Parked), w, Out(f, s.workers[w].pc.cb))
    case Resume =>
      var c := BodyOf(s, w).c;
      SetCall(Kill(s, s.calls[c].timer), c, Woken)
    case Decide =>
      var c := BodyOf(s, w).c;
      if s.calls[c].cancelled then SetBody(SetCall(s, c, Returned), f, Free) else SetCall(s, c, Trying)
  }

  /** What a step does. */
  ghost function Apply(s: State, step: Step): State
    requires Enabled(s, step)
  {
    match step
    case Does(a, act) => Do(s, a, act)
    case Runs(w, own) => RunOn(s, w, own)
    case Loops(w, loop) => LoopOn(s, w, loop)
    case Hooked(w, hook) => HookOn(s, w, hook)
  }

  /** No fiber, no task, all workers at the top of their loop. */
  ghost predicate Init(s: State) {
    && s.fibers == map[] && s.queue == [] && s.active == 0 && s.armed == map[] && s.timers == map[] && s.calls == map[]
    && forall w | 0 <= w < |s.workers| :: s.workers[w] == Worker(Between, None, false)
  }

  ghost predicate Next(s: State, step: Step, s': State) {
    Enabled(s, step) && s' == Apply(s, step)
  }

  ghost predicate Run(states: seq<State>, steps: seq<Step>) {
    && |states| == |steps| + 1 && Init(states[0])
    && forall n | 0 <= n < |steps| :: Next(states[n], steps[n], states[n + 1])
  }
}
