/** Wake-ups are conserved: once set up, one is never lost before its fiber runs, unless it is deleted. */
module ProtocolWakes {
  import opened Basics
  import opened Jobs
  import opened Protocol
  import opened ProtocolTokens

  /** A worker running a fiber that was made for a function keeps no other for the next. */
  ghost predicate CacheFree(s: State) {
    forall w | 0 <= w < |s.workers| :: MadeFor(s.workers[w].pc) ==> s.workers[w].cached.None?
  }

  predicate MadeFor(pc: Pc) {
    (pc.Running? || pc.Out? || pc.Uncounted?) && pc.cb
  }

  /** The timer of a call runs its timeout; only calls with a timeout have one. */
  ghost predicate CallTimers(s: State) {
    forall c | c in s.calls && s.calls[c].timer.Some? :: CallTimer(s, c)
  }

  ghost predicate CallTimer(s: State, c: Cid)
    requires c in s.calls && s.calls[c].timer.Some?
  {
    var t := s.calls[c].timer.value;
    s.calls[c].timeout && t in s.timers && s.timers[t].code == Timeout(c) && !s.timers[t].recurring
  }

  /** The step uses up the wake-up at `p`: its fiber starts to run or has ended, or the wake-up is deleted. */
  predicate Spends(step: Step, p: Pos) {
    match step
    case Loops(w, SwapIn) => p == AtPicked(w)
    case Loops(w, Discard) => p == AtPicked(w)
    case Loops(w, StartFun(_)) => p == AtCache(w)
    case Does(_, Disarm(k)) => p == AtArmed(k)
    case Does(_, CancelTimer(t)) => p == AtTimer(t)
    case _ => false
  }

  // ---------- what every step keeps ----------

  lemma LoopCacheFree(s: State, w: Wid, loop: Loop)
    requires CacheFree(s) && CanLoop(s, w, loop)
    ensures CacheFree(LoopOn(s, w, loop))
  {
    match loop
    case Settle => SettledIs(s, w);
    case _ =>
  }

  lemma StepCacheFree(s: State, step: Step)
    requires CacheFree(s) && Enabled(s, step)
    ensures CacheFree(Apply(s, step))
  {
    match step
    case Loops(w, loop) => LoopCacheFree(s, w, loop);
    case Runs(w, own) => RunWorkers(s, w, own);
    case Hooked(w, hook) => HookWorkers(s, w, hook);
    case _ =>
  }

  /** The running fiber moves no worker but to swap out. */
  lemma RunWorkers(s: State, w: Wid, own: Own)
    requires CanRun(s, w, own)
    ensures var s' := RunOn(s, w, own);
            s'.workers == s.workers || s'.workers == SetPc(s, w, Out(Fiber0(s, w), s.workers[w].pc.cb)).workers
  {
  }

  /** A call moves no worker but to swap its fiber out. */
  lemma HookWorkers(s: State, w: Wid, hook: Hook)
    requires CanHook(s, w, hook)
    ensures var s' := HookOn(s, w, hook);
            s'.workers == s.workers || s'.workers == SetPc(s, w, Out(Fiber0(s, w), s.workers[w].pc.cb)).workers
  {
  }

  /** Timers are never forgotten, what one runs never changes, and calls keep the timers they have. */
  ghost predicate TimersKept(s: State, s': State) {
    && (forall t | t in s.timers ::
          && t in s'.timers && s'.timers[t].code == s.timers[t].code
          && s'.timers[t].recurring == s.timers[t].recurring)
    && (forall c | c in s'.calls && s'.calls[c].timer.Some? ::
          c in s.calls && s'.calls[c].timeout == s.calls[c].timeout && s'.calls[c].timer == s.calls[c].timer)
  }

  lemma KeptTimers(s: State, s': State)
    requires CallTimers(s) && TimersKept(s, s')
    ensures CallTimers(s')
  {
    forall c | c in s'.calls && s'.calls[c].timer.Some? ensures CallTimer(s', c) {
      assert CallTimer(s, c);
    }
  }

  lemma DoTimers(s: State, a: Actor, act: Action)
    requires CanDo(s, a, act)
    ensures TimersKept(s, Do(s, a, act))
  {
  }

  lemma LoopTimers(s: State, w: Wid, loop: Loop)
    requires CanLoop(s, w, loop)
    ensures TimersKept(s, LoopOn(s, w, loop))
  {
  }

  lemma AskCallTimers(s: State, w: Wid, t: Tid)
    requires CallTimers(s) && CanHook(s, w, AskTimer(t))
    ensures CallTimers(HookOn(s, w, AskTimer(t)))
  {
    var s' := HookOn(s, w, AskTimer(t));
    forall c | c in s'.calls && s'.calls[c].timer.Some? ensures CallTimer(s', c) {
      assert c != BodyOf(s, w).c ==> CallTimer(s, c);
    }
  }

  lemma HookCallTimers(s: State, w: Wid, hook: Hook)
    requires CallTimers(s) && CanHook(s, w, hook)
    ensures CallTimers(HookOn(s, w, hook))
  {
    match hook
    case AskTimer(t) => AskCallTimers(s, w, t);
    case GiveUp => KillCallTimers(s, w, GiveUp);
    case Resume => KillCallTimers(s, w, Resume);
    case _ => KeptTimers(s, HookOn(s, w, hook));
  }

  lemma KillCallTimers(s: State, w: Wid, hook: Hook)
    requires CallTimers(s) && CanHook(s, w, hook) && (hook == GiveUp || hook == Resume)
    ensures CallTimers(HookOn(s, w, hook))
  {
    KeptTimers(s, HookOn(s, w, hook));
  }

  lemma StepCallTimers(s: State, step: Step)
    requires CallTimers(s) && Enabled(s, step)
    ensures CallTimers(Apply(s, step))
  {
    match step
    case Does(a, act) => DoTimers(s, a, act); KeptTimers(s, Apply(s, step));
    case Runs(w, own) => KeptTimers(s, Apply(s, step));
    case Loops(w, loop) => LoopTimers(s, w, loop); KeptTimers(s, Apply(s, step));
    case Hooked(w, hook) => HookCallTimers(s, w, hook);
  }

  // ---------- no step loses a wake-up ----------

  lemma HasWithout(q: seq<Entry>, i: nat, f: Fid)
    requires i < |q| && Has(q, f) && Target(q[i].job) != Some(f)
    ensures Has(Without(q, i), f)
  {
    var k :| 0 <= k < |q| && Target(q[k].job) == Some(f);
    assert Without(q, i)[if k < i then k else k - 1] == q[k];
  }

  /** A wake-up in the queue, once it is there or when more is queued behind it. */
  lemma InQueue(s': State, q: seq<Entry>, r: seq<Entry>, f: Fid)
    requires s'.queue == q + r && (Has(q, f) || Has(r, f))
    ensures TokenAt(s', Queued, f)
  {
    HasAppend(q, r, f);
  }

  lemma FiredKept(s: State, k: Key, p: Pos, f: Fid)
    requires k in s.armed && TokenAt(s, p, f)
    ensures TokenAt(Fire(s, k), if p == AtArmed(k) then Queued else p, f)
  {
    var s', r := Fire(s, k), [Entry(s.armed[k].job, ANY)];
    match p
    case Queued => InQueue(s', s.queue, r, f);
    case AtArmed(j) =>
      if j == k {
        assert r[0].job == s.armed[k].job;
        InQueue(s', s.queue, r, f);
      }
    case AtBack(_) =>
    case _ =>
  }

  lemma DoKeeps(s: State, a: Actor, act: Action, p: Pos, f: Fid)
    requires Single(s) && CanDo(s, a, act) && TokenAt(s, p, f) && !Spends(Does(a, act), p)
    ensures !NoToken(Do(s, a, act), f)
  {
    var s' := Do(s, a, act);
    match act
    case Schedule(job, thread) =>
      if p == Queued {
        InQueue(s', s.queue, [Entry(job, thread)], f);
      } else {
        OthersSame(s, s', p, f);
      }
    case Trigger(k) => FiredKept(s, k, p, f);
    case _ => assert TokenAt(s', p, f);
  }

  lemma RunKeeps(s: State, w: Wid, own: Own, p: Pos, f: Fid)
    requires Single(s) && Owned(s) && CanRun(s, w, own) && TokenAt(s, p, f)
    ensures !NoToken(RunOn(s, w, own), f)
  {
    var g, s' := Fiber0(s, w), RunOn(s, w, own);
    assert Has1(s, w, g);
    match own
    case WakeUp =>
      if p == AtBody(g) {
        var r := [Entry(Fib(f), ANY)];
        assert r[0].job == Fib(f);
        InQueue(s', s.queue, r, f);
      } else if p == Queued {
        InQueue(s', s.queue, [Entry(Fib(BodyOf(s, w).g), ANY)], f);
      } else {
        BackBodies(s, SetBody(s, g, Free), p, f, g);
        OthersSame(SetBody(s, g, Free), s', p, f);
      }
    case CancelTimedOut(_) =>
      BackBodies(s, SetBody(s, g, Free), p, f, g);
      var k := s.calls[BodyOf(s, w).c].key;
      if k in s.armed {
        FiredKept(SetBody(s, g, Free), k, p, f);
      }
    case CheckTimeout =>
      BackBodies(s, s', p, f, g);
    case _ =>
      OutKept(s, s', w, p, f);
  }

  /** Only the body of one fiber changes, which is not about to wake anyone. */
  lemma BackBodies(s: State, s': State, p: Pos, f: Fid, g: Fid)
    requires g in s.fibers && TokenAt(s, p, f) && p != AtBody(g) && g in s'.fibers
    requires s' == s.(fibers := s.fibers[g := s.fibers[g].(body := s'.fibers[g].body)], calls := s'.calls)
    ensures TokenAt(s', p, f)
  {
    match p
    case AtBody(_) =>
    case AtBack(_) =>
    case _ =>
  }

  /** The running fiber swaps out. */
  lemma OutKept(s: State, s': State, w: Wid, p: Pos, f: Fid)
    requires Owned(s) && RunsNow(s, w) && TokenAt(s, p, f) && !BodyOf(s, w).Waking?
    requires var g := Fiber0(s, w);
             && g in s'.fibers && s'.fibers[g].body == s.fibers[g].body
             && s' == s.(fibers := s.fibers[g := s'.fibers[g]],
                         workers := s.workers[w := s.workers[w].(pc := Out(g, s.workers[w].pc.cb))], calls := s'.calls)
    ensures TokenAt(s', p, f)
  {
    assert Has1(s, w, Fiber0(s, w));
    match p
    case AtBack(v) => assert Has1(s, v, f);
    case AtBody(_) =>
    case AtPicked(_) =>
    case AtHand(_) =>
    case AtCache(_) =>
    case _ =>
  }

  lemma PickKeeps(s: State, w: Wid, i: nat, p: Pos, f: Fid)
    requires Single(s) && CanLoop(s, w, Pick(i)) && TokenAt(s, p, f)
    ensures !NoToken(LoopOn(s, w, Pick(i)), f)
  {
    var s' := LoopOn(s, w, Pick(i));
    if p == Queued {
      if Target(s.queue[i].job) == Some(f) {
        assert TokenAt(s', AtPicked(w), f);
      } else {
        HasWithout(s.queue, i, f);
        assert TokenAt(s', Queued, f);
      }
    } else {
      ElseWhere(s, s', w, p, f);
    }
  }

  /** A token that is not in the queue, with a timer, or at a worker is where it was. */
  lemma ElseWhere(s: State, s': State, w: Wid, p: Pos, f: Fid)
    requires TokenAt(s, p, f) && w < |s.workers| && |s'.workers| == |s.workers|
    requires s'.fibers == s.fibers && s'.armed == s.armed
    requires forall v | 0 <= v < |s.workers| && v != w :: s'.workers[v] == s.workers[v]
    requires s'.workers[w].cached == s.workers[w].cached
    requires p != Queued && p != AtPicked(w) && p != AtHand(w) && p != AtBack(w)
    requires p.AtTimer? ==> s'.timers == s.timers
    ensures TokenAt(s', p, f)
  {
    match p
    case AtPicked(_) =>
    case AtHand(_) =>
    case AtBack(_) =>
    case AtCache(_) =>
    case _ =>
  }

  lemma SettleKeeps(s: State, w: Wid, p: Pos, f: Fid)
    requires Single(s) && Owned(s) && CacheFree(s) && CanLoop(s, w, Settle) && TokenAt(s, p, f)
    ensures !NoToken(LoopOn(s, w, Settle), f)
  {
    var g, s' := s.workers[w].pc.f, LoopOn(s, w, Settle);
    assert Has1(s, w, g);
    SettledIs(s, w);
    if p == AtBack(w) {
      if s.fibers[g].state == READY {
        var r := [Entry(Fib(g), ANY)];
        assert r[0].job == Fib(g);
        InQueue(s', s.queue, r, f);
      } else {
        assert TokenAt(s', AtCache(w), f);
      }
    } else if p == Queued {
      InQueue(s', s.queue, s'.queue[|s.queue|..], f);
    } else {
      SettleElse(s, w, p, f);
    }
  }

  lemma SettleElse(s: State, w: Wid, p: Pos, f: Fid)
    requires Owned(s) && CacheFree(s) && CanLoop(s, w, Settle) && TokenAt(s, p, f) && p != AtBack(w) && p != Queued
    ensures TokenAt(LoopOn(s, w, Settle), p, f)
  {
    assert Has1(s, w, s.workers[w].pc.f);
    SettledIs(s, w);
    match p
    case AtBack(v) => assert Has1(s, v, f);
    case AtBody(_) =>
    case AtPicked(_) =>
    case AtHand(_) =>
    case AtCache(_) =>
    case _ =>
  }

  lemma SweepKeeps(s: State, w: Wid, ts: seq<Tid>, p: Pos, f: Fid)
    requires Single(s) && CanLoop(s, w, Sweep(ts)) && TokenAt(s, p, f)
    ensures !NoToken(LoopOn(s, w, Sweep(ts)), f)
  {
    var s', hand := LoopOn(s, w, Sweep(ts)), Codes(s.timers, ts);
    match p
    case AtTimer(t) =>
      if t in ts {
        var i :| 0 <= i < |ts| && ts[i] == t;
        assert hand[i].job == Fun(s.timers[t].code);
        assert TokenAt(s', AtHand(w), f);
      } else {
        assert TokenAt(s', p, f);
      }
    case Queued => assert TokenAt(s', p, f);
    case _ => ElseWhere(s, s', w, p, f);
  }

  lemma FlushKeeps(s: State, w: Wid, p: Pos, f: Fid)
    requires Single(s) && CanLoop(s, w, Flush) && TokenAt(s, p, f)
    ensures !NoToken(LoopOn(s, w, Flush), f)
  {
    var s' := LoopOn(s, w, Flush);
    if p == Queued || p == AtHand(w) {
      InQueue(s', s.queue, s.workers[w].pc.hand, f);
    } else {
      ElseWhere(s, s', w, p, f);
    }
  }

  /** A function starts: its wake-up goes into the body of the fiber that runs it. */
  lemma StartFunKeeps(s: State, w: Wid, g: Fid, p: Pos, f: Fid)
    requires Single(s) && Owned(s) && CanLoop(s, w, StartFun(g)) && TokenAt(s, p, f) && p != AtCache(w)
    requires g in s.fibers ==> s.fibers[g].body == Free
    ensures !NoToken(LoopOn(s, w, StartFun(g)), f)
  {
    var s' := LoopOn(s, w, StartFun(g));
    match p
    case AtPicked(v) =>
      if v == w {
        assert TokenAt(s', AtBody(g), f);
      } else {
        assert TokenAt(s', p, f);
      }
    case AtBody(_) => assert TokenAt(s', p, f);
    case AtBack(v) =>
      assert Has1(s, v, f);
      assert TokenAt(s', p, f);
    case AtHand(_) => assert TokenAt(s', p, f);
    case AtCache(_) => assert TokenAt(s', p, f);
    case _ => assert TokenAt(s', p, f);
  }

  lemma SwapInKeeps(s: State, w: Wid, p: Pos, f: Fid)
    requires Single(s) && Owned(s) && CanLoop(s, w, SwapIn) && TokenAt(s, p, f) && p != AtPicked(w)
    ensures TokenAt(LoopOn(s, w, SwapIn), p, f)
  {
    assert TokenAt(s, AtPicked(w), s.workers[w].pc.job.f);
    match p
    case AtBack(_) =>
    case AtBody(_) =>
    case AtPicked(_) =>
    case AtHand(_) =>
    case AtCache(_) =>
    case _ =>
  }

  lemma DecrementKeeps(s: State, w: Wid, p: Pos, f: Fid)
    requires CanLoop(s, w, Decrement) && TokenAt(s, p, f)
    ensures TokenAt(LoopOn(s, w, Decrement), p, f)
  {
    match p
    case AtBack(_) =>
    case AtPicked(_) =>
    case AtHand(_) =>
    case AtCache(_) =>
    case _ =>
  }

  lemma LoopKeeps(s: State, w: Wid, loop: Loop, p: Pos, f: Fid)
    requires Single(s) && Owned(s) && CacheFree(s) && BodiesFree(s)
    requires CanLoop(s, w, loop) && TokenAt(s, p, f) && !Spends(Loops(w, loop), p)
    ensures !NoToken(LoopOn(s, w, loop), f)
  {
    var s' := LoopOn(s, w, loop);
    match loop
    case Pick(i) => PickKeeps(s, w, i, p, f);
    case SwapIn => SwapInKeeps(s, w, p, f);
    case StartFun(g) => StartFunKeeps(s, w, g, p, f);
    case Decrement => DecrementKeeps(s, w, p, f);
    case Settle => SettleKeeps(s, w, p, f);
    case Sweep(ts) => SweepKeeps(s, w, ts, p, f);
    case Flush => FlushKeeps(s, w, p, f);
    case Dispatch(k) => FiredKept(s, k, p, f);
    case _ => IdleKeeps(s, s', w, p, f);
  }

  lemma IdleKeeps(s: State, s': State, w: Wid, p: Pos, f: Fid)
    requires TokenAt(s, p, f) && w < |s.workers| && |s'.workers| == |s.workers|
    requires s'.fibers == s.fibers && s'.armed == s.armed && s'.queue == s.queue && s'.timers == s.timers
    requires forall v | 0 <= v < |s.workers| && v != w :: s'.workers[v] == s.workers[v]
    requires s'.workers[w].cached == s.workers[w].cached
    requires p != AtPicked(w) && !s.workers[w].pc.Holding? && !s.workers[w].pc.Out? && !s.workers[w].pc.Uncounted?
    ensures TokenAt(s', p, f)
  {
    if p != Queued {
      ElseWhere(s, s', w, p, f);
    }
  }

  /** A fiber that has not begun is about to do nothing yet. */
  ghost predicate BodiesFree(s: State) {
    forall f | f in s.fibers && s.fibers[f].state == INIT :: s.fibers[f].body == Free
  }

  lemma KillKept(s: State, c: Cid)
    requires CallTimers(s) && c in s.calls
    ensures forall t | t in s.timers && !s.timers[t].code.Timeout? ::
              t in Kill(s, s.calls[c].timer).timers && Kill(s, s.calls[c].timer).timers[t] == s.timers[t]
  {
    assert s.calls[c].timer.Some? ==> CallTimer(s, c);
  }

  lemma HookKeeps(s: State, w: Wid, hook: Hook, p: Pos, f: Fid)
    requires Single(s) && Owned(s) && CallTimers(s) && CanHook(s, w, hook) && TokenAt(s, p, f)
    ensures TokenAt(HookOn(s, w, hook), p, f)
  {
    var s' := HookOn(s, w, hook);
    match hook
    case Park => OutKept(s, s', w, p, f);
    case AskTimer(_) => AskKeeps(s, w, hook, p, f);
    case ArmCall(_) => AskKeeps(s, w, hook, p, f);
    case GiveUp =>
      KillKept(s, BodyOf(s, w).c);
      HookMoves(s, s', w, p, f);
    case Resume =>
      KillKept(s, BodyOf(s, w).c);
      HookMoves(s, s', w, p, f);
    case _ => HookMoves(s, s', w, p, f);
  }

  lemma AskKeeps(s: State, w: Wid, hook: Hook, p: Pos, f: Fid)
    requires CanHook(s, w, hook) && (hook.AskTimer? || hook.ArmCall?) && TokenAt(s, p, f)
    ensures TokenAt(HookOn(s, w, hook), p, f)
  {
    assert s.fibers == s.fibers[Fiber0(s, w) := s.fibers[Fiber0(s, w)]];
    HookMoves(s, HookOn(s, w, hook), w, p, f);
  }

  /** A call moves on; timers and registrations that wake a fiber stay. */
  lemma HookMoves(s: State, s': State, w: Wid, p: Pos, f: Fid)
    requires TokenAt(s, p, f) && RunsNow(s, w) && !BodyOf(s, w).Waking? && Fiber0(s, w) in s'.fibers
    requires s'.fibers == s.fibers[Fiber0(s, w) := s.fibers[Fiber0(s, w)].(body := s'.fibers[Fiber0(s, w)].body)]
    requires s'.workers == s.workers && s'.queue == s.queue
    requires forall k | k in s.armed :: k in s'.armed && s'.armed[k] == s.armed[k]
    requires forall t | t in s.timers && !s.timers[t].code.Timeout? :: t in s'.timers && s'.timers[t] == s.timers[t]
    ensures TokenAt(s', p, f)
  {
    match p
    case AtBack(_) =>
    case AtBody(_) =>
    case _ =>
  }

  lemma StepKeeps(s: State, step: Step, p: Pos, f: Fid)
    requires Single(s) && Owned(s) && CacheFree(s) && CallTimers(s) && BodiesFree(s)
    requires Enabled(s, step) && TokenAt(s, p, f) && !Spends(step, p)
    ensures !NoToken(Apply(s, step), f)
  {
    match step
    case Does(a, act) => DoKeeps(s, a, act, p, f);
    case Runs(w, own) => RunKeeps(s, w, own, p, f);
    case Loops(w, loop) => LoopKeeps(s, w, loop, p, f);
    case Hooked(w, hook) => HookKeeps(s, w, hook, p, f);
  }

  // ---------- exactly ----------

  lemma DiscardSpends(s: State, w: Wid, f: Fid)
    requires Single(s) && CanLoop(s, w, Discard) && TokenAt(s, AtPicked(w), f)
    ensures NoToken(LoopOn(s, w, Discard), f)
  {
    var s1 := s.(active := s.active - 1);
    CallsKeep(s, s1);
    KeepsSingle(s, s1);
    PcKeeps(s1, w, Between);
    assert TokenAt(s1, AtPicked(w), f);
    Emptied(s1, LoopOn(s, w, Discard), AtPicked(w), f);
  }

  /** A fiber kept for the next function is on no worker's hands. */
  lemma OnNoHands(s: State, w: Wid, f: Fid)
    requires Owned(s) && w < |s.workers| && s.workers[w].cached == Some(f)
    ensures forall v: Wid | v < |s.workers| && (s.workers[v].pc.Out? || s.workers[v].pc.Uncounted?) ::
              s.workers[v].pc.f != f
  {
    forall v: Wid | v < |s.workers| && (s.workers[v].pc.Out? || s.workers[v].pc.Uncounted?)
      ensures s.workers[v].pc.f != f
    {
      assert Has1(s, v, s.workers[v].pc.f);
    }
  }

  lemma StartFunSpends(s: State, w: Wid, g: Fid, f: Fid)
    requires Single(s) && Owned(s) && CanLoop(s, w, StartFun(g)) && TokenAt(s, AtCache(w), f)
    ensures NoToken(LoopOn(s, w, StartFun(g)), f)
  {
    var s' := LoopOn(s, w, StartFun(g));
    assert !TokenAt(s, AtPicked(w), f);
    OnNoHands(s, w, f);
    forall q: Pos ensures !TokenAt(s', q, f) {
      assert q != AtCache(w) ==> !TokenAt(s, q, f);
      match q
      case AtBack(_) =>
      case AtBody(_) =>
      case AtPicked(_) =>
      case AtHand(_) =>
      case AtCache(_) =>
      case _ =>
    }
  }

  lemma DeletionSpends(s: State, a: Actor, act: Action, p: Pos, f: Fid)
    requires Single(s) && CanDo(s, a, act) && TokenAt(s, p, f) && Spends(Does(a, act), p)
    ensures NoToken(Do(s, a, act), f)
  {
    match act
    case Disarm(k) =>
      DropsArmed(s, k);
      Emptied(s, Do(s, a, act), p, f);
    case CancelTimer(t) =>
      KillKeeps(s, Some(t));
      Emptied(s, Do(s, a, act), p, f);
    case _ =>
  }

  /** A wake-up that a step uses up is gone. */
  lemma StepSpends(s: State, step: Step, p: Pos, f: Fid)
    requires Single(s) && Owned(s) && Enabled(s, step) && TokenAt(s, p, f) && Spends(step, p)
    ensures NoToken(Apply(s, step), f)
  {
    match step
    case Does(a, act) => DeletionSpends(s, a, act, p, f);
    case Loops(w, SwapIn) => SwapInSingle(s, w);
    case Loops(w, Discard) => DiscardSpends(s, w, f);
    case Loops(w, StartFun(g)) => StartFunSpends(s, w, g, f);
    case _ =>
  }

  /** Conservation of wake-ups: every step keeps a fiber's wake-up somewhere, but for exactly those that use it
      up. */
  lemma WakeConserved(s: State, step: Step, p: Pos, f: Fid)
    requires Single(s) && Owned(s) && CacheFree(s) && CallTimers(s) && BodiesFree(s)
    requires Enabled(s, step) && TokenAt(s, p, f)
    ensures NoToken(Apply(s, step), f) <==> Spends(step, p)
  {
    if Spends(step, p) {
      StepSpends(s, step, p, f);
    } else {
      StepKeeps(s, step, p, f);
    }
  }

  /** The step sets up a wake-up of the fiber: by scheduling it, by a registration or a timer, by a registration
      of its hooked call, or as it yields READY or ends after a function. */
  ghost predicate SetsUp(s: State, step: Step, f: Fid) {
    match step
    case Does(_, Schedule(job, _)) => Target(job) == Some(f)
    case Does(_, Arm(_, job)) => Target(job) == Some(f)
    case Does(_, SetTimer(_, code, _)) => Target(Fun(code)) == Some(f)
    case Runs(w, Yield(ready)) => ready && RunsNow(s, w) && Fiber0(s, w) == f
    case Runs(w, Finish(_)) => RunsNow(s, w) && Fiber0(s, w) == f && s.workers[w].pc.cb
    case Hooked(w, ArmCall(ok)) => ok && RunsNow(s, w) && Fiber0(s, w) == f
    case _ => false
  }

  /** And after such a step the wake-up is there. */
  lemma WakeSetUp(s: State, step: Step, f: Fid)
    requires Enabled(s, step) && SetsUp(s, step, f)
    ensures !NoToken(Apply(s, step), f)
  {
    var s' := Apply(s, step);
    match step
    case Does(_, Schedule(job, thread)) =>
      var r := [Entry(job, thread)];
      assert r[0].job == job;
      InQueue(s', s.queue, r, f);
    case Does(_, Arm(k, _)) => assert TokenAt(s', AtArmed(k), f);
    case Does(_, SetTimer(t, _, _)) => assert TokenAt(s', AtTimer(t), f);
    case Runs(w, _) => assert TokenAt(s', AtBack(w), f);
    case Hooked(w, _) => assert TokenAt(s', AtArmed(s.calls[BodyOf(s, w).c].key), f);
    case _ =>
  }
}
