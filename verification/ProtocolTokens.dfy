/** Each fiber has at most one token: the single-wake discipline is kept by every step. */
module ProtocolTokens {
  import opened Basics
  import opened Jobs
  import opened Protocol

  // ---------- the invariants ----------

  /** `w` has the fiber on its hands: running it, or between its swap out and the end of the turn. */
  ghost predicate Has1(s: State, w: Wid, f: Fid) {
    && w < |s.workers| && (s.workers[w].pc.Running? || s.workers[w].pc.Out? || s.workers[w].pc.Uncounted?)
    && s.workers[w].pc.f == f
  }

  /** No fiber is on the hands of two workers. A running fiber is EXEC; one swapped out is not INIT or HOLD. A
      picked fiber is not EXEC. A cached fiber is INIT. */
  ghost predicate Owned(s: State) {
    && (forall w, v, f :: Has1(s, w, f) && Has1(s, v, f) ==> w == v)
    && (forall w, f :: Has1(s, w, f) ==> HandOk(s, w, f))
    && (forall w | 0 <= w < |s.workers| && s.workers[w].pc.Picked? && s.workers[w].pc.job.Fib? ::
          s.workers[w].pc.job.f in s.fibers && s.fibers[s.workers[w].pc.job.f].state != EXEC)
    && (forall w | 0 <= w < |s.workers| && s.workers[w].cached.Some? ::
          s.workers[w].cached.value in s.fibers && s.fibers[s.workers[w].cached.value].state == INIT)
  }

  ghost predicate HandOk(s: State, w: Wid, f: Fid)
    requires w < |s.workers|
  {
    && f in s.fibers && s.fibers[f].state != INIT && s.fibers[f].state != HOLD
    && (s.workers[w].pc.Running? ==> s.fibers[f].state == EXEC)
  }

  /** What a fiber that swapped out becomes. */
  function SettledState(s: State, w: Wid): FiberState
    requires w < |s.workers| && s.workers[w].pc.Uncounted? && s.workers[w].pc.f in s.fibers
  {
    var st := s.fibers[s.workers[w].pc.f].state;
    if st == READY then READY else if !Ended(st) then HOLD else if s.workers[w].pc.cb then INIT else st
  }

  lemma SettledIs(s: State, w: Wid)
    requires w < |s.workers| && s.workers[w].pc.Uncounted? && s.workers[w].pc.f in s.fibers
    ensures var (f, s') := (s.workers[w].pc.f, Settled(s, w));
            && s' == SetState(s, f, SettledState(s, w)).(queue := s'.queue, workers := s'.workers)
            && |s'.workers| == |s.workers| && s'.workers[w].pc == Between
            && (s'.workers[w].cached == s.workers[w].cached
                || (s'.workers[w].cached == Some(f) && SettledState(s, w) == INIT))
            && forall v | 0 <= v < |s.workers| && v != w :: s'.workers[v] == s.workers[v]
  {
  }

  ghost predicate Unique(s: State) {
    forall p, q, f :: TokenAt(s, p, f) && TokenAt(s, q, f) ==> p == q
  }

  ghost predicate Tidy(s: State) {
    && Distinct(s.queue)
    && (forall w | 0 <= w < |s.workers| && s.workers[w].pc.Holding? :: Distinct(s.workers[w].pc.hand))
    && (forall t | t in s.timers && s.timers[t].recurring :: s.timers[t].code.Plain?)
  }

  ghost predicate Known(s: State) {
    forall p, f :: TokenAt(s, p, f) ==> f in s.fibers
  }

  /** Each fiber has at most one token: one place, and one entry there. */
  ghost predicate Single(s: State) {
    Unique(s) && Tidy(s) && Known(s)
  }

  // ---------- moving tokens ----------

  /** Every token of `s'` is one of `s`. */
  ghost predicate Keeps(s: State, s': State) {
    && (forall p, f :: TokenAt(s', p, f) ==> TokenAt(s, p, f))
    && (forall f | f in s.fibers :: f in s'.fibers)
    && Tidy(s')
  }

  lemma KeepsSingle(s: State, s': State)
    requires Single(s) && Keeps(s, s')
    ensures Single(s')
  {
  }

  /** Where the only token of `f` is gone, there is none left. */
  lemma Emptied(s: State, s': State, p: Pos, f: Fid)
    requires Single(s) && Keeps(s, s') && TokenAt(s, p, f) && !TokenAt(s', p, f)
    ensures NoToken(s', f)
  {
  }

  /** A token is put where none was: all others are those of `s`. */
  lemma PutSingle(s: State, s': State, p: Pos, f: Fid)
    requires Single(s) && NoToken(s, f) && f in s'.fibers && Tidy(s')
    requires forall g | g in s.fibers :: g in s'.fibers
    requires forall q: Pos, g: Fid :: TokenAt(s', q, g) ==> TokenAt(s, q, g) || (q == p && g == f)
    ensures Single(s')
  {
    forall q, r, g | TokenAt(s', q, g) && TokenAt(s', r, g) ensures q == r {
      if g == f {
        assert !TokenAt(s, q, g) && !TokenAt(s, r, g);
      }
    }
  }

  lemma HasAppend(q: seq<Entry>, r: seq<Entry>, f: Fid)
    ensures Has(q + r, f) <==> Has(q, f) || Has(r, f)
  {
    var qr := q + r;
    if Has(q, f) {
      var i :| 0 <= i < |q| && Target(q[i].job) == Some(f);
      assert qr[i] == q[i];
    }
    if Has(r, f) {
      var i :| 0 <= i < |r| && Target(r[i].job) == Some(f);
      assert qr[|q| + i] == r[i];
    }
  }

  lemma DistinctAppend(q: seq<Entry>, r: seq<Entry>)
    requires Distinct(q) && Distinct(r) && forall f: Fid :: !(Has(q, f) && Has(r, f))
    ensures Distinct(q + r)
  {
    forall i, j | 0 <= i < j < |q + r| && Target((q + r)[i].job).Some?
      ensures Target((q + r)[i].job) != Target((q + r)[j].job)
    {
      if i < |q| <= j && Target(q[i].job) == Target(r[j - |q|].job) {
        var f := Target(q[i].job).value;
        assert Has(q, f) && Has(r, f);
      }
    }
  }

  lemma DistinctWithout(q: seq<Entry>, i: nat)
    requires Distinct(q) && i < |q|
    ensures Distinct(Without(q, i))
    ensures forall f: Fid :: Has(Without(q, i), f) <==> Has(q, f) && Target(q[i].job) != Some(f)
  {
    var r := Without(q, i);
    forall f: Fid ensures Has(r, f) <==> Has(q, f) && Target(q[i].job) != Some(f) {
      if Has(r, f) {
        var j :| 0 <= j < |r| && Target(r[j].job) == Some(f);
        var k := if j < i then j else j + 1;
        assert q[k] == r[j];
      }
      if Has(q, f) && Target(q[i].job) != Some(f) {
        var k :| 0 <= k < |q| && Target(q[k].job) == Some(f);
        assert r[if k < i then k else k - 1] == q[k];
      }
    }
  }

  lemma AppendSingle(s: State, job: Job, thread: int)
    requires Single(s) && Wakeable(s, job)
    ensures Single(Append(s, job, thread))
  {
    var s', e := Append(s, job, thread), [Entry(job, thread)];
    assert e[0].job == job;
    forall f: Fid ensures Has(s'.queue, f) <==> Has(s.queue, f) || Target(job) == Some(f) {
      HasAppend(s.queue, e, f);
    }
    forall f: Fid ensures !(Has(s.queue, f) && Has(e, f)) {
      assert TokenAt(s, Queued, f) == Has(s.queue, f);
      assert Has(e, f) ==> Target(job) == Some(f);
    }
    DistinctAppend(s.queue, e);
    if Target(job).Some? {
      forall p: Pos, g: Fid | TokenAt(s', p, g) ensures TokenAt(s, p, g) || (p == Queued && g == Target(job).value) {
        OthersSame(s, s', p, g);
      }
      PutSingle(s, s', Queued, Target(job).value);
    } else {
      forall p: Pos, g: Fid | TokenAt(s', p, g) ensures TokenAt(s, p, g) {
        OthersSame(s, s', p, g);
      }
    }
  }

  /** The queue holds no other tokens than those in the queue. */
  lemma OthersSame(s: State, s': State, p: Pos, f: Fid)
    requires s' == s.(queue := s'.queue)
    ensures !p.Queued? ==> (TokenAt(s', p, f) <==> TokenAt(s, p, f))
  {
    match p
    case Queued =>
    case AtPicked(_) =>
    case AtArmed(_) =>
    case AtTimer(_) =>
    case AtHand(_) =>
    case AtBody(_) =>
    case AtBack(_) =>
    case AtCache(_) =>
  }

  /** Triggering moves the token of the registration to the queue. */
  lemma FireSingle(s: State, k: Key)
    requires Single(s) && k in s.armed
    ensures Single(Fire(s, k))
  {
    var s' := s.(armed := s.armed - {k});
    DropsArmed(s, k);
    KeepsSingle(s, s');
    var job := s.armed[k].job;
    if Target(job).Some? {
      assert TokenAt(s, AtArmed(k), Target(job).value);
      Emptied(s, s', AtArmed(k), Target(job).value);
    }
    AppendSingle(s', job, ANY);
  }

  lemma DropsArmed(s: State, k: Key)
    requires Single(s)
    ensures Keeps(s, s.(armed := s.armed - {k}))
  {
    var s' := s.(armed := s.armed - {k});
    forall p: Pos, f: Fid | TokenAt(s', p, f) ensures TokenAt(s, p, f) {
      match p
      case AtArmed(_) =>
      case AtBack(_) =>
      case _ =>
    }
  }

  lemma KillKeeps(s: State, t: Option<Tid>)
    requires Single(s)
    ensures Keeps(s, Kill(s, t))
  {
    var s' := Kill(s, t);
    forall p: Pos, f: Fid | TokenAt(s', p, f) ensures TokenAt(s, p, f) {
      match p
      case AtTimer(_) =>
      case AtBack(_) =>
      case _ =>
    }
  }

  /** Only fields that hold no token change. */
  lemma CallsKeep(s: State, s': State)
    requires Single(s) && s' == s.(calls := s'.calls, stop := s'.stop, active := s'.active)
    ensures Keeps(s, s')
  {
    forall p: Pos, f: Fid | TokenAt(s', p, f) ensures TokenAt(s, p, f) {
      match p
      case AtBack(_) =>
      case _ =>
    }
  }

  /** A fiber's body changes to one that wakes nobody. */
  lemma BodyKeeps(s: State, f: Fid, b: Body)
    requires Single(s) && f in s.fibers && !b.Waking?
    ensures Keeps(s, SetBody(s, f, b))
  {
    var s' := SetBody(s, f, b);
    forall p: Pos, g: Fid | TokenAt(s', p, g) ensures TokenAt(s, p, g) {
      match p
      case AtBody(_) =>
      case AtBack(_) =>
      case _ =>
    }
  }

  // ---------- actions ----------

  lemma CreateSingle(s: State, f: Fid)
    requires Single(s) && Owned(s) && f !in s.fibers
    ensures Single(s.(fibers := s.fibers[f := Fiber(INIT, Free)]))
  {
    var s' := s.(fibers := s.fibers[f := Fiber(INIT, Free)]);
    forall p: Pos, g: Fid | TokenAt(s', p, g) ensures TokenAt(s, p, g) {
      match p
      case AtBody(_) =>
      case AtBack(_) =>
      case _ =>
    }
    KeepsSingle(s, s');
  }

  lemma ArmSingle(s: State, k: Key, wake: Wakeup)
    requires Single(s) && k !in s.armed && Wakeable(s, wake.job)
    ensures Single(s.(armed := s.armed[k := wake]))
  {
    var s' := s.(armed := s.armed[k := wake]);
    forall p: Pos, g: Fid | TokenAt(s', p, g)
      ensures TokenAt(s, p, g) || (p == AtArmed(k) && Target(wake.job) == Some(g))
    {
      match p
      case AtArmed(_) =>
      case AtBack(_) =>
      case _ =>
    }
    if Target(wake.job).Some? {
      PutSingle(s, s', AtArmed(k), Target(wake.job).value);
    } else {
      KeepsSingle(s, s');
    }
  }

  lemma TimerSingle(s: State, t: Tid, code: Code, recurring: bool)
    requires Single(s) && t !in s.timers && Wakeable(s, Fun(code)) && (recurring ==> code.Plain?)
    ensures Single(s.(timers := s.timers[t := Timer(code, recurring, true)]))
  {
    var s' := s.(timers := s.timers[t := Timer(code, recurring, true)]);
    forall p: Pos, g: Fid | TokenAt(s', p, g)
      ensures TokenAt(s, p, g) || (p == AtTimer(t) && Target(Fun(code)) == Some(g))
    {
      match p
      case AtTimer(_) =>
      case AtBack(_) =>
      case _ =>
    }
    if Target(Fun(code)).Some? {
      PutSingle(s, s', AtTimer(t), Target(Fun(code)).value);
    } else {
      KeepsSingle(s, s');
    }
  }

  lemma DoSingle(s: State, a: Actor, act: Action)
    requires Single(s) && Owned(s) && CanDo(s, a, act)
    ensures Single(Do(s, a, act))
  {
    match act
    case Create(f) => CreateSingle(s, f);
    case Schedule(job, thread) => AppendSingle(s, job, thread);
    case Arm(k, job) => ArmSingle(s, k, Wakeup(job, None));
    case Disarm(k) => DropsArmed(s, k); KeepsSingle(s, Do(s, a, act));
    case Trigger(k) => FireSingle(s, k);
    case SetTimer(t, code, recurring) => TimerSingle(s, t, code, recurring);
    case CancelTimer(t) => KillKeeps(s, Some(t)); KeepsSingle(s, Do(s, a, act));
    case Stop => CallsKeep(s, Do(s, a, act)); KeepsSingle(s, Do(s, a, act));
  }

  // ---------- the running fiber ----------

  /** A fiber swaps out. It gets a token only when it is READY, or ended after running for a function. */
  lemma OutSingle(s: State, w: Wid, st: FiberState)
    requires Single(s) && Owned(s) && RunsNow(s, w) && (st == READY || Ended(st) || st == EXEC)
    requires st == READY || (s.workers[w].pc.cb && Ended(st)) ==> NoToken(s, Fiber0(s, w))
    ensures Single(SetPc(SetState(s, Fiber0(s, w), st), w, Out(Fiber0(s, w), s.workers[w].pc.cb)))
  {
    var f := Fiber0(s, w);
    var s' := SetPc(SetState(s, f, st), w, Out(f, s.workers[w].pc.cb));
    var back := st == READY || (s.workers[w].pc.cb && Ended(st));
    forall p: Pos, g: Fid | TokenAt(s', p, g) ensures TokenAt(s, p, g) || (back && p == AtBack(w) && g == f) {
      match p
      case AtBody(_) =>
      case AtBack(v) =>
        assert Has1(s, w, f);
        if v != w {
          assert Has1(s, v, g);
        }
      case _ =>
    }
    if back {
      PutSingle(s, s', AtBack(w), f);
    } else {
      KeepsSingle(s, s');
    }
  }

  lemma WakeUpSingle(s: State, w: Wid)
    requires Single(s) && CanRun(s, w, WakeUp)
    ensures Single(RunOn(s, w, WakeUp))
  {
    var f, g := Fiber0(s, w), BodyOf(s, w).g;
    var s' := SetBody(s, f, Free);
    BodyKeeps(s, f, Free);
    KeepsSingle(s, s');
    assert TokenAt(s, AtBody(f), g);
    Emptied(s, s', AtBody(f), g);
    AppendSingle(s', Fib(g), ANY);
  }

  lemma RunSingle(s: State, w: Wid, own: Own)
    requires Single(s) && Owned(s) && CanRun(s, w, own)
    ensures Single(RunOn(s, w, own))
  {
    var f := Fiber0(s, w);
    assert Has1(s, w, f);
    match own
    case Yield(ready) =>
      assert SetState(s, f, EXEC) == s;
      OutSingle(s, w, if ready then READY else EXEC);
    case Finish(except) => OutSingle(s, w, if except then EXCEPT else TERM);
    case WakeUp => WakeUpSingle(s, w);
    case CheckTimeout =>
      var c := BodyOf(s, w).c;
      var b := if c in s.calls && s.calls[c].pc != Returned && !s.calls[c].cancelled then Cancelling(c) else Free;
      BodyKeeps(s, f, b);
      KeepsSingle(s, SetBody(s, f, b));
      CallsKeep(SetBody(s, f, b), RunOn(s, w, own));
      KeepsSingle(SetBody(s, f, b), RunOn(s, w, own));
    case CancelTimedOut(_) =>
      BodyKeeps(s, f, Free);
      KeepsSingle(s, SetBody(s, f, Free));
      var k := s.calls[BodyOf(s, w).c].key;
      if k in s.armed {
        FireSingle(SetBody(s, f, Free), k);
      }
  }

  // ---------- the run loop ----------

  /** The token of an entry goes with the entry. */
  lemma TakeOut(s: State, i: nat)
    requires Single(s) && i < |s.queue|
    ensures var s1 := s.(queue := Without(s.queue, i));
            Single(s1) && (Target(s.queue[i].job).Some? ==>
                             Target(s.queue[i].job).value in s.fibers && NoToken(s1, Target(s.queue[i].job).value))
  {
    var job, s1 := s.queue[i].job, s.(queue := Without(s.queue, i));
    DistinctWithout(s.queue, i);
    forall p: Pos, f: Fid | TokenAt(s1, p, f) ensures TokenAt(s, p, f) {
      OthersSame(s, s1, p, f);
    }
    KeepsSingle(s, s1);
    if Target(job).Some? {
      assert TokenAt(s, Queued, Target(job).value);
      Emptied(s, s1, Queued, Target(job).value);
    }
  }

  lemma PickSingle(s: State, w: Wid, i: nat)
    requires Single(s) && CanLoop(s, w, Pick(i))
    ensures Single(LoopOn(s, w, Pick(i)))
  {
    var job, s1 := s.queue[i].job, s.(queue := Without(s.queue, i));
    TakeOut(s, i);
    PickedSingle(s1, w, job, LoopOn(s, w, Pick(i)));
  }

  lemma PickedSingle(s: State, w: Wid, job: Job, s': State)
    requires Single(s) && w < |s.workers| && s.workers[w].pc.Between?
    requires Target(job).Some? ==> Target(job).value in s.fibers && NoToken(s, Target(job).value)
    requires s' == SetPc(s.(active := s'.active), w, Picked(job))
    ensures Single(s')
  {
    forall p: Pos, g: Fid | TokenAt(s', p, g) ensures TokenAt(s, p, g) || (p == AtPicked(w) && Target(job) == Some(g)) {
      match p
      case AtPicked(_) =>
      case AtBack(_) =>
      case AtHand(_) =>
      case _ =>
    }
    if Target(job).Some? {
      PutSingle(s, s', AtPicked(w), Target(job).value);
    } else {
      KeepsSingle(s, s');
    }
  }

  /** A worker's place changes to one without a token. */
  lemma PcKeeps(s: State, w: Wid, pc: Pc)
    requires Single(s) && w < |s.workers|
    requires pc.Between? || pc.Idle? || pc.Gone? || pc.Running?
    ensures Keeps(s, SetPc(s, w, pc))
    ensures NoTokenAtPc(SetPc(s, w, pc), w)
  {
    var s' := SetPc(s, w, pc);
    forall p: Pos, f: Fid | TokenAt(s', p, f) ensures TokenAt(s, p, f) {
      match p
      case AtPicked(_) =>
      case AtBack(_) =>
      case AtHand(_) =>
      case AtCache(_) =>
      case _ =>
    }
  }

  ghost predicate NoTokenAtPc(s: State, w: Wid) {
    forall f :: !TokenAt(s, AtPicked(w), f) && !TokenAt(s, AtHand(w), f) && !TokenAt(s, AtBack(w), f)
  }

  /** A fiber starts running, or goes on hold: then it is not about to be requeued. */
  lemma StateKeeps(s: State, f: Fid, st: FiberState)
    requires Single(s) && f in s.fibers && st != READY && !Ended(st)
    ensures Keeps(s, SetState(s, f, st))
  {
    var s' := SetState(s, f, st);
    forall p: Pos, g: Fid | TokenAt(s', p, g) ensures TokenAt(s, p, g) {
      match p
      case AtBody(_) =>
      case AtBack(_) =>
      case _ =>
    }
  }

  lemma SwapInSingle(s: State, w: Wid)
    requires Single(s) && CanLoop(s, w, SwapIn)
    ensures Single(LoopOn(s, w, SwapIn)) && NoToken(LoopOn(s, w, SwapIn), s.workers[w].pc.job.f)
  {
    var f := s.workers[w].pc.job.f;
    var s1 := SetState(s, f, EXEC);
    StateKeeps(s, f, EXEC);
    KeepsSingle(s, s1);
    PcKeeps(s1, w, Running(f, false));
    KeepsSingle(s1, LoopOn(s, w, SwapIn));
    assert TokenAt(s, AtPicked(w), f) && TokenAt(s1, AtPicked(w), f);
    Emptied(s1, LoopOn(s, w, SwapIn), AtPicked(w), f);
  }

  /** A function leaves its worker's hands, and its token with it. */
  lemma HandedOver(s: State, w: Wid, f: Fid, s1: State)
    requires Single(s) && CanLoop(s, w, StartFun(f))
    requires s1 == s.(workers := s.workers[w := Worker(Running(f, true), None, s.workers[w].idleOver)])
    ensures Single(s1)
    ensures var code := s.workers[w].pc.job.code; code.Wake? ==> NoToken(s1, code.f) && code.f in s.fibers
  {
    var code := s.workers[w].pc.job.code;
    forall p: Pos, g: Fid | TokenAt(s1, p, g) ensures TokenAt(s, p, g) {
      match p
      case AtPicked(_) =>
      case AtBack(_) =>
      case AtHand(_) =>
      case AtCache(_) =>
      case _ =>
    }
    KeepsSingle(s, s1);
    if code.Wake? {
      assert TokenAt(s, AtPicked(w), code.f);
      Emptied(s, s1, AtPicked(w), code.f);
    }
  }

  /** The fiber for a function carries the token the function stood for. */
  lemma StartFunSingle(s: State, w: Wid, f: Fid)
    requires Single(s) && Owned(s) && CanLoop(s, w, StartFun(f))
    ensures Single(LoopOn(s, w, StartFun(f)))
  {
    var code := s.workers[w].pc.job.code;
    var s1 := s.(workers := s.workers[w := Worker(Running(f, true), None, s.workers[w].idleOver)]);
    HandedOver(s, w, f, s1);
    var s' := LoopOn(s, w, StartFun(f));
    forall p: Pos, g: Fid | TokenAt(s', p, g) ensures TokenAt(s1, p, g) || (p == AtBody(f) && code == Wake(g)) {
      match p
      case AtBody(_) =>
      case AtBack(_) =>
      case _ =>
    }
    if code.Wake? {
      PutSingle(s1, s', AtBody(f), code.f);
    } else {
      KeepsSingle(s1, s');
    }
  }

  /** Dropping the count leaves the token of a swapped-out fiber where it is. */
  lemma DecrementSingle(s: State, w: Wid)
    requires Single(s) && CanLoop(s, w, Decrement)
    ensures Single(LoopOn(s, w, Decrement))
  {
    var s' := LoopOn(s, w, Decrement);
    forall p: Pos, g: Fid | TokenAt(s', p, g) ensures TokenAt(s, p, g) {
      match p
      case AtPicked(_) =>
      case AtBack(_) =>
      case AtHand(_) =>
      case AtCache(_) =>
      case _ =>
    }
    KeepsSingle(s, s');
  }

  /** The fiber that ended becomes the worker's cached fiber; its token moves there. */
  lemma RecycleSingle(s: State, w: Wid)
    requires Single(s) && Owned(s) && CanLoop(s, w, Settle)
    requires s.workers[w].pc.cb && Ended(s.fibers[s.workers[w].pc.f].state)
    ensures Single(LoopOn(s, w, Settle))
  {
    var f := s.workers[w].pc.f;
    var s1 := SetPc(s, w, Between);
    PcKeeps(s, w, Between);
    KeepsSingle(s, s1);
    assert TokenAt(s, AtBack(w), f);
    Emptied(s, s1, AtBack(w), f);
    var s' := LoopOn(s, w, Settle);
    forall p: Pos, g: Fid | TokenAt(s', p, g) ensures TokenAt(s1, p, g) || (p == AtCache(w) && g == f) {
      match p
      case AtBack(_) =>
      case AtBody(_) =>
      case AtPicked(_) =>
      case AtHand(_) =>
      case AtCache(_) =>
      case _ =>
    }
    PutSingle(s1, s', AtCache(w), f);
  }

  lemma SettleSingle(s: State, w: Wid)
    requires Single(s) && Owned(s) && CanLoop(s, w, Settle)
    ensures Single(LoopOn(s, w, Settle))
  {
    var f := s.workers[w].pc.f;
    var s1 := SetPc(s, w, Between);
    PcKeeps(s, w, Between);
    KeepsSingle(s, s1);
    if s.fibers[f].state == READY {
      assert TokenAt(s, AtBack(w), f);
      Emptied(s, s1, AtBack(w), f);
      AppendSingle(s1, Fib(f), ANY);
    } else if Ended(s.fibers[f].state) {
      if s.workers[w].pc.cb {
        RecycleSingle(s, w);
      }
    } else {
      StateKeeps(s1, f, HOLD);
      KeepsSingle(s1, SetState(s1, f, HOLD));
    }
  }

  /** The tokens of the expired timers are in the worker's hand, one entry each. */
  lemma SweepSingle(s: State, w: Wid, ts: seq<Tid>)
    requires Single(s) && CanLoop(s, w, Sweep(ts))
    ensures Single(LoopOn(s, w, Sweep(ts)))
  {
    var s', hand := LoopOn(s, w, Sweep(ts)), Codes(s.timers, ts);
    forall p: Pos, f: Fid | TokenAt(s', p, f)
      ensures p != AtHand(w) ==> TokenAt(s, p, f) && !(p.AtTimer? && p.t in ts)
    {
      match p
      case AtPicked(_) =>
      case AtTimer(_) =>
      case AtBack(_) =>
      case AtHand(_) =>
      case AtCache(_) =>
      case _ =>
    }
    forall f: Fid | TokenAt(s', AtHand(w), f) ensures exists t :: t in ts && TokenAt(s, AtTimer(t), f) {
      var i :| 0 <= i < |hand| && Target(hand[i].job) == Some(f);
      assert ts[i] in ts && TokenAt(s, AtTimer(ts[i]), f);
    }
    assert Distinct(hand) by {
      forall i, j | 0 <= i < j < |hand| && Target(hand[i].job).Some? && Target(hand[i].job) == Target(hand[j].job)
        ensures false
      {
        var f := Target(hand[i].job).value;
        assert TokenAt(s, AtTimer(ts[i]), f) && TokenAt(s, AtTimer(ts[j]), f);
      }
    }
  }

  /** The tokens in the worker's hand move to the queue. */
  lemma FlushSingle(s: State, w: Wid)
    requires Single(s) && CanLoop(s, w, Flush)
    ensures Single(LoopOn(s, w, Flush))
  {
    var s', hand := LoopOn(s, w, Flush), s.workers[w].pc.hand;
    forall f: Fid ensures Has(s'.queue, f) <==> Has(s.queue, f) || Has(hand, f) {
      HasAppend(s.queue, hand, f);
    }
    forall f: Fid ensures !(Has(s.queue, f) && Has(hand, f)) {
      if Has(s.queue, f) && Has(hand, f) {
        assert TokenAt(s, Queued, f) && TokenAt(s, AtHand(w), f);
      }
    }
    DistinctAppend(s.queue, hand);
    forall p: Pos, f: Fid | TokenAt(s', p, f)
      ensures p != AtHand(w) && (TokenAt(s, p, f) || (p == Queued && TokenAt(s, AtHand(w), f)))
    {
      match p
      case AtPicked(_) =>
      case AtBack(_) =>
      case AtHand(_) =>
      case AtCache(_) =>
      case _ =>
    }
  }

  lemma LeaveSingle(s: State, w: Wid)
    requires Single(s) && CanLoop(s, w, LeaveIdle)
    ensures Single(LoopOn(s, w, LeaveIdle))
  {
    var s' := LoopOn(s, w, LeaveIdle);
    forall p: Pos, f: Fid | TokenAt(s', p, f) ensures TokenAt(s, p, f) {
      match p
      case AtPicked(_) =>
      case AtBack(_) =>
      case AtHand(_) =>
      case AtCache(_) =>
      case _ =>
    }
    KeepsSingle(s, s');
  }

  lemma LoopSingle(s: State, w: Wid, loop: Loop)
    requires Single(s) && Owned(s) && CanLoop(s, w, loop)
    ensures Single(LoopOn(s, w, loop))
  {
    match loop
    case Pick(i) => PickSingle(s, w, i);
    case SwapIn => SwapInSingle(s, w);
    case Discard =>
      var s1 := s.(active := s.active - 1);
      CallsKeep(s, s1);
      KeepsSingle(s, s1);
      PcKeeps(s1, w, Between);
      KeepsSingle(s1, LoopOn(s, w, loop));
    case StartFun(f) => StartFunSingle(s, w, f);
    case Decrement => DecrementSingle(s, w);
    case Settle => SettleSingle(s, w);
    case EnterIdle => PcKeeps(s, w, Idle); KeepsSingle(s, LoopOn(s, w, loop));
    case Sweep(ts) => SweepSingle(s, w, ts);
    case Flush => FlushSingle(s, w);
    case Dispatch(k) => FireSingle(s, k);
    case LeaveIdle => LeaveSingle(s, w);
    case Quit => PcKeeps(s, w, Gone); KeepsSingle(s, LoopOn(s, w, loop));
  }

  // ---------- hooked calls ----------

  lemma ParkSingle(s: State, w: Wid)
    requires Single(s) && Owned(s) && CanHook(s, w, Park)
    ensures Single(HookOn(s, w, Park))
  {
    var f, s' := Fiber0(s, w), HookOn(s, w, Park);
    var s1 := SetPc(s, w, Out(f, s.workers[w].pc.cb));
    assert Has1(s, w, f);
    assert SetState(s, f, EXEC) == s;
    OutSingle(s, w, EXEC);
    CallsKeep(s1, s');
    KeepsSingle(s1, s');
  }

  lemma AskSingle(s: State, w: Wid, t: Tid)
    requires Single(s) && CanHook(s, w, AskTimer(t))
    ensures Single(HookOn(s, w, AskTimer(t)))
  {
    var c, s' := BodyOf(s, w).c, HookOn(s, w, AskTimer(t));
    if s.calls[c].timeout {
      TimerSingle(s, t, Timeout(c), false);
      var s1 := s.(timers := s.timers[t := Timer(Timeout(c), false, true)]);
      CallsKeep(s1, s');
      KeepsSingle(s1, s');
    } else {
      CallsKeep(s, s');
      KeepsSingle(s, s');
    }
  }

  lemma ArmCallSingle(s: State, w: Wid, ok: bool)
    requires Single(s) && CanHook(s, w, ArmCall(ok))
    ensures Single(HookOn(s, w, ArmCall(ok)))
  {
    var c, s' := BodyOf(s, w).c, HookOn(s, w, ArmCall(ok));
    if ok {
      var wake := Wakeup(Fib(Fiber0(s, w)), Some(c));
      ArmSingle(s, s.calls[c].key, wake);
      var s1 := s.(armed := s.armed[s.calls[c].key := wake]);
      CallsKeep(s1, s');
      KeepsSingle(s1, s');
    } else {
      CallsKeep(s, s');
      KeepsSingle(s, s');
    }
  }

  lemma HookSingle(s: State, w: Wid, hook: Hook)
    requires Single(s) && Owned(s) && CanHook(s, w, hook)
    ensures Single(HookOn(s, w, hook))
  {
    var f := Fiber0(s, w);
    var s' := HookOn(s, w, hook);
    assert Has1(s, w, f);
    match hook
    case Begin(c, k, timeout) => BodyThenCalls(s, f, InCall(c), s');
    case Succeed => BodyThenCalls(s, f, Free, s');
    case AskTimer(t) => AskSingle(s, w, t);
    case ArmCall(ok) => ArmCallSingle(s, w, ok);
    case GiveUp => KillThen(s, w, Free, s');
    case Park =>
      ParkSingle(s, w);
    case Resume => KillThen(s, w, BodyOf(s, w), s');
    case Decide =>
      BodyThenCalls(s, f, s'.fibers[f].body, s');
  }

  lemma BodyThenCalls(s: State, f: Fid, b: Body, s': State)
    requires Single(s) && f in s.fibers && !b.Waking? && s' == SetBody(s, f, b).(calls := s'.calls)
    ensures Single(s')
  {
    BodyKeeps(s, f, b);
    KeepsSingle(s, SetBody(s, f, b));
    CallsKeep(SetBody(s, f, b), s');
    KeepsSingle(SetBody(s, f, b), s');
  }

  lemma KillThen(s: State, w: Wid, b: Body, s': State)
    requires Single(s) && RunsNow(s, w) && BodyOf(s, w).InCall? && BodyOf(s, w).c in s.calls && !b.Waking?
    requires s' == SetBody(Kill(s, s.calls[BodyOf(s, w).c].timer), Fiber0(s, w), b).(calls := s'.calls)
    ensures Single(s')
  {
    var t := s.calls[BodyOf(s, w).c].timer;
    KillKeeps(s, t);
    KeepsSingle(s, Kill(s, t));
    BodyThenCalls(Kill(s, t), Fiber0(s, w), b, s');
  }

  /** Every step keeps the single-wake discipline. */
  lemma StepSingle(s: State, step: Step)
    requires Single(s) && Owned(s) && Enabled(s, step)
    ensures Single(Apply(s, step))
  {
    match step
    case Does(a, act) => DoSingle(s, a, act);
    case Runs(w, own) => RunSingle(s, w, own);
    case Loops(w, loop) => LoopSingle(s, w, loop);
    case Hooked(w, hook) => HookSingle(s, w, hook);
  }
}
