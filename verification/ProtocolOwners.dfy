/** No fiber is run by two workers, and the active count counts the workers between pick and decrement. */
module ProtocolOwners {
  import opened Basics
  import opened Jobs
  import opened Protocol
  import opened ProtocolTokens

  ghost predicate SameStates(s: State, s': State) {
    forall f | f in s.fibers :: f in s'.fibers && s'.fibers[f].state == s.fibers[f].state
  }

  lemma OwnedSame(s: State, s': State)
    requires Owned(s) && s'.workers == s.workers && SameStates(s, s')
    ensures Owned(s')
  {
    forall w: Wid, f: Fid | Has1(s', w, f) ensures HandOk(s', w, f) {
      assert Has1(s, w, f);
    }
    forall w: Wid, v: Wid, f: Fid | Has1(s', w, f) && Has1(s', v, f) ensures w == v {
      assert Has1(s, w, f) && Has1(s, v, f);
    }
  }

  /** One worker changes its place, and one fiber of its own its state. */
  lemma OwnedMove(s: State, s': State, w: Wid, f: Fid)
    requires Owned(s) && w < |s.workers| && |s'.workers| == |s.workers|
    requires forall v | 0 <= v < |s.workers| && v != w :: s'.workers[v] == s.workers[v]
    requires forall g | g in s.fibers :: g in s'.fibers && (g != f ==> s'.fibers[g].state == s.fibers[g].state)
    // f is on the hands of w only, before and after; no other worker has picked or cached it unless it stays apt
    requires forall v | Has1(s, v, f) :: v == w
    requires forall g | Has1(s', w, g) :: HandOk(s', w, g) && (g == f || Has1(s, w, g))
    requires f in s.fibers ==> forall v | 0 <= v < |s.workers| && v != w ::
      && (s.workers[v].pc == Picked(Fib(f)) ==> s'.fibers[f].state != EXEC)
      && (s.workers[v].cached == Some(f) ==> s'.fibers[f].state == INIT)
    requires s'.workers[w].pc.Picked? && s'.workers[w].pc.job.Fib? ==>
               s'.workers[w].pc.job.f in s'.fibers && s'.fibers[s'.workers[w].pc.job.f].state != EXEC
    requires s'.workers[w].cached.Some? ==>
               s'.workers[w].cached.value in s'.fibers && s'.fibers[s'.workers[w].cached.value].state == INIT
    ensures Owned(s')
  {
    forall v: Wid, g: Fid | Has1(s', v, g) ensures HandOk(s', v, g) && (v != w ==> Has1(s, v, g) && g != f) {
      if v != w {
        assert Has1(s, v, g);
      }
    }
    forall v: Wid, u: Wid, g: Fid | Has1(s', v, g) && Has1(s', u, g) ensures v == u {
      assert (v != w ==> Has1(s, v, g) && g != f) && (u != w ==> Has1(s, u, g) && g != f);
    }
    forall v | 0 <= v < |s.workers| && v != w && s.workers[v].pc.Picked? && s.workers[v].pc.job.Fib?
      ensures s'.fibers[s.workers[v].pc.job.f].state != EXEC
    {
      assert s.workers[v].pc.job == Fib(s.workers[v].pc.job.f);
    }
  }

  /** A fiber of which `w` is about to take hold is on nobody's hands: its swap-in assertion holds. */
  lemma FreeToRun(s: State, w: Wid)
    requires Single(s) && Owned(s) && CanLoop(s, w, SwapIn)
    ensures var f := s.workers[w].pc.job.f;
            s.fibers[f].state != EXEC && forall v :: !Has1(s, v, f)
  {
    var f := s.workers[w].pc.job.f;
    assert TokenAt(s, AtPicked(w), f);
    forall v: Wid ensures !Has1(s, v, f) {
      if Has1(s, v, f) {
        assert HandOk(s, v, f);
        assert TokenAt(s, AtBack(v), f);
      }
    }
  }

  lemma SwapInOwned(s: State, w: Wid)
    requires Single(s) && Owned(s) && CanLoop(s, w, SwapIn)
    ensures Owned(LoopOn(s, w, SwapIn))
  {
    var f, s' := s.workers[w].pc.job.f, LoopOn(s, w, SwapIn);
    FreeToRun(s, w);
    assert TokenAt(s, AtPicked(w), f);
    forall v | 0 <= v < |s.workers| && v != w
      ensures s.workers[v].pc != Picked(Fib(f)) && s.workers[v].cached != Some(f)
    {
      assert !TokenAt(s, AtPicked(v), f) && !TokenAt(s, AtCache(v), f);
    }
    assert !TokenAt(s, AtCache(w), f);
    OwnedMove(s, s', w, f);
  }

  lemma PickOwned(s: State, w: Wid, i: nat)
    requires Single(s) && Owned(s) && CanLoop(s, w, Pick(i))
    ensures Owned(LoopOn(s, w, Pick(i)))
  {
    var job := s.queue[i].job;
    if job.Fib? {
      assert TokenAt(s, Queued, job.f);
    }
    NoHand(s, LoopOn(s, w, Pick(i)), w);
  }

  /** A worker without a fiber on its hands goes to another such place; states do not change. */
  lemma NoHand(s: State, s': State, w: Wid)
    requires Owned(s) && w < |s.workers| && |s'.workers| == |s.workers| && SameStates(s, s')
    requires forall v | 0 <= v < |s.workers| && v != w :: s'.workers[v] == s.workers[v]
    requires !s'.workers[w].pc.Running? && !s'.workers[w].pc.Out? && !s'.workers[w].pc.Uncounted?
    requires s'.workers[w].pc.Picked? && s'.workers[w].pc.job.Fib? ==>
               s'.workers[w].pc.job.f in s'.fibers && s'.fibers[s'.workers[w].pc.job.f].state != EXEC
    requires s'.workers[w].cached == s.workers[w].cached
    ensures Owned(s')
  {
    forall v: Wid, g: Fid | Has1(s', v, g) ensures HandOk(s', v, g) && Has1(s, v, g) {
      assert Has1(s, v, g);
    }
  }

  lemma StartFunOwned(s: State, w: Wid, f: Fid)
    requires Single(s) && Owned(s) && CanLoop(s, w, StartFun(f))
    ensures Owned(LoopOn(s, w, StartFun(f)))
  {
    var s' := LoopOn(s, w, StartFun(f));
    forall v: Wid ensures !Has1(s, v, f) {
      assert Has1(s, v, f) ==> HandOk(s, v, f);
    }
    if f in s.fibers {
      assert TokenAt(s, AtCache(w), f);
      forall v | 0 <= v < |s.workers| && v != w
        ensures s.workers[v].pc != Picked(Fib(f)) && s.workers[v].cached != Some(f)
      {
        assert !TokenAt(s, AtPicked(v), f) && !TokenAt(s, AtCache(v), f);
      }
    }
    OwnedMove(s, s', w, f);
  }

  lemma SettleOwned(s: State, w: Wid)
    requires Single(s) && Owned(s) && CanLoop(s, w, Settle)
    ensures Owned(LoopOn(s, w, Settle))
  {
    var f, s' := s.workers[w].pc.f, LoopOn(s, w, Settle);
    SettledIs(s, w);
    assert Has1(s, w, f) && HandOk(s, w, f);
    forall v | 0 <= v < |s.workers| ensures s.workers[v].cached != Some(f) {
      assert s.fibers[f].state != INIT;
    }
    OwnedMove(s, s', w, f);
  }

  lemma OutOwned(s: State, s': State, w: Wid, st: FiberState)
    requires Single(s) && Owned(s) && RunsNow(s, w) && (st == READY || Ended(st) || st == EXEC)
    requires var f := Fiber0(s, w);
             s' == SetPc(SetState(s, f, st), w, Out(f, s.workers[w].pc.cb)).(calls := s'.calls)
    ensures Owned(s')
  {
    var f := Fiber0(s, w);
    assert Has1(s, w, f) && HandOk(s, w, f);
    OwnedMove(s, s', w, f);
  }

  lemma LoopOwned(s: State, w: Wid, loop: Loop)
    requires Single(s) && Owned(s) && CanLoop(s, w, loop)
    ensures Owned(LoopOn(s, w, loop))
  {
    var s' := LoopOn(s, w, loop);
    match loop
    case Pick(i) => PickOwned(s, w, i);
    case SwapIn => SwapInOwned(s, w);
    case Discard => NoHand(s, s', w);
    case StartFun(f) => StartFunOwned(s, w, f);
    case Decrement =>
      var f := s.workers[w].pc.f;
      assert Has1(s, w, f) && HandOk(s, w, f);
      OwnedMove(s, s', w, f);
    case Settle => SettleOwned(s, w);
    case EnterIdle => NoHand(s, s', w);
    case Sweep(_) => NoHand(s, s', w);
    case Flush => NoHand(s, s', w);
    case Dispatch(_) => OwnedSame(s, s');
    case LeaveIdle => NoHand(s, s', w);
    case Quit => NoHand(s, s', w);
  }

  lemma RunOwned(s: State, w: Wid, own: Own)
    requires Single(s) && Owned(s) && CanRun(s, w, own)
    ensures Owned(RunOn(s, w, own))
  {
    var s', f := RunOn(s, w, own), Fiber0(s, w);
    assert Has1(s, w, f) && HandOk(s, w, f);
    match own
    case Yield(ready) =>
      assert SetState(s, f, EXEC) == s;
      OutOwned(s, s', w, if ready then READY else EXEC);
    case Finish(except) => OutOwned(s, s', w, if except then EXCEPT else TERM);
    case _ => OwnedSame(s, s');
  }

  lemma HookOwned(s: State, w: Wid, hook: Hook)
    requires Single(s) && Owned(s) && CanHook(s, w, hook)
    ensures Owned(HookOn(s, w, hook))
  {
    var s', f := HookOn(s, w, hook), Fiber0(s, w);
    assert Has1(s, w, f) && HandOk(s, w, f);
    if hook == Park {
      assert SetState(s, f, EXEC) == s;
      OutOwned(s, s', w, EXEC);
    } else {
      OwnedSame(s, s');
    }
  }

  /** Every step keeps the fibers apart. */
  lemma StepOwned(s: State, step: Step)
    requires Single(s) && Owned(s) && Enabled(s, step)
    ensures Owned(Apply(s, step))
  {
    match step
    case Does(a, act) => OwnedSame(s, Apply(s, step));
    case Runs(w, own) => RunOwned(s, w, own);
    case Loops(w, loop) => LoopOwned(s, w, loop);
    case Hooked(w, hook) => HookOwned(s, w, hook);
  }

  // ---------- the active count ----------

  predicate Active(w: Worker) {
    w.pc.Picked? || w.pc.Running? || w.pc.Out?
  }

  function Busy(ws: seq<Worker>): nat {
    if ws == [] then 0 else Busy(ws[..|ws| - 1]) + if Active(ws[|ws| - 1]) then 1 else 0
  }

  lemma {:induction false} BusyUpdate(ws: seq<Worker>, w: nat, x: Worker)
    requires w < |ws|
    ensures Busy(ws[w := x]) == Busy(ws) + (if Active(x) then 1 else 0) - (if Active(ws[w]) then 1 else 0)
  {
    var n := |ws| - 1;
    if w < n {
      BusyUpdate(ws[..n], w, x);
      assert ws[w := x][..n] == ws[..n][w := x];
    } else {
      assert ws[w := x][..n] == ws[..n];
    }
  }

  lemma {:induction false} BusyZero(ws: seq<Worker>)
    ensures Busy(ws) == 0 <==> forall w | 0 <= w < |ws| :: !Active(ws[w])
  {
    if ws != [] {
      var n := |ws| - 1;
      BusyZero(ws[..n]);
      assert forall w | 0 <= w < n :: ws[..n][w] == ws[w];
    }
  }

  /** The count is the number of workers between pick and decrement. */
  ghost predicate Counted(s: State) {
    s.active == Busy(s.workers)
  }

  lemma CountedMove(s: State, s': State, w: Wid, x: Worker)
    requires Counted(s) && w < |s.workers| && s'.workers == s.workers[w := x]
    requires s'.active - s.active == (if Active(x) then 1 else 0) - if Active(s.workers[w]) then 1 else 0
    ensures Counted(s')
  {
    BusyUpdate(s.workers, w, x);
  }

  lemma SettleCounted(s: State, w: Wid)
    requires Counted(s) && CanLoop(s, w, Settle)
    ensures Counted(LoopOn(s, w, Settle))
  {
    var s' := LoopOn(s, w, Settle);
    CountedMove(s, s', w, s'.workers[w]);
  }

  lemma LoopCounted(s: State, w: Wid, loop: Loop)
    requires Counted(s) && CanLoop(s, w, loop)
    ensures Counted(LoopOn(s, w, loop))
  {
    var s' := LoopOn(s, w, loop);
    if loop.Settle? {
      SettleCounted(s, w);
    } else if !loop.Dispatch? {
      CountedMove(s, s', w, s'.workers[w]);
    }
  }

  lemma RunCounted(s: State, w: Wid, own: Own)
    requires Counted(s) && CanRun(s, w, own)
    ensures Counted(RunOn(s, w, own))
  {
    var s' := RunOn(s, w, own);
    if own.Yield? || own.Finish? {
      CountedMove(s, s', w, s'.workers[w]);
    }
  }

  lemma HookCounted(s: State, w: Wid, hook: Hook)
    requires Counted(s) && CanHook(s, w, hook)
    ensures Counted(HookOn(s, w, hook))
  {
    var s' := HookOn(s, w, hook);
    if hook.Park? {
      CountedMove(s, s', w, s'.workers[w]);
    }
  }

  /** Every step keeps the count. */
  lemma StepCounted(s: State, step: Step)
    requires Counted(s) && Enabled(s, step)
    ensures Counted(Apply(s, step))
  {
    match step
    case Does(_, _) =>
    case Runs(w, own) => RunCounted(s, w, own);
    case Loops(w, loop) => LoopCounted(s, w, loop);
    case Hooked(w, hook) => HookCounted(s, w, hook);
  }
}
