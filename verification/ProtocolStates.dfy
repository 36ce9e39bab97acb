/** Where fibers are by their state: one in EXEC is on a worker's hands, one in READY is in line to run. */
module ProtocolStates {
  import opened Basics
  import opened Jobs
  import opened Protocol
  import opened ProtocolTokens

  /** A fiber is EXEC only while some worker has it on its hands. */
  ghost predicate Housed(s: State) {
    forall f | f in s.fibers && s.fibers[f].state == EXEC :: exists w :: Has1(s, w, f)
  }

  ghost predicate Listed(q: seq<Entry>, job: Job) {
    exists i :: 0 <= i < |q| && q[i].job == job
  }

  ghost predicate Picks(s: State, w: Wid, f: Fid) {
    w < |s.workers| && s.workers[w].pc == Picked(Fib(f))
  }

  ghost predicate Swapped(s: State, w: Wid, f: Fid) {
    w < |s.workers| && (s.workers[w].pc.Out? || s.workers[w].pc.Uncounted?) && s.workers[w].pc.f == f
  }

  /** The fiber itself is queued, or picked, or its worker has not yet requeued it. */
  ghost predicate InLine(s: State, f: Fid) {
    Listed(s.queue, Fib(f)) || (exists w :: Picks(s, w, f)) || exists w :: Swapped(s, w, f)
  }

  /** A fiber that yielded READY is in line until it runs again. */
  ghost predicate Lined(s: State) {
    forall f | f in s.fibers && s.fibers[f].state == READY :: InLine(s, f)
  }

  // ---------- EXEC ----------

  lemma HousedSame(s: State, s': State)
    requires Housed(s) && s'.workers == s.workers
    requires forall f | f in s'.fibers && s'.fibers[f].state == EXEC :: f in s.fibers && s.fibers[f].state == EXEC
    ensures Housed(s')
  {
    forall f | f in s'.fibers && s'.fibers[f].state == EXEC ensures exists w :: Has1(s', w, f) {
      var w :| Has1(s, w, f);
      assert Has1(s', w, f);
    }
  }

  /** One worker moves on; a fiber that is EXEC then is on its hands, or was EXEC before on another's. */
  lemma HousedMove(s: State, s': State, w: Wid)
    requires Housed(s) && w < |s.workers| && |s'.workers| == |s.workers|
    requires forall v | 0 <= v < |s.workers| && v != w :: s'.workers[v] == s.workers[v]
    requires forall f | f in s'.fibers && s'.fibers[f].state == EXEC ::
               Has1(s', w, f) || (f in s.fibers && s.fibers[f].state == EXEC && !Has1(s, w, f))
    ensures Housed(s')
  {
    forall f | f in s'.fibers && s'.fibers[f].state == EXEC ensures exists v :: Has1(s', v, f) {
      if !Has1(s', w, f) {
        var v :| Has1(s, v, f);
        assert Has1(s', v, f);
      }
    }
  }

  lemma LoopHoused(s: State, w: Wid, loop: Loop)
    requires Housed(s) && CanLoop(s, w, loop)
    ensures Housed(LoopOn(s, w, loop))
  {
    var s' := LoopOn(s, w, loop);
    match loop
    case Settle =>
      SettledIs(s, w);
      HousedMove(s, s', w);
    case Dispatch(_) => HousedSame(s, s');
    case _ => HousedMove(s, s', w);
  }

  lemma RunHoused(s: State, w: Wid, own: Own)
    requires Housed(s) && CanRun(s, w, own)
    ensures Housed(RunOn(s, w, own))
  {
    if own.Yield? || own.Finish? {
      HousedMove(s, RunOn(s, w, own), w);
    } else {
      HousedSame(s, RunOn(s, w, own));
    }
  }

  lemma HookHoused(s: State, w: Wid, hook: Hook)
    requires Housed(s) && CanHook(s, w, hook)
    ensures Housed(HookOn(s, w, hook))
  {
    if hook.Park? {
      HousedMove(s, HookOn(s, w, hook), w);
    } else {
      HousedSame(s, HookOn(s, w, hook));
    }
  }

  lemma StepHoused(s: State, step: Step)
    requires Housed(s) && Enabled(s, step)
    ensures Housed(Apply(s, step))
  {
    match step
    case Does(_, _) => HousedSame(s, Apply(s, step));
    case Runs(w, own) => RunHoused(s, w, own);
    case Loops(w, loop) => LoopHoused(s, w, loop);
    case Hooked(w, hook) => HookHoused(s, w, hook);
  }

  // ---------- READY ----------

  lemma ListedAppend(q: seq<Entry>, r: seq<Entry>, job: Job)
    ensures Listed(q + r, job) <==> Listed(q, job) || Listed(r, job)
  {
    if Listed(q, job) {
      var i :| 0 <= i < |q| && q[i].job == job;
      assert (q + r)[i] == q[i];
    }
    if Listed(r, job) {
      var i :| 0 <= i < |r| && r[i].job == job;
      assert (q + r)[|q| + i] == r[i];
    }
  }

  lemma ListedWithout(q: seq<Entry>, i: nat, job: Job)
    requires i < |q| && Listed(q, job) && q[i].job != job
    ensures Listed(Without(q, i), job)
  {
    var k :| 0 <= k < |q| && q[k].job == job;
    assert Without(q, i)[if k < i then k else k - 1] == q[k];
  }

  /** Entries are only added, and no worker moves. */
  lemma LinedGrows(s: State, s': State, r: seq<Entry>)
    requires Lined(s) && s'.workers == s.workers && s'.queue == s.queue + r
    requires forall f | f in s'.fibers && s'.fibers[f].state == READY :: f in s.fibers && s.fibers[f].state == READY
    ensures Lined(s')
  {
    forall f | f in s'.fibers && s'.fibers[f].state == READY ensures InLine(s', f) {
      ListedAppend(s.queue, r, Fib(f));
      KeptInLine(s, s', f);
    }
  }

  lemma KeptInLine(s: State, s': State, f: Fid)
    requires InLine(s, f) && s'.workers == s.workers && (Listed(s.queue, Fib(f)) ==> Listed(s'.queue, Fib(f)))
    ensures InLine(s', f)
  {
    if w :| Picks(s, w, f) {
      assert Picks(s', w, f);
    }
    if w :| Swapped(s, w, f) {
      assert Swapped(s', w, f);
    }
  }

  /** One worker moves on; a fiber that is READY then is in line, or was READY before and in line elsewhere. */
  lemma LinedMove(s: State, s': State, w: Wid)
    requires Lined(s) && w < |s.workers| && |s'.workers| == |s.workers|
    requires forall v | 0 <= v < |s.workers| && v != w :: s'.workers[v] == s.workers[v]
    requires forall f | f in s'.fibers && s'.fibers[f].state == READY ::
               InLine(s', f) || (&& f in s.fibers && s.fibers[f].state == READY
                                 && !Picks(s, w, f) && !Swapped(s, w, f)
                                 && (Listed(s.queue, Fib(f)) ==> Listed(s'.queue, Fib(f))))
    ensures Lined(s')
  {
    forall f | f in s'.fibers && s'.fibers[f].state == READY ensures InLine(s', f) {
      if !InLine(s', f) {
        if v :| Picks(s, v, f) {
          assert Picks(s', v, f);
        } else if v :| Swapped(s, v, f) {
          assert Swapped(s', v, f);
        }
      }
    }
  }

  lemma PickLined(s: State, w: Wid, i: nat)
    requires Lined(s) && CanLoop(s, w, Pick(i))
    ensures Lined(LoopOn(s, w, Pick(i)))
  {
    var s' := LoopOn(s, w, Pick(i));
    forall f | f in s'.fibers && s'.fibers[f].state == READY
      ensures Picks(s', w, f) || (Listed(s.queue, Fib(f)) ==> Listed(s'.queue, Fib(f)))
    {
      if Listed(s.queue, Fib(f)) && s.queue[i].job != Fib(f) {
        ListedWithout(s.queue, i, Fib(f));
      }
    }
    LinedMove(s, s', w);
  }

  lemma SettleLined(s: State, w: Wid)
    requires Lined(s) && CanLoop(s, w, Settle)
    ensures Lined(LoopOn(s, w, Settle))
  {
    var s', f := LoopOn(s, w, Settle), s.workers[w].pc.f;
    SettledIs(s, w);
    var r := if s.fibers[f].state == READY then [Entry(Fib(f), ANY)] else [];
    assert s'.queue == s.queue + r;
    forall g | g in s'.fibers && s'.fibers[g].state == READY
      ensures if g == f then Listed(s'.queue, Fib(g)) else Listed(s.queue, Fib(g)) ==> Listed(s'.queue, Fib(g))
    {
      ListedAppend(s.queue, r, Fib(g));
      assert g == f ==> r[0].job == Fib(f);
    }
    LinedMove(s, s', w);
  }

  lemma FlushLined(s: State, w: Wid)
    requires Lined(s) && CanLoop(s, w, Flush)
    ensures Lined(LoopOn(s, w, Flush))
  {
    var s' := LoopOn(s, w, Flush);
    forall f ensures Listed(s.queue, Fib(f)) ==> Listed(s'.queue, Fib(f)) {
      ListedAppend(s.queue, s.workers[w].pc.hand, Fib(f));
    }
    LinedMove(s, s', w);
  }

  lemma DecrementLined(s: State, w: Wid)
    requires Lined(s) && CanLoop(s, w, Decrement)
    ensures Lined(LoopOn(s, w, Decrement))
  {
    var s' := LoopOn(s, w, Decrement);
    assert Swapped(s', w, s.workers[w].pc.f);
    LinedMove(s, s', w);
  }

  lemma LoopLined(s: State, w: Wid, loop: Loop)
    requires Lined(s) && CanLoop(s, w, loop)
    ensures Lined(LoopOn(s, w, loop))
  {
    var s' := LoopOn(s, w, loop);
    match loop
    case Pick(i) => PickLined(s, w, i);
    case Decrement => DecrementLined(s, w);
    case Settle => SettleLined(s, w);
    case Flush => FlushLined(s, w);
    case Dispatch(k) => LinedGrows(s, s', [Entry(s.armed[k].job, ANY)]);
    case _ => LinedMove(s, s', w);
  }

  lemma RunLined(s: State, w: Wid, own: Own)
    requires Lined(s) && CanRun(s, w, own)
    ensures Lined(RunOn(s, w, own))
  {
    var s' := RunOn(s, w, own);
    if own.Yield? || own.Finish? {
      assert Swapped(s', w, Fiber0(s, w));
      LinedMove(s, s', w);
    } else {
      LinedGrows(s, s', s'.queue[|s.queue|..]);
    }
  }

  lemma HookLined(s: State, w: Wid, hook: Hook)
    requires Lined(s) && CanHook(s, w, hook)
    ensures Lined(HookOn(s, w, hook))
  {
    var s' := HookOn(s, w, hook);
    if hook.Park? {
      assert Swapped(s', w, Fiber0(s, w));
      LinedMove(s, s', w);
    } else {
      LinedGrows(s, s', []);
    }
  }

  lemma StepLined(s: State, step: Step)
    requires Lined(s) && Enabled(s, step)
    ensures Lined(Apply(s, step))
  {
    match step
    case Does(_, _) => LinedGrows(s, Apply(s, step), Apply(s, step).queue[|s.queue|..]);
    case Runs(w, own) => RunLined(s, w, own);
    case Loops(w, loop) => LoopLined(s, w, loop);
    case Hooked(w, hook) => HookLined(s, w, hook);
  }
}
