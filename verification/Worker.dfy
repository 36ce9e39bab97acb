/** One worker thread: its run loop over the task list, the fibers it swaps in, and the fiber it keeps for the
    next function. */
module Workers {
  import opened Basics
  import opened Jobs
  import Spec = WorkerSpec

  datatype Ending = Returns | Throws | Parks

  /** The code of a fiber or function, as far as the worker sees it: how often it yields READY, and how its last
      turn ends: it returns, an exception ends it, or it parks. */
  datatype Script = Script(id: nat, pauses: nat, ending: Ending)

  function Final(e: Ending): FiberState {
    match e
    case Returns => TERM
    case Throws => EXCEPT
    case Parks => HOLD
  }

  class Fiber {
    var state: FiberState
    var cb: Option<Script>

    constructor (cb: Script)
      ensures state == INIT && this.cb == Some(cb)
    {
      state, this.cb := INIT, Some(cb);
    }

    /** Only a fiber that has ended or not begun may be given a new function. */
    method Reset(cb: Option<Script>)
      requires state == TERM || state == EXCEPT || state == INIT
      modifies this
      ensures state == INIT && this.cb == cb
    {
      this.cb := cb;
      state := INIT;
    }

    /** Runs the fiber until it swaps out. One that parks is still EXEC then. */
    method SwapIn()
      requires state != EXEC && cb.Some?
      modifies this
      ensures if old(cb).value.pauses > 0 then
                state == READY && cb == Some(old(cb).value.(pauses := old(cb).value.pauses - 1))
              else
                match old(cb).value.ending
                case Returns => state == TERM && cb == None
                case Throws => state == EXCEPT && cb == old(cb)
                case Parks => state == EXEC && cb == old(cb)
    {
      state := EXEC;
      if cb.value.pauses > 0 {
        cb := Some(cb.value.(pauses := cb.value.pauses - 1));
        state := READY;
      } else if cb.value.ending.Throws? {
        state := EXCEPT;
      } else if cb.value.ending.Returns? {
        cb := None;
        state := TERM;
      }
    }

    ghost predicate Over()
      reads this
    {
      state == TERM || state == EXCEPT
    }
  }

  /** A task list entry: a fiber or a function. */
  datatype FiberAndFunc = FiberAndFunc(fiber: Fiber?, func: Option<Script>, thread: int)

  class Scheduler {
    var fibers: seq<FiberAndFunc>    // the task list
    var active: int
    ghost var log: seq<nat>          // the turns taken, by script
    ghost var tasks: seq<Spec.Task>  // the task list, as its order matters

    ghost function TaskOf(e: FiberAndFunc): Spec.Task
      reads if e.fiber == null then {} else {e.fiber}
    {
      if e.fiber != null then
        if e.fiber.Over() || e.fiber.cb.None? then Spec.Dead
        else Spec.Task(e.fiber.cb.value.id, e.fiber.cb.value.pauses)
      else if e.func.Some? then Spec.Task(e.func.value.id, e.func.value.pauses)
      else Spec.Dead
    }

    ghost function Fibers(): set<Fiber>
      reads `fibers
    {
      set e | e in fibers && e.fiber != null :: e.fiber
    }

    ghost predicate EntryOk(i: nat)
      requires i < |fibers| == |tasks|
      reads `fibers, `tasks, Fibers()
    {
      var e := fibers[i];
      && tasks[i] == TaskOf(e) && e.thread == ANY && (e.fiber == null <==> e.func.Some?)
      && (e.fiber != null ==> e.fiber.state != EXEC && (e.fiber.Over() || e.fiber.cb.Some?))
    }

    /** Thread-agnostic tasks, none running now, no fiber twice. */
    ghost predicate Valid()
      reads `fibers, `tasks, Fibers()
    {
      && |tasks| == |fibers|
      && (forall i | 0 <= i < |fibers| :: EntryOk(i))
      && (forall i, j | 0 <= i < j < |fibers| :: fibers[i].fiber != null ==> fibers[i].fiber != fibers[j].fiber)
    }

    /** scheduleNoLock: an entry with nothing to run is dropped; the result tells that the list was empty. */
    method ScheduleNoLock(e: FiberAndFunc) returns (needTickle: bool)
      modifies `fibers, `tasks
      ensures needTickle == (old(fibers) == [])
      ensures if e.fiber != null || e.func.Some? then fibers == old(fibers) + [e] && tasks == old(tasks) + [TaskOf(e)]
              else fibers == old(fibers) && tasks == old(tasks)
    {
      needTickle := fibers == [];
      if e.fiber != null || e.func.Some? {
        fibers := fibers + [e];
        tasks := tasks + [TaskOf(e)];
      }
    }

    ghost predicate Takes(e: FiberAndFunc, thread: int)
      reads if e.fiber == null then {} else {e.fiber}
    {
      (e.thread == ANY || e.thread == thread) && !(e.fiber != null && e.fiber.state == EXEC)
    }

    /** Picks the first entry this thread may run: one meant for another thread, or whose fiber is running, is
        passed over. Others are told when an entry for another thread was passed, or one is left behind the pick. */
    method Pick(thread: int) returns (ft: Option<FiberAndFunc>, tickleMe: bool, ghost at: nat)
      requires |tasks| == |fibers|
      modifies `fibers, `tasks, `active
      ensures at <= |old(fibers)| && (ft.Some? <==> at < |old(fibers)|)
      ensures forall j | 0 <= j < at :: !Takes(old(fibers)[j], thread)
      ensures ft.None? ==> fibers == old(fibers) && tasks == old(tasks) && active == old(active)
      ensures ft.Some? ==>
                && ft.value == old(fibers)[at] && Takes(ft.value, thread) && active == old(active) + 1
                && fibers == old(fibers)[..at] + old(fibers)[at + 1..]
                && tasks == old(tasks)[..at] + old(tasks)[at + 1..]
      ensures tickleMe <==> (ft.Some? && at < |fibers|) || exists j | 0 <= j < at :: Foreign(old(fibers)[j], thread)
    {
      ft, tickleMe := None, false;
      var i: nat := 0;
      while i < |fibers|
        invariant i <= |fibers| && fibers == old(fibers) && tasks == old(tasks) && active == old(active)
        invariant forall j | 0 <= j < i :: !Takes(fibers[j], thread)
        invariant tickleMe <==> exists j | 0 <= j < i :: Foreign(fibers[j], thread)
      {
        var e := fibers[i];
        at := i;
        if e.thread != ANY && e.thread != thread {
          i := i + 1;
          tickleMe := true;
        } else if e.fiber != null && e.fiber.state == EXEC {
          i := i + 1;
        } else {
          ft := Some(e);
          fibers := fibers[..i] + fibers[i + 1..];
          tasks := tasks[..i] + tasks[i + 1..];
          active := active + 1;
          tickleMe := tickleMe || i < |fibers|;
          return;
        }
      }
      at := i;
    }

    predicate Foreign(e: FiberAndFunc, thread: int) {
      e.thread != ANY && e.thread != thread
    }

    /** With thread-agnostic tasks, none of them running, the pick is the first. */
    method TakeFirst(thread: int) returns (ft: Option<FiberAndFunc>)
      requires Valid()
      modifies `fibers, `tasks, `active
      ensures Valid() && (ft.None? <==> old(fibers) == [])
      ensures ft.None? ==> tasks == old(tasks) && fibers == [] && active == old(active)
      ensures ft.Some? ==>
                && ft.value == old(fibers)[0] && fibers == old(fibers)[1..] && active == old(active) + 1
                && old(EntryOk(0)) && tasks == old(tasks)[1..]
                && (ft.value.fiber != null ==> ft.value.fiber in old(Fibers()) && ft.value.fiber !in Fibers())
                && (forall f | f in old(Fibers()) :: f == ft.value.fiber || f in Fibers())
    {
      assert fibers != [] ==> EntryOk(0);
      var tickleMe;
      ghost var at;
      ft, tickleMe, at := Pick(thread);
      if ft.Some? {
        assert fibers == old(fibers)[1..] && tasks == old(tasks)[1..];
        forall i: nat | i < |fibers| ensures EntryOk(i) {
          assert old(EntryOk(i + 1));
        }
        forall f | f in old(Fibers()) ensures f == ft.value.fiber || f in Fibers() {
          var i :| 0 <= i < |old(fibers)| && old(fibers)[i].fiber == f;
          assert i > 0 ==> fibers[i - 1] == old(fibers)[i];
        }
        forall e | e in fibers && ft.value.fiber != null ensures e.fiber != ft.value.fiber {
          var i :| 0 <= i < |fibers| && fibers[i] == e;
          assert old(fibers)[i + 1] == e;
        }
      }
    }

    /** Another entry at the back leaves the others as they are. */
    twostate lemma OneMore(f: Fiber)
      requires old(Valid()) && f !in old(Fibers()) && (forall g | g in old(Fibers()) :: unchanged(g))
      requires fibers == old(fibers) + [FiberAndFunc(f, None, ANY)]
      requires tasks == old(tasks) + [TaskOf(FiberAndFunc(f, None, ANY))]
      requires f.state == READY && f.cb.Some?
      ensures Valid() && Fibers() == old(Fibers()) + {f}
    {
      forall i: nat | i < |fibers| ensures EntryOk(i) {
        if i < |old(fibers)| {
          assert old(EntryOk(i));
          assert old(fibers)[i].fiber != null ==> old(fibers)[i].fiber in old(Fibers());
        }
      }
      assert fibers[|old(fibers)|].fiber == f;
      forall g | g in old(Fibers()) ensures g in Fibers() {
        var i :| 0 <= i < |old(fibers)| && old(fibers)[i].fiber == g;
        assert fibers[i] == old(fibers)[i];
      }
    }

    twostate lemma SameList()
      requires old(Valid()) && fibers == old(fibers) && tasks == old(tasks)
      requires forall g | g in old(Fibers()) :: unchanged(g)
      ensures Valid()
    {
      forall i: nat | i < |fibers| ensures EntryOk(i) {
        assert old(EntryOk(i));
        assert old(fibers)[i].fiber != null ==> old(fibers)[i].fiber in old(Fibers());
      }
    }

    /** The branch for a fiber: one turn, then it is queued again when READY, and put on hold when it parked. */
    method RunFiber(f: Fiber)
      requires Valid() && f !in Fibers() && f.state != EXEC && !f.Over() && f.cb.Some?
      modifies this, f
      ensures Valid() && active == old(active) - 1 && log == old(log) + [old(f.cb).value.id]
      ensures tasks == old(tasks) + Spec.Left(Spec.Task(old(f.cb).value.id, old(f.cb).value.pauses))
      ensures if old(f.cb).value.pauses > 0 then
                && Fibers() == old(Fibers()) + {f} && !f.Over() && f.cb.Some?
                && f.cb.value.ending == old(f.cb).value.ending
              else
                Fibers() == old(Fibers()) && f.state == Final(old(f.cb).value.ending)
    {
      log := log + [f.cb.value.id];
      f.SwapIn();
      active := active - 1;
      if f.state == READY {
        var needTickle := ScheduleNoLock(FiberAndFunc(f, None, ANY));
        OneMore(f);
      } else {
        if f.state != TERM && f.state != EXCEPT {
          f.state := HOLD;
        }
        SameList();
      }
    }

    /** The branch for a function: a turn of the kept fiber or of a new one. It is kept again when it ended,
        queued when READY, and put on hold when it parked. */
    method RunFunc(cb: Script, kept: Fiber?) returns (keep: Fiber?)
      requires Valid() && (kept != null ==> kept.state == INIT && kept !in Fibers())
      modifies this, kept
      ensures Valid() && active == old(active) - 1 && log == old(log) + [cb.id]
      ensures tasks == old(tasks) + Spec.Left(Spec.Task(cb.id, cb.pauses))
      ensures keep != null <==> cb.pauses == 0 && !cb.ending.Parks?
      ensures keep != null ==> keep.state == INIT && keep !in Fibers() && (keep == kept || fresh(keep))
      ensures forall f | f in Fibers() :: f in old(Fibers()) || f == kept || fresh(f)
      ensures old(Fibers()) <= Fibers()
    {
      var f: Fiber;
      if kept != null {
        f := kept;
        f.Reset(Some(cb));
      } else {
        f := new Fiber(cb);
      }
      SameList();
      keep := RunMade(f, cb);
    }

    /** The rest of that branch. */
    method RunMade(f: Fiber, cb: Script) returns (keep: Fiber?)
      requires Valid() && f !in Fibers() && f.state == INIT && f.cb == Some(cb)
      modifies this, f
      ensures Valid() && active == old(active) - 1 && log == old(log) + [cb.id]
      ensures tasks == old(tasks) + Spec.Left(Spec.Task(cb.id, cb.pauses))
      ensures keep == if cb.pauses == 0 && !cb.ending.Parks? then f else null
      ensures keep != null ==> keep.state == INIT
      ensures Fibers() == if cb.pauses > 0 then old(Fibers()) + {f} else old(Fibers())
    {
      log := log + [cb.id];
      f.SwapIn();
      active := active - 1;
      if f.state == READY {
        var needTickle := ScheduleNoLock(FiberAndFunc(f, None, ANY));
        OneMore(f);
        keep := null;
      } else if f.state == EXCEPT || f.state == TERM {
        f.Reset(None);
        SameList();
        keep := f;
      } else {
        f.state := HOLD;
        SameList();
        keep := null;
      }
    }

    /** A fiber on the list has a script, unless it has ended. */
    lemma OnList(f: Fiber)
      requires Valid() && f in Fibers()
      ensures f.Over() || f.cb.Some?
    {
      var i :| 0 <= i < |fibers| && fibers[i].fiber == f;
      assert EntryOk(i);
    }

    /** One round of the run loop, when the list is not empty: the first task has a turn. */
    method OneTurn(thread: int, kept: Fiber?) returns (keep: Fiber?)
      requires Valid() && fibers != [] && (kept != null ==> kept.state == INIT && kept !in Fibers())
      modifies this, Fibers(), kept
      ensures Valid() && active == old(active) && log == old(log) + Spec.Runs(old(tasks)[0])
      ensures tasks == Spec.Turn(old(tasks))
      ensures keep != null ==> keep.state == INIT && keep !in Fibers() && (keep == kept || fresh(keep))
      ensures forall f | f in Fibers() :: f in old(Fibers()) || f == kept || fresh(f)
      ensures forall f | f in old(Fibers()) :: Along(f, old(f.state), old(f.cb))
    {
      keep := kept;
      forall f | f in Fibers() ensures f.Over() || f.cb.Some? {
        OnList(f);
      }
      var ft := TakeFirst(thread);
      var e := ft.value;
      if e.fiber != null && e.fiber.state != TERM && e.fiber.state != EXCEPT {
        RunFiber(e.fiber);
      } else if e.func.Some? {
        keep := RunFunc(e.func.value, keep);
      } else {
        active := active - 1;
      }
    }

    /** The run loop until there is nothing to pick: it drains the task list in rounds, every fiber on it that had
        not ended runs to its end, and the active count is back where it was. */
    method Drain(thread: int, kept: Fiber?) returns (keep: Fiber?)
      requires Valid() && (kept != null ==> kept.state == INIT && kept !in Fibers())
      modifies this, Fibers(), kept
      ensures fibers == [] && active == old(active) && log == old(log) + Spec.Rounds(old(tasks))
      ensures forall f | f in old(Fibers()) :: f.state == Outcome(old(f.state), old(f.cb))
      ensures forall f | f in old(Fibers()) && !old(f.Over()) ::
                && old(f.cb).Some?
                && (old(f.cb).value.ending.Returns? ==> f.state == TERM)
                && (old(f.cb).value.ending.Throws? ==> f.state == EXCEPT)
                && (old(f.cb).value.ending.Parks? ==> f.state == HOLD)
    {
      keep := kept;
      ghost var all, rounds, done := Fibers(), Spec.Rounds(tasks), [];
      Spec.RoundRobin(tasks);
      forall f | f in all ensures Along(f, f.state, f.cb) {
        OnList(f);
      }
      while fibers != []
        invariant Valid() && active == old(active) && log == old(log) + done && rounds == done + Spec.Log(tasks)
        invariant keep != null ==> keep.state == INIT && keep !in Fibers() && (keep == kept || fresh(keep))
        invariant forall f | f in Fibers() :: f in all || f == kept || fresh(f)
        invariant forall f | f in all :: Along(f, old(f.state), old(f.cb))
        decreases Spec.Weight(tasks)
      {
        Spec.Regroup(old(log), done, Spec.Runs(tasks[0]));
        done := Spec.DoneTurn(rounds, done, tasks);
        label turn:
        keep := OneTurn(thread, keep);
        forall f | f in all ensures Along(f, old(f.state), old(f.cb)) {
          var state, cb := old(f.state), old(f.cb);
          assert old@turn(Along(f, state, cb));
          assert f !in old@turn(Fibers()) ==> f.state == old@turn(f.state) && f !in Fibers();
        }
      }
    }

    /** Where a fiber of the list is now, from an earlier state and script. */
    ghost predicate Along(f: Fiber, state: FiberState, cb: Option<Script>)
      reads `fibers, f
    {
      if state == TERM || state == EXCEPT then f.state == state
      else if f in Fibers() then !f.Over() && f.cb.Some? && cb.Some? && f.cb.value.ending == cb.value.ending
      else cb.Some? && f.state == Final(cb.value.ending)
    }
  }

  /** How a fiber of the list ends. */
  ghost function Outcome(state: FiberState, cb: Option<Script>): FiberState {
    if state == TERM || state == EXCEPT || cb.None? then state else Final(cb.value.ending)
  }
}
