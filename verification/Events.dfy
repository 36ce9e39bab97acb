/** The event table of the I/O manager: registration bits, event contexts, the kernel's interest set and the
    pending count, changed in place and kept in step. */
module IOManagers {
  import opened Basics
  import opened Jobs
  import Spec = EventSpec

  type Key = Spec.Key

  /** What a registration runs when its event comes, and on which scheduler. */
  datatype Reg = Reg(scheduler: nat, job: Job)

  /** Empty, or a scheduler with a fiber or a function. */
  datatype EventContext = EventContext(scheduler: Option<nat>, fiber: Option<nat>, func: Option<Code>)

  function Context(r: Option<Reg>): EventContext {
    match r
    case None => EventContext(None, None, None)
    case Some(Reg(s, Fib(f))) => EventContext(Some(s), Some(f), None)
    case Some(Reg(s, Fun(code))) => EventContext(Some(s), None, Some(code))
  }

  /** The bits READ and WRITE of an event mask. */
  datatype Mask = Mask(read: bool, write: bool) {
    predicate Has(d: Spec.Dir) {
      if d.Read? then read else write
    }

    /** With this bit set or cleared. */
    function But(d: Spec.Dir, on: bool): (m: Mask)
      ensures m.Has(d) == on && forall e: Spec.Dir | e != d :: m.Has(e) == Has(e)
    {
      if d.Read? then Mask(on, write) else Mask(read, on)
    }
  }

  const NONE := Mask(false, false)

  function Other(d: Spec.Dir): Spec.Dir {
    if d.Read? then Spec.Write else Spec.Read
  }

  datatype Op = Ctl_Add | Ctl_Mod | Ctl_Del

  /** What became of a call: `Aborted` stands for a failed assertion. */
  datatype Result = Done | Refused | Aborted

  class FdContext {
    const fd: nat
    var read: EventContext
    var write: EventContext
    var curEvents: Mask

    constructor (fd: nat)
      ensures this.fd == fd && Agrees(None, None)
    {
      this.fd, read, write, curEvents := fd, Context(None), Context(None), NONE;
    }

    /** The bits and contexts are those of these two registrations. */
    ghost predicate Agrees(r: Option<Reg>, w: Option<Reg>)
      reads this
    {
      && curEvents == Mask(r.Some?, w.Some?)
      && read == Context(r) && write == Context(w)
    }

    function Get(d: Spec.Dir): EventContext
      reads this
    {
      if d.Read? then read else write
    }

    method Set(d: Spec.Dir, c: EventContext)
      modifies this`read, this`write
      ensures Get(d) == c && Get(Other(d)) == old(Get(Other(d)))
    {
      if d.Read? { read := c; } else { write := c; }
    }
  }

  class IOManager {
    var fdContexts: seq<FdContext>
    var kernel: map<nat, Mask>            // the kernel's interest set, with the mask of each descriptor
    var pending: nat
    var queues: map<nat, seq<Entry>>     // the task lists of the schedulers
    ghost var armed: map<Key, Reg>

    ghost predicate FdOk(i: nat)
      requires i < |fdContexts|
      reads this, fdContexts
    {
      var c, r, w := fdContexts[i], Slot(Spec.Key(i, Spec.Read)), Slot(Spec.Key(i, Spec.Write));
      && c.fd == i && c.Agrees(r, w)
      && (i in kernel <==> c.curEvents != NONE)
      && (i in kernel ==> kernel[i] == c.curEvents)
    }

    ghost function Slot(k: Key): Option<Reg>
      reads this
    {
      if k in armed then Some(armed[k]) else None
    }

    /** For every descriptor: an event bit is set, its context is occupied and the event is registered, all or
        none of these; the kernel watches it exactly when a bit is set, with these bits. The pending count is
        the number of registrations. */
    ghost predicate Valid()
      reads this, fdContexts
    {
      && Spec.FIRST_SIZE <= |fdContexts|
      && (forall i, j | 0 <= i < j < |fdContexts| :: fdContexts[i] != fdContexts[j])
      && (forall i | 0 <= i < |fdContexts| :: FdOk(i))
      && (forall i | i in kernel :: i < |fdContexts|)
      && (forall k | k in armed :: k.fd < |fdContexts|)
      && pending == |armed|
    }

    ghost function View(): Spec.Table<Reg>
      reads this
    {
      Spec.Table(|fdContexts|, armed)
    }

    constructor ()
      ensures Valid() && View() == Spec.Table(Spec.FIRST_SIZE, map[]) && forall c | c in fdContexts :: fresh(c)
    {
      fdContexts, kernel, pending, queues, armed := [], map[], 0, map[], map[];
      new;
      ContextResize(Spec.FIRST_SIZE);
    }

    method ContextResize(size: nat)
      requires (forall i, j | 0 <= i < j < |fdContexts| :: fdContexts[i] != fdContexts[j])
      requires (forall i | 0 <= i < |fdContexts| :: FdOk(i)) && |fdContexts| <= size
      requires (forall i | i in kernel :: i < |fdContexts|) && (forall k | k in armed :: k.fd < |fdContexts|)
      modifies `fdContexts
      ensures |fdContexts| == size && old(fdContexts) <= fdContexts
      ensures forall j | |old(fdContexts)| <= j < size :: fresh(fdContexts[j])
      ensures forall i, j | 0 <= i < j < size :: fdContexts[i] != fdContexts[j]
      ensures forall i | 0 <= i < size :: FdOk(i)
    {
      while |fdContexts| < size
        invariant |fdContexts| <= size && old(fdContexts) <= fdContexts
        invariant forall j | |old(fdContexts)| <= j < |fdContexts| :: fresh(fdContexts[j])
        invariant forall i, j | 0 <= i < j < |fdContexts| :: fdContexts[i] != fdContexts[j]
        invariant forall i | 0 <= i < |fdContexts| :: FdOk(i)
        invariant forall c | c in old(fdContexts) :: unchanged(c)
      {
        ghost var n: nat := |fdContexts|;
        label Before:
        var c := new FdContext(|fdContexts|);
        assert Slot(Spec.Key(n, Spec.Read)) == None && Slot(Spec.Key(n, Spec.Write)) == None;
        fdContexts := fdContexts + [c];
        forall i: nat | i <= n ensures FdOk(i) {
          assert i < n ==> old@Before(FdOk(i));
        }
      }
    }

    /** epoll_ctl: refuses an illegal operation, and may refuse any other. */
    method EpollCtl(op: Op, fd: nat, mask: Mask, refuse: bool) returns (ok: bool)
      modifies `kernel
      ensures ok <==> !refuse && (op.Ctl_Add? <==> fd !in old(kernel))
      ensures kernel == if !ok then old(kernel)
                        else if op.Ctl_Del? then old(kernel) - {fd}
                        else old(kernel)[fd := mask]
    {
      ok := !refuse && (op.Ctl_Add? == (fd !in kernel));
      if ok {
        kernel := if op.Ctl_Del? then kernel - {fd} else kernel[fd := mask];
      }
    }

    /** schedule: to the back of a scheduler's task list, for any thread. */
    method Schedule(r: Reg)
      modifies `queues
      ensures queues == Queued(old(queues), [r])
    {
      queues := queues[r.scheduler := (if r.scheduler in queues then queues[r.scheduler] else [])
          + [Entry(r.job, ANY)]];
    }

    /** Registering keeps the table in step when the descriptor's context and the kernel's mask follow. */
    twostate lemma OneFdChanged(fd: nat)
      requires old(Valid()) && fdContexts == old(fdContexts) && fd < |fdContexts|
      requires forall k: Key | k.fd != fd ::
                 (k in armed <==> k in old(armed)) && (k in armed ==> armed[k] == old(armed)[k])
      requires forall i | i != fd ::
                 (i in kernel <==> i in old(kernel)) && (i in kernel ==> kernel[i] == old(kernel)[i])
      requires FdOk(fd) && forall i | 0 <= i < |fdContexts| && i != fd :: unchanged(fdContexts[i])
      requires pending == |armed|
      ensures Valid()
    {
      forall i: nat | i < |fdContexts| && i != fd ensures FdOk(i) {
        assert old(FdOk(i));
        assert Slot(Spec.Key(i, Spec.Read)) == old(Slot(Spec.Key(i, Spec.Read)));
        assert Slot(Spec.Key(i, Spec.Write)) == old(Slot(Spec.Key(i, Spec.Write)));
      }
    }

    /** addEvent; `fiber` is the running fiber, registered when there is no callback. */
    method AddEvent(fd: nat, d: Spec.Dir, scheduler: nat, fiber: nat, func: Option<Code>, refuse: bool)
      returns (rt: Result)
      requires Valid()
      modifies `fdContexts, `kernel, `pending, `armed, fdContexts
      ensures Valid() && forall c | c in fdContexts && c !in old(fdContexts) :: fresh(c)
      ensures rt == if Spec.Key(fd, d) in old(armed) then Aborted else if refuse then Refused else Done
      ensures rt == Done ==>
                Spec.Next(old(View()), Spec.Added(Spec.Key(fd, d), Registration(scheduler, fiber, func)), View())
      ensures rt == Done ==>
                && Spec.Key(fd, d) in armed && armed[Spec.Key(fd, d)].scheduler == scheduler
                && armed[Spec.Key(fd, d)].job == match func case Some(code) => Fun(code) case None => Fib(fiber)
      ensures rt == Refused ==> Spec.Next(old(View()), Spec.Failed(fd), View())
    {
      if fd >= |fdContexts| {
        ContextResize(fd * 3 / 2);
      }
      var c := fdContexts[fd];
      assert c in old(fdContexts) || fresh(c);
      rt := Arm(c, fd, d, scheduler, fiber, func, refuse);
    }

    /** addEvent, once the descriptor's context is found. */
    method Arm(c: FdContext, fd: nat, d: Spec.Dir, scheduler: nat, fiber: nat, func: Option<Code>, refuse: bool)
      returns (rt: Result)
      requires Valid() && fd < |fdContexts| && c == fdContexts[fd]
      modifies `kernel, `pending, `armed, c
      ensures Valid()
      ensures rt == if Spec.Key(fd, d) in old(armed) then Aborted else if refuse then Refused else Done
      ensures armed == if rt == Done then old(armed)[Spec.Key(fd, d) := Registration(scheduler, fiber, func)]
                       else old(armed)
    {
      ghost var k, r := Spec.Key(fd, d), Registration(scheduler, fiber, func);
      assert FdOk(fd);
      if c.curEvents.Has(d) {
        return Aborted;
      }
      var ok := EpollCtl(if c.curEvents != NONE then Ctl_Mod else Ctl_Add, fd, c.curEvents.But(d, true), refuse);
      if !ok {
        return Refused;
      }
      pending := pending + 1;
      c.curEvents := c.curEvents.But(d, true);
      c.Set(d, if func.Some? then EventContext(Some(scheduler), None, func)
               else EventContext(Some(scheduler), Some(fiber), None));
      armed := armed[k := r];
      rt := Done;
      OneFdChanged(fd);
    }

    /** Clears one bit in the kernel and in the context: MOD when bits are left, else DEL. */
    method Unwatch(c: FdContext, fd: nat, left: Mask, refuse: bool) returns (ok: bool)
      requires Valid() && fd < |fdContexts| && c == fdContexts[fd] && c.curEvents != NONE
      modifies `kernel
      ensures ok <==> !refuse
      ensures kernel == if refuse then old(kernel)
                        else if left != NONE then old(kernel)[fd := left]
                        else old(kernel) - {fd}
    {
      assert FdOk(fd);
      ok := EpollCtl(if left != NONE then Ctl_Mod else Ctl_Del, fd, left, refuse);
    }

    method DelEvent(fd: nat, d: Spec.Dir, refuse: bool) returns (ret: bool)
      requires Valid()
      modifies `kernel, `pending, `armed, fdContexts
      ensures Valid() && (ret <==> !refuse && Spec.Key(fd, d) in old(armed))
      ensures Spec.Next(old(View()), if ret then Spec.Deleted(Spec.Key(fd, d)) else Spec.Nothing, View())
    {
      if |fdContexts| <= fd {
        return false;
      }
      ghost var k := Spec.Key(fd, d);
      var c := fdContexts[fd];
      assert FdOk(fd);
      if !c.curEvents.Has(d) {
        return false;
      }
      var left := c.curEvents.But(d, false);
      ret := Unwatch(c, fd, left, refuse);
      if !ret {
        return;
      }
      pending := pending - 1;
      c.curEvents := left;
      c.Set(d, EventContext(None, None, None));
      armed := armed - {k};
      RemoveOne(old(armed), k);
      OneFdChanged(fd);
    }

    /** triggerEvent and the count after it. The context was unwatched before; its bits, not yet changed, may
        exceed the kernel's. */
    method TriggerEvent(c: FdContext, d: Spec.Dir) returns (ok: bool)
      modifies `queues, `pending, `armed, c
      requires c in fdContexts && pending == |armed|
      requires c.Agrees(Slot(Spec.Key(c.fd, Spec.Read)), Slot(Spec.Key(c.fd, Spec.Write)))
      ensures ok <==> Spec.Key(c.fd, d) in old(armed)
      ensures c.Agrees(Slot(Spec.Key(c.fd, Spec.Read)), Slot(Spec.Key(c.fd, Spec.Write))) && pending == |armed|
      ensures ok ==> queues == Queued(old(queues), [old(armed)[Spec.Key(c.fd, d)]])
      ensures ok ==> TookOver(old(queues), queues, old(armed), c.fd, d.Read?, d.Write?)
      ensures ok ==> armed == old(armed) - {Spec.Key(c.fd, d)}
      ensures !ok ==> queues == old(queues) && armed == old(armed)
    {
      ghost var k := Spec.Key(c.fd, d);
      if !c.curEvents.Has(d) {
        return false;
      }
      c.curEvents := c.curEvents.But(d, false);
      var ctx := c.Get(d);
      if ctx.func.Some? {
        Schedule(Reg(ctx.scheduler.value, Fun(ctx.func.value)));
      } else {
        Schedule(Reg(ctx.scheduler.value, Fib(ctx.fiber.value)));
      }
      c.Set(d, EventContext(None, None, None));
      pending := pending - 1;
      armed := armed - {k};
      RemoveOne(old(armed), k);
      OneTookOver(old(queues), old(armed), c.fd, d);
      ok := true;
    }

    method CancelEvent(fd: nat, d: Spec.Dir, refuse: bool) returns (ret: bool)
      requires Valid()
      modifies `kernel, `pending, `armed, `queues, fdContexts
      ensures Valid() && (ret <==> !refuse && Spec.Key(fd, d) in old(armed))
      ensures Spec.Next(old(View()), if ret then Spec.Fired([Spec.Key(fd, d)]) else Spec.Nothing, View())
      ensures queues == if ret then Queued(old(queues), [old(armed)[Spec.Key(fd, d)]]) else old(queues)
      ensures ret ==> TookOver(old(queues), queues, old(armed), fd, d.Read?, d.Write?)
    {
      if |fdContexts| <= fd {
        return false;
      }
      var c := fdContexts[fd];
      assert FdOk(fd);
      if !c.curEvents.Has(d) {
        return false;
      }
      ret := Unwatch(c, fd, c.curEvents.But(d, false), refuse);
      if !ret {
        return;
      }
      var ok := TriggerEvent(c, d);
      assert (set k | k in [Spec.Key(fd, d)]) == {Spec.Key(fd, d)};
      OneFdChanged(fd);
    }

    /** Triggers some events of a descriptor, READ first. */
    method TriggerBoth(c: FdContext, read: bool, write: bool) returns (ok: bool)
      requires c in fdContexts && pending == |armed|
      requires c.Agrees(Slot(Spec.Key(c.fd, Spec.Read)), Slot(Spec.Key(c.fd, Spec.Write)))
      modifies `queues, `pending, `armed, c
      ensures ok <==> (read ==> Spec.Key(c.fd, Spec.Read) in old(armed))
                      && (write ==> Spec.Key(c.fd, Spec.Write) in old(armed))
      ensures ok ==> c.Agrees(Slot(Spec.Key(c.fd, Spec.Read)), Slot(Spec.Key(c.fd, Spec.Write))) && pending == |armed|
      ensures ok ==> (armed, queues) == FiredBoth(old(armed), old(queues), c.fd, read, write)
    {
      ok := true;
      if read {
        ok := TriggerEvent(c, Spec.Read);
      }
      if ok && write {
        ok := TriggerEvent(c, Spec.Write);
      }
    }

    /** Unwatches and triggers some events of a descriptor, at least one of them registered. */
    method FireSome(c: FdContext, fd: nat, read: bool, write: bool, refuse: bool) returns (rt: Result)
      requires Valid() && fd < |fdContexts| && c == fdContexts[fd]
      requires (read && c.curEvents.read) || (write && c.curEvents.write)
      modifies `kernel, `queues, `pending, `armed, c
      ensures rt == if refuse then Refused
                    else if (read ==> old(c.curEvents.read)) && (write ==> old(c.curEvents.write)) then Done
                    else Aborted
      ensures rt != Aborted ==> Valid()
      ensures rt == Refused ==> armed == old(armed) && queues == old(queues)
      ensures rt == Done ==> (armed, queues) == FiredBoth(old(armed), old(queues), fd, read, write)
    {
      assert FdOk(fd);
      var left := Mask(c.curEvents.read && !read, c.curEvents.write && !write);
      var ok := Unwatch(c, fd, left, refuse);
      if !ok {
        return Refused;
      }
      ok := TriggerBoth(c, read, write);
      if !ok {
        return Aborted;
      }
      rt := Done;
      OneFdChanged(fd);
    }

    method CancelAll(fd: nat, refuse: bool) returns (ret: bool)
      requires Valid()
      modifies `kernel, `pending, `armed, `queues, fdContexts
      ensures Valid()
      ensures var read, write := Spec.Key(fd, Spec.Read) in old(armed), Spec.Key(fd, Spec.Write) in old(armed);
              && (ret <==> !refuse && (read || write))
              && var e := if ret then Spec.Fired(Both(fd, read, write)) else Spec.Nothing;
                 && Spec.Next(old(View()), e, View())
                 && queues == Queued(old(queues), Spec.Handed(old(View()), e))
                 && (ret ==> TookOver(old(queues), queues, old(armed), fd, read, write))
    {
      if |fdContexts| <= fd {
        return false;
      }
      var c := fdContexts[fd];
      assert FdOk(fd);
      if c.curEvents == NONE {
        return false;
      }
      ghost var t, q, read, write := View(), queues, c.curEvents.read, c.curEvents.write;
      FiredBothMeans(t, q, fd, read, write);
      FiredBothLists(armed, q, fd, read, write);
      var rt := FireSome(c, fd, c.curEvents.read, c.curEvents.write, refuse);
      ret := rt == Done;
    }

    /** The kernel reported this event; an error or a hang-up stands for the events registered. */
    ghost predicate Reported(fd: nat, d: Spec.Dir, events: Mask, error: bool)
      reads this
    {
      events.Has(d) || (error && Spec.Key(fd, d) in armed)
    }

    /** One turn of the dispatch loop: the kernel reported `events` of this descriptor, and
        EPOLLERR or EPOLLHUP when `error`. A failed assertion stops
        the program exactly when a reported event is registered and another reported one is not. */
    method Dispatch(fd: nat, events: Mask, error: bool, refuse: bool) returns (rt: Result)
      requires Valid() && fd < |fdContexts|
      modifies `kernel, `pending, `armed, `queues, fdContexts
      ensures rt == Stops(old(Spec.Key(fd, Spec.Read) in armed), old(Spec.Key(fd, Spec.Write) in armed),
                          old(Reported(fd, Spec.Read, events, error)), old(Reported(fd, Spec.Write, events, error)),
                          refuse)
      ensures var (read, write) := (old(Reported(fd, Spec.Read, events, error)),
                                    old(Reported(fd, Spec.Write, events, error)));
              var (r, w) := (Spec.Key(fd, Spec.Read) in old(armed), Spec.Key(fd, Spec.Write) in old(armed));
              && (rt == Done <==> !refuse && (read || write) && (read ==> r) && (write ==> w))
              && (rt == Aborted <==> !refuse && ((read && r && write && !w) || (read && !r && write && w)))
      ensures rt != Aborted ==> Valid()
      ensures rt != Aborted ==>
                var both := Both(fd, old(Reported(fd, Spec.Read, events, error)),
                                 old(Reported(fd, Spec.Write, events, error)));
                var e := if rt == Done then Spec.Fired(both)
                         else Spec.Nothing;
                Spec.Next(old(View()), e, View()) && queues == Queued(old(queues), Spec.Handed(old(View()), e))
      ensures rt == Done ==>
                TookOver(old(queues), queues, old(armed), fd, old(Reported(fd, Spec.Read, events, error)),
                         old(Reported(fd, Spec.Write, events, error)))
    {
      var c := fdContexts[fd];
      assert FdOk(fd);
      var wanted := events;
      if error {
        wanted := Mask(events.read || c.curEvents.read, events.write || c.curEvents.write);
      }
      if !(c.curEvents.read && wanted.read) && !(c.curEvents.write && wanted.write) {
        return Refused;
      }
      ghost var t := View();
      if Spec.Key(fd, Spec.Read) in armed || !wanted.read {
        if Spec.Key(fd, Spec.Write) in armed || !wanted.write {
          FiredBothMeans(t, queues, fd, wanted.read, wanted.write);
          FiredBothLists(armed, queues, fd, wanted.read, wanted.write);
        }
      }
      rt := FireSome(c, fd, wanted.read, wanted.write, refuse);
    }
  }

  /** What one turn of the dispatch loop comes to: nothing, when no registered event was reported or the kernel
      refuses; the end of the program, when a reported event is not registered. */
  ghost function Stops(readArmed: bool, writeArmed: bool, read: bool, write: bool, refuse: bool): Result {
    if refuse || !((read && readArmed) || (write && writeArmed)) then Refused
    else if (read && !readArmed) || (write && !writeArmed) then Aborted
    else Done
  }

  ghost function Registration(scheduler: nat, fiber: nat, func: Option<Code>): Reg {
    Reg(scheduler, if func.Some? then Fun(func.value) else Fib(fiber))
  }

  /** The task lists after scheduling these, in order. */
  ghost function Queued(queues: map<nat, seq<Entry>>, regs: seq<Reg>): map<nat, seq<Entry>> {
    if regs == [] then queues
    else
      var q, r := Queued(queues, regs[..|regs| - 1]), regs[|regs| - 1];
      q[r.scheduler := (if r.scheduler in q then q[r.scheduler] else []) + [Entry(r.job, ANY)]]
  }

  lemma QueuedTwo(queues: map<nat, seq<Entry>>, a: Reg, b: Reg)
    ensures Queued(queues, [a, b]) == Queued(Queued(queues, [a]), [b])
  {
    assert [a, b][..1] == [a];
  }

  ghost function Tasks(queues: map<nat, seq<Entry>>, scheduler: nat): seq<Entry> {
    if scheduler in queues then queues[scheduler] else []
  }

  /** These events of a descriptor were handed over: at the back of its scheduler's task list, each registration
      has one entry for any thread, READ first; every other list is as it was. */
  ghost predicate TookOver(before: map<nat, seq<Entry>>, after: map<nat, seq<Entry>>, armed: map<Key, Reg>,
                           fd: nat, read: bool, write: bool)
  {
    var (r, w) := (Spec.Key(fd, Spec.Read), Spec.Key(fd, Spec.Write));
    && (read ==> r in armed) && (write ==> w in armed)
    && forall s :: Tasks(after, s) == Tasks(before, s)
                     + (if read && armed[r].scheduler == s then [Entry(armed[r].job, ANY)] else [])
                     + (if write && armed[w].scheduler == s then [Entry(armed[w].job, ANY)] else [])
  }

  lemma QueuedOne(queues: map<nat, seq<Entry>>, a: Reg)
    ensures forall s :: Tasks(Queued(queues, [a]), s)
                     == Tasks(queues, s) + if a.scheduler == s then [Entry(a.job, ANY)] else []
  {
    assert [a][..0] == [];
  }

  lemma OneTookOver(queues: map<nat, seq<Entry>>, armed: map<Key, Reg>, fd: nat, d: Spec.Dir)
    requires Spec.Key(fd, d) in armed
    ensures TookOver(queues, Queued(queues, [armed[Spec.Key(fd, d)]]), armed, fd, d.Read?, d.Write?)
  {
    QueuedOne(queues, armed[Spec.Key(fd, d)]);
  }

  lemma FiredBothLists(armed: map<Key, Reg>, queues: map<nat, seq<Entry>>, fd: nat, read: bool, write: bool)
    requires forall k | k in Both(fd, read, write) :: k in armed
    ensures TookOver(queues, FiredBoth(armed, queues, fd, read, write).1, armed, fd, read, write)
  {
    var r, w := Spec.Key(fd, Spec.Read), Spec.Key(fd, Spec.Write);
    assert read ==> r in Both(fd, read, write);
    assert write ==> w in Both(fd, read, write);
    if read {
      QueuedOne(queues, armed[r]);
    }
    if write {
      QueuedOne(FiredOne(armed, queues, r, read).1, armed[w]);
    }
  }

  /** Some of the two events of a descriptor, READ first. */
  ghost function Both(fd: nat, read: bool, write: bool): seq<Key> {
    (if read then [Spec.Key(fd, Spec.Read)] else []) + if write then [Spec.Key(fd, Spec.Write)] else []
  }

  ghost function FiredOne(armed: map<Key, Reg>, queues: map<nat, seq<Entry>>, k: Key, on: bool)
    : (map<Key, Reg>, map<nat, seq<Entry>>)
  {
    if on && k in armed then (armed - {k}, Queued(queues, [armed[k]])) else (armed, queues)
  }

  ghost function FiredBoth(armed: map<Key, Reg>, queues: map<nat, seq<Entry>>, fd: nat, read: bool, write: bool)
    : (map<Key, Reg>, map<nat, seq<Entry>>)
  {
    var a := FiredOne(armed, queues, Spec.Key(fd, Spec.Read), read);
    FiredOne(a.0, a.1, Spec.Key(fd, Spec.Write), write)
  }

  /** Triggering READ, then WRITE, removes these and schedules them in this order. */
  lemma FiredBothMeans(t: Spec.Table<Reg>, queues: map<nat, seq<Entry>>, fd: nat, read: bool, write: bool)
    requires forall k | k in Both(fd, read, write) :: k in t.armed
    ensures var e := Spec.Fired(Both(fd, read, write));
            var (m, q) := FiredBoth(t.armed, queues, fd, read, write);
            Spec.Next(t, e, t.(armed := m)) && q == Queued(queues, Spec.Handed(t, e))
  {
    var r, w := Spec.Key(fd, Spec.Read), Spec.Key(fd, Spec.Write);
    var e := Spec.Fired(Both(fd, read, write));
    var regs := Spec.Handed(t, e);
    assert read ==> r in Both(fd, read, write);
    assert write ==> w in Both(fd, read, write);
    if read && write {
      assert Both(fd, read, write) == [r, w];
      assert regs == [t.armed[r], t.armed[w]];
      QueuedTwo(queues, t.armed[r], t.armed[w]);
      assert (set k | k in [r, w]) == {r} + {w};
      assert t.armed - {r} - {w} == t.armed - ({r} + {w});
    } else if read {
      assert Both(fd, read, write) == [r];
      assert regs == [t.armed[r]];
      assert (set k | k in [r]) == {r};
    } else if write {
      assert Both(fd, read, write) == [w];
      assert regs == [t.armed[w]];
      assert (set k | k in [w]) == {w};
    } else {
      assert t.armed - (set k | k in Both(fd, read, write)) == t.armed;
    }
  }

  lemma RemoveOne(m: map<Key, Reg>, k: Key)
    requires k in m
    ensures |m - {k}| == |m| - 1
  {
    assert m == (m - {k})[k := m[k]];
  }
}
