/** The timer manager: an ordered set of timers whose keys are changed only while they are out of the set. */
module TimerManagers {
  import opened Basics
  import Spec = TimerSpec

  class Timer {
    const id: nat          // its identity, which orders equal deadlines
    const recurring: bool
    var ms: nat
    var next: nat
    var cb: Option<nat>

    constructor (id: nat, ms: nat, cb: Option<nat>, recurring: bool, now: nat)
      ensures this.id == id && this.recurring == recurring && this.ms == ms && this.cb == cb && next == now + ms
    {
      this.id, this.recurring, this.ms, this.cb, next := id, recurring, ms, cb, now + ms;
    }

    ghost function Value(): Spec.Timer
      reads this
    {
      Spec.Timer(recurring, ms, next, cb)
    }
  }

  class TimerManager {
    var timers: seq<Timer>   // the ordered set
    var tickled: bool
    var previous: nat
    ghost var known: map<nat, Timer>   // every timer created here

    ghost predicate Ordered()
      reads this, timers
    {
      forall k, l | 0 <= k < l < |timers| ::
        Spec.Before(timers[k].next, timers[k].id, timers[l].next, timers[l].id)
    }

    ghost predicate Registered(t: Timer)
      reads this, t
    {
      t.id in known && known[t.id] == t && t.ms <= t.next
    }

    /** A timer is in the set exactly when its callback is not empty. */
    ghost predicate Valid()
      reads this, timers, known.Values
    {
      && Ordered()
      && (forall i | i in known :: known[i].id == i && Registered(known[i]))
      && (forall i | i in known :: known[i].cb.Some? <==> known[i] in timers)
      && (forall t | t in timers :: Registered(t))
    }

    ghost function View(): Spec.State
      reads this, known.Values
    {
      Spec.State(map i | i in known :: known[i].Value(), tickled, previous)
    }

    /** Changing one registered timer changes one entry of the view. */
    twostate lemma OneChanged(t: Timer)
      requires old(Valid()) && known == old(known) && t.id in known && known[t.id] == t
      requires forall i | i in known && i != t.id :: unchanged(known[i])
      ensures View().timers == old(View()).timers[t.id := t.Value()]
    {
    }

    twostate lemma OneAdded(new t: Timer)
      requires t.id !in old(known) && known == old(known)[t.id := t]
      requires forall i | i in old(known) :: unchanged(old(known[i]))
      ensures View().timers == old(View()).timers[t.id := t.Value()]
    {
    }

    constructor (now: nat)
      ensures Valid() && View() == Spec.State(map[], false, now)
    {
      timers, tickled, previous, known := [], false, now, map[];
    }

    /** std::set::lower_bound: the first element that is not before the key. */
    method LowerBound(next: nat, id: nat) returns (k: nat)
      requires Ordered()
      ensures k <= |timers|
      ensures forall l | 0 <= l < k :: Spec.Before(timers[l].next, timers[l].id, next, id)
      ensures forall l | k <= l < |timers| :: !Spec.Before(timers[l].next, timers[l].id, next, id)
    {
      k := 0;
      while k < |timers| && Spec.Before(timers[k].next, timers[k].id, next, id)
        invariant k <= |timers|
        invariant forall l | 0 <= l < k :: Spec.Before(timers[l].next, timers[l].id, next, id)
      {
        k := k + 1;
      }
    }

    /** std::set::find: by key. With the keys of members unchanged since their insertion it finds them. */
    method Find(t: Timer) returns (k: nat)
      requires Ordered()
      ensures k <= |timers|
      ensures k < |timers| ==> timers[k].next == t.next && timers[k].id == t.id
      ensures t in timers ==> k < |timers| && timers[k] == t
    {
      k := LowerBound(t.next, t.id);
      if k < |timers| && Spec.Before(t.next, t.id, timers[k].next, timers[k].id) {
        k := |timers|;
      }
    }

    method Erase(k: nat)
      requires Ordered() && k < |timers|
      modifies `timers
      ensures timers == old(timers)[..k] + old(timers)[k + 1..] && Ordered()
      ensures forall t | t in old(timers) :: t == old(timers)[k] || t in timers
      ensures forall t | t in timers :: t in old(timers) && t != old(timers)[k]
    {
      timers := timers[..k] + timers[k + 1..];
    }

    /** std::set::insert of a timer with a key of its own; `k` is where it went. */
    method InsertKey(t: Timer) returns (k: nat)
      requires Ordered() && forall u | u in timers :: u.id != t.id
      modifies `timers
      ensures Ordered() && k < |timers| && timers[k] == t
      ensures forall u :: u in timers <==> u in old(timers) || u == t
    {
      k := LowerBound(t.next, t.id);
      timers := timers[..k] + [t] + timers[k..];
    }

    method Cancel(t: Timer) returns (ret: bool)
      requires Valid() && Registered(t)
      modifies `timers, t`cb
      ensures Valid() && (View(), ret) == Spec.Cancel(old(View()), t.id)
    {
      if t.cb.Some? {
        t.cb := None;
        var k := Find(t);
        Erase(k);
        ret := true;
        OneChanged(t);
      } else {
        ret := false;
      }
    }

    method Refresh(t: Timer, now: nat) returns (ret: bool)
      requires Valid() && Registered(t)
      modifies `timers, t`next
      ensures Valid() && (View(), ret) == Spec.Refresh(old(View()), t.id, now)
      ensures t.next == if ret then now + t.ms else old(t.next)
    {
      if t.cb.None? {
        return false;
      }
      var k := Find(t);
      if k == |timers| {
        return false;
      }
      Erase(k);
      t.next := now + t.ms;
      var at := InsertKey(t);
      ret := true;
      OneChanged(t);
    }

    /** TimerManager::addTimer on a timer that is out of the set: inserts it and, when it went to the front
        and no wake-up is pending, sets the flag; the front hook is then due. */
    method Insert(t: Timer) returns (hook: bool)
      requires Ordered() && (forall u | u in timers :: u.id != t.id)
      modifies `timers, `tickled
      ensures Ordered() && forall u :: u in timers <==> u in old(timers) || u == t
      ensures hook == (!old(tickled) && forall u | u in old(timers) :: Spec.Before(t.next, t.id, u.next, u.id))
      ensures tickled == (old(tickled) || hook)
    {
      ghost var others := timers;
      var at := InsertKey(t);
      hook := at == 0 && !tickled;
      if hook {
        tickled := true;
      }
      if at == 0 {
        forall u | u in others ensures Spec.Before(t.next, t.id, u.next, u.id) {
          assert u in timers && u != t;
        }
      } else {
        assert timers[0] in others && Spec.Before(timers[0].next, timers[0].id, t.next, t.id);
      }
    }

    /** Being first among the registered timers is being at the front of the view. */
    lemma FrontMeans(t: Timer)
      requires Valid() && Registered(t) && t in timers
      ensures Spec.AtFront(View(), t.id)
         <==> forall u | u in timers && u != t :: Spec.Before(t.next, t.id, u.next, u.id)
    {
      var v := View();
      if Spec.AtFront(v, t.id) {
        forall u | u in timers && u != t ensures Spec.Before(t.next, t.id, u.next, u.id) {
          assert Registered(u) && Spec.Live(v, u.id);
        }
      } else {
        var j :| Spec.Live(v, j) && j != t.id && !Spec.Before(t.next, t.id, v.timers[j].next, j);
        assert known[j] in timers && known[j] != t;
      }
    }

    /** Takes a registered timer out of the set, changes its key and inserts it again. */
    method Rekey(t: Timer, ms: nat, next: nat) returns (hook: bool)
      requires Valid() && Registered(t) && t in timers && ms <= next
      modifies `timers, `tickled, t`next, t`ms
      ensures Valid()
      ensures (View(), hook) == Spec.Insert(old(View()), t.id, old(t.Value()).(ms := ms, next := next))
    {
      var k := Find(t);
      Erase(k);
      t.ms := ms;
      t.next := next;
      hook := Insert(t);
      OneChanged(t);
      FrontMeans(t);
      assert View().timers == Spec.Put(old(View()), t.id, t.Value()).timers;
    }

    method Reset(t: Timer, ms: nat, fromNow: bool, now: nat) returns (ret: bool, hook: bool)
      requires Valid() && Registered(t)
      modifies `timers, `tickled, t`next, t`ms
      ensures Valid() && Spec.Sound(old(View()))
      ensures (View(), ret, hook) == Spec.Reset(old(View()), t.id, ms, fromNow, now)
      ensures ret ==> t.ms == ms && t.next == (if fromNow then now else old(t.next) - old(t.ms)) + ms
    {
      assert Spec.Sound(View());
      if ms == t.ms && !fromNow {
        return true, false;
      }
      if t.cb.None? {
        return false, false;
      }
      var start: nat := 0;
      if fromNow {
        start := now;
      } else {
        start := t.next - t.ms;
      }
      hook := Rekey(t, ms, start + ms);
      ret := true;
    }

    /** Inserts a timer that is not known yet. */
    method Enroll(t: Timer) returns (hook: bool)
      requires Valid() && t.id !in known && t !in known.Values && t.cb.Some? && t.ms <= t.next
      modifies `timers, `tickled, `known
      ensures Valid() && Registered(t) && t in timers && t.Value() == old(t.Value())
      ensures previous == old(previous) && View().timers == old(View()).timers[t.id := t.Value()]
      ensures tickled == (old(tickled) || hook)
      ensures hook == (!old(tickled) && forall u | u in timers && u != t :: Spec.Before(t.next, t.id, u.next, u.id))
    {
      forall u | u in timers ensures u.id != t.id {
        assert Registered(u);
      }
      hook := Insert(t);
      known := known[t.id := t];
      forall i | i in known
        ensures known[i].id == i && Registered(known[i]) && (known[i].cb.Some? <==> known[i] in timers)
      {
        assert i != t.id ==> known[i] == old(known[i]) && known[i] != t;
      }
      OneAdded(t);
    }

    /** The public addTimer; `id` is the new timer's address. */
    method Add(id: nat, ms: nat, cb: nat, recurring: bool, now: nat) returns (t: Timer, hook: bool)
      requires Valid() && id !in known
      modifies `timers, `tickled, `known
      ensures Valid() && fresh(t) && t.id == id && Registered(t)
      ensures (View(), hook) == Spec.Add(old(View()), id, ms, cb, recurring, now)
    {
      t := new Timer(id, ms, Some(cb), recurring, now);
      hook := Enroll(t);
      FrontMeans(t);
    }

    method GetNextTimer(now: nat) returns (wait: Option<nat>)
      requires Valid()
      modifies `tickled
      ensures Valid() && View() == old(View()).(tickled := false) && Spec.Wait(old(View()), now, wait)
    {
      tickled := false;
      if timers == [] {
        return None;
      }
      var front := timers[0];
      assert front in timers && Registered(front);
      FrontMeans(front);
      assert Spec.AtFront(old(View()), front.id);
      if now >= front.next {
        wait := Some(0);
      } else {
        wait := Some(front.next - now);
      }
    }

    method DetectClockRollover(now: nat) returns (rollover: bool)
      modifies `previous
      ensures rollover == Spec.Rollover(old(previous), now) && previous == now
    {
      rollover := false;
      var threshold := if previous >= Spec.HOUR then previous - Spec.HOUR else previous + Spec.WRAP - Spec.HOUR;
      if now < previous && now < threshold {
        rollover := true;
      }
      previous := now;
    }

    /** How many timers, from the first, are due: all on a rollover, else those up to the key of a timer
        due now with identity `probe`, and those after it with the same deadline. */
    method DueCount(now: nat, rollover: bool, probe: nat) returns (k: nat)
      requires Ordered()
      ensures k <= |timers|
      ensures Separates(k, now, rollover)
    {
      if rollover {
        k := |timers|;
      } else {
        k := LowerBound(now, probe);
      }
      while k < |timers| && timers[k].next == now
        invariant k <= |timers|
        invariant forall l | 0 <= l < k :: rollover || timers[l].next <= now
        invariant forall l | k <= l < |timers| :: !rollover && now <= timers[l].next
      {
        k := k + 1;
      }
    }

    /** The expired timers, taken out of the set, are delivered and re-armed one by one. */
    method Deliver(expired: seq<Timer>, now: nat) returns (cbs: seq<nat>)
      requires Ordered() && (forall t | t in expired :: t.cb.Some? && t !in timers)
      requires forall t, u | t in timers + expired && u in timers + expired :: t.id == u.id ==> t == u
      requires forall k, l | 0 <= k < l < |expired| :: expired[k] != expired[l]
      modifies `timers, expired
      ensures Ordered()
      ensures forall t :: t in timers <==> t in old(timers) || (t in expired && t.recurring)
      ensures forall t | t in expired :: t.Value() == Spec.AfterExpiry(old(t.Value()), now)
      ensures |cbs| == |expired| && forall k | 0 <= k < |expired| :: Some(cbs[k]) == old(expired[k].cb)
    {
      cbs := [];
      for j := 0 to |expired|
        invariant Ordered() && |cbs| == j
        invariant forall t :: t in timers <==> t in old(timers) || (t in expired[..j] && t.recurring)
        invariant forall k | 0 <= k < j :: expired[k].Value() == Spec.AfterExpiry(old(expired[k].Value()), now)
        invariant forall k | j <= k < |expired| :: expired[k].Value() == old(expired[k].Value())
        invariant forall k | 0 <= k < j :: Some(cbs[k]) == old(expired[k].cb)
      {
        var t := expired[j];
        cbs := cbs + [t.cb.value];
        if t.recurring {
          t.next := now + t.ms;
          var at := InsertKey(t);
        } else {
          t.cb := None;
        }
      }
    }

    lemma Distinct()
      requires Valid()
      ensures forall k, l | 0 <= k < l < |timers| :: timers[k] != timers[l]
      ensures forall t, u | t in timers && u in timers :: t.id == u.id ==> t == u
    {
      forall t, u | t in timers && u in timers && t.id == u.id ensures t == u {
        assert Registered(t) && Registered(u);
      }
    }

    /** The first `k` timers went through an expiry; no other timer changed. */
    twostate predicate Delivered(k: nat, now: nat)
      requires k <= |old(timers)| && forall i | i in known :: i in old(known) && known[i] == old(known)[i]
      reads this, known.Values
    {
      forall i | i in known ::
        known[i].Value() == if known[i] in old(timers)[..k] then Spec.AfterExpiry(old(known[i].Value()), now)
                            else old(known[i].Value())
    }

    /** Delivers the first `k` timers of the set; nothing else changes. */
    method Sweep(k: nat, now: nat) returns (cbs: seq<nat>)
      requires Valid() && k <= |timers|
      modifies `timers, timers
      ensures Valid()
      ensures Delivered(k, now)
      ensures |cbs| == k && forall j | 0 <= j < k :: Some(cbs[j]) == old(timers[j].cb)
    {
      Distinct();
      var expired := timers[..k];
      forall t | t in expired ensures t.cb.Some? && t !in timers[k..] {
        assert t in timers && Registered(t);
      }
      timers := timers[k..];
      cbs := Deliver(expired, now);
      forall i | i in known ensures Registered(known[i]) && (known[i].cb.Some? <==> known[i] in timers) {
        assert old(Registered(known[i]));
        assert known[i] in old(timers) <==> known[i] in expired || known[i] in old(timers)[k..];
      }
      forall t | t in timers ensures Registered(t) {
        assert t in old(timers) && old(Registered(t));
      }
    }

    /** The identities of the first `k` timers of the set. */
    ghost function Ids(k: nat): (ids: seq<nat>)
      requires k <= |timers|
      reads this
      ensures |ids| == k && forall j | 0 <= j < k :: ids[j] == timers[j].id
    {
      var ts := timers;
      seq<nat>(k, j requires 0 <= j < |ts| => ts[j].id)
    }

    /** The due timers of the view are the first `k` of the set. */
    ghost predicate FirstDue(k: nat, now: nat)
      requires k <= |timers|
      reads this, timers, known.Values
    {
      && (forall i :: Spec.Due(View(), i, now) <==> i in known && known[i] in timers[..k])
      && (forall i :: Spec.Due(View(), i, now) <==> i in Ids(k))
    }

    /** `k` separates the timers that are due from those that are not. */
    ghost predicate Separates(k: nat, now: nat, rollover: bool)
      requires k <= |timers|
      reads `timers, timers
    {
      && (forall l | 0 <= l < k :: rollover || timers[l].next <= now)
      && (forall l | k <= l < |timers| :: !rollover && now < timers[l].next)
    }

    lemma DueAreFirst(k: nat, now: nat, rollover: bool)
      requires Valid() && k <= |timers| && rollover == Spec.Rollover(previous, now) && Separates(k, now, rollover)
      ensures FirstDue(k, now)
    {
      var v := View();
      forall i ensures Spec.Due(v, i, now) <==> i in known && known[i] in timers[..k] {
        if i in known && known[i] in timers {
          var l :| 0 <= l < |timers| && timers[l] == known[i];
          Distinct();
          assert known[i] in timers[..k] <==> l < k;
        }
      }
      forall i ensures i in known && known[i] in timers[..k] <==> i in Ids(k) {
        if i in known && known[i] in timers[..k] {
          var l :| 0 <= l < k && timers[l] == known[i];
          assert Ids(k)[l] == i;
        }
        if i in Ids(k) {
          var l :| 0 <= l < k && Ids(k)[l] == i;
          assert timers[l] in timers && Registered(timers[l]);
        }
      }
    }

    lemma NothingDue(now: nat)
      requires Valid() && timers == []
      ensures Spec.Expired(View(), now, [], View())
    {
      forall i ensures !Spec.Live(View(), i) {
      }
    }

    lemma AllFirstDue(now: nat)
      requires Valid()
      ensures forall k: nat | k <= |timers| && Separates(k, now, Spec.Rollover(previous, now)) :: FirstDue(k, now)
    {
      forall k: nat | k <= |timers| && Separates(k, now, Spec.Rollover(previous, now)) ensures FirstDue(k, now) {
        DueAreFirst(k, now, Spec.Rollover(previous, now));
      }
    }

    /** When exactly the first `k` timers were delivered after a clock check, the view went through an expiry
        sweep at the time of that check. */
    twostate lemma Swept(k: nat)
      requires old(Valid()) && known == old(known) && old(timers) != [] && k <= |old(timers)|
      requires var now := previous; old(FirstDue(k, now)) && Delivered(k, now)
      requires tickled == old(tickled)
      ensures Spec.Expired(old(View()), previous, old(Ids(k)), View())
      ensures forall j | 0 <= j < k :: old(View()).timers[old(Ids(k))[j]].cb == old(timers[j].cb)
    {
      var v, v', fired, now := old(View()), View(), old(Ids(k)), previous;
      forall j | 0 <= j < k ensures fired[j] in v.timers && v.timers[fired[j]] == old(timers[j].Value()) {
        assert old(timers)[j] in old(timers) && old(Registered(timers[j]));
      }
      forall i | i in v.timers
        ensures v'.timers[i] == if i in fired then Spec.AfterExpiry(v.timers[i], now) else v.timers[i]
      {
        assert i in fired <==> known[i] in old(timers)[..k];
      }
      assert old(timers)[0] in old(timers) && old(Registered(timers[0]));
      assert Spec.Live(v, old(timers)[0].id);
    }

    /** The part of listExpiredCb after the clock check: delivers exactly the due timers. */
    method SweepDue(now: nat, rollover: bool, probe: nat) returns (cbs: seq<nat>, ghost k: nat)
      requires Valid() && timers != []
      modifies `timers, timers
      ensures Valid() && k <= |old(timers)| && old(Separates(k, now, rollover)) && Delivered(k, now)
      ensures |cbs| == k && forall j | 0 <= j < k :: Some(cbs[j]) == old(timers[j].cb)
    {
      if !rollover && timers[0].next > now {
        return [], 0;
      }
      var count := DueCount(now, rollover, probe);
      k := count;
      cbs := Sweep(count, now);
    }

    /** The rest of listExpiredCb, when there is a timer. */
    method TakeExpired(now: nat, probe: nat) returns (cbs: seq<nat>, ghost k: nat)
      requires Valid() && timers != []
      modifies `timers, `previous, timers
      ensures Valid() && previous == now && k <= |old(timers)| && old(FirstDue(k, now)) && Delivered(k, now)
      ensures |cbs| == k && forall j | 0 <= j < k :: Some(cbs[j]) == old(timers[j].cb)
    {
      AllFirstDue(now);
      var rollover := DetectClockRollover(now);
      cbs, k := SweepDue(now, rollover, probe);
    }

    /** listExpiredCb; `probe` is the address of the temporary timer used as search key. */
    method ListExpired(now: nat, probe: nat) returns (cbs: seq<nat>, ghost fired: seq<nat>)
      requires Valid()
      modifies `timers, `previous, timers
      ensures Valid() && Spec.Expired(old(View()), now, fired, View())
      ensures |cbs| == |fired| && forall k | 0 <= k < |fired| :: Some(cbs[k]) == old(View()).timers[fired[k]].cb
      ensures known == old(known) && forall i | i in known ::
                known[i].next == if i in fired && known[i].recurring then now + known[i].ms else old(known[i].next)
    {
      if timers == [] {
        NothingDue(now);
        cbs, fired := [], [];
      } else {
        ghost var k;
        cbs, k := TakeExpired(now, probe);
        Swept(k);
        fired := old(Ids(k));
      }
    }
  }
}
