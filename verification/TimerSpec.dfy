/** Timers as values: what each operation of the manager does, and what holds over whole runs. */
module TimerSpec {
  import opened Basics

  type Id = nat  // a timer's identity; the order of equal deadlines

  /** `cb` is the callback; none once cancelled or, for a one-shot timer, delivered. */
  datatype Timer = Timer(recurring: bool, ms: nat, next: nat, cb: Option<nat>)

  datatype State = State(timers: map<Id, Timer>, tickled: bool, previous: nat)

  const HOUR: nat := 3600000
  const WRAP: nat := 0x1_0000_0000_0000_0000

  /** The registered timers are those with a callback. */
  ghost predicate Live(s: State, i: Id) {
    i in s.timers && s.timers[i].cb.Some?
  }

  predicate Before(next: nat, i: Id, next': nat, j: Id) {
    next < next' || (next == next' && i < j)
  }

  /** `i` is registered and comes before every other registered timer. */
  ghost predicate AtFront(s: State, i: Id) {
    && Live(s, i)
    && forall j | Live(s, j) && j != i :: Before(s.timers[i].next, i, s.timers[j].next, j)
  }

  /** The deadline is never less than one interval. */
  ghost predicate Sound(s: State) {
    forall i | i in s.timers :: s.timers[i].ms <= s.timers[i].next
  }

  ghost function Put(s: State, i: Id, t: Timer): State {
    s.(timers := s.timers[i := t])
  }

  ghost function Cancel(s: State, i: Id): (State, bool)
    requires i in s.timers
  {
    if Live(s, i) then (Put(s, i, s.timers[i].(cb := None)), true) else (s, false)
  }

  ghost function Refresh(s: State, i: Id, now: nat): (State, bool)
    requires i in s.timers
  {
    if Live(s, i) then (Put(s, i, s.timers[i].(next := now + s.timers[i].ms)), true) else (s, false)
  }

  /** Registers `i` with its new key; the hook is due when it is now first and no wake-up is pending. */
  ghost function Insert(s: State, i: Id, t: Timer): (State, bool) {
    var s' := Put(s, i, t);
    if AtFront(s', i) && !s.tickled then (s'.(tickled := true), true) else (s', false)
  }

  /** The result, and whether the front hook was due. An unchanged interval not counted from now succeeds
      at once, whatever the timer's state. */
  ghost function Reset(s: State, i: Id, ms: nat, fromNow: bool, now: nat): (State, bool, bool)
    requires Sound(s) && i in s.timers
  {
    var t := s.timers[i];
    if ms == t.ms && !fromNow then
      (s, true, false)
    else if !Live(s, i) then
      (s, false, false)
    else
      var start := if fromNow then now else t.next - t.ms;
      var r := Insert(s, i, t.(ms := ms, next := start + ms));
      (r.0, true, r.1)
  }

  ghost function Add(s: State, i: Id, ms: nat, cb: nat, recurring: bool, now: nat): (State, bool) {
    Insert(s, i, Timer(recurring, ms, now + ms, Some(cb)))
  }

  /** The clock went back by more than an hour. The threshold is unsigned: below an hour it wraps. */
  predicate Rollover(previous: nat, now: nat) {
    now < previous && now < (if previous >= HOUR then previous - HOUR else previous + WRAP - HOUR)
  }

  lemma RolloverMeaning(previous: nat, now: nat)
    requires previous < WRAP && now < WRAP
    ensures Rollover(previous, now) <==> now < previous && (previous < HOUR || now + HOUR < previous)
  {
  }

  ghost predicate Due(s: State, i: Id, now: nat) {
    Live(s, i) && (Rollover(s.previous, now) || s.timers[i].next <= now)
  }

  function AfterExpiry(t: Timer, now: nat): Timer {
    if t.recurring then t.(next := now + t.ms) else t.(cb := None)
  }

  /** An expiry sweep: exactly the due timers fire, in the order of their keys; recurring ones are
      rescheduled from now, the others lose their callback, and nothing else changes. */
  ghost predicate Expired(s: State, now: nat, fired: seq<Id>, s': State) {
    && (forall i | Due(s, i, now) :: i in fired)
    && (forall k | 0 <= k < |fired| :: Due(s, fired[k], now))
    && (forall k, l | 0 <= k < l < |fired| ::
          Before(s.timers[fired[k]].next, fired[k], s.timers[fired[l]].next, fired[l]))
    && s'.timers.Keys == s.timers.Keys
    && (forall i | i in s.timers ::
          s'.timers[i] == if i in fired then AfterExpiry(s.timers[i], now) else s.timers[i])
    && s'.tickled == s.tickled
    && s'.previous == if forall i :: !Live(s, i) then s.previous else now
  }

  /** What a sweep leaves: a fired recurring timer is registered again, due one interval from now; a fired
      one-shot timer is not registered; all others are as they were. */
  lemma SweptTimer(s: State, now: nat, fired: seq<Id>, s': State, i: Id)
    requires Expired(s, now, fired, s') && i in s.timers
    ensures i in s'.timers && s'.timers[i].recurring == s.timers[i].recurring && s'.timers[i].ms == s.timers[i].ms
    ensures i in fired && s.timers[i].recurring ==>
              s'.timers[i].cb == s.timers[i].cb != None && s'.timers[i].next == now + s.timers[i].ms
    ensures i in fired && !s.timers[i].recurring ==> s'.timers[i].cb == None
    ensures i !in fired ==> s'.timers[i] == s.timers[i]
  {
  }

  /** How long to wait: until the front deadline, not at all when it passed, for ever with no timer. */
  ghost predicate Wait(s: State, now: nat, wait: Option<nat>) {
    match wait
    case None => forall i :: !Live(s, i)
    case Some(w) => exists i :: AtFront(s, i) && w == if now >= s.timers[i].next then 0 else s.timers[i].next - now
  }

  /** No timer is due before the wait is over, and when it is, one is. */
  lemma WaitExact(s: State, now: nat, wait: Option<nat>)
    requires Wait(s, now, wait)
    ensures wait == None <==> forall i :: !Live(s, i)
    ensures wait.Some? ==> exists i :: Live(s, i) && s.timers[i].next <= now + wait.value
    ensures wait.Some? && wait.value > 0 ==> forall i | Live(s, i) :: now + wait.value <= s.timers[i].next
  {
    if wait.Some? {
      var i :| AtFront(s, i) && wait.value == if now >= s.timers[i].next then 0 else s.timers[i].next - now;
      assert Live(s, i);
      forall j | Live(s, j) ensures s.timers[i].next <= s.timers[j].next {
        assert j != i ==> Before(s.timers[i].next, i, s.timers[j].next, j);
      }
    }
  }

  // ---------- runs ----------

  /** A call with its arguments, the clock it read and what it returned. `hook` tells whether the
      front-insertion hook ran. */
  datatype Event =
    | Cancelled(i: Id, ret: bool)
    | Refreshed(i: Id, now: nat, ret: bool)
    | WasReset(i: Id, ms: nat, fromNow: bool, now: nat, ret: bool, hook: bool)
    | Added(i: Id, ms: nat, cb: nat, recurring: bool, now: nat, hook: bool)
    | Asked(now: nat, wait: Option<nat>)
    | Swept(now: nat, fired: seq<Id>)

  ghost predicate Next(s: State, e: Event, s': State) {
    match e
    case Cancelled(i, ret) => i in s.timers && (s', ret) == Cancel(s, i)
    case Refreshed(i, now, ret) => i in s.timers && (s', ret) == Refresh(s, i, now)
    case WasReset(i, ms, fromNow, now, ret, hook) =>
      Sound(s) && i in s.timers && (s', ret, hook) == Reset(s, i, ms, fromNow, now)
    case Added(i, ms, cb, recurring, now, hook) =>
      i !in s.timers && (s', hook) == Add(s, i, ms, cb, recurring, now)
    case Asked(now, wait) => s' == s.(tickled := false) && Wait(s, now, wait)
    case Swept(now, fired) => Expired(s, now, fired, s')
  }

  ghost predicate Run(states: seq<State>, events: seq<Event>) {
    && |states| == |events| + 1
    && states[0].timers == map[] && !states[0].tickled
    && forall k | 0 <= k < |events| :: Next(states[k], events[k], states[k + 1])
  }

  lemma {:induction false} RunSound(states: seq<State>, events: seq<Event>, k: nat)
    requires Run(states, events) && k < |states|
    ensures Sound(states[k])
  {
    if k > 0 {
      RunSound(states, events, k - 1);
      assert Next(states[k - 1], events[k - 1], states[k]);
    }
  }

  // ---------- at most one delivery ----------

  ghost predicate Fires(e: Event, i: Id) {
    e.Swept? && i in e.fired
  }

  /** A known timer keeps its kind, and once dead it stays dead. */
  lemma {:induction false} Persists(states: seq<State>, events: seq<Event>, a: nat, b: nat, i: Id)
    requires Run(states, events) && a <= b < |states| && i in states[a].timers
    ensures i in states[b].timers && states[b].timers[i].recurring == states[a].timers[i].recurring
    ensures !Live(states[a], i) ==> !Live(states[b], i)
    decreases b
  {
    if a < b {
      Persists(states, events, a, b - 1, i);
      assert Next(states[b - 1], events[b - 1], states[b]);
    }
  }

  /** Once dead, a timer is never delivered. */
  lemma DeadNeverFires(states: seq<State>, events: seq<Event>, a: nat, b: nat, i: Id)
    requires Run(states, events) && a <= b < |events| && i in states[a].timers && !Live(states[a], i)
    ensures !Fires(events[b], i)
  {
    Persists(states, events, a, b, i);
    assert Next(states[b], events[b], states[b + 1]);
  }

  /** After a cancel that returned true, the callback is never delivered. */
  lemma NeverAfterCancel(states: seq<State>, events: seq<Event>, a: nat, b: nat, i: Id)
    requires Run(states, events) && a < b < |events| && events[a] == Cancelled(i, true)
    ensures !Fires(events[b], i)
  {
    assert Next(states[a], events[a], states[a + 1]);
    DeadNeverFires(states, events, a + 1, b, i);
  }

  /** A one-shot callback is delivered at most once: by one sweep at most, and once in it. */
  lemma OneShotOnce(states: seq<State>, events: seq<Event>, a: nat, b: nat, i: Id)
    requires Run(states, events) && a < b < |events| && Fires(events[a], i)
    requires i in states[a].timers && !states[a].timers[i].recurring
    ensures !Fires(events[b], i)
  {
    assert Next(states[a], events[a], states[a + 1]);
    DeadNeverFires(states, events, a + 1, b, i);
  }

  lemma OncePerSweep(s: State, now: nat, fired: seq<Id>, s': State, k: nat, l: nat)
    requires Expired(s, now, fired, s') && k < l < |fired|
    ensures fired[k] != fired[l] && s.timers[fired[k]].next <= s.timers[fired[l]].next
  {
  }

  // ---------- on time ----------

  /** The clock a call read, if it read one. */
  function Clock(e: Event): Option<nat> {
    match e
    case Cancelled(_, _) => None
    case Refreshed(_, now, _) => Some(now)
    case WasReset(_, _, _, now, _, _) => Some(now)
    case Added(_, _, _, _, now, _) => Some(now)
    case Asked(now, _) => Some(now)
    case Swept(now, _) => Some(now)
  }

  /** The clock never goes back. */
  ghost predicate Forward(start: nat, events: seq<Event>) {
    && (forall k | 0 <= k < |events| && Clock(events[k]).Some? :: start <= Clock(events[k]).value)
    && (forall j, k | 0 <= j < k < |events| && Clock(events[j]).Some? && Clock(events[k]).Some? ::
          Clock(events[j]).value <= Clock(events[k]).value)
  }

  lemma {:induction false} PreviousBehind(states: seq<State>, events: seq<Event>, k: nat, b: nat)
    requires Run(states, events) && Forward(states[0].previous, events)
    requires k <= b < |events| && Clock(events[b]).Some?
    ensures states[k].previous <= Clock(events[b]).value
  {
    if k > 0 {
      PreviousBehind(states, events, k - 1, b);
      assert Next(states[k - 1], events[k - 1], states[k]);
      assert events[k - 1].Swept? ==> Clock(events[k - 1]) == Some(events[k - 1].now);
    }
  }

  /** The call starts the timer's interval anew, at the time it read. */
  predicate Starts(e: Event, i: Id) {
    match e
    case Refreshed(j, _, ret) => j == i && ret
    case WasReset(j, _, fromNow, _, ret, _) => j == i && ret && fromNow
    case Added(j, _, _, _, _, _) => j == i
    case Swept(_, fired) => i in fired
    case _ => false
  }

  /** The call gave the timer another interval, or may have. */
  predicate Resets(e: Event, i: Id) {
    e.WasReset? && e.i == i
  }

  /** A started timer is due one interval after the time read: the one asked for, or its own. It is registered,
      but for a one-shot timer that was delivered. */
  lemma Started(states: seq<State>, events: seq<Event>, a: nat, i: Id)
    requires Run(states, events) && a < |events| && Starts(events[a], i)
    ensures Clock(events[a]).Some? && i in states[a + 1].timers
    ensures var t := states[a + 1].timers[i];
            && (t.cb.Some? <==> !(events[a].Swept? && !t.recurring))
            && (t.cb.Some? ==> t.next == Clock(events[a]).value + t.ms)
            && (events[a].WasReset? || events[a].Added? ==> t.ms == events[a].ms)
            && (events[a].Added? ==> t.recurring == events[a].recurring && t.cb == Some(events[a].cb))
            && (!events[a].Added? ==>
                  i in states[a].timers && t.recurring == states[a].timers[i].recurring
                  && (t.cb.Some? ==> t.cb == states[a].timers[i].cb))
            && (events[a].Refreshed? || events[a].Swept? ==>
                  i in states[a].timers && t.ms == states[a].timers[i].ms)
  {
    assert Next(states[a], events[a], states[a + 1]);
  }

  /** A reset that is not from now moves the deadline by the difference of the intervals. */
  lemma ResetKeepsStart(s: State, i: Id, ms: nat, now: nat, hook: bool, s': State)
    requires Next(s, WasReset(i, ms, false, now, true, hook), s') && Live(s, i)
    ensures i in s'.timers && s'.timers[i].ms == ms && s'.timers[i].next == s.timers[i].next - s.timers[i].ms + ms
    ensures s'.timers[i].cb == s.timers[i].cb && s'.timers[i].recurring == s.timers[i].recurring
    ensures forall j | j in s.timers && j != i :: j in s'.timers && s'.timers[j] == s.timers[j]
  {
  }

  /** Until it is reset, the timer keeps its interval and is not due before that interval is over. */
  lemma {:induction false} KeepsInterval(states: seq<State>, events: seq<Event>, a: nat, k: nat, i: Id)
    requires Run(states, events) && Forward(states[0].previous, events)
    requires a < k < |states| && Starts(events[a], i) && forall j | a < j < k :: !Resets(events[j], i)
    ensures Clock(events[a]).Some? && i in states[k].timers && i in states[a + 1].timers
    ensures states[k].timers[i].ms == states[a + 1].timers[i].ms
    ensures Live(states[k], i) ==> states[k].timers[i].next >= Clock(events[a]).value + states[k].timers[i].ms
    decreases k
  {
    Started(states, events, a, i);
    if k > a + 1 {
      KeepsInterval(states, events, a, k - 1, i);
      assert Next(states[k - 1], events[k - 1], states[k]);
      assert !Resets(events[k - 1], i);
      assert Clock(events[k - 1]).Some? ==> Clock(events[a]).value <= Clock(events[k - 1]).value;
    }
  }

  /** Never early: over every run with a clock that does not go back, a callback is delivered no sooner than one
      interval after its timer was added, refreshed, reset from now, or delivered before, whatever else was
      called since but a reset of it. */
  lemma NeverEarly(states: seq<State>, events: seq<Event>, a: nat, b: nat, i: Id)
    requires Run(states, events) && Forward(states[0].previous, events)
    requires a < b < |events| && Starts(events[a], i) && forall j | a < j < b :: !Resets(events[j], i)
    requires Fires(events[b], i)
    ensures Clock(events[a]).Some? && i in states[a + 1].timers
    ensures Clock(events[a]).value + states[a + 1].timers[i].ms <= events[b].now
  {
    KeepsInterval(states, events, a, b, i);
    PreviousBehind(states, events, b, b);
    assert Next(states[b], events[b], states[b + 1]);
    assert Due(states[b], i, events[b].now);
  }

  /** Two deliveries of a recurring timer that is not reset between them are at least its interval apart. */
  lemma RecurringSpaced(states: seq<State>, events: seq<Event>, a: nat, b: nat, i: Id)
    requires Run(states, events) && Forward(states[0].previous, events)
    requires a < b < |events| && Fires(events[a], i) && Fires(events[b], i)
    requires forall j | a < j < b :: !Resets(events[j], i)
    ensures i in states[a].timers && states[a].timers[i].recurring
    ensures events[a].now + states[a].timers[i].ms <= events[b].now
  {
    assert Next(states[a], events[a], states[a + 1]);
    assert Due(states[a], i, events[a].now);
    if !states[a].timers[i].recurring {
      OneShotOnce(states, events, a, b, i);
    }
    NeverEarly(states, events, a, b, i);
    Started(states, events, a, i);
  }

  /** The call may change when the timer is due. */
  predicate Touches(e: Event, i: Id) {
    match e
    case Cancelled(j, _) => j == i
    case Refreshed(j, _, _) => j == i
    case WasReset(j, _, _, _, _, _) => j == i
    case Added(j, _, _, _, _, _) => j == i
    case Swept(_, fired) => i in fired
    case Asked(_, _) => false
  }

  lemma {:induction false} Untouched(states: seq<State>, events: seq<Event>, a: nat, k: nat, i: Id)
    requires Run(states, events) && a <= k < |states| && i in states[a].timers
    requires forall j | a <= j < k :: !Touches(events[j], i)
    ensures i in states[k].timers && states[k].timers[i] == states[a].timers[i]
    decreases k
  {
    if a < k {
      Untouched(states, events, a, k - 1, i);
      assert Next(states[k - 1], events[k - 1], states[k]);
      assert !Touches(events[k - 1], i);
    }
  }

  /** On time: over every run with a clock that does not go back, once a timer was started, and until a call
      touches it, a sweep delivers it exactly when its interval is over. */
  lemma OnTime(states: seq<State>, events: seq<Event>, a: nat, b: nat, i: Id)
    requires Run(states, events) && Forward(states[0].previous, events)
    requires a < b < |events| && Starts(events[a], i) && forall j | a < j < b :: !Touches(events[j], i)
    requires events[b].Swept?
    ensures Clock(events[a]).Some? && i in states[a + 1].timers
    ensures var t := states[a + 1].timers[i];
            Fires(events[b], i) <==> t.cb.Some? && Clock(events[a]).value + t.ms <= events[b].now
  {
    Started(states, events, a, i);
    Untouched(states, events, a + 1, b, i);
    PreviousBehind(states, events, b, b);
    assert Next(states[b], events[b], states[b + 1]);
    assert Fires(events[b], i) <==> Due(states[b], i, events[b].now);
  }

  // ---------- the clock's own jumps ----------

  /** Between sweeps the time of the last one is kept. */
  lemma {:induction false} PreviousKept(states: seq<State>, events: seq<Event>, a: nat, k: nat)
    requires Run(states, events) && a <= k < |states| && forall j | a <= j < k :: !events[j].Swept?
    ensures states[k].previous == states[a].previous
    decreases k
  {
    if a < k {
      PreviousKept(states, events, a, k - 1);
      assert Next(states[k - 1], events[k - 1], states[k]);
      assert !events[k - 1].Swept?;
    }
  }

  /** Over every run, whatever the clock does: a sweep delivers exactly the registered timers that are due, or all
      of them when the clock went back, since the last sweep that found a timer, by more than an hour or from
      within the first hour. */
  lemma SweepExact(states: seq<State>, events: seq<Event>, a: nat, b: nat, i: Id, live: Id)
    requires Run(states, events) && a < b < |events| && events[a].Swept? && events[b].Swept?
    requires Live(states[a], live) && forall j | a < j < b :: !events[j].Swept?
    requires events[a].now < WRAP && events[b].now < WRAP
    ensures Fires(events[b], i) <==>
              && Live(states[b], i)
              && var (was, now) := (events[a].now, events[b].now);
                 states[b].timers[i].next <= now || (now < was && (was < HOUR || now + HOUR < was))
  {
    assert Next(states[a], events[a], states[a + 1]);
    PreviousKept(states, events, a + 1, b);
    assert Next(states[b], events[b], states[b + 1]);
    assert Fires(events[b], i) <==> Due(states[b], i, events[b].now);
    RolloverMeaning(events[a].now, events[b].now);
  }

  // ---------- no lost wake-up ----------

  datatype Deadline = Never | At(t: nat)

  ghost predicate NotBefore(d: Deadline, next: nat) {
    d.At? && d.t <= next
  }

  /** What an idle thread last heard from getNextTimer, and whether the hook ran since. */
  datatype Waiter = Waiter(reported: Deadline, hooked: bool, clock: nat)

  ghost predicate Reports(s: State, d: Deadline) {
    match d
    case Never => forall i :: !Live(s, i)
    case At(t) => exists i :: AtFront(s, i) && s.timers[i].next == t
  }

  /** The waiter follows a call; the clock never goes back. */
  ghost predicate Follows(w: Waiter, s: State, e: Event, w': Waiter) {
    match e
    case Cancelled(_, _) => w' == w
    case Refreshed(_, now, _) => w.clock <= now && w' == w.(clock := now)
    case WasReset(_, _, _, now, _, hook) => w.clock <= now && w' == w.(clock := now, hooked := w.hooked || hook)
    case Added(_, _, _, _, now, hook) => w.clock <= now && w' == w.(clock := now, hooked := w.hooked || hook)
    case Asked(now, _) => w.clock <= now && w'.clock == now && !w'.hooked && Reports(s, w'.reported)
    case Swept(now, _) => w.clock <= now && w' == w.(clock := now)
  }

  /** No registered deadline is below the reported one, or a wake-up is pending and the hook ran. */
  ghost predicate Informed(s: State, w: Waiter) {
    (forall i | Live(s, i) :: NotBefore(w.reported, s.timers[i].next)) || (s.tickled && w.hooked)
  }

  ghost predicate WakeInv(s: State, w: Waiter) {
    && Sound(s) && Informed(s, w)
    && (s.tickled ==> w.hooked)
    && s.previous <= w.clock
    && forall i | i in s.timers :: s.timers[i].next <= w.clock + s.timers[i].ms
  }

  /** Inserting a timer keeps the waiter informed: a new minimum either sets the flag and runs the hook,
      or finds the flag set, and then the hook ran before. */
  lemma InsertInforms(s: State, i: Id, t: Timer, w: Waiter)
    requires Informed(s, w) && (s.tickled ==> w.hooked) && t.cb.Some?
    ensures var (s', hook) := Insert(s, i, t);
            Informed(s', w.(hooked := w.hooked || hook)) && (s'.tickled ==> w.hooked || hook)
  {
    var s1 := Put(s, i, t);
    if !s.tickled && !AtFront(s1, i) {
      var j :| Live(s1, j) && j != i && !Before(t.next, i, s1.timers[j].next, j);
      assert Live(s, j);
      forall k | Live(s1, k) ensures NotBefore(w.reported, s1.timers[k].next) {
        assert k != i ==> Live(s, k);
      }
    }
  }

  /** Raising deadlines keeps the waiter informed. */
  lemma RaiseInforms(s: State, s': State, w: Waiter)
    requires Informed(s, w) && s'.tickled == s.tickled
    requires forall k | Live(s', k) :: Live(s, k) && s.timers[k].next <= s'.timers[k].next
    ensures Informed(s', w)
  {
  }

  lemma WakeReset(s: State, w: Waiter, e: Event, s': State, w': Waiter)
    requires WakeInv(s, w) && Next(s, e, s') && Follows(w, s, e, w') && e.WasReset?
    ensures WakeInv(s', w')
  {
    var t := s.timers[e.i];
    if Live(s, e.i) {
      var start := if e.fromNow then e.now else t.next - t.ms;
      InsertInforms(s, e.i, t.(ms := e.ms, next := start + e.ms), w);
    }
  }

  /** A sweep never lowers a deadline: a clock that does not go back never rolls over. */
  lemma WakeSwept(s: State, w: Waiter, e: Event, s': State, w': Waiter)
    requires WakeInv(s, w) && Next(s, e, s') && Follows(w, s, e, w') && e.Swept?
    ensures WakeInv(s', w')
  {
    forall k | Live(s', k) ensures Live(s, k) && s.timers[k].next <= s'.timers[k].next {
      if k in e.fired {
        assert Due(s, k, e.now);
      }
    }
    RaiseInforms(s, s', w);
  }

  lemma WakeStep(s: State, w: Waiter, e: Event, s': State, w': Waiter)
    requires WakeInv(s, w) && Next(s, e, s') && Follows(w, s, e, w')
    ensures WakeInv(s', w')
  {
    match e
    case Cancelled(_, _) => RaiseInforms(s, s', w);
    case Refreshed(_, _, _) => RaiseInforms(s, s', w);
    case WasReset(_, _, _, _, _, _) => WakeReset(s, w, e, s', w');
    case Added(i, ms, cb, recurring, now, _) => InsertInforms(s, i, Timer(recurring, ms, now + ms, Some(cb)), w);
    case Asked(_, _) => assert forall i :: Live(s', i) <==> Live(s, i);
    case Swept(_, _) => WakeSwept(s, w, e, s', w');
  }

  /** No lost wake-up, over every run with a clock that never goes back. */
  lemma {:induction false} NoLostWakeUp(states: seq<State>, events: seq<Event>, waiters: seq<Waiter>, k: nat)
    requires Run(states, events) && |waiters| == |states| && k < |states|
    requires waiters[0].reported == Never && !waiters[0].hooked && states[0].previous <= waiters[0].clock
    requires forall j | 0 <= j < |events| :: Follows(waiters[j], states[j], events[j], waiters[j + 1])
    ensures WakeInv(states[k], waiters[k])
  {
    if k > 0 {
      NoLostWakeUp(states, events, waiters, k - 1);
      assert Next(states[k - 1], events[k - 1], states[k]);
      assert Follows(waiters[k - 1], states[k - 1], events[k - 1], waiters[k]);
      WakeStep(states[k - 1], waiters[k - 1], events[k - 1], states[k], waiters[k]);
    }
  }
}
