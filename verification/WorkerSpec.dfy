/** The order in which one worker runs its tasks: the queue that requeues what yielded, and the rounds it makes. */
module WorkerSpec {
  /** A queued task that will yield `left` more times before it ends, or one with nothing left to run. */
  datatype Task = Dead | Task(id: nat, left: nat)

  function Weight(q: seq<Task>): nat {
    if q == [] then 0 else (if q[0].Dead? then 1 else q[0].left + 2) + Weight(q[1..])
  }

  lemma {:induction false} WeightAppend(a: seq<Task>, b: seq<Task>)
    ensures Weight(a + b) == Weight(a) + Weight(b)
  {
    if a == [] {
      assert a + b == b;
    } else {
      WeightAppend(a[1..], b);
      assert (a + b)[1..] == a[1..] + b;
    }
  }

  /** What is left of a task after a turn. */
  function Left(t: Task): (r: seq<Task>)
    ensures Weight(r) < if t.Dead? then 1 else t.left + 2
  {
    if t.Task? && t.left > 0 then [Task(t.id, t.left - 1)] else []
  }

  /** The queue after its first task had a turn. */
  function Turn(q: seq<Task>): (q': seq<Task>)
    requires q != []
    ensures Weight(q') < Weight(q)
  {
    WeightAppend(q[1..], Left(q[0]));
    q[1..] + Left(q[0])
  }

  /** What one turn runs. */
  function Runs(t: Task): seq<nat> {
    if t.Dead? then [] else [t.id]
  }

  /** The turns until the queue is empty. */
  function Log(q: seq<Task>): seq<nat>
    decreases Weight(q)
  {
    if q == [] then [] else Runs(q[0]) + Log(Turn(q))
  }

  // ---------- rounds ----------

  function Ids(q: seq<Task>): seq<nat> {
    if q == [] then [] else Runs(q[0]) + Ids(q[1..])
  }

  /** What is left of the tasks after each had a turn, in the same order. */
  function Again(q: seq<Task>): (r: seq<Task>)
    ensures q != [] ==> Weight(r) < Weight(q)
  {
    if q == [] then [] else
      WeightAppend(Left(q[0]), Again(q[1..]));
      Left(q[0]) + Again(q[1..])
  }

  /** Rounds: in each, every task that has not ended runs once, always in the same order. */
  function Rounds(q: seq<Task>): seq<nat>
    decreases Weight(q)
  {
    if q == [] then [] else Ids(q) + Rounds(Again(q))
  }

  lemma Regroup<T>(a: seq<T>, b: seq<T>, c: seq<T>)
    ensures a + b + c == a + (b + c)
  {
  }

  lemma TurnOf(a: seq<Task>, b: seq<Task>)
    requires a != []
    ensures (a + b)[0] == a[0] && Turn(a + b) == a[1..] + (b + Left(a[0]))
  {
    assert (a + b)[1..] == a[1..] + b;
    Regroup(a[1..], b, Left(a[0]));
  }

  lemma LogOf(q: seq<Task>)
    requires q != []
    ensures Log(q) == Runs(q[0]) + Log(Turn(q))
  {
  }

  /** One more turn done of those that were ahead. */
  lemma DoneTurn(all: seq<nat>, done: seq<nat>, q: seq<Task>) returns (done': seq<nat>)
    requires q != [] && all == done + Log(q)
    ensures done' == done + Runs(q[0]) && all == done' + Log(Turn(q))
  {
    done' := done + Runs(q[0]);
    LogOf(q);
    Regroup(done, Runs(q[0]), Log(Turn(q)));
  }

  /** Within a round: the tasks still to run come before those that ran and yielded. */
  lemma {:induction false} RestOfRound(a: seq<Task>, b: seq<Task>)
    ensures Log(a + b) == Ids(a) + Log(b + Again(a))
    decreases |a|
  {
    if a == [] {
      assert a + b == b && b + Again(a) == b;
    } else {
      var b' := b + Left(a[0]);
      RestOfRound(a[1..], b');
      TurnOf(a, b);
      LogOf(a + b);
      Regroup(b, Left(a[0]), Again(a[1..]));
      Regroup(Runs(a[0]), Ids(a[1..]), Log(b' + Again(a[1..])));
    }
  }

  /** The queue makes rounds. */
  lemma {:induction false} RoundRobin(q: seq<Task>)
    ensures Log(q) == Rounds(q)
    decreases Weight(q)
  {
    if q != [] {
      RestOfRound(q, []);
      assert q + [] == q && [] + Again(q) == Again(q);
      RoundRobin(Again(q));
    }
  }

  lemma {:induction false} IdsAt(q: seq<Task>, i: nat)
    requires i < |q| && forall j | 0 <= j < |q| :: q[j].Task?
    ensures |Ids(q)| == |q| && Ids(q)[i] == q[i].id
    decreases |q|
  {
    if |q| > 1 {
      IdsAt(q[1..], if i > 0 then i - 1 else 0);
    }
  }

  /** Fair: at any time, each task in the queue has its next turn after one turn of each before it, and before
      any of them has another. */
  lemma NextTurn(q: seq<Task>, i: nat)
    requires i < |q| && forall j | 0 <= j < |q| :: q[j].Task?
    ensures i < |Log(q)| && Log(q)[i] == q[i].id
  {
    RestOfRound(q, []);
    assert q + [] == q;
    IdsAt(q, i);
  }

  function Count(log: seq<nat>, id: nat): nat {
    if log == [] then 0 else (if log[0] == id then 1 else 0) + Count(log[1..], id)
  }

  lemma {:induction false} CountAppend(a: seq<nat>, b: seq<nat>, id: nat)
    ensures Count(a + b, id) == Count(a, id) + Count(b, id)
  {
    if a == [] {
      assert a + b == b;
    } else {
      CountAppend(a[1..], b, id);
      assert (a + b)[1..] == a[1..] + b;
    }
  }

  /** How many turns the tasks of this identity need. */
  function Needs(q: seq<Task>, id: nat): nat {
    if q == [] then 0 else (if q[0].Task? && q[0].id == id then q[0].left + 1 else 0) + Needs(q[1..], id)
  }

  lemma {:induction false} NeedsAppend(a: seq<Task>, b: seq<Task>, id: nat)
    ensures Needs(a + b, id) == Needs(a, id) + Needs(b, id)
  {
    if a == [] {
      assert a + b == b;
    } else {
      NeedsAppend(a[1..], b, id);
      assert (a + b)[1..] == a[1..] + b;
    }
  }

  /** Every task runs to its end: it has one turn more than it yields. */
  lemma {:induction false} RunsToEnd(q: seq<Task>, id: nat)
    ensures Count(Log(q), id) == Needs(q, id)
    decreases Weight(q)
  {
    if q != [] {
      RunsToEnd(Turn(q), id);
      CountAppend(Runs(q[0]), Log(Turn(q)), id);
      NeedsAppend(q[1..], Left(q[0]), id);
    }
  }
}
