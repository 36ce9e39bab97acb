/** The event table as a map: what each operation does to the registrations, and their conservation over runs. */
module EventSpec {
  datatype Dir = Read | Write

  datatype Key = Key(fd: nat, dir: Dir)

  /** `armed` holds the registrations; `size` is how many descriptors have a context. */
  datatype Table<R> = Table(size: nat, armed: map<Key, R>)

  const FIRST_SIZE: nat := 32

  /** The table after an operation looked for `fd`: half as large again as needed, when it was missing. */
  ghost function Grow<R>(t: Table<R>, fd: nat): (t': Table<R>)
  {
    if t.size > fd then t else t.(size := fd * 3 / 2)
  }

  /** Growing gives `fd` a context and keeps all others, as long as the table has its first size. */
  lemma GrowFits<R>(t: Table<R>, fd: nat)
    requires FIRST_SIZE <= t.size
    ensures fd < Grow(t, fd).size && t.size <= Grow(t, fd).size
  {
  }

  /** What one call did. */
  datatype Event<R> =
    | Added(key: Key, reg: R)      // addEvent succeeded
    | Deleted(key: Key)            // delEvent succeeded
    | Fired(keys: seq<Key>)        // cancelEvent, cancelAll or the dispatch loop triggered these, in order
    | Failed(fd: nat)              // addEvent refused by the kernel: the table may have grown
    | Nothing                      // any other unsuccessful call

  ghost predicate Next<R>(t: Table<R>, e: Event<R>, t': Table<R>) {
    match e
    case Added(k, r) =>
      k !in t.armed && t' == Grow(t, k.fd).(armed := t.armed[k := r])
    case Deleted(k) => k in t.armed && t' == t.(armed := t.armed - {k})
    case Fired(ks) =>
      && (forall k | k in ks :: k in t.armed)
      && (forall i, j | 0 <= i < j < |ks| :: ks[i] != ks[j])
      && t' == t.(armed := t.armed - (set k | k in ks))
    case Failed(fd) => t' == Grow(t, fd)
    case Nothing => t' == t
  }

  /** The registrations a call hands to their schedulers, in order. */
  ghost function Handed<R>(t: Table<R>, e: Event<R>): (out: seq<R>)
    requires e.Fired? ==> forall k | k in e.keys :: k in t.armed
    ensures |out| == if e.Fired? then |e.keys| else 0
    ensures forall i | 0 <= i < |out| :: out[i] == t.armed[e.keys[i]]
  {
    if e.Fired? then seq(|e.keys|, i requires 0 <= i < |e.keys| => t.armed[e.keys[i]]) else []
  }

  ghost predicate Run<R(!new)>(tables: seq<Table<R>>, events: seq<Event<R>>) {
    && |tables| == |events| + 1
    && tables[0] == Table(FIRST_SIZE, map[])
    && forall n | 0 <= n < |events| :: Next(tables[n], events[n], tables[n + 1])
  }

  // ---------- conservation ----------

  ghost function StillArmed<R>(t: Table<R>, k: Key): seq<R> {
    if k in t.armed then [t.armed[k]] else []
  }

  /** The registrations made at `k` by the first `n` calls, in order. */
  ghost function AddedAt<R>(events: seq<Event<R>>, n: nat, k: Key): seq<R>
    requires n <= |events|
  {
    if n == 0 then []
    else
      var e := events[n - 1];
      AddedAt(events, n - 1, k) + if e.Added? && e.key == k then [e.reg] else []
  }

  /** How a registration ended, and what it was. */
  datatype End<R> = Dropped(reg: R) | HandedOver(reg: R)

  /** How one call ends the registration at `k`, if it does: at most one end for each handed-over registration. */
  ghost function EndAt<R>(t: Table<R>, e: Event<R>, k: Key): seq<End<R>>
    requires (e.Deleted? && e.key == k) || (e.Fired? && k in e.keys) ==> k in t.armed
  {
    if e.Deleted? && e.key == k then [Dropped(t.armed[k])]
    else if e.Fired? && k in e.keys then [HandedOver(t.armed[k])]
    else []
  }

  ghost function EndsAt<R(!new)>(tables: seq<Table<R>>, events: seq<Event<R>>, n: nat, k: Key): seq<End<R>>
    requires Run(tables, events) && n <= |events|
  {
    if n == 0 then []
    else
      assert Next(tables[n - 1], events[n - 1], tables[n]);
      EndsAt(tables, events, n - 1, k) + EndAt(tables[n - 1], events[n - 1], k)
  }

  ghost function Regs<R>(ends: seq<End<R>>): (out: seq<R>)
    ensures |out| == |ends| && forall i | 0 <= i < |out| :: out[i] == ends[i].reg
  {
    seq(|ends|, i requires 0 <= i < |ends| => ends[i].reg)
  }

  /** Each registration is consumed exactly once: at every key, the registrations made are, in order, those
      that ended, each by one deletion or one hand-over, followed by the one still armed. */
  lemma {:induction false} ConsumedOnce<R(!new)>(tables: seq<Table<R>>, events: seq<Event<R>>, n: nat, k: Key)
    requires Run(tables, events) && n <= |events|
    ensures AddedAt(events, n, k) == Regs(EndsAt(tables, events, n, k)) + StillArmed(tables[n], k)
  {
    if n == 0 {
    } else {
      ConsumedOnce(tables, events, n - 1, k);
      var t, e := tables[n - 1], events[n - 1];
      assert Next(t, e, tables[n]);
      var ends, last := EndsAt(tables, events, n - 1, k), EndAt(t, e, k);
      assert Regs(ends + last) == Regs(ends) + Regs(last);
      assert Regs(last) + StillArmed(tables[n], k)
          == StillArmed(t, k) + if e.Added? && e.key == k then [e.reg] else [];
    }
  }

  /** A hand-over gives exactly the registration at `k` to its scheduler, once; no other call gives it. */
  lemma HandedIsEnd<R>(t: Table<R>, e: Event<R>, t': Table<R>, k: Key)
    requires Next(t, e, t')
    ensures e.Fired? && k in e.keys ==>
              exists i :: 0 <= i < |e.keys| && e.keys[i] == k && Handed(t, e)[i] == t.armed[k]
                          && forall j | 0 <= j < |e.keys| && e.keys[j] == k :: j == i
    ensures !e.Fired? ==> Handed(t, e) == []
  {
    if e.Fired? && k in e.keys {
      var i :| 0 <= i < |e.keys| && e.keys[i] == k;
      assert Handed(t, e)[i] == t.armed[k];
    }
  }

  /** Every registered descriptor has a context. */
  lemma {:induction false} InTable<R(!new)>(tables: seq<Table<R>>, events: seq<Event<R>>, n: nat)
    requires Run(tables, events) && n <= |events|
    ensures FIRST_SIZE <= tables[n].size && forall k | k in tables[n].armed :: k.fd < tables[n].size
  {
    if n > 0 {
      InTable(tables, events, n - 1);
      assert Next(tables[n - 1], events[n - 1], tables[n]);
    }
  }
}
