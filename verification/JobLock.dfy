/**
 The job lock: a table from job name to the end of a lease, and the processes that run jobs under it.

 Each SQL statement is one atomic step. The database clock is a parameter; a statement may read a clock that
 is older than the moment it takes effect, but never newer.
 */
module JobLock {
  import opened Sequences

  type Key = string
  type Pid = nat

  const TTL := 600.0

  type Table = map<Key, real>

  // ----- the two statements

  /** INSERT .. ON CONFLICT DO UPDATE .. WHERE locked_until < now(): succeeds if there is no row or it has expired. */
  predicate Free(rows: Table, key: Key, now: real) {
    key !in rows || rows[key] < now
  }

  function Locked(rows: Table, key: Key, now: real, ttl: real): Table {
    if Free(rows, key, now) then rows[key := now + ttl] else rows
  }

  function Released(rows: Table, key: Key): Table {
    rows - {key}
  }

  /** What became of a statement: it ran and was answered, it ran and its answer was lost, or it never ran. */
  datatype Delivery = Answered | AnswerLost | NeverRan

  /** The store's two lock methods over the table they update. */
  class Store {
    var rows: Table

    constructor ()
      ensures rows == map[]
    {
      rows := map[];
    }

    method TryLock(key: Key, ttl: real, now: real, delivery: Delivery) returns (ok: bool, err: bool)
      modifies this
      ensures rows == if delivery.NeverRan? then old(rows) else Locked(old(rows), key, now, ttl)
      ensures err == !delivery.Answered?
      ensures ok == (delivery.Answered? && Free(old(rows), key, now))
      ensures ok ==> rows == old(rows)[key := now + ttl]
      ensures rows != old(rows) ==> key !in old(rows) || old(rows)[key] < now
    {
      ok, err := false, !delivery.Answered?;
      if delivery.NeverRan? {
        return;
      }
      if key !in rows {
        rows := rows[key := now + ttl];
        ok := !err;
      } else if rows[key] < now {
        rows := rows[key := now + ttl];
        ok := !err;
      }
    }

    method ReleaseLock(key: Key, delivery: Delivery) returns (err: bool)
      modifies this
      ensures rows == if delivery.NeverRan? then old(rows) else Released(old(rows), key)
      ensures err == !delivery.Answered?
    {
      if !delivery.NeverRan? {
        rows := map k | k in rows && k != key :: rows[k];
      }
      err := !delivery.Answered?;
    }
  }

  /** How the body of a job ended. */
  datatype Work = Work(started: bool, rows: nat, failed: bool)

  /** The table after one run of a job: a row that was acquired is gone unless its DELETE never ran. */
  function AfterRun(rows: Table, key: Key, now: real, lock: Delivery, release: Delivery): Table {
    if lock.NeverRan? then rows
    else if lock.Answered? && Free(rows, key, now) && !release.NeverRan? then Released(rows, key)
    else Locked(rows, key, now, TTL)
  }

  /**
   One run of a job when nothing else touches its key meanwhile: lock, do the work, release. The deferred release is
   tried on every path that acquired, also when the run could not be recorded as started; its error is only logged, so
   a DELETE that never ran leaves the row and the run ends as it would have ended otherwise.
   */
  method RunJob(store: Store, key: Key, now: real, lock: Delivery, work: Work, release: Delivery)
    returns (rows: nat, err: bool)
    modifies store
    ensures store.rows == AfterRun(old(store.rows), key, now, lock, release)
    ensures var acquired := lock.Answered? && Free(old(store.rows), key, now);
            && (!acquired ==> rows == 0 && err == !lock.Answered?)
            && (acquired ==> rows == (if work.started then work.rows else 0) && err == (!work.started || work.failed))
  {
    var ok, lost := store.TryLock(key, TTL, now, lock);
    if lost || !ok {
      return 0, lost;
    }
    if !work.started {
      var _ := store.ReleaseLock(key, release);
      return 0, true;
    }
    var _ := store.ReleaseLock(key, release);
    return work.rows, work.failed;
  }

  // ----- processes

  /** A process inside a job, with the lease it was given; it stays inside until its DELETE has run. */
  datatype Holder = Holder(key: Key, until: real)

  datatype State = State(rows: Table, inside: map<Pid, Holder>)

  const EMPTY := State(map[], map[])

  datatype Step =
    | Acquire(p: Pid, key: Key, at: real, now: real)   // the statement reads now and takes effect at
    | AcquireLost(key: Key, at: real, now: real)       // the statement runs, its answer is lost
    | Release(p: Pid, at: real)
    | Abandon(p: Pid, at: real)                        // the process dies, or its DELETE never reaches the database

  predicate Enabled(s: State, clock: real, step: Step) {
    && clock <= step.at
    && match step
       case Acquire(p, _, at, now) => p !in s.inside && now <= at
       case AcquireLost(_, at, now) => now <= at
       case Release(p, _) => p in s.inside
       case Abandon(p, _) => p in s.inside
  }

  function Next(s: State, step: Step): State
    requires step.Release? ==> step.p in s.inside
  {
    match step
    case Acquire(p, key, _, now) =>
      State(Locked(s.rows, key, now, TTL),
            if Free(s.rows, key, now) then s.inside[p := Holder(key, now + TTL)] else s.inside)
    case AcquireLost(key, _, now) => State(Locked(s.rows, key, now, TTL), s.inside)
    case Release(p, _) => State(Released(s.rows, s.inside[p].key), s.inside - {p})
    case Abandon(p, _) => State(s.rows, s.inside - {p})
  }

  function Clock(run: seq<Step>): real {
    if run == [] then 0.0 else Last(run).at
  }

  predicate Legal(run: seq<Step>)
    decreases |run|, 0
  {
    run == [] || (Legal(Front(run)) && Enabled(Final(Front(run)), Clock(Front(run)), Last(run)))
  }

  function Final(run: seq<Step>): State
    requires Legal(run)
    decreases |run|, 1
  {
    if run == [] then EMPTY else Next(Final(Front(run)), Last(run))
  }

  /** One run of a job as steps of this machine: its lock statement, and its DELETE or the loss of it. */
  function Performed(s: State, p: Pid, key: Key, now: real, lock: Delivery, release: Delivery): State {
    match lock
    case NeverRan => s
    case AnswerLost => Next(s, AcquireLost(key, now, now))
    case Answered =>
      var locked := Next(s, Acquire(p, key, now, now));
      if p !in locked.inside then locked
      else Next(locked, if release.NeverRan? then Abandon(p, now) else Release(p, now))
  }

  /** The sequential run and the machine agree: the table is that of RunJob, and the process is out again. */
  lemma RunIsSteps(s: State, p: Pid, key: Key, now: real, lock: Delivery, release: Delivery)
    requires p !in s.inside
    ensures Performed(s, p, key, now, lock, release) == State(AfterRun(s.rows, key, now, lock, release), s.inside)
  {
    var locked := Next(s, Acquire(p, key, now, now));
    if p in locked.inside {
      assert locked.inside - {p} == s.inside;
      assert Released(locked.rows, key) == Released(s.rows, key);
    }
  }

  // ----- mutual exclusion

  predicate Holds(s: State, p: Pid, key: Key) {
    p in s.inside && s.inside[p].key == key
  }

  /** At most one process is inside the job. */
  ghost predicate Exclusive(s: State, key: Key) {
    forall p, q | Holds(s, p, key) && Holds(s, q, key) :: p == q
  }

  /** No process is still inside the job after its lease. */
  ghost predicate OnTime(s: State, key: Key, at: real) {
    forall p | Holds(s, p, key) :: at <= s.inside[p].until
  }

  /** At every step of the run, every process inside the job is within its lease; other jobs may overrun theirs. */
  ghost predicate Timely(run: seq<Step>, key: Key)
    requires Legal(run)
  {
    run == [] || (Timely(Front(run), key) && OnTime(Final(Front(run)), key, Last(run).at))
  }

  /** Each process inside the job finds exactly its own lease in the table. */
  ghost predicate OwnRow(s: State, key: Key) {
    forall p | Holds(s, p, key) :: key in s.rows && s.rows[key] == s.inside[p].until
  }

  lemma ExclusionStep(s: State, key: Key, clock: real, step: Step)
    requires Exclusive(s, key) && OwnRow(s, key) && Enabled(s, clock, step) && OnTime(s, key, step.at)
    ensures Exclusive(Next(s, step), key) && OwnRow(Next(s, step), key)
  {
    var after := Next(s, step);
    if step.Release? && Holds(s, step.p, key) {
      assert forall q :: !Holds(after, q, key);
    }
    assert forall p | Holds(after, p, key) :: Holds(s, p, key) || (step.Acquire? && step.p == p);
  }

  /**
   While the holders of a job release within their leases, at most one process is inside it and its row is its own,
   whatever the holders of other jobs do.
   */
  lemma {:induction false} MutualExclusion(run: seq<Step>, key: Key)
    requires Legal(run) && Timely(run, key)
    ensures Exclusive(Final(run), key) && OwnRow(Final(run), key)
  {
    if run != [] {
      MutualExclusion(Front(run), key);
      ExclusionStep(Final(Front(run)), key, Clock(Front(run)), Last(run));
    }
  }

  /**
   The unconditional DELETE of any other process, late for its own job or not, leaves the row of a job whose holders
   are on time.
   */
  lemma ReleaseFreesOnlyItself(run: seq<Step>, key: Key, p: Pid, q: Pid)
    requires Legal(run) && Timely(run, key)
    requires p in Final(run).inside && Holds(Final(run), q, key) && p != q
    ensures var s := Final(run);
            var after := Next(s, Release(p, Clock(run)));
            && Holds(after, q, key) && key in after.rows && after.rows[key] == s.inside[q].until
            && s.inside[p].key !in after.rows
  {
    MutualExclusion(run, key);
    assert Holds(Final(run), p, key) ==> p == q;
  }

  // ----- exactness

  /** An idle process can enter a job that is being run exactly when the lease of the run has passed. */
  lemma StolenIffOverrun(run: seq<Step>, key: Key, p: Pid, q: Pid, at: real)
    requires Legal(run) && Timely(run, key) && Clock(run) <= at
    requires Holds(Final(run), p, key) && q !in Final(run).inside
    ensures var s := Final(run);
            var after := Next(s, Acquire(q, key, at, at));
            && Holds(after, p, key)
            && (Holds(after, q, key) <==> s.inside[p].until < at)
            && (Exclusive(after, key) <==> at <= s.inside[p].until)
  {
    MutualExclusion(run, key);
    var s := Final(run);
    var after := Next(s, Acquire(q, key, at, at));
    assert Holds(after, p, key);
    if at <= s.inside[p].until {
      assert after == s;
    } else {
      assert Holds(after, q, key);
    }
  }

  /** From the clock reading of its lock statement to its DELETE, a holder of the job is inside at most the limit. */
  ghost predicate HeldAtMost(run: seq<Step>, key: Key, limit: real)
    requires Legal(run)
  {
    run == []
    || (&& HeldAtMost(Front(run), key, limit)
        && forall p | Holds(Final(Front(run)), p, key) ::
             Last(run).at <= Final(Front(run)).inside[p].until - TTL + limit)
  }

  /** However long other jobs take, in no interleaving do runs of this one overlap that take at most so long. */
  ghost predicate SafeFor(key: Key, limit: real) {
    forall run: seq<Step> | Legal(run) && HeldAtMost(run, key, limit) :: Exclusive(Final(run), key)
  }

  lemma {:induction false} ShortIsTimely(run: seq<Step>, key: Key, limit: real)
    requires Legal(run) && HeldAtMost(run, key, limit) && limit <= TTL
    ensures Timely(run, key)
  {
    if run != [] {
      ShortIsTimely(Front(run), key, limit);
    }
  }

  /** Two processes, the second of which comes while the first is still inside but past its lease. */
  lemma OverrunOverlaps(key: Key, limit: real) returns (run: seq<Step>)
    requires limit > TTL
    ensures Legal(run) && HeldAtMost(run, key, limit) && !Exclusive(Final(run), key)
  {
    var first, second := Acquire(0, key, 0.0, 0.0), Acquire(1, key, limit, limit);
    run := [first, second];
    assert Front([first]) == [] && Front(run) == [first] && Legal([]) && Legal([first]);
    assert Final([first]) == State(map[key := TTL], map[0 := Holder(key, TTL)]);
    assert Final([]) == EMPTY && HeldAtMost([], key, limit) && HeldAtMost([first], key, limit);
    assert Legal(run) && HeldAtMost(run, key, limit);
    assert Holds(Final(run), 0, key) && Holds(Final(run), 1, key);
  }

  /** Mutual exclusion holds for a job in every interleaving exactly if it cannot outlast its lease of ten minutes. */
  lemma SafeExactlyUpToTtl(key: Key, limit: real)
    ensures SafeFor(key, limit) <==> limit <= TTL
  {
    if limit <= TTL {
      forall run: seq<Step> | Legal(run) && HeldAtMost(run, key, limit) ensures Exclusive(Final(run), key) {
        ShortIsTimely(run, key, limit);
        MutualExclusion(run, key);
      }
    } else {
      var run := OverrunOverlaps(key, limit);
    }
  }

  /**
   An overrun does more than overlap: the late holder's DELETE removes its successor's row, and a third process
   enters while the successor is well within its lease.
   */
  lemma LateReleaseAdmitsThird(late: real) returns (run: seq<Step>)
    requires late > TTL
    ensures Legal(run) && var s := Final(run);
            && s.inside.Keys == {1, 2} && s.inside[1].key == s.inside[2].key
            && Clock(run) == late < s.inside[1].until && late < s.inside[2].until
  {
    var first, second := Acquire(0, "candles", 0.0, 0.0), Acquire(1, "candles", late, late);
    var release, third := Release(0, late), Acquire(2, "candles", late, late);
    assert Front([first]) == [] && Front([first, second]) == [first];
    assert Front([first, second, release]) == [first, second];
    run := [first, second, release, third];
    assert Front(run) == [first, second, release];
    assert Legal([]) && Legal([first]);
    assert Final([first]) == State(map["candles" := TTL], map[0 := Holder("candles", TTL)]);
    assert Legal([first, second]);
    assert Final([first, second]).inside == map[0 := Holder("candles", TTL), 1 := Holder("candles", late + TTL)];
    assert Legal([first, second, release]);
    assert Final([first, second, release]) == State(map[], map[1 := Holder("candles", late + TTL)]);
  }

  // ----- progress

  /** No row reaches further than one lease ahead. */
  ghost predicate RowsBounded(s: State, at: real) {
    forall key | key in s.rows :: s.rows[key] <= at + TTL
  }

  lemma {:induction false} NoLeaseIsLonger(run: seq<Step>)
    requires Legal(run)
    ensures RowsBounded(Final(run), Clock(run))
  {
    if run != [] {
      NoLeaseIsLonger(Front(run));
    }
  }

  /**
   A lease left behind never blocks for longer than one lease. After any run, with holders late or not, an idle
   process acquires a job at a later time exactly if its row, if any, has expired, and always once one lease has
   passed. If nobody was inside the job, it is there alone; exclusion in the other jobs is as it was.
   */
  lemma LeftLeaseExpires(run: seq<Step>, key: Key, p: Pid, at: real)
    requires Legal(run) && Clock(run) <= at && p !in Final(run).inside
    ensures var s := Final(run);
            var after := Next(s, Acquire(p, key, at, at));
            && (Holds(after, p, key) <==> (key in s.rows ==> s.rows[key] < at))
            && (Clock(run) + TTL < at ==> Holds(after, p, key))
            && ((forall q :: !Holds(s, q, key)) ==> Exclusive(after, key))
            && (forall other | other != key :: Exclusive(after, other) <==> Exclusive(s, other))
  {
    NoLeaseIsLonger(run);
    var s := Final(run);
    var after := Next(s, Acquire(p, key, at, at));
    assert forall q, other | q != p || other != key :: Holds(after, q, other) <==> Holds(s, q, other);
    forall other | other != key && Exclusive(after, other) ensures Exclusive(s, other) {
      assert forall q | Holds(s, q, other) :: Holds(after, q, other);
    }
  }
}
