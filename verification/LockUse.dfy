/** The locks of the striped set: held by exactly those who need them, so nothing ever deadlocks. */
module LockUse {
  import opened StringSets
  import opened StripedConcurrency
  import opened Linearizability

  /** Thread `t` is between taking and releasing the write lock of stripe `v`. */
  predicate Writes(sys: Sys, t: nat, v: nat)
    requires ValidCount(|sys.stripes|)
  {
    t < |sys.tasks| && Holds(sys.tasks[t]) && Home(sys, sys.tasks[t].key) == v
  }

  /** Query `q` is between taking and releasing the read lock of stripe `v`. */
  predicate Reads(sys: Sys, q: nat, v: nat) {
    HasScan(sys, q, v, Holding) || HasScan(sys, q, v, Sent)
  }

  /** A lock is held by nobody but those who are inside. */
  ghost predicate LockOk(sys: Sys, v: nat)
    requires Shaped(sys) && v < |sys.locks|
  {
    match sys.locks[v]
    case Free => true
    case Writing(t) => Writes(sys, t, v)
    case Reading(qs) => qs != {} && forall q :: q in qs ==> Reads(sys, q, v)
  }

  ghost predicate LocksOk(sys: Sys)
    requires Shaped(sys)
  {
    forall v {:trigger LockOk(sys, v)} :: 0 <= v < |sys.locks| ==> LockOk(sys, v)
  }

  /** A step of another thread leaves a writer where it is. */
  lemma WriterStays(sys: Sys, step: Step, t: nat, v: nat)
    requires Shaped(sys) && Enabled(sys, step) && Writes(sys, t, v) && step != Release(t)
    ensures Shaped(Next(sys, step)) && Writes(Next(sys, step), t, v)
  {
    hide StripeOf, Wrap32, Flat, ValidCount, Lists;
  }

  lemma ReaderStays(sys: Sys, step: Step, q: nat, v: nat)
    requires Shaped(sys) && Enabled(sys, step) && Reads(sys, q, v) && step != ReleaseRead(q, v)
    ensures Reads(Next(sys, step), q, v)
  {
    hide StripeOf, Wrap32, Flat, ValidCount, Lists;
  }

  /** What a step makes of one lock. */
  lemma LockStep(sys: Sys, step: Step, v: nat)
    requires Shaped(sys) && Enabled(sys, step) && v < |sys.locks|
    ensures |Next(sys, step).locks| == |sys.locks|
    ensures Next(sys, step).locks[v] ==
            match step
            case Acquire(t) => if Home(sys, sys.tasks[t].key) == v then Writing(t) else sys.locks[v]
            case Release(t) => if Home(sys, sys.tasks[t].key) == v then Free else sys.locks[v]
            case AcquireRead(q, w) => if w == v then AddReader(sys.locks[v], q) else sys.locks[v]
            case ReleaseRead(q, w) => if w == v then DropReader(sys.locks[v], q) else sys.locks[v]
            case _ => sys.locks[v]
  {
    hide StripeOf, Wrap32, Flat, Lists, AddReader, DropReader;
  }

  lemma KeepWriter(sys: Sys, step: Step, v: nat, t: nat)
    requires Shaped(sys) && Enabled(sys, step) && v < |sys.locks| && LockOk(sys, v)
    requires IsAdd(step) ==> TaskOk(sys, step.t)
    requires Shaped(Next(sys, step)) && v < |Next(sys, step).locks| && Next(sys, step).locks[v] == Writing(t)
    ensures Writes(Next(sys, step), t, v)
  {
    hide StripeOf, Wrap32, Flat, ValidCount, Lists;
    LockStep(sys, step, v);
    if sys.locks[v] == Writing(t) && step != Release(t) {
      WriterStays(sys, step, t, v);
    }
  }

  lemma KeepReaders(sys: Sys, step: Step, v: nat, q: nat)
    requires Shaped(sys) && Enabled(sys, step) && v < |sys.locks| && LockOk(sys, v)
    requires Shaped(Next(sys, step)) && v < |Next(sys, step).locks|
    requires Next(sys, step).locks[v].Reading? && q in Next(sys, step).locks[v].readers
    ensures Reads(Next(sys, step), q, v)
  {
    hide StripeOf, Wrap32, Flat, ValidCount, Lists;
    LockStep(sys, step, v);
    if sys.locks[v].Reading? && q in sys.locks[v].readers && step != ReleaseRead(q, v) {
      ReaderStays(sys, step, q, v);
    }
  }

  lemma KeepLockUse(sys: Sys, step: Step)
    requires Inv(sys) && Enabled(sys, step) && LocksOk(sys)
    ensures Shaped(Next(sys, step)) && LocksOk(Next(sys, step))
  {
    hide Enabled, Next, QueriesOk, ScansOk, InPlace, Wrap32, Flat, TaskOk, Writes, Reads;
    var sys2 := Next(sys, step);
    StepShape(sys, step);
    forall v | 0 <= v < |sys2.locks| ensures LockOk(sys2, v) {
      SameLocks(sys, step);
      assert LockOk(sys, v);
      match sys2.locks[v] {
        case Free =>
        case Writing(t) => KeepWriter(sys, step, v, t);
        case Reading(qs) =>
          SomeReader(sys, step, v);
          forall q | q in qs ensures Reads(sys2, q, v) {
            KeepReaders(sys, step, v, q);
          }
      }
    }
  }

  lemma SameLocks(sys: Sys, step: Step)
    requires Shaped(sys) && Enabled(sys, step)
    ensures |Next(sys, step).locks| == |sys.locks|
  {
    hide StripeOf, Wrap32, Flat, Lists;
  }

  lemma SomeReader(sys: Sys, step: Step, v: nat)
    requires Shaped(sys) && Enabled(sys, step) && v < |sys.locks| && LockOk(sys, v)
    requires v < |Next(sys, step).locks| && Next(sys, step).locks[v].Reading?
    ensures Next(sys, step).locks[v].readers != {}
  {
    hide StripeOf, Wrap32, Flat, ValidCount, Lists, Reads, Writes;
    LockStep(sys, step, v);
  }

  /** In every reachable state a lock is held exactly by those who are inside its stripe. */
  lemma {:induction false} LocksUsed(n: nat, threads: nat, run: seq<Step>, i: nat)
    requires ValidCount(n) && Legal(n, threads, run) && i <= |run|
    ensures Shaped(At(n, threads, run, i)) && LocksOk(At(n, threads, run, i))
    decreases i
  {
    hide Legal, After, Inv, Next, LockOk;
    if i == 0 {
      FreeAtFirst(n, threads, run);
    } else {
      LocksUsed(n, threads, run, i - 1);
      AtStep(n, threads, run, i - 1);
      KeepLockUse(At(n, threads, run, i - 1), run[i - 1]);
    }
  }

  lemma FreeAtFirst(n: nat, threads: nat, run: seq<Step>)
    requires ValidCount(n) && Legal(n, threads, run)
    ensures Shaped(At(n, threads, run, 0)) && LocksOk(At(n, threads, run, 0))
  {
  }

  /** An Add that waits can take its lock if and only if nobody is inside the stripe; a scan can begin
      if and only if no writer is inside: readers share. */
  lemma WhoWaits(n: nat, threads: nat, run: seq<Step>, i: nat, t: nat, q: nat, v: nat)
    requires ValidCount(n) && Legal(n, threads, run) && i <= |run|
    ensures Shaped(At(n, threads, run, i))
    ensures var sys := At(n, threads, run, i);
            t < |sys.tasks| && sys.tasks[t].Waiting? ==>
              var w := Home(sys, sys.tasks[t].key);
              (Enabled(sys, Acquire(t)) <==>
                && (forall u: nat :: !Writes(sys, u, w))
                && (forall p: nat :: !Reads(sys, p, w)))
    ensures var sys := At(n, threads, run, i);
            HasScan(sys, q, v, Ready) ==> (Enabled(sys, AcquireRead(q, v)) <==> forall u: nat :: !Writes(sys, u, v))
  {
    hide Legal, After, QueriesOk, InPlace, StripeOf, Flat, Wrap32;
    LocksUsed(n, threads, run, i);
    InvAt(n, threads, run, i);
    var sys := At(n, threads, run, i);
    forall u: nat, w: nat | Writes(sys, u, w) ensures w < |sys.locks| && sys.locks[w] == Writing(u) {
      assert TaskOk(sys, u);
    }
    forall p: nat, w: nat | Reads(sys, p, w)
      ensures w < |sys.locks| && sys.locks[w].Reading? && p in sys.locks[w].readers
    {
      assert ScanOk(sys, p, w);
    }
    forall w: nat | w < |sys.locks| ensures LockOk(sys, w) {}
    if t < |sys.tasks| && sys.tasks[t].Waiting? {
      var w := Home(sys, sys.tasks[t].key);
      assert LockOk(sys, w);
      if sys.locks[w].Reading? {
        var p :| p in sys.locks[w].readers;
      }
    }
    if HasScan(sys, q, v, Ready) {
      QueryShape(sys, q);
      assert LockOk(sys, v);
    }
  }

  lemma QueryShape(sys: Sys, q: nat)
    requires Shaped(sys) && q < |sys.queries|
    ensures |sys.queries[q].scans| == |sys.locks|
  {
  }

  // ---------- everything finishes ----------

  /** The steps that calls under way have still to take, at most. */
  function TaskWork(task: Task): nat {
    match task case Idle => 0 case Unlocking(_, _) => 1 case Inserted(_) => 2 case Locked(_) => 3 case Waiting(_) => 4
  }

  function ScanWork(scan: Scan): nat {
    match scan case Finished => 0 case Sent => 1 case Holding => 2 case Ready => 3
  }

  function TasksWork(tasks: seq<Task>): nat {
    if tasks == [] then 0 else TasksWork(tasks[..|tasks| - 1]) + TaskWork(tasks[|tasks| - 1])
  }

  function ScansWork(scans: seq<Scan>): nat {
    if scans == [] then 0 else ScansWork(scans[..|scans| - 1]) + ScanWork(scans[|scans| - 1])
  }

  function QueryWork(query: Query): nat { ScansWork(query.scans) + (if query.returned then 0 else 1) }

  function QueriesWork(queries: seq<Query>): nat {
    if queries == [] then 0 else QueriesWork(queries[..|queries| - 1]) + QueryWork(queries[|queries| - 1])
  }

  function Work(sys: Sys): nat { TasksWork(sys.tasks) + QueriesWork(sys.queries) }

  lemma {:induction false} TaskUpdated(tasks: seq<Task>, t: nat, task: Task)
    requires t < |tasks|
    ensures TasksWork(tasks[t := task]) == TasksWork(tasks) - TaskWork(tasks[t]) + TaskWork(task)
  {
    var z := |tasks| - 1;
    if t < z {
      TaskUpdated(tasks[..z], t, task);
      assert tasks[t := task][..z] == tasks[..z][t := task];
    } else {
      assert tasks[t := task][..z] == tasks[..z];
    }
  }

  lemma {:induction false} ScanUpdated(scans: seq<Scan>, v: nat, scan: Scan)
    requires v < |scans|
    ensures ScansWork(scans[v := scan]) == ScansWork(scans) - ScanWork(scans[v]) + ScanWork(scan)
  {
    var z := |scans| - 1;
    if v < z {
      ScanUpdated(scans[..z], v, scan);
      assert scans[v := scan][..z] == scans[..z][v := scan];
    } else {
      assert scans[v := scan][..z] == scans[..z];
    }
  }

  lemma {:induction false} QueryUpdated(queries: seq<Query>, q: nat, query: Query)
    requires q < |queries|
    ensures QueriesWork(queries[q := query]) == QueriesWork(queries) - QueryWork(queries[q]) + QueryWork(query)
  {
    hide QueryWork;
    var z := |queries| - 1;
    if q < z {
      QueryUpdated(queries[..z], q, query);
      assert queries[q := query][..z] == queries[..z][q := query];
    } else {
      assert queries[q := query][..z] == queries[..z];
    }
  }

  /** The step carries a call on that has been made before. */
  predicate CarriesOn(step: Step) { !step.CallAdd? && !step.Count? && !step.CallRange? }

  /** Such a step is progress. */
  lemma LessWork(sys: Sys, step: Step)
    requires Shaped(sys) && Enabled(sys, step) && CarriesOn(step)
    ensures Work(Next(sys, step)) < Work(sys)
  {
    hide StripeOf, Wrap32, Flat, ValidCount, Lists, TasksWork, QueriesWork, ScansWork;
    if IsAdd(step) {
      TaskUpdated(sys.tasks, step.t, Next(sys, step).tasks[step.t]);
    } else {
      var query := sys.queries[step.q];
      QueryUpdated(sys.queries, step.q, Next(sys, step).queries[step.q]);
      match step {
        case AcquireRead(_, v) => ScanUpdated(query.scans, v, Holding);
        case Send(_, v, _) => ScanUpdated(query.scans, v, Sent);
        case ReleaseRead(_, v) => ScanUpdated(query.scans, v, Finished);
        case _ =>
      }
    }
  }

  /** Every set of keys can be listed. */
  lemma {:induction false} Listable(keys: set<Key>, range: Range) returns (results: seq<Key>)
    ensures Lists(results, range, keys)
    decreases keys
  {
    results := [];
    if keys != {} {
      var k :| k in keys;
      var rest := Listable(keys - {k}, range);
      results := if Wanted(range, k) then rest + [k] else rest;
    }
  }

  /** Every addition has returned and every query, too. */
  ghost predicate AllDone(sys: Sys) {
    AllIdle(sys) && forall q :: 0 <= q < |sys.queries| ==> sys.queries[q].returned
  }

  lemma ReaderGoesOn(sys: Sys, q: nat, v: nat) returns (step: Step)
    requires Shaped(sys) && Reads(sys, q, v)
    ensures CarriesOn(step) && Enabled(sys, step)
  {
    if HasScan(sys, q, v, Sent) {
      step := ReleaseRead(q, v);
    } else {
      var keys := Listable(sys.stripes[v], sys.queries[q].range);
      step := Send(q, v, keys);
    }
  }

  lemma WriterGoesOn(sys: Sys, t: nat) returns (step: Step)
    requires Shaped(sys) && t < |sys.tasks| && Holds(sys.tasks[t])
    ensures CarriesOn(step) && Enabled(sys, step)
  {
    step := match sys.tasks[t] case Locked(_) => Insert(t) case Inserted(_) => Increment(t) case _ => Release(t);
  }

  lemma QueryGoesOn(sys: Sys, q: nat) returns (step: Step)
    requires Shaped(sys) && q < |sys.queries| && !sys.queries[q].returned
    requires forall v :: 0 <= v < |sys.locks| ==> !sys.locks[v].Writing?
    ensures CarriesOn(step) && Enabled(sys, step)
  {
    hide ValidCount;
    if v :| 0 <= v < |sys.queries[q].scans| && sys.queries[q].scans[v] != Finished {
      if sys.queries[q].scans[v] == Ready {
        step := AcquireRead(q, v);
      } else {
        step := ReaderGoesOn(sys, q, v);
      }
    } else {
      step := Return(q);
    }
  }

  /** No deadlock: as long as a call is under way some call can be carried on. */
  lemma NeverStuck(n: nat, threads: nat, run: seq<Step>, i: nat) returns (step: Step)
    requires ValidCount(n) && Legal(n, threads, run) && i <= |run| && !AllDone(At(n, threads, run, i))
    ensures Shaped(At(n, threads, run, i)) && CarriesOn(step) && Enabled(At(n, threads, run, i), step)
  {
    hide Legal, After, Inv, StripeOf, ValidCount, Enabled;
    LocksUsed(n, threads, run, i);
    var sys := At(n, threads, run, i);
    if t: nat :| t < |sys.tasks| && Holds(sys.tasks[t]) {
      step := WriterGoesOn(sys, t);
    } else {
      forall v | 0 <= v < |sys.locks| ensures !sys.locks[v].Writing? {
        assert LockOk(sys, v);
      }
      if t: nat :| t < |sys.tasks| && !sys.tasks[t].Idle? {
        var w := Home(sys, sys.tasks[t].key);
        assert LockOk(sys, w);
        if sys.locks[w].Free? {
          step := Acquire(t);
          assert Enabled(sys, step) by { CanAcquire(sys, t); }
        } else {
          var q :| q in sys.locks[w].readers;
          step := ReaderGoesOn(sys, q, w);
        }
      } else {
        var q :| 0 <= q < |sys.queries| && !sys.queries[q].returned;
        step := QueryGoesOn(sys, q);
      }
    }
  }

  lemma CanAcquire(sys: Sys, t: nat)
    requires Shaped(sys) && t < |sys.tasks| && sys.tasks[t].Waiting? && sys.locks[Home(sys, sys.tasks[t].key)].Free?
    ensures Enabled(sys, Acquire(t))
  {
  }

  /** However threads are scheduled every call finishes: between moments `i` and `j` without a new
      call the calls under way take at most the work there was at `i`, and while any is
      unfinished there is a step that carries one on. */
  lemma {:induction false} CallsFinish(n: nat, threads: nat, run: seq<Step>, i: nat, j: nat)
    requires ValidCount(n) && Legal(n, threads, run) && i <= j <= |run|
    requires forall x :: i <= x < j ==> CarriesOn(run[x])
    ensures j - i + Work(At(n, threads, run, j)) <= Work(At(n, threads, run, i))
    ensures Shaped(At(n, threads, run, j))
    ensures AllDone(At(n, threads, run, j)) || exists step :: CarriesOn(step) && Enabled(At(n, threads, run, j), step)
    decreases j
  {
    hide Legal, After, Inv, Next, Work, Enabled, AllDone;
    LocksUsed(n, threads, run, j);
    if !AllDone(At(n, threads, run, j)) {
      var step := NeverStuck(n, threads, run, j);
    }
    if i < j {
      CallsFinish(n, threads, run, i, j - 1);
      AtStep(n, threads, run, j - 1);
      LessWork(At(n, threads, run, j - 1), run[j - 1]);
    }
  }
}
