/** The striped set under any interleaving of Add, Count and PredRange, step by step as
    its locks and its atomic counter allow. */
module StripedConcurrency {
  import opened StringSets

  datatype Lock = Free | Writing(thread: nat) | Reading(readers: set<nat>)

  /** Where a thread that adds a key has got to. */
  datatype Task =
    | Idle
    | Waiting(key: Key)
    | Locked(key: Key)
    | Inserted(key: Key)                    // in the stripe, not yet in the counter
    | Unlocking(key: Key, result: bool)     // about to release the lock and return

  datatype Scan = Ready | Holding | Sent | Finished

  datatype Part = Part(stripe: nat, keys: seq<Key>)

  /** A PredRange call: one scan per stripe, and the partial results in their order of
      arrival. `before` remembers the flat set when the call began. */
  datatype Query = Query(
    range: Range, scans: seq<Scan>, channel: seq<Part>, results: seq<Key>, returned: bool, before: set<Key>)

  datatype Sys = Sys(stripes: seq<set<Key>>, locks: seq<Lock>, count: int, tasks: seq<Task>, queries: seq<Query>)

  datatype Step =
    | CallAdd(t: nat, key: Key)
    | Acquire(t: nat)
    | Insert(t: nat)
    | Increment(t: nat)
    | Release(t: nat)
    | Count
    | CallRange(range: Range)
    | AcquireRead(q: nat, v: nat)
    | Send(q: nat, v: nat, keys: seq<Key>)
    | ReleaseRead(q: nat, v: nat)
    | Return(q: nat)

  function Init(n: nat, threads: nat): Sys {
    Sys(seq(n, _ => {}), seq(n, _ => Free), 0, seq(threads, _ => Idle), [])
  }

  /** Keys that are in a stripe but not yet counted. */
  function Pending(tasks: seq<Task>): set<Key> {
    set t | 0 <= t < |tasks| && tasks[t].Inserted? :: tasks[t].key
  }

  /** The flat set that the striped set stands for. */
  function Flat(sys: Sys): set<Key> {
    AllKeys(sys.stripes) - Pending(sys.tasks)
  }

  /** The threads that hold the write lock for their key's stripe. */
  predicate Holds(task: Task) { task.Locked? || task.Inserted? || task.Unlocking? }

  function Home(sys: Sys, key: Key): nat
    requires ValidCount(|sys.stripes|)
  {
    StripeOf(key, |sys.stripes|)
  }

  predicate Shaped(sys: Sys) {
    ValidCount(|sys.stripes|) && |sys.locks| == |sys.stripes|
    && forall q :: 0 <= q < |sys.queries| ==> |sys.queries[q].scans| == |sys.stripes|
  }

  predicate HasScan(sys: Sys, q: nat, v: nat, scan: Scan) {
    q < |sys.queries| && v < |sys.queries[q].scans| && sys.queries[q].scans[v] == scan
  }

  ghost predicate Enabled(sys: Sys, step: Step)
    requires Shaped(sys)
  {
    match step
    case CallAdd(t, _) => t < |sys.tasks| && sys.tasks[t].Idle?
    case Acquire(t) => t < |sys.tasks| && sys.tasks[t].Waiting? && sys.locks[Home(sys, sys.tasks[t].key)].Free?
    case Insert(t) => t < |sys.tasks| && sys.tasks[t].Locked?
    case Increment(t) => t < |sys.tasks| && sys.tasks[t].Inserted?
    case Release(t) => t < |sys.tasks| && sys.tasks[t].Unlocking?
    case Count => true
    case CallRange(_) => true
    case AcquireRead(q, v) => HasScan(sys, q, v, Ready) && !sys.locks[v].Writing?
    case Send(q, v, keys) => HasScan(sys, q, v, Holding) && Lists(keys, sys.queries[q].range, sys.stripes[v])
    case ReleaseRead(q, v) => HasScan(sys, q, v, Sent)
    case Return(q) =>
      && q < |sys.queries| && !sys.queries[q].returned
      && forall v :: 0 <= v < |sys.queries[q].scans| ==> sys.queries[q].scans[v] == Finished
  }

  /** Readers are told apart by their query and stripe; a lock belongs to one stripe. */
  function AddReader(l: Lock, q: nat): Lock {
    if l.Reading? then Reading(l.readers + {q}) else Reading({q})
  }

  function DropReader(l: Lock, q: nat): Lock {
    if l.Reading? && l.readers - {q} != {} then Reading(l.readers - {q}) else Free
  }

  function Concat(parts: seq<Part>): seq<Key> {
    if parts == [] then [] else Concat(parts[..|parts| - 1]) + parts[|parts| - 1].keys
  }

  function SetScan(query: Query, v: nat, scan: Scan): Query
    requires v < |query.scans|
  {
    query.(scans := query.scans[v := scan])
  }

  /** A scan puts its partial result on the channel. */
  function PutPart(query: Query, v: nat, keys: seq<Key>): Query
    requires v < |query.scans|
  {
    SetScan(query, v, Sent).(channel := query.channel + [Part(v, keys)])
  }

  function Collected(query: Query): Query {
    query.(results := Concat(query.channel), returned := true)
  }

  ghost function Next(sys: Sys, step: Step): Sys
    requires Shaped(sys) && Enabled(sys, step)
  {
    match step
    case CallAdd(t, key) => sys.(tasks := sys.tasks[t := Waiting(key)])
    case Acquire(t) =>
      var key := sys.tasks[t].key;
      sys.(tasks := sys.tasks[t := Locked(key)], locks := sys.locks[Home(sys, key) := Writing(t)])
    case Insert(t) =>
      var key := sys.tasks[t].key;
      var i := Home(sys, key);
      if key in sys.stripes[i] then sys.(tasks := sys.tasks[t := Unlocking(key, false)])
      else sys.(tasks := sys.tasks[t := Inserted(key)], stripes := sys.stripes[i := sys.stripes[i] + {key}])
    case Increment(t) =>
      sys.(tasks := sys.tasks[t := Unlocking(sys.tasks[t].key, true)], count := Wrap32(sys.count + 1))
    case Release(t) =>
      sys.(tasks := sys.tasks[t := Idle], locks := sys.locks[Home(sys, sys.tasks[t].key) := Free])
    case Count => sys
    case CallRange(range) =>
      sys.(queries := sys.queries + [Query(range, seq(|sys.stripes|, _ => Ready), [], [], false, Flat(sys))])
    case AcquireRead(q, v) =>
      sys.(locks := sys.locks[v := AddReader(sys.locks[v], q)],
           queries := sys.queries[q := SetScan(sys.queries[q], v, Holding)])
    case Send(q, v, keys) =>
      sys.(queries := sys.queries[q := PutPart(sys.queries[q], v, keys)])
    case ReleaseRead(q, v) =>
      sys.(locks := sys.locks[v := DropReader(sys.locks[v], q)],
           queries := sys.queries[q := SetScan(sys.queries[q], v, Finished)])
    case Return(q) =>
      sys.(queries := sys.queries[q := Collected(sys.queries[q])])
  }

  // ---------- the invariant ----------

  /** A thread that holds a stripe's lock is alone there, and its key is where it should be. */
  ghost predicate TaskOk(sys: Sys, t: nat)
    requires Shaped(sys) && t < |sys.tasks|
  {
    var task := sys.tasks[t];
    && (Holds(task) ==> sys.locks[Home(sys, task.key)] == Writing(t))
    && (task.Inserted? || task.Unlocking? ==> task.key in sys.stripes[Home(sys, task.key)])
  }

  /** A partial result lists what the query wants of one stripe: everything that was there
      before the call, and nothing that is not there, and counted, now. */
  ghost predicate PartOk(sys: Sys, query: Query, p: Part)
    requires ValidCount(|sys.stripes|)
  {
    && p.stripe < |sys.stripes| && |query.scans| == |sys.stripes|
    && (query.scans[p.stripe] == Sent || query.scans[p.stripe] == Finished)
    && Distinct(p.keys)
    && (forall k :: k in p.keys ==> k in sys.stripes[p.stripe] && k in Flat(sys) && Wanted(query.range, k))
    && (forall k :: k in query.before && Home(sys, k) == p.stripe && Wanted(query.range, k) ==> k in p.keys)
  }

  /** Every scan that is done has put exactly one partial result on the channel. */
  ghost predicate OnePartEach(query: Query) {
    && (forall i, j :: 0 <= i < j < |query.channel| ==> query.channel[i].stripe != query.channel[j].stripe)
    && (forall v :: 0 <= v < |query.scans| && (query.scans[v] == Sent || query.scans[v] == Finished) ==>
          exists i :: 0 <= i < |query.channel| && query.channel[i].stripe == v)
  }

  ghost predicate QueryOk(sys: Sys, query: Query)
    requires ValidCount(|sys.stripes|)
  {
    && |query.scans| == |sys.stripes|
    && query.before <= AllKeys(sys.stripes)
    && (forall i {:trigger PartOk(sys, query, query.channel[i])} :: 0 <= i < |query.channel| ==>
          PartOk(sys, query, query.channel[i]))
    && OnePartEach(query)
    && (query.returned ==> ResultOk(sys, query))
  }

  /** The answer has no duplicates, includes every wanted key from before the call and only
      wanted keys that the flat set has. */
  ghost predicate ResultOk(sys: Sys, query: Query) {
    && Distinct(query.results)
    && (forall k :: k in query.results ==> k in Flat(sys) && Wanted(query.range, k))
    && (forall k :: k in query.before && Wanted(query.range, k) ==> k in query.results)
  }

  /** A scan between its lock and its unlock is among the readers of the stripe's lock. */
  ghost predicate ScanOk(sys: Sys, q: nat, v: nat) {
    HasScan(sys, q, v, Holding) || HasScan(sys, q, v, Sent) ==>
      v < |sys.locks| && sys.locks[v].Reading? && q in sys.locks[v].readers
  }

  ghost predicate TasksOk(sys: Sys)
    requires Shaped(sys)
  {
    forall t {:trigger TaskOk(sys, t)} :: 0 <= t < |sys.tasks| ==> TaskOk(sys, t)
  }

  ghost predicate ScansOk(sys: Sys) {
    forall q, v :: ScanOk(sys, q, v)
  }

  ghost predicate QueriesOk(sys: Sys)
    requires Shaped(sys)
  {
    forall q {:trigger QueryOk(sys, sys.queries[q])} :: 0 <= q < |sys.queries| ==> QueryOk(sys, sys.queries[q])
  }

  ghost predicate Inv(sys: Sys) {
    && Shaped(sys) && InPlace(sys.stripes)
    && TasksOk(sys) && ScansOk(sys) && QueriesOk(sys)
    && sys.count == Wrap32(|Flat(sys)|)
  }

  // ---------- what a step does to the flat set ----------

  /** What a client of the set observes at a step: an addition with its result, or a count. */
  datatype Event = Added(key: Key, result: bool) | Counted(value: int)

  /** The step at which an operation takes effect, and with what result. A successful Add takes
      effect when the counter is incremented, an unsuccessful one when the key is found. */
  ghost function Effect(sys: Sys, step: Step): seq<Event>
    requires Shaped(sys) && Enabled(sys, step)
  {
    match step
    case Insert(t) =>
      var key := sys.tasks[t].key;
      if key in sys.stripes[Home(sys, key)] then [Added(key, false)] else []
    case Increment(t) => [Added(sys.tasks[t].key, true)]
    case Count => [Counted(sys.count)]
    case _ => []
  }

  /** What an event adds to a flat set. */
  function Gain(e: Event): set<Key> {
    match e
    case Added(key, _) => {key}
    case Counted(_) => {}
  }

  /** The event has the result that a flat set with these contents gives. */
  ghost predicate Answers(e: Event, contents: set<Key>) {
    match e
    case Added(key, result) => result == (key !in contents)
    case Counted(value) => value == Wrap32(|contents|)
  }

  /** The contents of a flat set after some events. */
  function Contents(events: seq<Event>): set<Key> {
    if events == [] then {} else Contents(events[..|events| - 1]) + Gain(events[|events| - 1])
  }

  /** The events are what one flat set would answer, operation by operation. */
  ghost predicate Sequential(events: seq<Event>) {
    forall i :: 0 <= i < |events| ==> Answers(events[i], Contents(events[..i]))
  }

  lemma PendingAfter(sys: Sys, t: nat, task: Task)
    requires Inv(sys) && t < |sys.tasks|
    requires task.Inserted? ==> sys.tasks[t].Locked? && task.key == sys.tasks[t].key
    ensures Pending(sys.tasks[t := task]) ==
            if task.Inserted? then Pending(sys.tasks) + {task.key}
            else if sys.tasks[t].Inserted? then Pending(sys.tasks) - {sys.tasks[t].key} else Pending(sys.tasks)
    ensures sys.tasks[t].Locked? ==> sys.tasks[t].key !in Pending(sys.tasks)
  {
    hide QueriesOk, ScansOk, AllKeys, InPlace, StripeOf, Wrap32;
    var tasks, tasks2 := sys.tasks, sys.tasks[t := task];
    assert TaskOk(sys, t);
    forall u | 0 <= u < |tasks| && u != t && tasks[u].Inserted? && Holds(tasks[t])
      ensures tasks[u].key != tasks[t].key
    {
      assert TaskOk(sys, u);
    }
    forall k | k in Pending(tasks) ensures k in Pending(tasks2) || (tasks[t].Inserted? && k == tasks[t].key) {
      var u :| 0 <= u < |tasks| && tasks[u].Inserted? && tasks[u].key == k;
      assert u != t ==> tasks2[u] == tasks[u];
    }
    forall k | k in Pending(tasks2)
      ensures (task.Inserted? && k == task.key) || (k in Pending(tasks) && !(tasks[t].Inserted? && k == tasks[t].key))
    {
      var u :| 0 <= u < |tasks2| && tasks2[u].Inserted? && tasks2[u].key == k;
      assert u != t ==> tasks2[u] == tasks[u];
    }
    if task.Inserted? {
      assert tasks2[t] == task && task.key in Pending(tasks2);
    }
  }

  /** The flat set changes exactly as the events say, and they get its answers. */
  ghost predicate FlatChange(sys: Sys, e: seq<Event>, sys2: Sys) {
    && (e == [] ==> Flat(sys2) == Flat(sys) && sys2.count == sys.count)
    && (e != [] ==>
         && |e| == 1 && Answers(e[0], Flat(sys)) && Flat(sys2) == Flat(sys) + Gain(e[0])
         && sys2.count == if e[0].Added? && e[0].result then Wrap32(sys.count + 1) else sys.count)
  }

  lemma PendingHas(sys: Sys, t: nat)
    requires t < |sys.tasks| && sys.tasks[t].Inserted?
    ensures sys.tasks[t].key in Pending(sys.tasks)
  {
  }

  lemma FlatInsert(sys: Sys, t: nat)
    requires Inv(sys) && Enabled(sys, Insert(t))
    ensures FlatChange(sys, Effect(sys, Insert(t)), Next(sys, Insert(t)))
  {
    hide QueriesOk, ScansOk, TasksOk, Wrap32, StripeOf, InPlace, AllKeys, Pending;
    var key := sys.tasks[t].key;
    AddInPlace(sys.stripes, key);
    if key in sys.stripes[Home(sys, key)] {
      PendingAfter(sys, t, Unlocking(key, false));
      assert Flat(sys) + {key} == Flat(sys);
    } else {
      PendingAfter(sys, t, Inserted(key));
      assert Flat(Next(sys, Insert(t))) == Flat(sys);
    }
  }

  lemma FlatIncrement(sys: Sys, t: nat)
    requires Inv(sys) && Enabled(sys, Increment(t))
    ensures FlatChange(sys, Effect(sys, Increment(t)), Next(sys, Increment(t)))
  {
    hide QueriesOk, ScansOk, Wrap32, StripeOf, InPlace, AllKeys, Pending;
    var key := sys.tasks[t].key;
    assert TaskOk(sys, t);
    AddInPlace(sys.stripes, key);
    PendingAfter(sys, t, Unlocking(key, true));
    PendingHas(sys, t);
    assert Flat(Next(sys, Increment(t))) == Flat(sys) + {key};
  }

  lemma FlatStep(sys: Sys, step: Step)
    requires Inv(sys) && Enabled(sys, step)
    ensures FlatChange(sys, Effect(sys, step), Next(sys, step))
  {
    hide QueriesOk, ScansOk, TasksOk, Wrap32, StripeOf, InPlace, AllKeys, Pending;
    match step {
      case CallAdd(t, key) => PendingAfter(sys, t, Waiting(key));
      case Acquire(t) => PendingAfter(sys, t, Locked(sys.tasks[t].key));
      case Insert(t) => FlatInsert(sys, t);
      case Increment(t) => FlatIncrement(sys, t);
      case Release(t) => PendingAfter(sys, t, Idle);
      case _ => assert Pending(Next(sys, step).tasks) == Pending(sys.tasks);
    }
  }

  // ---------- locks ----------

  predicate IsAdd(step: Step) {
    step.CallAdd? || step.Acquire? || step.Insert? || step.Increment? || step.Release?
  }

  /** The step is one of an addition by thread `t`. */
  predicate ByThread(step: Step, t: nat) { IsAdd(step) && step.t == t }

  /** A holder of a write lock is not disturbed: a step that takes or frees another lock
      needs that lock free, held by its own thread, or open for reading. */
  lemma KeepTask(sys: Sys, step: Step, u: nat)
    requires Shaped(sys) && Enabled(sys, step) && u < |sys.tasks| && TaskOk(sys, u)
    requires IsAdd(step) ==> TaskOk(sys, step.t)
    requires step.ReleaseRead? ==> ScanOk(sys, step.q, step.v)
    ensures Shaped(Next(sys, step)) && |Next(sys, step).tasks| == |sys.tasks| && TaskOk(Next(sys, step), u)
  {
    hide StripeOf, Wrap32, Flat, ValidCount;
  }

  /** A lock that is open for reading by one query stays so whatever other queries do. */
  lemma OtherReader(l: Lock, q: nat, p: nat)
    requires l.Reading? && q in l.readers && q != p
    ensures DropReader(l, p).Reading? && q in DropReader(l, p).readers
  {
    assert q in l.readers - {p};
  }

  lemma KeepScan(sys: Sys, step: Step, q: nat, v: nat)
    requires Shaped(sys) && Enabled(sys, step) && ScanOk(sys, q, v)
    requires step.Release? ==> TaskOk(sys, step.t)
    ensures ScanOk(Next(sys, step), q, v)
  {
    hide StripeOf, Wrap32, Flat, ValidCount, Lists;
    if step.ReleaseRead? && step.v == v && step.q != q && v < |sys.locks| && sys.locks[v].Reading?
        && q in sys.locks[v].readers {
      OtherReader(sys.locks[v], q, step.q);
    }
  }

  lemma KeepLocks(sys: Sys, step: Step)
    requires Inv(sys) && Enabled(sys, step)
    ensures Shaped(Next(sys, step)) && TasksOk(Next(sys, step)) && ScansOk(Next(sys, step))
  {
    hide QueriesOk, ScanOk, TaskOk, Next, InPlace, Flat, Wrap32;
    StepShape(sys, step);
    forall u | 0 <= u < |sys.tasks| ensures TaskOk(Next(sys, step), u) {
      KeepTask(sys, step, u);
    }
    forall q: nat, v: nat ensures ScanOk(Next(sys, step), q, v) {
      KeepScan(sys, step, q, v);
    }
  }

  lemma StepShape(sys: Sys, step: Step)
    requires Shaped(sys) && Enabled(sys, step)
    ensures Shaped(Next(sys, step)) && |Next(sys, step).tasks| == |sys.tasks|
    ensures IsAdd(step) ==> step.t < |sys.tasks|
  {
    hide StripeOf, Wrap32, Flat, ValidCount, Lists;
  }

  // ---------- stripes ----------

  ghost predicate StripesGrow(before: seq<set<Key>>, stripes: seq<set<Key>>) {
    && |stripes| == |before| && AllKeys(before) <= AllKeys(stripes)
    && forall v :: 0 <= v < |stripes| ==> before[v] <= stripes[v]
  }

  /** Only an insertion changes a stripe, and it adds one key to its place. */
  lemma KeepStripes(sys: Sys, step: Step)
    requires Shaped(sys) && InPlace(sys.stripes) && Enabled(sys, step)
    ensures InPlace(Next(sys, step).stripes) && StripesGrow(sys.stripes, Next(sys, step).stripes)
  {
    hide StripeOf, Wrap32, Flat, ValidCount, Lists, InPlace, AllKeys;
    if step.Insert? {
      AddInPlace(sys.stripes, sys.tasks[step.t].key);
    } else {
      assert Next(sys, step).stripes == sys.stripes;
    }
  }

  // ---------- queries ----------

  /** A query that does not take part in a step stays in order while keys are added. */
  lemma QueryStable(sys: Sys, sys2: Sys, query: Query)
    requires ValidCount(|sys.stripes|) && QueryOk(sys, query) && StripesGrow(sys.stripes, sys2.stripes)
    requires Flat(sys) <= Flat(sys2)
    ensures QueryOk(sys2, query)
  {
    hide AllKeys, StripeOf, ValidCount, OnePartEach, Flat;
    forall i | 0 <= i < |query.channel| ensures PartOk(sys2, query, query.channel[i]) {
      assert PartOk(sys, query, query.channel[i]);
    }
  }

  /** While a stripe is scanned no key in it is waiting to be counted: its writer is kept out. */
  lemma ScannedCounted(sys: Sys, q: nat, v: nat)
    requires Inv(sys) && HasScan(sys, q, v, Holding)
    ensures v < |sys.stripes| && forall k :: k in sys.stripes[v] ==> k in Flat(sys)
  {
    hide QueryOk, StripeOf, Wrap32, InPlace;
    assert QueryOk(sys, sys.queries[q]);
    assert |sys.queries[q].scans| == |sys.stripes|;
    assert ScanOk(sys, q, v);
    forall k | k in sys.stripes[v] ensures k in Flat(sys) {
      InItsPlace(sys.stripes, k, v);
      forall t | 0 <= t < |sys.tasks| && sys.tasks[t].Inserted? ensures sys.tasks[t].key != k {
        assert TaskOk(sys, t);
      }
    }
  }

  lemma InItsPlace(stripes: seq<set<Key>>, k: Key, v: nat)
    requires ValidCount(|stripes|) && InPlace(stripes) && v < |stripes| && k in stripes[v]
    ensures StripeOf(k, |stripes|) == v
  {
    assert Belongs(k, v, |stripes|);
  }

  /** The partial result that a scan puts on the channel. */
  lemma SentPart(sys: Sys, query: Query, v: nat, keys: seq<Key>)
    requires ValidCount(|sys.stripes|) && InPlace(sys.stripes) && QueryOk(sys, query) && v < |query.scans|
    requires Lists(keys, query.range, sys.stripes[v]) && forall k :: k in sys.stripes[v] ==> k in Flat(sys)
    ensures PartOk(sys, PutPart(query, v, keys), Part(v, keys))
  {
    hide StripeOf, ValidCount, OnePartEach, ResultOk, Flat;
    forall k | k in query.before && Home(sys, k) == v && Wanted(query.range, k) ensures k in keys {
      assert k in AllKeys(sys.stripes);
      var w :| 0 <= w < |sys.stripes| && k in sys.stripes[w];
      assert Belongs(k, w, |sys.stripes|);
    }
  }

  lemma PutOnce(query: Query, v: nat, keys: seq<Key>)
    requires OnePartEach(query) && v < |query.scans|
    requires forall i :: 0 <= i < |query.channel| ==> query.channel[i].stripe != v
    ensures OnePartEach(PutPart(query, v, keys))
  {
    var query2 := PutPart(query, v, keys);
    forall w | 0 <= w < |query2.scans| && (query2.scans[w] == Sent || query2.scans[w] == Finished)
      ensures exists i :: 0 <= i < |query2.channel| && query2.channel[i].stripe == w
    {
      if w == v {
        assert query2.channel[|query.channel|].stripe == w;
      } else {
        var i :| 0 <= i < |query.channel| && query.channel[i].stripe == w;
        assert query2.channel[i].stripe == w;
      }
    }
  }

  /** A query after a scan has put its partial result on the channel. */
  lemma SendOk(sys: Sys, query: Query, v: nat, keys: seq<Key>)
    requires ValidCount(|sys.stripes|) && InPlace(sys.stripes)
    requires QueryOk(sys, query) && v < |query.scans| && query.scans[v] == Holding
    requires Lists(keys, query.range, sys.stripes[v]) && forall k :: k in sys.stripes[v] ==> k in Flat(sys)
    ensures QueryOk(sys, PutPart(query, v, keys))
  {
    hide StripeOf, AllKeys, Lists, ValidCount, OnePartEach, InPlace, Flat;
    var query2 := PutPart(query, v, keys);
    SentPart(sys, query, v, keys);
    forall i | 0 <= i < |query.channel| ensures query.channel[i].stripe != v {
      assert PartOk(sys, query, query.channel[i]);
    }
    PutOnce(query, v, keys);
    forall i | 0 <= i < |query2.channel| ensures PartOk(sys, query2, query2.channel[i]) {
      if i < |query.channel| {
        assert PartOk(sys, query, query.channel[i]);
      }
    }
  }

  lemma ScanMoved(sys: Sys, query: Query, v: nat, scan: Scan)
    requires ValidCount(|sys.stripes|) && QueryOk(sys, query) && v < |query.scans|
    requires (query.scans[v] == Ready && scan == Holding) || (query.scans[v] == Sent && scan == Finished)
    ensures QueryOk(sys, SetScan(query, v, scan))
  {
    hide AllKeys, StripeOf, ValidCount;
    forall i | 0 <= i < |query.channel| ensures PartOk(sys, SetScan(query, v, scan), query.channel[i]) {
      assert PartOk(sys, query, query.channel[i]);
    }
  }

  lemma {:induction false} ConcatHas(parts: seq<Part>, k: Key)
    ensures k in Concat(parts) <==> exists i :: 0 <= i < |parts| && k in parts[i].keys
  {
    if parts != [] {
      var z := |parts| - 1;
      ConcatHas(parts[..z], k);
      if k in Concat(parts[..z]) {
        var i :| 0 <= i < z && k in parts[..z][i].keys;
        assert k in parts[i].keys;
      }
      if i :| 0 <= i < |parts| && k in parts[i].keys {
        assert i < z ==> k in parts[..z][i].keys;
      }
    }
  }

  lemma DistinctJoin(a: seq<Key>, b: seq<Key>)
    requires Distinct(a) && Distinct(b) && forall k :: k in a ==> k !in b
    ensures Distinct(a + b)
  {
    forall i, j | 0 <= i < j < |a + b| ensures (a + b)[i] != (a + b)[j] {
      if i < |a| <= j {
        assert a[i] in a && b[j - |a|] in b;
      }
    }
  }

  lemma {:induction false} ConcatDistinct(parts: seq<Part>)
    requires forall i :: 0 <= i < |parts| ==> Distinct(parts[i].keys)
    requires forall i, j, k :: 0 <= i < j < |parts| && k in parts[i].keys ==> k !in parts[j].keys
    ensures Distinct(Concat(parts))
  {
    if parts != [] {
      var z := |parts| - 1;
      ConcatDistinct(parts[..z]);
      forall k | k in Concat(parts[..z]) ensures k !in parts[z].keys {
        ConcatHas(parts[..z], k);
        var i :| 0 <= i < z && k in parts[..z][i].keys;
        assert k in parts[i].keys;
      }
      DistinctJoin(Concat(parts[..z]), parts[z].keys);
    }
  }

  lemma PartsDistinct(sys: Sys, query: Query)
    requires ValidCount(|sys.stripes|) && InPlace(sys.stripes) && QueryOk(sys, query)
    ensures Distinct(Concat(query.channel))
  {
    hide StripeOf, AllKeys, ValidCount;
    var parts := query.channel;
    forall i | 0 <= i < |parts| ensures PartOk(sys, query, parts[i]) {}
    forall i, j, k | 0 <= i < j < |parts| && k in parts[i].keys ensures k !in parts[j].keys {
      assert PartOk(sys, query, parts[i]) && PartOk(sys, query, parts[j]);
      assert Belongs(k, parts[i].stripe, |sys.stripes|);
    }
    ConcatDistinct(parts);
  }

  lemma ReturnOk(sys: Sys, query: Query)
    requires ValidCount(|sys.stripes|) && InPlace(sys.stripes) && QueryOk(sys, query)
    requires forall v :: 0 <= v < |query.scans| ==> query.scans[v] == Finished
    ensures ResultOk(sys, Collected(query))
  {
    hide StripeOf, InPlace, ValidCount, Flat;
    var parts := query.channel;
    PartsDistinct(sys, query);
    forall k | k in Concat(parts) ensures k in Flat(sys) && Wanted(query.range, k) {
      ConcatHas(parts, k);
      var i :| 0 <= i < |parts| && k in parts[i].keys;
      assert PartOk(sys, query, parts[i]);
    }
    forall k | k in query.before && Wanted(query.range, k) ensures k in Concat(parts) {
      var v := Home(sys, k);
      assert query.scans[v] == Finished;
      var i :| 0 <= i < |parts| && parts[i].stripe == v;
      assert PartOk(sys, query, parts[i]);
      ConcatHas(parts, k);
    }
  }

  lemma ReturnedOk(sys: Sys, query: Query)
    requires ValidCount(|sys.stripes|) && InPlace(sys.stripes) && QueryOk(sys, query)
    requires forall v :: 0 <= v < |query.scans| ==> query.scans[v] == Finished
    ensures QueryOk(sys, Collected(query))
  {
    hide StripeOf, AllKeys, ValidCount, InPlace, ResultOk, Concat;
    ReturnOk(sys, query);
    forall i | 0 <= i < |query.channel| ensures PartOk(sys, Collected(query), query.channel[i]) {
      assert PartOk(sys, query, query.channel[i]);
    }
  }

  /** What a step makes of a query is in order as far as the stripes before the step go. */
  lemma QueryStep(sys: Sys, step: Step, q: nat)
    requires Inv(sys) && Enabled(sys, step) && q < |sys.queries|
    ensures q < |Next(sys, step).queries| && QueryOk(sys, Next(sys, step).queries[q])
  {
    hide QueryOk, PutPart, SetScan, Collected, StripeOf, Wrap32, TasksOk, ScansOk, Flat, ValidCount, InPlace;
    var query := sys.queries[q];
    assert QueryOk(sys, query);
    match step {
      case AcquireRead(p, v) => if p == q { ScanMoved(sys, query, v, Holding); }
      case Send(p, v, keys) =>
        if p == q {
          ScannedCounted(sys, q, v);
          SendOk(sys, query, v, keys);
        }
      case ReleaseRead(p, v) => if p == q { ScanMoved(sys, query, v, Finished); }
      case Return(p) => if p == q { ReturnedOk(sys, query); }
      case _ =>
    }
  }

  lemma NewQuery(sys: Sys, range: Range)
    requires Shaped(sys)
    ensures QueryOk(sys, Query(range, seq(|sys.stripes|, _ => Ready), [], [], false, Flat(sys)))
  {
    hide AllKeys, StripeOf, ValidCount;
  }

  lemma KeepQueries(sys: Sys, step: Step)
    requires Inv(sys) && Enabled(sys, step)
    ensures Shaped(Next(sys, step)) && QueriesOk(Next(sys, step))
  {
    hide QueryOk, StripeOf, Wrap32, TasksOk, ScansOk, Flat, ValidCount, Next;
    StepShape(sys, step);
    KeepStripes(sys, step);
    FlatStep(sys, step);
    var sys2 := Next(sys, step);
    forall q | 0 <= q < |sys2.queries| ensures QueryOk(sys2, sys2.queries[q]) {
      if q < |sys.queries| {
        QueryStep(sys, step, q);
      } else {
        OnlyOneNew(sys, step, q);
        NewQuery(sys, step.range);
      }
      QueryStable(sys, sys2, sys2.queries[q]);
    }
  }

  lemma OnlyOneNew(sys: Sys, step: Step, q: nat)
    requires Shaped(sys) && Enabled(sys, step) && |sys.queries| <= q < |Next(sys, step).queries|
    ensures step.CallRange?
    ensures Next(sys, step).queries[q] == Query(step.range, seq(|sys.stripes|, _ => Ready), [], [], false, Flat(sys))
  {
  }

  // ---------- every step keeps the invariant ----------

  lemma KeepStep(sys: Sys, step: Step)
    requires Inv(sys) && Enabled(sys, step)
    ensures Inv(Next(sys, step))
  {
    hide QueriesOk, TasksOk, ScansOk, StripeOf, Next, Effect, Wrap32, Flat, InPlace, Enabled;
    KeepLocks(sys, step);
    KeepStripes(sys, step);
    KeepQueries(sys, step);
    FlatStep(sys, step);
    CountKept(sys, Effect(sys, step), Next(sys, step));
  }

  lemma CountKept(sys: Sys, e: seq<Event>, sys2: Sys)
    requires FlatChange(sys, e, sys2) && sys.count == Wrap32(|Flat(sys)|)
    ensures sys2.count == Wrap32(|Flat(sys2)|)
  {
    hide Flat, Wrap32;
    if e != [] {
      if e[0].Added? && e[0].result {
        WrapStep(sys.count, |Flat(sys)|);
      } else {
        assert Flat(sys) + Gain(e[0]) == Flat(sys);
      }
    }
  }

  lemma InitInv(n: nat, threads: nat)
    requires ValidCount(n)
    ensures Inv(Init(n, threads)) && Flat(Init(n, threads)) == {}
  {
    hide StripeOf;
    var sys := Init(n, threads);
    assert AllKeys(sys.stripes) == {};
    assert Flat(sys) == {};
  }
}
