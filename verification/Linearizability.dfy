/** What callers of the striped set see in any run: Add and Count answer as one flat set
    does, and PredRange answers between the sets at its call and at its return. */
module Linearizability {
  import opened StringSets
  import opened StripedConcurrency

  // ---------- runs ----------

  ghost predicate Legal(n: nat, threads: nat, run: seq<Step>)
    requires ValidCount(n)
    decreases |run|, 0
  {
    run == [] ||
    var before := run[..|run| - 1];
    && Legal(n, threads, before)
    && Shaped(After(n, threads, before)) && Enabled(After(n, threads, before), run[|run| - 1])
  }

  ghost function After(n: nat, threads: nat, run: seq<Step>): Sys
    requires ValidCount(n) && Legal(n, threads, run)
    decreases |run|, 1
  {
    if run == [] then Init(n, threads) else Next(After(n, threads, run[..|run| - 1]), run[|run| - 1])
  }

  lemma {:induction false} Reachable(n: nat, threads: nat, run: seq<Step>)
    requires ValidCount(n) && Legal(n, threads, run)
    ensures Inv(After(n, threads, run)) && |After(n, threads, run).tasks| == threads
    decreases |run|
  {
    hide Inv, Next;
    InitInv(n, threads);
    if run != [] {
      Reachable(n, threads, run[..|run| - 1]);
      KeepStep(After(n, threads, run[..|run| - 1]), run[|run| - 1]);
      StepShape(After(n, threads, run[..|run| - 1]), run[|run| - 1]);
    }
  }

  lemma {:induction false} PrefixLegal(n: nat, threads: nat, run: seq<Step>, i: nat)
    requires ValidCount(n) && Legal(n, threads, run) && i <= |run|
    ensures Legal(n, threads, run[..i])
  {
    if i < |run| {
      PrefixLegal(n, threads, run[..|run| - 1], i);
      assert run[..|run| - 1][..i] == run[..i];
    } else {
      assert run[..i] == run;
    }
  }

  /** The state after the first `i` steps of a run. */
  ghost function At(n: nat, threads: nat, run: seq<Step>, i: nat): Sys
    requires ValidCount(n) && Legal(n, threads, run) && i <= |run|
  {
    PrefixLegal(n, threads, run, i);
    After(n, threads, run[..i])
  }

  lemma InvAt(n: nat, threads: nat, run: seq<Step>, i: nat)
    requires ValidCount(n) && Legal(n, threads, run) && i <= |run|
    ensures Inv(At(n, threads, run, i)) && |At(n, threads, run, i).tasks| == threads
  {
    PrefixLegal(n, threads, run, i);
    Reachable(n, threads, run[..i]);
  }

  lemma AtStep(n: nat, threads: nat, run: seq<Step>, i: nat)
    requires ValidCount(n) && Legal(n, threads, run) && i < |run|
    ensures Inv(At(n, threads, run, i)) && Shaped(At(n, threads, run, i)) && Enabled(At(n, threads, run, i), run[i])
    ensures At(n, threads, run, i + 1) == Next(At(n, threads, run, i), run[i])
    ensures |At(n, threads, run, i).tasks| == |At(n, threads, run, i + 1).tasks| == threads
  {
    hide Inv, Next;
    PrefixLegal(n, threads, run, i + 1);
    InvAt(n, threads, run, i);
    InvAt(n, threads, run, i + 1);
    var r := run[..i + 1];
    assert r[..|r| - 1] == run[..i] && r[|r| - 1] == run[i];
  }

  // ---------- the order in which operations take effect ----------

  /** What step `m` of the run does to the flat set. */
  ghost function EffectAt(n: nat, threads: nat, run: seq<Step>, m: nat): seq<Event>
    requires ValidCount(n) && Legal(n, threads, run) && m < |run|
  {
    AtStep(n, threads, run, m);
    Effect(At(n, threads, run, m), run[m])
  }

  /** The events of the first `m` steps. */
  ghost function Events(n: nat, threads: nat, run: seq<Step>, m: nat): seq<Event>
    requires ValidCount(n) && Legal(n, threads, run) && m <= |run|
  {
    if m == 0 then [] else Events(n, threads, run, m - 1) + EffectAt(n, threads, run, m - 1)
  }

  lemma SequentialMore(events: seq<Event>, e: Event)
    requires Sequential(events) && Answers(e, Contents(events))
    ensures Sequential(events + [e]) && Contents(events + [e]) == Contents(events) + Gain(e)
  {
    hide Answers;
    var more := events + [e];
    assert more[..|events|] == events;
    forall i | 0 <= i < |more| ensures Answers(more[i], Contents(more[..i])) {
      if i < |events| {
        assert more[..i] == events[..i] && more[i] == events[i];
      }
    }
  }

  /** In every run the events, in the order in which they happen, are what one flat set answers,
      and leave it with the contents that the striped set stands for. */
  lemma {:induction false} EventsSequential(n: nat, threads: nat, run: seq<Step>, m: nat)
    requires ValidCount(n) && Legal(n, threads, run) && m <= |run|
    ensures Sequential(Events(n, threads, run, m))
    ensures Contents(Events(n, threads, run, m)) == Flat(At(n, threads, run, m))
  {
    hide Legal, After, Inv, Flat, Next, Effect, Wrap32, Sequential, Contents, Answers, Gain;
    if m == 0 {
      NoEvents(n, threads, run);
    } else {
      EventsSequential(n, threads, run, m - 1);
      AtStep(n, threads, run, m - 1);
      FlatStep(At(n, threads, run, m - 1), run[m - 1]);
      var was, e := Events(n, threads, run, m - 1), EffectAt(n, threads, run, m - 1);
      if e == [] {
        assert was + e == was;
      } else {
        assert e == [e[0]];
        SequentialMore(was, e[0]);
      }
    }
  }

  lemma NoEvents(n: nat, threads: nat, run: seq<Step>)
    requires ValidCount(n) && Legal(n, threads, run)
    ensures Sequential([]) && Contents([]) == {} == Flat(At(n, threads, run, 0))
  {
    InitInv(n, threads);
  }

  // ---------- calls of Add ----------

  /** Thread `t` calls Add(key) at step `from` and returns from it at step `to`. */
  ghost predicate AddCall(run: seq<Step>, from: nat, to: nat, t: nat, key: Key) {
    && from < to < |run| && run[from] == CallAdd(t, key) && run[to] == Release(t)
    && forall x :: from < x < to ==> run[x] != Release(t)
  }

  lemma Releasing(n: nat, threads: nat, run: seq<Step>, to: nat, t: nat)
    requires ValidCount(n) && Legal(n, threads, run) && to < |run| && run[to] == Release(t)
    ensures t < |At(n, threads, run, to).tasks| && At(n, threads, run, to).tasks[t].Unlocking?
  {
    hide Legal, After, Inv;
    AtStep(n, threads, run, to);
  }

  /** What an Add returns: the result that its thread holds when it releases the lock. */
  ghost function Returned(n: nat, threads: nat, run: seq<Step>, to: nat, t: nat): bool
    requires ValidCount(n) && Legal(n, threads, run) && to < |run| && run[to] == Release(t)
  {
    Releasing(n, threads, run, to, t);
    At(n, threads, run, to).tasks[t].result
  }

  /** Step `m` is one of thread `t` and has an effect. */
  ghost predicate Acts(n: nat, threads: nat, run: seq<Step>, m: nat, t: nat)
    requires ValidCount(n) && Legal(n, threads, run) && m < |run|
  {
    ByThread(run[m], t) && EffectAt(n, threads, run, m) != []
  }

  ghost predicate Quiet(n: nat, threads: nat, run: seq<Step>, i: nat, j: nat, t: nat)
    requires ValidCount(n) && Legal(n, threads, run) && j <= |run|
  {
    forall m :: i <= m < j ==> !Acts(n, threads, run, m, t)
  }

  /** Of the steps of thread `t` between `i` and `j` just step `m` has an effect, namely `e`. */
  ghost predicate OneEffect(n: nat, threads: nat, run: seq<Step>, i: nat, j: nat, t: nat, m: nat, e: Event)
    requires ValidCount(n) && Legal(n, threads, run) && j <= |run|
  {
    && i < m < j && ByThread(run[m], t) && EffectAt(n, threads, run, m) == [e]
    && Quiet(n, threads, run, i, m, t) && Quiet(n, threads, run, m + 1, j, t)
  }

  /** How a thread moves through its call: with its own steps, and with no others. */
  predicate Moves(x: Task, step: Step, t: nat, y: Task, e: seq<Event>) {
    if !ByThread(step, t) then y == x
    else match x
         case Idle => y.Waiting? && step == CallAdd(t, y.key) && e == []
         case Waiting(key) => y == Locked(key) && step == Acquire(t) && e == []
         case Locked(key) =>
           && step == Insert(t)
           && ((y == Inserted(key) && e == []) || (y == Unlocking(key, false) && e == [Added(key, false)]))
         case Inserted(key) => y == Unlocking(key, true) && step == Increment(t) && e == [Added(key, true)]
         case Unlocking(_, _) => y == Idle && step == Release(t) && e == []
  }

  lemma TaskStep(sys: Sys, step: Step, t: nat)
    requires Shaped(sys) && Enabled(sys, step) && t < |sys.tasks| == |Next(sys, step).tasks|
    ensures Moves(sys.tasks[t], step, t, Next(sys, step).tasks[t], Effect(sys, step))
  {
    hide StripeOf, Wrap32, Flat, ValidCount;
  }

  lemma TaskMoves(n: nat, threads: nat, run: seq<Step>, m: nat, t: nat)
    requires ValidCount(n) && Legal(n, threads, run) && m < |run| && t < threads
    ensures |At(n, threads, run, m).tasks| == |At(n, threads, run, m + 1).tasks| == threads
    ensures Moves(At(n, threads, run, m).tasks[t], run[m], t, At(n, threads, run, m + 1).tasks[t],
                  EffectAt(n, threads, run, m))
  {
    hide Legal, After, Next, Effect, Enabled, Moves;
    AtStep(n, threads, run, m);
    TaskStep(At(n, threads, run, m), run[m], t);
  }

  /** Only a thread without a call under way makes one. */
  lemma CallerIdle(n: nat, threads: nat, run: seq<Step>, m: nat, t: nat, key: Key)
    requires ValidCount(n) && Legal(n, threads, run) && m < |run| && run[m] == CallAdd(t, key)
    ensures |At(n, threads, run, m).tasks| == threads && t < threads && At(n, threads, run, m).tasks[t].Idle?
  {
    hide Legal, After;
    AtStep(n, threads, run, m);
  }

  /** A call that has been made and not yet returned: either it has had no effect so far, or
      its thread holds the result of the one effect it has had. */
  ghost predicate CallState(n: nat, threads: nat, run: seq<Step>, i: nat, j: nat, t: nat, key: Key)
    requires ValidCount(n) && Legal(n, threads, run) && j <= |run|
  {
    && t < |At(n, threads, run, j).tasks|
    && match At(n, threads, run, j).tasks[t]
       case Idle => false
       case Unlocking(k, r) =>
         k == key && exists m :: i < m < j && OneEffect(n, threads, run, i, j, t, m, Added(key, r))
       case task => task.key == key && Quiet(n, threads, run, i, j, t)
  }

  lemma {:induction false} AddProgress(n: nat, threads: nat, run: seq<Step>, i: nat, j: nat, t: nat, key: Key)
    requires ValidCount(n) && Legal(n, threads, run) && i < j <= |run| && run[i] == CallAdd(t, key)
    requires forall x :: i < x < j ==> run[x] != Release(t)
    ensures CallState(n, threads, run, i, j, t, key)
    decreases j
  {
    hide Legal, After, At, EffectAt;
    var z := j - 1;
    CallerIdle(n, threads, run, i, t, key);
    TaskMoves(n, threads, run, z, t);
    if i < z {
      AddProgress(n, threads, run, i, z, t, key);
      var y := At(n, threads, run, j).tasks[t];
      if At(n, threads, run, z).tasks[t].Unlocking? {
        var m :| i < m < z && OneEffect(n, threads, run, i, z, t, m, Added(key, y.result));
        assert OneEffect(n, threads, run, i, j, t, m, Added(key, y.result));
      } else if y.Unlocking? {
        assert OneEffect(n, threads, run, i, j, t, z, Added(key, y.result));
      }
    }
  }

  /** A call of Add has exactly one effect, at a step of its own thread between its call and its
      return, and returns the result of that effect. */
  lemma AddTakesEffect(n: nat, threads: nat, run: seq<Step>, from: nat, to: nat, t: nat, key: Key) returns (m: nat)
    requires ValidCount(n) && Legal(n, threads, run) && AddCall(run, from, to, t, key)
    ensures from < m < to
    ensures OneEffect(n, threads, run, from, to, t, m, Added(key, Returned(n, threads, run, to, t)))
  {
    hide Legal, After, Inv, Next, OneEffect;
    AddProgress(n, threads, run, from, to, t, key);
    AtStep(n, threads, run, to);
    m :| from < m < to && OneEffect(n, threads, run, from, to, t, m, Added(key, Returned(n, threads, run, to, t)));
  }

  // ---------- linearizability ----------

  /** A completed operation: a call of Add, or the single step of a Count. */
  datatype Operation = AddOp(from: nat, to: nat, t: nat, key: Key) | CountOp(from: nat)

  ghost predicate Occurs(run: seq<Step>, op: Operation) {
    match op
    case AddOp(from, to, t, key) => AddCall(run, from, to, t, key)
    case CountOp(at) => at < |run| && run[at] == Count
  }

  function End(op: Operation): nat { if op.AddOp? then op.to else op.from }

  /** What the operation was called with and what it returned. */
  ghost function Answer(n: nat, threads: nat, run: seq<Step>, op: Operation): Event
    requires ValidCount(n) && Legal(n, threads, run) && Occurs(run, op)
  {
    match op
    case AddOp(_, to, t, key) => Added(key, Returned(n, threads, run, to, t))
    case CountOp(at) => Counted(At(n, threads, run, at).count)
  }

  /** The operation takes effect at step `m`. */
  ghost predicate ActsAt(n: nat, threads: nat, run: seq<Step>, op: Operation, m: nat)
    requires ValidCount(n) && Legal(n, threads, run) && Occurs(run, op)
  {
    match op
    case AddOp(from, to, t, _) => OneEffect(n, threads, run, from, to, t, m, Answer(n, threads, run, op))
    case CountOp(at) => m == at && EffectAt(n, threads, run, m) == [Answer(n, threads, run, op)]
  }

  /** Where the operation stands in the order of all events. */
  ghost predicate Place(n: nat, threads: nat, run: seq<Step>, op: Operation, p: nat)
    requires ValidCount(n) && Legal(n, threads, run) && Occurs(run, op)
  {
    exists m :: 0 <= m < |run| && ActsAt(n, threads, run, op, m) && p == |Events(n, threads, run, m)|
  }

  lemma TakesEffect(n: nat, threads: nat, run: seq<Step>, op: Operation) returns (m: nat)
    requires ValidCount(n) && Legal(n, threads, run) && Occurs(run, op)
    ensures op.from <= m <= End(op) < |run| && ActsAt(n, threads, run, op, m)
    ensures EffectAt(n, threads, run, m) == [Answer(n, threads, run, op)]
  {
    hide Legal, After, Inv, Next;
    match op
    case AddOp(from, to, t, key) => m := AddTakesEffect(n, threads, run, from, to, t, key);
    case CountOp(at) =>
      m := at;
      AtStep(n, threads, run, m);
  }

  lemma {:induction false} EventsGrow(n: nat, threads: nat, run: seq<Step>, i: nat, j: nat)
    requires ValidCount(n) && Legal(n, threads, run) && i <= j <= |run|
    ensures Events(n, threads, run, i) <= Events(n, threads, run, j)
    decreases j
  {
    hide Legal, After, EffectAt;
    if i < j {
      EventsGrow(n, threads, run, i, j - 1);
    }
  }

  /** The event of step `m` has its place behind the events of the steps before it. */
  lemma EventPlace(n: nat, threads: nat, run: seq<Step>, m: nat, e: Event)
    requires ValidCount(n) && Legal(n, threads, run) && m < |run| && EffectAt(n, threads, run, m) == [e]
    ensures var all, p := Events(n, threads, run, |run|), |Events(n, threads, run, m)|;
            p < |all| && all[p] == e && all[..p] == Events(n, threads, run, m)
    ensures |Events(n, threads, run, m + 1)| == |Events(n, threads, run, m)| + 1
  {
    hide Legal, After, EffectAt;
    EventsGrow(n, threads, run, m, |run|);
    EventsGrow(n, threads, run, m + 1, |run|);
  }

  /** Linearizability: for any two operations that have returned, Add or Count, there are places
      in one sequential history of a flat set that hold what they returned. Different
      operations have different places, and one that had returned before the other was
      called comes first. */
  lemma Linearizable(n: nat, threads: nat, run: seq<Step>, a: Operation, b: Operation) returns (p: nat, q: nat)
    requires ValidCount(n) && Legal(n, threads, run) && Occurs(run, a) && Occurs(run, b)
    ensures Sequential(Events(n, threads, run, |run|))
    ensures p < |Events(n, threads, run, |run|)| && q < |Events(n, threads, run, |run|)|
    ensures Events(n, threads, run, |run|)[p] == Answer(n, threads, run, a) && Place(n, threads, run, a, p)
    ensures Events(n, threads, run, |run|)[q] == Answer(n, threads, run, b) && Place(n, threads, run, b, q)
    ensures a != b ==> p != q
    ensures End(a) < b.from ==> p < q
  {
    hide Legal, After, EffectAt, Events, Answer, Sequential, OneEffect, AddCall;
    EventsSequential(n, threads, run, |run|);
    var m := TakesEffect(n, threads, run, a);
    var l := TakesEffect(n, threads, run, b);
    EventPlace(n, threads, run, m, Answer(n, threads, run, a));
    EventPlace(n, threads, run, l, Answer(n, threads, run, b));
    p, q := |Events(n, threads, run, m)|, |Events(n, threads, run, l)|;
    if m < l {
      EventsGrow(n, threads, run, m + 1, l);
    } else if l < m {
      EventsGrow(n, threads, run, l + 1, m);
    } else {
      OneOperation(n, threads, run, a, b, m);
    }
  }

  /** No two operations take effect at the same step. */
  lemma OneOperation(n: nat, threads: nat, run: seq<Step>, a: Operation, b: Operation, m: nat)
    requires ValidCount(n) && Legal(n, threads, run) && Occurs(run, a) && Occurs(run, b)
    requires ActsAt(n, threads, run, a, m) && ActsAt(n, threads, run, b, m)
    ensures a == b
  {
    hide Legal, After, EffectAt;
    if a.AddOp? && b.AddOp? {
      SameCall(n, threads, run, a, b);
    }
  }

  /** Calls of one thread do not overlap. */
  lemma SameCall(n: nat, threads: nat, run: seq<Step>, a: Operation, b: Operation)
    requires ValidCount(n) && Legal(n, threads, run) && a.AddOp? && b.AddOp? && Occurs(run, a) && Occurs(run, b)
    requires a.t == b.t && a.from < b.to && b.from < a.to
    ensures a == b
  {
    hide Legal, After;
    if a.from < b.from {
      AddProgress(n, threads, run, a.from, b.from, a.t, a.key);
      AtStep(n, threads, run, b.from);
    } else if b.from < a.from {
      AddProgress(n, threads, run, b.from, a.from, b.t, b.key);
      AtStep(n, threads, run, a.from);
    }
  }

  ghost predicate AllIdle(sys: Sys) {
    forall t :: 0 <= t < |sys.tasks| ==> sys.tasks[t].Idle?
  }

  lemma NothingYet(n: nat, threads: nat, run: seq<Step>)
    requires ValidCount(n) && Legal(n, threads, run)
    ensures AllIdle(At(n, threads, run, 0)) && AllKeys(At(n, threads, run, 0).stripes) == {}
  {
  }

  /** A thread that is not idle has made a call that it has not returned from. */
  lemma {:induction false} CallUnderWay(n: nat, threads: nat, run: seq<Step>, j: nat, t: nat) returns (from: nat)
    requires ValidCount(n) && Legal(n, threads, run) && j <= |run|
    requires t < |At(n, threads, run, j).tasks| && !At(n, threads, run, j).tasks[t].Idle?
    ensures from < j && run[from] == CallAdd(t, At(n, threads, run, j).tasks[t].key)
    ensures forall x :: from < x < j ==> run[x] != Release(t)
    decreases j
  {
    hide Legal, After, At, EffectAt, AllKeys;
    InvAt(n, threads, run, j);
    NothingYet(n, threads, run);
    from := 0;
    if j > 0 {
      TaskMoves(n, threads, run, j - 1, t);
      from := j - 1;
      if !At(n, threads, run, j - 1).tasks[t].Idle? {
        from := CallUnderWay(n, threads, run, j - 1, t);
      }
    }
  }

  /** Every event of an addition belongs to a call that has been made and not yet returned. */
  lemma EventHasCall(n: nat, threads: nat, run: seq<Step>, m: nat) returns (from: nat)
    requires ValidCount(n) && Legal(n, threads, run) && m < |run| && EffectAt(n, threads, run, m) != []
    ensures |EffectAt(n, threads, run, m)| == 1
    ensures var e := EffectAt(n, threads, run, m)[0];
            if e.Counted? then run[m] == Count
            else IsAdd(run[m]) && from < m && run[from] == CallAdd(run[m].t, e.key)
                 && forall x :: from < x < m ==> run[x] != Release(run[m].t)
  {
    hide Legal, After;
    AtStep(n, threads, run, m);
    from := 0;
    if IsAdd(run[m]) {
      from := CallUnderWay(n, threads, run, m, run[m].t);
      TaskMoves(n, threads, run, m, run[m].t);
    }
  }

  /** At every moment a key is in no stripe but the one that its hash chooses. */
  lemma KeyInItsStripe(n: nat, threads: nat, run: seq<Step>, i: nat, key: Key, v: nat, w: nat)
    requires ValidCount(n) && Legal(n, threads, run) && i <= |run|
    requires var stripes := At(n, threads, run, i).stripes; v < |stripes| && w < |stripes| && key in stripes[v]
    ensures |At(n, threads, run, i).stripes| == n && v == StripeOf(key, n)
    ensures key in At(n, threads, run, i).stripes[w] ==> v == w
  {
    hide Legal, After, StripeOf;
    InvAt(n, threads, run, i);
    StripesKept(n, threads, run, i);
    assert Belongs(key, v, n);
    if key in At(n, threads, run, i).stripes[w] {
      OnePlace(At(n, threads, run, i).stripes, key, v, w);
    }
  }

  lemma {:induction false} StripesKept(n: nat, threads: nat, run: seq<Step>, i: nat)
    requires ValidCount(n) && Legal(n, threads, run) && i <= |run|
    ensures |At(n, threads, run, i).stripes| == n
    decreases i
  {
    hide Legal, After, Inv, Next;
    if i == 0 {
      InitStripes(n, threads, run);
    } else {
      StripesKept(n, threads, run, i - 1);
      AtStep(n, threads, run, i - 1);
      SameStripes(At(n, threads, run, i - 1), run[i - 1]);
    }
  }

  lemma InitStripes(n: nat, threads: nat, run: seq<Step>)
    requires ValidCount(n) && Legal(n, threads, run)
    ensures |At(n, threads, run, 0).stripes| == n
  {
  }

  lemma SameStripes(sys: Sys, step: Step)
    requires Shaped(sys) && Enabled(sys, step)
    ensures |Next(sys, step).stripes| == |sys.stripes|
  {
    hide StripeOf, Flat, Lists, Wrap32;
  }

  // ---------- range queries ----------

  /** The flat set never loses a key. */
  lemma {:induction false} FlatGrows(n: nat, threads: nat, run: seq<Step>, i: nat, j: nat)
    requires ValidCount(n) && Legal(n, threads, run) && i <= j <= |run|
    ensures Flat(At(n, threads, run, i)) <= Flat(At(n, threads, run, j))
    decreases j
  {
    hide Legal, After, Inv, Flat, Next, Effect, Enabled;
    if i < j {
      FlatGrows(n, threads, run, i, j - 1);
      AtStep(n, threads, run, j - 1);
      FlatStep(At(n, threads, run, j - 1), run[j - 1]);
    }
  }

  /** The key of an addition that has returned is in the flat set from then on. */
  lemma AddedStays(n: nat, threads: nat, run: seq<Step>, from: nat, to: nat, t: nat, key: Key, j: nat)
    requires ValidCount(n) && Legal(n, threads, run) && AddCall(run, from, to, t, key) && to <= j <= |run|
    ensures key in Flat(At(n, threads, run, j))
  {
    hide Legal, After, Inv, Flat, Next, Effect, Enabled;
    var m := AddTakesEffect(n, threads, run, from, to, t, key);
    AtStep(n, threads, run, m);
    FlatStep(At(n, threads, run, m), run[m]);
    FlatGrows(n, threads, run, m + 1, j);
  }

  /** Step `m` puts a key that was not there into its stripe, on behalf of a call of Add. */
  ghost predicate Inserts(n: nat, threads: nat, run: seq<Step>, m: nat, key: Key)
    requires ValidCount(n) && Legal(n, threads, run)
  {
    && m < |run| && run[m].Insert? && run[m].t < |At(n, threads, run, m).tasks|
    && At(n, threads, run, m).tasks[run[m].t] == Locked(key)
    && key !in AllKeys(At(n, threads, run, m).stripes)
  }

  /** Every key in a stripe has been put there. */
  lemma {:induction false} InsertedBy(n: nat, threads: nat, run: seq<Step>, j: nat, key: Key) returns (m: nat)
    requires ValidCount(n) && Legal(n, threads, run) && j <= |run| && key in AllKeys(At(n, threads, run, j).stripes)
    ensures m < j && Inserts(n, threads, run, m, key)
    decreases j
  {
    hide Legal, After, AllKeys;
    NothingYet(n, threads, run);
    m := 0;
    if j > 0 {
      AtStep(n, threads, run, j - 1);
      m := j - 1;
      var sys := At(n, threads, run, j - 1);
      if key in AllKeys(sys.stripes) {
        m := InsertedBy(n, threads, run, j - 1, key);
      } else {
        NewKey(sys, run[j - 1], key);
      }
    }
  }

  lemma NewKey(sys: Sys, step: Step, key: Key)
    requires Inv(sys) && Enabled(sys, step)
    requires key !in AllKeys(sys.stripes) && key in AllKeys(Next(sys, step).stripes)
    ensures step.Insert? && sys.tasks[step.t] == Locked(key)
  {
    hide AllKeys, TasksOk, ScansOk, QueriesOk, Flat, InPlace, StripeOf, Wrap32;
    if step.Insert? {
      AddInPlace(sys.stripes, sys.tasks[step.t].key);
    }
  }

  /** The query that a step starts, seen later. */
  lemma {:induction false} QueryKept(n: nat, threads: nat, run: seq<Step>, i: nat, range: Range, j: nat)
    requires ValidCount(n) && Legal(n, threads, run) && i < j <= |run| && run[i] == CallRange(range)
    ensures var q := |At(n, threads, run, i).queries|;
            && q < |At(n, threads, run, j).queries|
            && At(n, threads, run, j).queries[q].range == range
            && At(n, threads, run, j).queries[q].before == Flat(At(n, threads, run, i))
    decreases j
  {
    hide Legal, After, Inv, Flat, Next, Enabled;
    AtStep(n, threads, run, j - 1);
    if i < j - 1 {
      QueryKept(n, threads, run, i, range, j - 1);
      QueryMoves(At(n, threads, run, j - 1), run[j - 1], |At(n, threads, run, i).queries|);
    } else {
      QueryStarts(At(n, threads, run, i), range);
    }
  }

  lemma QueryStarts(sys: Sys, range: Range)
    requires Shaped(sys)
    ensures var queries := Next(sys, CallRange(range)).queries;
            && |queries| == |sys.queries| + 1
            && queries[|sys.queries|].range == range && queries[|sys.queries|].before == Flat(sys)
  {
  }

  lemma QueryMoves(sys: Sys, step: Step, q: nat)
    requires Shaped(sys) && Enabled(sys, step) && q < |sys.queries|
    ensures q < |Next(sys, step).queries|
    ensures Next(sys, step).queries[q].range == sys.queries[q].range
    ensures Next(sys, step).queries[q].before == sys.queries[q].before
  {
    hide Flat, StripeOf, Wrap32, Lists;
  }

  /** PredRange is called at step `from` and returns at step `to`. */
  ghost predicate RangeCall(n: nat, threads: nat, run: seq<Step>, from: nat, to: nat, range: Range)
    requires ValidCount(n) && Legal(n, threads, run)
  {
    from < to < |run| && run[from] == CallRange(range) && run[to] == Return(|At(n, threads, run, from).queries|)
  }

  /** The keys that PredRange returns at step `to`. */
  ghost function Result(n: nat, threads: nat, run: seq<Step>, from: nat, to: nat, range: Range): seq<Key>
    requires ValidCount(n) && Legal(n, threads, run) && RangeCall(n, threads, run, from, to, range)
  {
    QueryKept(n, threads, run, from, range, to + 1);
    At(n, threads, run, to + 1).queries[|At(n, threads, run, from).queries|].results
  }

  lemma ResultFits(n: nat, threads: nat, run: seq<Step>, from: nat, to: nat, range: Range)
    requires ValidCount(n) && Legal(n, threads, run) && RangeCall(n, threads, run, from, to, range)
    ensures var results := Result(n, threads, run, from, to, range);
            && Distinct(results)
            && (forall k :: k in results ==> k in Flat(At(n, threads, run, to)) && Wanted(range, k))
            && (forall k :: k in Flat(At(n, threads, run, from)) && Wanted(range, k) ==> k in results)
  {
    hide StripeOf, AllKeys, TasksOk, ScansOk, PartOk, OnePartEach, Legal, After, Flat;
    QueryKept(n, threads, run, from, range, to + 1);
    AtStep(n, threads, run, to);
    InvAt(n, threads, run, to + 1);
    FlatStep(At(n, threads, run, to), run[to]);
    var sys := At(n, threads, run, to + 1);
    assert QueryOk(sys, sys.queries[|At(n, threads, run, from).queries|]);
  }

  /** Step `m` is where a successful Add of the key takes effect. */
  ghost predicate Adds(n: nat, threads: nat, run: seq<Step>, m: nat, key: Key)
    requires ValidCount(n) && Legal(n, threads, run)
  {
    m < |run| && EffectAt(n, threads, run, m) == [Added(key, true)]
  }

  /** Every key of the flat set is there because of a successful Add that has taken effect. */
  lemma {:induction false} AddedBy(n: nat, threads: nat, run: seq<Step>, j: nat, key: Key) returns (m: nat)
    requires ValidCount(n) && Legal(n, threads, run) && j <= |run| && key in Flat(At(n, threads, run, j))
    ensures m < j && Adds(n, threads, run, m, key)
    decreases j
  {
    hide Legal, After, Inv, Flat, Next, Effect, Enabled, Contents, Sequential;
    NoEvents(n, threads, run);
    m := 0;
    if j > 0 {
      var was := Flat(At(n, threads, run, j - 1));
      AtStep(n, threads, run, j - 1);
      FlatStep(At(n, threads, run, j - 1), run[j - 1]);
      m := j - 1;
      if key in was {
        m := AddedBy(n, threads, run, j - 1, key);
      }
    }
  }

  /** PredRange among concurrent additions: the answer has no duplicates, includes every wanted
      key whose Add had returned before the call, whichever thread made it, and includes
      only wanted keys whose Add had taken effect before the return. */
  lemma RangeAnswer(n: nat, threads: nat, run: seq<Step>, from: nat, to: nat, range: Range)
    requires ValidCount(n) && Legal(n, threads, run) && RangeCall(n, threads, run, from, to, range)
    ensures var results := Result(n, threads, run, from, to, range);
            && Distinct(results)
            && (forall i: nat, j: nat, t: nat, k :: AddCall(run, i, j, t, k) && j < from && Wanted(range, k) ==>
                 k in results)
            && (forall k :: k in results ==>
                 Wanted(range, k) && exists m: nat :: m < to && Adds(n, threads, run, m, k))
  {
    hide AllKeys, Legal, After, Flat, AddCall, Adds, Result;
    ResultFits(n, threads, run, from, to, range);
    var results := Result(n, threads, run, from, to, range);
    forall i: nat, j: nat, t: nat, k | AddCall(run, i, j, t, k) && j < from && Wanted(range, k) ensures k in results {
      AddedStays(n, threads, run, i, j, t, k, from);
    }
    forall k | k in results ensures exists m: nat :: m < to && Adds(n, threads, run, m, k) {
      var m := AddedBy(n, threads, run, to, k);
    }
  }

  // ---------- the answer, stripe by stripe ----------

  /** What a step does to the channel of a query. */
  lemma ChannelStep(sys: Sys, step: Step, q: nat)
    requires Shaped(sys) && Enabled(sys, step) && q < |Next(sys, step).queries|
    ensures var more := if step.Send? && step.q == q then [Part(step.v, step.keys)] else [];
            Next(sys, step).queries[q].channel == (if q < |sys.queries| then sys.queries[q].channel else []) + more
    ensures |sys.queries| <= |Next(sys, step).queries|
  {
    hide Flat, StripeOf, Wrap32, Lists;
  }

  /** Every partial result on a channel has been sent there. */
  lemma {:induction false} PartSent(n: nat, threads: nat, run: seq<Step>, j: nat, q: nat, p: Part) returns (s: nat)
    requires ValidCount(n) && Legal(n, threads, run) && j <= |run|
    requires q < |At(n, threads, run, j).queries| && p in At(n, threads, run, j).queries[q].channel
    ensures s < j && run[s] == Send(q, p.stripe, p.keys)
    decreases j
  {
    hide Legal, After, Inv, Next, Enabled;
    NoQueries(n, threads, run);
    s := 0;
    if j > 0 {
      AtStep(n, threads, run, j - 1);
      var sys := At(n, threads, run, j - 1);
      ChannelStep(sys, run[j - 1], q);
      s := j - 1;
      if q < |sys.queries| && p in sys.queries[q].channel {
        s := PartSent(n, threads, run, j - 1, q, p);
      }
    }
  }

  lemma NoQueries(n: nat, threads: nat, run: seq<Step>)
    requires ValidCount(n) && Legal(n, threads, run)
    ensures At(n, threads, run, 0).queries == []
  {
  }

  lemma {:induction false} PartStays(n: nat, threads: nat, run: seq<Step>, s: nat, j: nat)
    requires ValidCount(n) && Legal(n, threads, run) && s < j <= |run| && run[s].Send?
    ensures run[s].q < |At(n, threads, run, j).queries|
    ensures Part(run[s].v, run[s].keys) in At(n, threads, run, j).queries[run[s].q].channel
    decreases j
  {
    hide Legal, After, Inv, Next;
    AtStep(n, threads, run, j - 1);
    var sys := At(n, threads, run, j - 1);
    if s < j - 1 {
      PartStays(n, threads, run, s, j - 1);
    }
    QueriesGrow(sys, run[j - 1]);
    ChannelStep(sys, run[j - 1], run[s].q);
  }

  lemma QueriesGrow(sys: Sys, step: Step)
    requires Shaped(sys) && Enabled(sys, step)
    ensures |sys.queries| <= |Next(sys, step).queries|
  {
    hide Flat, StripeOf, Wrap32, Lists;
  }

  lemma {:induction false} QueryNumbers(n: nat, threads: nat, run: seq<Step>, i: nat, j: nat)
    requires ValidCount(n) && Legal(n, threads, run) && i <= j <= |run|
    ensures |At(n, threads, run, i).queries| <= |At(n, threads, run, j).queries|
    decreases j
  {
    hide Legal, After, Inv, Next, Enabled;
    if i < j {
      QueryNumbers(n, threads, run, i, j - 1);
      AtStep(n, threads, run, j - 1);
      QueriesGrow(At(n, threads, run, j - 1), run[j - 1]);
    }
  }

  /** At step `s` the call of PredRange made at step `from` scans stripe `v`. */
  ghost predicate ScansAt(n: nat, threads: nat, run: seq<Step>, from: nat, s: nat, v: nat)
    requires ValidCount(n) && Legal(n, threads, run) && from <= |run|
  {
    s < |run| && run[s].Send? && run[s].q == |At(n, threads, run, from).queries| && run[s].v == v
  }

  /** A scan finds of its stripe exactly what the flat set has there at that moment. */
  lemma ScanFinds(n: nat, threads: nat, run: seq<Step>, s: nat, k: Key)
    requires ValidCount(n) && Legal(n, threads, run) && s < |run| && run[s].Send?
    ensures run[s].q < |At(n, threads, run, s).queries|
    ensures k in run[s].keys <==>
              Wanted(At(n, threads, run, s).queries[run[s].q].range, k)
              && k in Flat(At(n, threads, run, s)) && StripeOf(k, n) == run[s].v
  {
    hide Legal, After, StripeOf, QueriesOk, TasksOk, ScansOk, AllKeys, InPlace;
    AtStep(n, threads, run, s);
    StripesKept(n, threads, run, s);
    var sys, v := At(n, threads, run, s), run[s].v;
    ScannedCounted(sys, run[s].q, v);
    if k in sys.stripes[v] {
      InItsPlace(sys.stripes, k, v);
    }
    if k in Flat(sys) {
      AddInPlace(sys.stripes, k);
    }
  }

  /** Each stripe is scanned exactly once between the call and the return. */
  lemma ScannedOnce(n: nat, threads: nat, run: seq<Step>, from: nat, to: nat, range: Range, v: nat) returns (s: nat)
    requires ValidCount(n) && Legal(n, threads, run) && RangeCall(n, threads, run, from, to, range) && v < n
    ensures from < s < to && ScansAt(n, threads, run, from, s, v)
    ensures forall x: nat :: ScansAt(n, threads, run, from, x, v) ==> x == s
  {
    hide Legal, After, TasksOk, ScansOk, AllKeys, InPlace, ResultOk, Flat;
    AtStep(n, threads, run, to);
    StripesKept(n, threads, run, to);
    var sys, q := At(n, threads, run, to), |At(n, threads, run, from).queries|;
    var query := sys.queries[q];
    assert QueryOk(sys, query) && query.scans[v] == Finished;
    var i :| 0 <= i < |query.channel| && query.channel[i].stripe == v;
    s := PartSent(n, threads, run, to, q, query.channel[i]);
    AtStep(n, threads, run, s);
    if s <= from {
      QueryNumbers(n, threads, run, s, from);
    }
    forall x: nat | ScansAt(n, threads, run, from, x, v) ensures x == s {
      if x < s {
        NotTwice(n, threads, run, x, s);
      } else if s < x {
        NotTwice(n, threads, run, s, x);
      }
    }
  }

  /** A scan that has sent its partial result does not send again. */
  lemma NotTwice(n: nat, threads: nat, run: seq<Step>, s: nat, x: nat)
    requires ValidCount(n) && Legal(n, threads, run) && s < x < |run| && run[s].Send? && run[x].Send?
    ensures run[s].q != run[x].q || run[s].v != run[x].v
  {
    hide Legal, After, TasksOk, ScansOk, AllKeys, InPlace, ResultOk, Flat, OnePartEach;
    PartStays(n, threads, run, s, x);
    AtStep(n, threads, run, x);
    var sys := At(n, threads, run, x);
    var query := sys.queries[run[s].q];
    assert QueryOk(sys, query);
    var i :| 0 <= i < |query.channel| && query.channel[i] == Part(run[s].v, run[s].keys);
    assert PartOk(sys, query, query.channel[i]);
  }

  /** What PredRange returns, exactly: of each stripe, what the flat set had there at the moment
      of that stripe's scan. */
  lemma RangeByStripe(n: nat, threads: nat, run: seq<Step>, from: nat, to: nat, range: Range, k: Key)
    requires ValidCount(n) && Legal(n, threads, run) && RangeCall(n, threads, run, from, to, range)
    ensures k in Result(n, threads, run, from, to, range) <==>
              Wanted(range, k) && exists s: nat :: from < s < to && ScansAt(n, threads, run, from, s, StripeOf(k, n))
                                                   && k in Flat(At(n, threads, run, s))
  {
    hide Legal, After, StripeOf, Flat, Concat, Wanted;
    var q := |At(n, threads, run, from).queries|;
    var s := ScannedOnce(n, threads, run, from, to, range, StripeOf(k, n));
    QueryKept(n, threads, run, from, range, s);
    ScanFinds(n, threads, run, s, k);
    PartStays(n, threads, run, s, to);
    ResultIs(n, threads, run, from, to, range);
    var channel := At(n, threads, run, to).queries[q].channel;
    ConcatHas(channel, k);
    if k in Concat(channel) {
      var i :| 0 <= i < |channel| && k in channel[i].keys;
      var x := PartSent(n, threads, run, to, q, channel[i]);
      ScanFinds(n, threads, run, x, k);
      assert ScansAt(n, threads, run, from, x, StripeOf(k, n));
    }
    if k in run[s].keys {
      var i :| 0 <= i < |channel| && channel[i] == Part(run[s].v, run[s].keys);
    }
  }

  lemma ResultIs(n: nat, threads: nat, run: seq<Step>, from: nat, to: nat, range: Range)
    requires ValidCount(n) && Legal(n, threads, run) && RangeCall(n, threads, run, from, to, range)
    ensures var q := |At(n, threads, run, from).queries|;
            && q < |At(n, threads, run, to).queries|
            && Result(n, threads, run, from, to, range) == Concat(At(n, threads, run, to).queries[q].channel)
  {
    hide Legal, After, Inv, Concat;
    AtStep(n, threads, run, to);
  }

  /** The answer is what the flat set lists at moment `m` if and only if every wanted key is in
      the flat set at `m` exactly if it is at the scan of its stripe: no wanted Add takes
      effect between `m` and that scan. */
  lemma SnapshotAnswer(n: nat, threads: nat, run: seq<Step>, from: nat, to: nat, range: Range, m: nat)
    requires ValidCount(n) && Legal(n, threads, run) && RangeCall(n, threads, run, from, to, range) && m <= |run|
    ensures Lists(Result(n, threads, run, from, to, range), range, Flat(At(n, threads, run, m))) <==>
              forall k, s: nat :: Wanted(range, k) && ScansAt(n, threads, run, from, s, StripeOf(k, n)) ==>
                (k in Flat(At(n, threads, run, m)) <==> k in Flat(At(n, threads, run, s)))
  {
    hide Legal, After, StripeOf, Flat, Wanted, Result, ScansAt, Distinct;
    ResultFits(n, threads, run, from, to, range);
    var results := Result(n, threads, run, from, to, range);
    forall k | Wanted(range, k)
      ensures exists s: nat :: s < |run| && ScansAt(n, threads, run, from, s, StripeOf(k, n))
      ensures forall s: nat :: ScansAt(n, threads, run, from, s, StripeOf(k, n)) ==>
                s < |run| && (k in results <==> k in Flat(At(n, threads, run, s)))
    {
      InOneScan(n, threads, run, from, to, range, k);
    }
  }

  lemma InOneScan(n: nat, threads: nat, run: seq<Step>, from: nat, to: nat, range: Range, k: Key)
    requires ValidCount(n) && Legal(n, threads, run) && RangeCall(n, threads, run, from, to, range) && Wanted(range, k)
    ensures exists s: nat :: s < |run| && ScansAt(n, threads, run, from, s, StripeOf(k, n))
    ensures forall s: nat :: ScansAt(n, threads, run, from, s, StripeOf(k, n)) ==>
              s < |run| && (k in Result(n, threads, run, from, to, range) <==> k in Flat(At(n, threads, run, s)))
  {
    hide Legal, After, StripeOf, Flat, Wanted, Result;
    var s := ScannedOnce(n, threads, run, from, to, range, StripeOf(k, n));
    RangeByStripe(n, threads, run, from, to, range, k);
  }

  lemma IdleStep(sys: Sys, step: Step)
    requires Shaped(sys) && Enabled(sys, step) && AllIdle(sys) && !step.CallAdd?
    ensures AllIdle(Next(sys, step)) && Next(sys, step).stripes == sys.stripes
  {
    hide Flat, StripeOf, Wrap32, Lists;
  }

  lemma {:induction false} NothingAdded(n: nat, threads: nat, run: seq<Step>, i: nat, j: nat)
    requires ValidCount(n) && Legal(n, threads, run) && i <= j <= |run| && AllIdle(At(n, threads, run, i))
    requires forall x :: i <= x < j ==> !run[x].CallAdd?
    ensures AllIdle(At(n, threads, run, j)) && At(n, threads, run, j).stripes == At(n, threads, run, i).stripes
    decreases j
  {
    hide Legal, After, Next, Enabled, AllIdle;
    if i < j {
      NothingAdded(n, threads, run, i, j - 1);
      AtStep(n, threads, run, j - 1);
      IdleStep(At(n, threads, run, j - 1), run[j - 1]);
    }
  }

  lemma IdleFlat(sys: Sys)
    requires AllIdle(sys)
    ensures Flat(sys) == AllKeys(sys.stripes)
  {
    assert Pending(sys.tasks) == {};
  }

  /** With no addition under way when it is called and none called until it returns, PredRange
      lists exactly what the flat set lists, which stays the same throughout. */
  lemma QuietRangeAnswer(n: nat, threads: nat, run: seq<Step>, from: nat, to: nat, range: Range)
    requires ValidCount(n) && Legal(n, threads, run) && RangeCall(n, threads, run, from, to, range)
    requires AllIdle(At(n, threads, run, from)) && forall x :: from <= x < to ==> !run[x].CallAdd?
    ensures Lists(Result(n, threads, run, from, to, range), range, Flat(At(n, threads, run, from)))
    ensures Flat(At(n, threads, run, from)) == Flat(At(n, threads, run, to))
  {
    hide Legal, After, AllKeys, Flat, AllIdle;
    ResultFits(n, threads, run, from, to, range);
    NothingAdded(n, threads, run, from, to);
    IdleFlat(At(n, threads, run, from));
    IdleFlat(At(n, threads, run, to));
  }

  // ---------- the counter ----------

  function PendingThreads(sys: Sys): set<nat> {
    set t | 0 <= t < |sys.tasks| && sys.tasks[t].Inserted?
  }

  lemma {:induction false} SameNumber(tasks: seq<Task>, threads: set<nat>, keys: set<Key>)
    requires forall t :: t in threads ==> t < |tasks| && tasks[t].Inserted? && tasks[t].key in keys
    requires forall k :: k in keys ==> exists t :: t in threads && tasks[t].key == k
    requires forall t, u :: t in threads && u in threads && t != u ==> tasks[t].key != tasks[u].key
    ensures |threads| == |keys|
    decreases threads
  {
    if threads == {} {
      assert keys == {};
    } else {
      var t :| t in threads;
      var k := tasks[t].key;
      forall x | x in keys - {k} ensures exists u :: u in threads - {t} && tasks[u].key == x {
        var u :| u in threads && tasks[u].key == x;
        assert u in threads - {t};
      }
      SameNumber(tasks, threads - {t}, keys - {k});
    }
  }

  lemma PendingNumber(sys: Sys)
    requires Inv(sys)
    ensures |PendingThreads(sys)| == |Pending(sys.tasks)| && Pending(sys.tasks) <= AllKeys(sys.stripes)
  {
    hide QueriesOk, ScansOk, Wrap32, StripeOf, Lists;
    var threads := PendingThreads(sys);
    forall t, u | t in threads && u in threads && t != u ensures sys.tasks[t].key != sys.tasks[u].key {
      assert TaskOk(sys, t) && TaskOk(sys, u);
    }
    forall k | k in Pending(sys.tasks)
      ensures k in AllKeys(sys.stripes) && exists t :: t in threads && sys.tasks[t].key == k
    {
      var t :| 0 <= t < |sys.tasks| && sys.tasks[t].Inserted? && sys.tasks[t].key == k;
      assert TaskOk(sys, t) && t in threads;
    }
    SameNumber(sys.tasks, threads, Pending(sys.tasks));
  }

  /** The counter is the sum of the sizes of the stripes less the number of additions between
      their insertion and their increment, wrapped to 32 bits. */
  lemma CounterIsSizes(n: nat, threads: nat, run: seq<Step>, i: nat)
    requires ValidCount(n) && Legal(n, threads, run) && i <= |run|
    ensures var sys := At(n, threads, run, i);
            sys.count == Wrap32(TotalSize(sys.stripes) - |PendingThreads(sys)|)
  {
    hide QueriesOk, TasksOk, ScansOk, Wrap32, StripeOf, Legal, After, AllKeys, Pending, InPlace;
    InvAt(n, threads, run, i);
    var sys := At(n, threads, run, i);
    SizesAddUp(sys.stripes, |sys.stripes|);
    assert sys.stripes[..|sys.stripes|] == sys.stripes;
    PendingNumber(sys);
    SubtractSize(AllKeys(sys.stripes), Pending(sys.tasks));
  }

  lemma SubtractSize(a: set<Key>, b: set<Key>)
    requires b <= a
    ensures |a - b| == |a| - |b|
  {
    assert a == (a - b) + b;
  }
}
