/** A run in which PredRange returns what the flat set lists at no moment at all. */
module TornRange {
  import opened StringSets
  import opened StripedConcurrency
  import opened Linearizability

  /** The run leads to the state. */
  ghost predicate LeadsTo(run: seq<Step>, sys: Sys) {
    Legal(2, 1, run) && After(2, 1, run) == sys
  }

  lemma Begin()
    ensures LeadsTo([], Init(2, 1))
  {
  }

  lemma Play(run: seq<Step>, sys: Sys, step: Step) returns (sys2: Sys)
    requires LeadsTo(run, sys) && Shaped(sys) && Enabled(sys, step)
    ensures sys2 == Next(sys, step) && LeadsTo(run + [step], sys2)
  {
    sys2 := Next(sys, step);
    assert (run + [step])[..|run|] == run;
  }

  lemma AtMoment(run: seq<Step>, i: nat, sys: Sys)
    requires Legal(2, 1, run) && i <= |run| && LeadsTo(run[..i], sys)
    ensures At(2, 1, run, i) == sys
  {
  }

  /** One query, between two of its scans, while no addition is under way. */
  ghost predicate Resting(sys: Sys) {
    && |sys.stripes| == |sys.locks| == 2 && sys.tasks == [Idle] && |sys.queries| == 1
    && |sys.queries[0].scans| == 2 && !sys.queries[0].returned
    && sys.locks == [Free, Free]
  }

  function AddSteps(key: Key): seq<Step> {
    [CallAdd(0, key)] + [Acquire(0)] + [Insert(0)] + [Increment(0)] + [Release(0)]
  }

  function ScanSteps(v: nat, keys: seq<Key>): seq<Step> {
    [AcquireRead(0, v)] + [Send(0, v, keys)] + [ReleaseRead(0, v)]
  }

  /** An undisturbed call of Add with a new key. */
  lemma Adding(run: seq<Step>, sys: Sys, key: Key) returns (sys2: Sys)
    requires LeadsTo(run, sys) && Resting(sys) && key !in sys.stripes[StripeOf(key, 2)]
    ensures LeadsTo(run + AddSteps(key), sys2) && Resting(sys2) && sys2.queries == sys.queries
    ensures var i := StripeOf(key, 2); sys2.stripes == sys.stripes[i := sys.stripes[i] + {key}]
  {
    hide Legal, After, StripeOf, Wrap32;
    var s1 := Play(run, sys, CallAdd(0, key));
    var s2 := Play(run + [CallAdd(0, key)], s1, Acquire(0));
    var s3 := Play(run + [CallAdd(0, key)] + [Acquire(0)], s2, Insert(0));
    var s4 := Play(run + [CallAdd(0, key)] + [Acquire(0)] + [Insert(0)], s3, Increment(0));
    sys2 := Play(run + [CallAdd(0, key)] + [Acquire(0)] + [Insert(0)] + [Increment(0)], s4, Release(0));
    assert run + [CallAdd(0, key)] + [Acquire(0)] + [Insert(0)] + [Increment(0)] + [Release(0)] == run + AddSteps(key);
  }

  /** An undisturbed scan of stripe `v`. */
  lemma Scanning(run: seq<Step>, sys: Sys, v: nat, keys: seq<Key>) returns (sys2: Sys)
    requires LeadsTo(run, sys) && Resting(sys) && v < 2 && sys.queries[0].scans[v] == Ready
    requires Lists(keys, sys.queries[0].range, sys.stripes[v])
    ensures LeadsTo(run + ScanSteps(v, keys), sys2) && Resting(sys2) && sys2.stripes == sys.stripes
    ensures sys2.queries[0] == PutPart(sys.queries[0], v, keys).(scans := sys.queries[0].scans[v := Finished])
  {
    hide Legal, After, Lists;
    var s1 := Play(run, sys, AcquireRead(0, v));
    var s2 := Play(run + [AcquireRead(0, v)], s1, Send(0, v, keys));
    assert s2.locks[v] == Reading({0}) && {0} - {0} == {};
    sys2 := Play(run + [AcquireRead(0, v)] + [Send(0, v, keys)], s2, ReleaseRead(0, v));
    assert run + [AcquireRead(0, v)] + [Send(0, v, keys)] + [ReleaseRead(0, v)] == run + ScanSteps(v, keys);
  }

  /** Two keys that the hash puts into different ones of two stripes. */
  const First: Key := [1 as bv8]
  const Second: Key := [0 as bv8]

  lemma Apart()
    ensures StripeOf(First, 2) == 0 && StripeOf(Second, 2) == 1
  {
    assert First[..0] == [] && Second[..0] == [];
    assert Fnv32(First) == FnvStep(2166136261, 1) == 84696350;
    assert Fnv32(Second) == FnvStep(2166136261, 0) == 84696351;
  }

  /** A query scans the first stripe; then one key is added there and, after that Add has returned,
      another key to the second stripe; then the query scans the second stripe. */
  function Torn(range: Range): seq<Step> {
    [CallRange(range)] + ScanSteps(0, []) + AddSteps(First) + AddSteps(Second) + ScanSteps(1, [Second]) + [Return(0)]
  }

  lemma UntilFirst(range: Range, run: seq<Step>) returns (sys: Sys)
    requires run == [CallRange(range)] + ScanSteps(0, []) + AddSteps(First)
    ensures LeadsTo(run, sys) && Resting(sys) && sys.stripes == [{First}, {}]
    ensures sys.queries[0].range == range && sys.queries[0].scans == [Finished, Ready]
    ensures sys.queries[0].channel == [Part(0, [])]
  {
    hide Legal, After, StripeOf, Wanted;
    Apart();
    Begin();
    var s1 := Play([], Init(2, 1), CallRange(range));
    assert [] + [CallRange(range)] == [CallRange(range)];
    assert s1.stripes == [{}, {}] && s1.queries[0].scans == [Ready, Ready];
    var s2 := Scanning([CallRange(range)], s1, 0, []);
    sys := Adding([CallRange(range)] + ScanSteps(0, []), s2, First);
    assert {} + {First} == {First};
  }

  lemma CollectTwo(channel: seq<Part>)
    requires channel == [Part(0, []), Part(1, [Second])]
    ensures Concat(channel) == [Second]
  {
    assert channel[..1] == [Part(0, [])] && channel[..1][..0] == [];
    assert Concat(channel[..1]) == [];
  }

  /** Up to moment 9 the second key is not there, and from then on the first key is. */
  lemma NeverListed(run: seq<Step>, range: Range, m: nat, sys: Sys)
    requires Legal(2, 1, run) && 9 <= |run| && m <= |run| && At(2, 1, run, 9) == sys
    requires Resting(sys) && sys.stripes == [{First}, {}] && Wanted(range, First)
    ensures !Lists([Second], range, Flat(At(2, 1, run, m)))
  {
    hide Legal, After, Wanted, Flat;
    IdleFlat(sys);
    assert First in sys.stripes[0] && First[0] != Second[0];
    assert First in AllKeys(sys.stripes) && Second !in AllKeys(sys.stripes);
    if m <= 9 {
      FlatGrows(2, 1, run, m, 9);
      assert Second in [Second];
    } else {
      FlatGrows(2, 1, run, 9, m);
      assert First !in [Second];
    }
  }

  lemma UntilSecond(range: Range, run: seq<Step>, sys: Sys, run2: seq<Step>) returns (sys2: Sys)
    requires LeadsTo(run, sys) && Resting(sys) && sys.stripes == [{First}, {}] && Wanted(range, Second)
    requires sys.queries[0].range == range && sys.queries[0].scans == [Finished, Ready]
    requires sys.queries[0].channel == [Part(0, [])]
    requires run2 == run + AddSteps(Second) + ScanSteps(1, [Second])
    ensures LeadsTo(run2, sys2) && Shaped(sys2) && Enabled(sys2, Return(0))
    ensures |sys2.queries| == 1 && sys2.queries[0].channel == [Part(0, []), Part(1, [Second])]
  {
    hide Legal, After, StripeOf, Wanted;
    Apart();
    var s14 := Adding(run, sys, Second);
    assert {} + {Second} == {Second};
    assert s14.stripes == [{First}, {Second}];
    sys2 := Scanning(run + AddSteps(Second), s14, 1, [Second]);
    assert sys2.queries[0].scans == [Finished, Finished];
  }

  /** Where the calls of the run begin and end. */
  lemma TornCalls(range: Range)
    ensures var run := Torn(range);
            && |run| == 18 && run[0] == CallRange(range) && run[17] == Return(0)
            && AddCall(run, 4, 8, 0, First) && AddCall(run, 9, 13, 0, Second)
            && run[..9] == [CallRange(range)] + ScanSteps(0, []) + AddSteps(First)
            && run[..17] == run[..9] + AddSteps(Second) + ScanSteps(1, [Second])
            && run[..18] == run == run[..17] + [Return(0)]
  {
  }

  /** PredRange need not be atomic: this answer has the second key without the first, which was
      in the set, with its Add returned, before the second was added. It is what the flat
      set lists at no moment of the run. */
  lemma TornAnswer(range: Range)
    requires Wanted(range, First) && Wanted(range, Second)
    ensures var run := Torn(range);
            && |run| == 18 && Legal(2, 1, run) && RangeCall(2, 1, run, 0, 17, range)
            && AddCall(run, 4, 8, 0, First) && AddCall(run, 9, 13, 0, Second)
            && Result(2, 1, run, 0, 17, range) == [Second]
            && forall m :: 0 <= m <= |run| ==> !Lists([Second], range, Flat(At(2, 1, run, m)))
  {
    hide Legal, After, Wanted, Torn, Resting, AddCall, Enabled, Shaped, Next;
    var run := Torn(range);
    TornCalls(range);
    var s9 := UntilFirst(range, run[..9]);
    var s17 := UntilSecond(range, run[..9], s9, run[..17]);
    var s18 := Play(run[..17], s17, Return(0));
    CollectTwo(s17.queries[0].channel);
    NoQueries(2, 1, run);
    AtMoment(run, 9, s9);
    AtMoment(run, 17, s17);
    ResultIs(2, 1, run, 0, 17, range);
    forall m | 0 <= m <= |run| ensures !Lists([Second], range, Flat(At(2, 1, run, m))) {
      NeverListed(run, range, m, s9);
    }
  }
}
