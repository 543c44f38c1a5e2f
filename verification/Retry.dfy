/** The retry loop of a leader and one peer as it runs in the cluster: how many exchanges of
    messages bring the peer in step, and when none ever do. */
module Retry {
  import opened RaftTypes
  import opened Cluster
  import opened History
  import opened Invariant
  import opened Facts
  import opened CoreSteps
  import opened Runs
  import opened Safety
  import opened Backtracking
  import opened Progress
  import S = ServerSteps

  /** `m` exchanges of leader `l` with peer `p`, the first of which makes call `k`. */
  function Exchanges(l: nat, p: nat, k: nat, m: nat): seq<Step>
    decreases m
  {
    if m == 0 then [] else Exchange(l, p, k) + Exchanges(l, p, k + 1, m - 1)
  }

  /** Leader `l` of a reachable state, whose last entry is of its own term or not, and a
      peer that is not past its term. */
  ghost predicate Leading(n: nat, run: seq<Step>, l: nat, p: nat)
    requires Legal(n, run)
  {
    && l < n == |After(n, run).servers| && p < n && p != l && After(n, run).servers[l].role == Leader
    && After(n, run).servers[p].currentTerm <= After(n, run).servers[l].currentTerm
  }

  lemma Probes(n: nat, run: seq<Step>, l: nat, p: nat)
    requires Legal(n, run) && Leading(n, run, l, p)
    ensures CanProbe(After(n, run).servers[l], After(n, run).servers[p], n, p)
  {
    hide Legal, After, HistAfter, CoreInv, NetInv, Related, LogOk, Committed;
    assert run[..|run|] == run;
    LogTerms(n, run, |run|, l);
    LogTerms(n, run, |run|, p);
    LogMatching(n, run, |run|, |run|, p, l);
    Reachable(n, run);
    OneServer(After(n, run).servers, HistAfter(n, run), l);
    OneServer(After(n, run).servers, HistAfter(n, run), p);
  }

  /** The three steps of an exchange do to leader and peer what a round does. */
  lemma ExchangeIsRound(n: nat, run: seq<Step>, l: nat, p: nat)
    requires Legal(n, run) && Leading(n, run, l, p)
    requires CanProbe(After(n, run).servers[l], After(n, run).servers[p], n, p)
    ensures var sys, run3 := After(n, run), run + Exchange(l, p, |After(n, run).calls|);
            && Legal(n, run3) && |After(n, run3).calls| == |sys.calls| + 1
            && var (x, f, ok) := Round(sys.servers[l], sys.servers[p], l, n, p);
               After(n, run3).servers == sys.servers[p := f][l := x]
  {
    hide Legal, After, HistAfter, CanProbe, S.AppendEntries, S.OnAppendReply, S.MakeAppendArgs;
    var sys := After(n, run);
    var k := |sys.calls|;
    var run1 := run + [SendAppend(l, p)];
    var run2 := run1 + [DeliverAppend(k)];
    Extend(n, run, SendAppend(l, p));
    Extend(n, run1, DeliverAppend(k));
    Extend(n, run2, ReturnAppend(k));
    assert run2 + [ReturnAppend(k)] == run + Exchange(l, p, k);
  }

  /** The two states differ in the next index for `p` at most. */
  predicate OnlyNext(x: Server, x1: Server, p: nat) {
    && p < |x.nextIndex| == |x1.nextIndex|
    && x1 == x.(nextIndex := x.nextIndex[p := x1.nextIndex[p]])
  }

  /** The follower's state after a round that does not end the search. */
  lemma StillLeading(n: nat, run: seq<Step>, l: nat, p: nat)
    requires Legal(n, run) && Leading(n, run, l, p)
    requires CanProbe(After(n, run).servers[l], After(n, run).servers[p], n, p)
    requires !Matches(After(n, run).servers[p].log, After(n, run).servers[l].log,
        After(n, run).servers[l].nextIndex[p] - 1)
    ensures var sys, run3 := After(n, run), run + Exchange(l, p, |After(n, run).calls|);
            && Legal(n, run3) && Leading(n, run3, l, p) && |After(n, run3).calls| == |sys.calls| + 1
            && (After(n, run3).servers[l], After(n, run3).servers[p], false)
                 == Round(sys.servers[l], sys.servers[p], l, n, p)
            && After(n, run3).servers[p].log == sys.servers[p].log
            && After(n, run3).servers == sys.servers[p := After(n, run3).servers[p]][l := After(n, run3).servers[l]]
            && OnlyNext(sys.servers[l], After(n, run3).servers[l], p)
  {
    hide Legal, After, CanProbe, Round, Matches;
    CanProbeSends(After(n, run).servers[l], After(n, run).servers[p], n, p);
    ExchangeIsRound(n, run, l, p);
    RejectedRound(After(n, run).servers[l], After(n, run).servers[p], l, n, p);
  }

  /** Peer `p` has come in step with leader `l`, who still leads and has booked exactly that, and
      nothing else has happened to any server. */
  ghost predicate CaughtUp(ss: seq<Server>, ss2: seq<Server>, l: nat, p: nat) {
    && l < |ss| == |ss2| && p < |ss| && p != l && ss2 == ss[p := ss2[p]][l := ss2[l]]
    && InStep(ss[l], ss2[p]) && Learnt(ss[l], ss2[l], |ss|, p, |ss[l].log|)
  }

  lemma CaughtUpLater(ss: seq<Server>, ss1: seq<Server>, ss2: seq<Server>, l: nat, p: nat)
    requires l < |ss| && p < |ss| && p != l && |ss1| == |ss| && ss1 == ss[p := ss1[p]][l := ss1[l]]
    requires OnlyNext(ss[l], ss1[l], p) && CaughtUp(ss1, ss2, l, p)
    ensures CaughtUp(ss, ss2, l, p)
  {
    hide S.CanCommit;
  }

  lemma {:induction false} RetriesUntil(n: nat, run: seq<Step>, l: nat, p: nat) returns (m: nat)
    requires Legal(n, run) && Leading(n, run, l, p)
    requires CanRetry(After(n, run).servers[l], After(n, run).servers[p], n, p)
    ensures m == 1 + Rejections(After(n, run).servers[l], After(n, run).servers[p], l, n, p)
    ensures var run2 := run + Exchanges(l, p, |After(n, run).calls|, m);
            && Legal(n, run2) && CaughtUp(After(n, run).servers, After(n, run2).servers, l, p)
    decreases Rejections(After(n, run).servers[l], After(n, run).servers[p], l, n, p)
  {
    hide Legal, After, Round, Matches, Comparable, CanProbe, Learnt, InStep, OnlyNext;
    var x, f, k := After(n, run).servers[l], After(n, run).servers[p], |After(n, run).calls|;
    CanProbeSends(x, f, n, p);
    RoundMoves(x, f, l, n, p);
    var run3 := run + Exchange(l, p, k);
    if Matches(f.log, x.log, x.nextIndex[p] - 1) {
      m := 1;
      ExchangeWorks(n, run, l, p);
      ExchangeIsRound(n, run, l, p);
      assert Exchanges(l, p, k + 1, 0) == [];
      assert Exchanges(l, p, k, 1) == Exchange(l, p, k) + [] == Exchange(l, p, k);
    } else {
      StillLeading(n, run, l, p);
      var m1 := RetriesUntil(n, run3, l, p);
      m := m1 + 1;
      CaughtUpLater(After(n, run).servers, After(n, run3).servers,
                    After(n, run3 + Exchanges(l, p, k + 1, m1)).servers, l, p);
      assert run + Exchanges(l, p, k, m) == run3 + Exchanges(l, p, k + 1, m1);
    }
  }

  lemma CanProbeSends(x: Server, f: Server, n: nat, p: nat)
    requires CanProbe(x, f, n, p)
    ensures S.CanSend(x, p) && |x.nextIndex| == n
  {
  }

  /** The search of leader `l` for peer `p` is open. */
  ghost predicate Searchable(n: nat, run: seq<Step>, l: nat, p: nat)
    requires Legal(n, run) && Leading(n, run, l, p)
  {
    Probes(n, run, l, p);
    Open(After(n, run).servers[p].log, After(n, run).servers[l].log, After(n, run).servers[l].nextIndex[p] - 1)
  }

  /** After `m` exchanges from the state after `run` the peer has caught up. */
  ghost predicate Done(n: nat, run: seq<Step>, l: nat, p: nat, m: nat)
    requires Legal(n, run) && Leading(n, run, l, p)
  {
    var run2 := run + Exchanges(l, p, |After(n, run).calls|, m);
    Legal(n, run2) && CaughtUp(After(n, run).servers, After(n, run2).servers, l, p)
  }

  /** Fast backtracking in the cluster: from every reachable state, whatever the logs and the next
      index, a leader brings a peer that is not past its term in step if and only if the
      search is open, and then with at most two exchanges more than the peer's log has
      terms. If it is not, no number of exchanges does. */
  lemma CatchesUp(n: nat, run: seq<Step>, l: nat, p: nat)
    requires Legal(n, run) && Leading(n, run, l, p)
    ensures Searchable(n, run, l, p) ==>
              exists m: nat :: m <= 2 + |Terms(After(n, run).servers[p].log)| && Done(n, run, l, p, m)
    ensures !Searchable(n, run, l, p) ==> forall m: nat :: !Done(n, run, l, p, m)
  {
    hide Legal, After, CanProbe, CaughtUp, Open, Exchanges;
    Probes(n, run, l, p);
    if Searchable(n, run, l, p) {
      var m := RetriesUntil(n, run, l, p);
      RejectionsBound(After(n, run).servers[l], After(n, run).servers[p], l, n, p);
      assert Done(n, run, l, p, m);
    } else {
      forall m: nat ensures !Done(n, run, l, p, m) {
        NeverDone(n, run, l, p, m);
      }
    }
  }

  /** A leader with an entry of its own term, which is then its last, can always search. */
  lemma OwnTermSearches(n: nat, run: seq<Step>, l: nat, p: nat)
    requires Legal(n, run) && Leading(n, run, l, p)
    requires var x := After(n, run).servers[l]; exists i :: 0 <= i < |x.log| && x.log[i].term == x.currentTerm
    ensures Searchable(n, run, l, p)
  {
    hide Legal, After, Open, Related;
    var x, f := After(n, run).servers[l], After(n, run).servers[p];
    Probes(n, run, l, p);
    assert run[..|run|] == run;
    LogTerms(n, run, |run|, l);
    OwnTermOpen(f.log, x.log, x.nextIndex[p] - 1, x.currentTerm);
  }

  // ---------- when it never ends ----------

  lemma NotOpen(f: Log, l: Log, prev: nat)
    requires prev <= |l| && !Open(f, l, prev)
    ensures !Matches(f, l, prev) && !(l <= f)
    ensures !Open(f, l, S.Min(prev, |f|))
    ensures prev <= |f| ==> prev > 0 && !HasAbove(l, f[prev - 1].term)
  {
  }

  /** If the search is not open, an exchange at most moves the probe to the end of the peer's
      log, once, and the search is still not open. */
  lemma ClosedRound(n: nat, run: seq<Step>, l: nat, p: nat)
    requires Legal(n, run) && Leading(n, run, l, p) && !Searchable(n, run, l, p)
    ensures var run3 := run + Exchange(l, p, |After(n, run).calls|);
            var x, f := After(n, run).servers[l], After(n, run).servers[p];
            && Legal(n, run3) && Leading(n, run3, l, p) && !Searchable(n, run3, l, p)
            && |After(n, run3).calls| == |After(n, run).calls| + 1
            && After(n, run3).servers[p].log == f.log && After(n, run3).servers[l].log == x.log
            && (p < |x.nextIndex| && x.nextIndex[p] - 1 <= |f.log| ==> After(n, run3).servers[l] == x)
  {
    hide Legal, After, CanProbe, Round, Matches, HasAbove, Open;
    var x, f := After(n, run).servers[l], After(n, run).servers[p];
    Probes(n, run, l, p);
    CanProbeSends(x, f, n, p);
    NotOpen(f.log, x.log, x.nextIndex[p] - 1);
    StillLeading(n, run, l, p);
    RejectedRound(x, f, l, n, p);
    if x.nextIndex[p] - 1 > |f.log| {
      BookedProbe(x, f, l, n, p);
    }
  }

  lemma {:induction false} NeverDone(n: nat, run: seq<Step>, l: nat, p: nat, m: nat)
    requires Legal(n, run) && Leading(n, run, l, p) && !Searchable(n, run, l, p)
    ensures var run2 := run + Exchanges(l, p, |After(n, run).calls|, m);
            && Legal(n, run2) && Leading(n, run2, l, p) && !Searchable(n, run2, l, p)
            && After(n, run2).servers[p].log == After(n, run).servers[p].log
            && After(n, run2).servers[l].log == After(n, run).servers[l].log
    ensures !Done(n, run, l, p, m)
    decreases m
  {
    hide Legal, After, Searchable;
    var k := |After(n, run).calls|;
    if m == 0 {
      assert run + Exchanges(l, p, k, 0) == run;
    } else {
      ClosedRound(n, run, l, p);
      var run3 := run + Exchange(l, p, k);
      NeverDone(n, run3, l, p, m - 1);
      assert run + Exchanges(l, p, k, m) == run3 + Exchanges(l, p, k + 1, m - 1);
    }
    ClosedLogs(n, run, l, p);
  }

  lemma ClosedLogs(n: nat, run: seq<Step>, l: nat, p: nat)
    requires Legal(n, run) && Leading(n, run, l, p) && !Searchable(n, run, l, p)
    ensures !(After(n, run).servers[l].log <= After(n, run).servers[p].log)
  {
    hide Legal, After;
    Probes(n, run, l, p);
    NotOpen(After(n, run).servers[p].log, After(n, run).servers[l].log, After(n, run).servers[l].nextIndex[p] - 1);
  }
}
