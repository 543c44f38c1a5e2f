/** From every reachable state a majority of two servers or more can serve a new command, without
    the other servers, if it is left undisturbed: none of it crashes, halts or times out while
    it leads, and no message among its servers is lost. */
module Recovery {
  import opened RaftTypes
  import opened Cluster
  import opened History
  import opened Invariant
  import opened Facts
  import opened NetSteps
  import opened Preservation
  import opened Runs
  import opened Safety
  import opened MatchIndex
  import opened Outcomes
  import opened Progress
  import opened Retry
  import S = ServerSteps

  // ---------- undisturbed continuations ----------

  /** A server of `q` takes the step, and it is no crash, no loss and no timeout of a leader. */
  ghost predicate Gentle(sys: System, q: set<nat>, step: Step) {
    && Enabled(sys, step) && Actor(sys, step) in q && !step.Crash? && !step.Lose?
    && (step.Timeout? ==> sys.servers[step.server].role != Leader)
  }

  /** The steps `more` can follow the run; servers of `q` take them, and they disturb nothing. */
  ghost predicate Undisturbed(n: nat, run: seq<Step>, q: set<nat>, more: seq<Step>)
    requires Legal(n, run)
    decreases |more|
  {
    more == [] ||
    var init := more[..|more| - 1];
    && Undisturbed(n, run, q, init)
    && Legal(n, run + init) && Legal(n, run + more) && Gentle(After(n, run + init), q, more[|more| - 1])
  }

  lemma {:induction false} Then(n: nat, run: seq<Step>, q: set<nat>, a: seq<Step>, b: seq<Step>)
    requires Legal(n, run) && Undisturbed(n, run, q, a) && Legal(n, run + a) && Undisturbed(n, run + a, q, b)
    ensures Undisturbed(n, run, q, a + b)
    decreases |b|
  {
    hide Legal, After, Gentle;
    if b == [] {
      assert a + b == a;
    } else {
      var init := b[..|b| - 1];
      Then(n, run, q, a, init);
      assert (a + b)[..|a + b| - 1] == a + init;
      assert run + (a + init) == run + a + init && run + (a + b) == run + a + b;
    }
  }

  lemma OneStep(n: nat, run: seq<Step>, q: set<nat>, step: Step)
    requires Legal(n, run) && Gentle(After(n, run), q, step)
    ensures Legal(n, run + [step]) && Undisturbed(n, run, q, [step])
    ensures Wellformed(After(n, run)) && InBounds(After(n, run), step)
    ensures After(n, run + [step]) == Next(After(n, run), step)
  {
    hide Legal, After, Enabled, InBounds, Wellformed, Next;
    Extend(n, run, step);
    assert run + [step][..0] == run;
    assert Undisturbed(n, run, q, [step][..0]);
  }

  lemma NoSteps(n: nat, run: seq<Step>, q: set<nat>)
    requires Legal(n, run)
    ensures Undisturbed(n, run, q, [])
  {
  }

  /** Servers outside `q` are as they were. */
  lemma {:induction false} OutsidersStay(n: nat, run: seq<Step>, q: set<nat>, more: seq<Step>, p: nat)
    requires Legal(n, run) && Undisturbed(n, run, q, more) && p < n && p !in q
    ensures Legal(n, run + more) && |After(n, run + more).servers| == |After(n, run).servers| == n
    ensures After(n, run + more).servers[p] == After(n, run).servers[p]
    decreases |more|
  {
    hide Legal, After, Next;
    Reachable(n, run);
    if more == [] {
      assert run + more == run;
    } else {
      var init := more[..|more| - 1];
      OutsidersStay(n, run, q, init, p);
      assert run + more == run + init + [more[|more| - 1]];
      Extend(n, run + init, more[|more| - 1]);
      OnlyActor(After(n, run + init), more[|more| - 1], p);
      Reachable(n, run + more);
    }
  }

  lemma OnlyActor(sys: System, step: Step, p: nat)
    requires Wellformed(sys) && Enabled(sys, step) && InBounds(sys, step) && p < |sys.servers| && p != Actor(sys, step)
    ensures p < |Next(sys, step).servers| && Next(sys, step).servers[p] == sys.servers[p]
  {
  }

  /** A step of a legal run is enabled where it happens. */
  lemma TakesStep(n: nat, run: seq<Step>, step: Step)
    requires Legal(n, run) && Legal(n, run + [step])
    ensures var sys := After(n, run);
            && Wellformed(sys) && Enabled(sys, step) && InBounds(sys, step)
            && After(n, run + [step]) == Next(sys, step)
  {
    assert (run + [step])[..|run|] == run;
  }

  lemma LegalBefore(n: nat, run: seq<Step>, a: seq<Step>, b: seq<Step>)
    requires Legal(n, run + (a + b))
    ensures Legal(n, run + a) && run + a + b == run + (a + b)
  {
    hide Legal;
    PrefixLegal(n, run + (a + b), |run| + |a|);
    assert (run + (a + b))[..|run| + |a|] == run + a;
  }

  /** Three steps that a legal run takes one after the other. */
  lemma ThreeSteps(n: nat, run: seq<Step>, q: set<nat>, a: Step, b: Step, c: Step)
    requires Legal(n, run) && Legal(n, run + [a]) && Legal(n, run + [a] + [b])
    requires Gentle(After(n, run), q, a) && Gentle(After(n, run + [a]), q, b)
    requires Gentle(After(n, run + [a] + [b]), q, c)
    ensures Undisturbed(n, run, q, [a, b, c])
  {
    hide Legal, After, Gentle, Undisturbed;
    OneStep(n, run, q, a);
    OneStep(n, run + [a], q, b);
    Then(n, run, q, [a], [b]);
    assert run + [a] + [b] == run + ([a] + [b]);
    OneStep(n, run + ([a] + [b]), q, c);
    Then(n, run, q, [a] + [b], [c]);
    assert [a] + [b] + [c] == [a, b, c];
  }

  lemma ThreeLegal(n: nat, run: seq<Step>, a: Step, b: Step, c: Step)
    requires Legal(n, run + [a, b, c])
    ensures Legal(n, run + [a]) && Legal(n, run + [a] + [b]) && run + [a] + [b] + [c] == run + [a, b, c]
  {
    hide Legal;
    var whole := run + [a, b, c];
    PrefixLegal(n, whole, |run| + 1);
    PrefixLegal(n, whole, |run| + 2);
    assert whole[..|run| + 1] == run + [a] && whole[..|run| + 2] == run + [a] + [b];
  }

  /** An exchange is made by the leader and its peer. */
  lemma ExchangeGentle(n: nat, run: seq<Step>, q: set<nat>, l: nat, p: nat)
    requires Legal(n, run) && Legal(n, run + Exchange(l, p, |After(n, run).calls|)) && l in q && p in q
    ensures Undisturbed(n, run, q, Exchange(l, p, |After(n, run).calls|))
    ensures |After(n, run + Exchange(l, p, |After(n, run).calls|)).calls| == |After(n, run).calls| + 1
  {
    hide Legal, After, Undisturbed, S.AppendEntries, S.OnAppendReply, S.MakeAppendArgs;
    var k := |After(n, run).calls|;
    var a, b, c := SendAppend(l, p), DeliverAppend(k), ReturnAppend(k);
    ThreeLegal(n, run, a, b, c);
    TakesStep(n, run, a);
    TakesStep(n, run + [a], b);
    TakesStep(n, run + [a] + [b], c);
    ThreeSteps(n, run, q, a, b, c);
  }

  lemma {:induction false} ExchangesGentle(n: nat, run: seq<Step>, q: set<nat>, l: nat, p: nat, m: nat)
    requires Legal(n, run) && Legal(n, run + Exchanges(l, p, |After(n, run).calls|, m)) && l in q && p in q
    ensures Undisturbed(n, run, q, Exchanges(l, p, |After(n, run).calls|, m))
    decreases m
  {
    hide Legal, After;
    var k := |After(n, run).calls|;
    if m > 0 {
      var a, b := Exchange(l, p, k), Exchanges(l, p, k + 1, m - 1);
      LegalBefore(n, run, a, b);
      ExchangeGentle(n, run, q, l, p);
      ExchangesGentle(n, run + a, q, l, p, m - 1);
      Then(n, run, q, a, b);
    }
  }

  // ---------- the best log ----------

  /** No server of `q` has a log that is ahead of that of `s`, which is one of them. */
  predicate BestLog(ss: seq<Server>, q: set<nat>, s: nat) {
    && s < |ss| && s in q && (forall p :: p in q ==> p < |ss|)
    && forall p :: p in q ==> NotAhead(ss[p].log, NamedTerm(ss[s].log), |ss[s].log|)
  }

  /** Some server of `q` has a best log. */
  lemma {:induction false} SomeBestLog(ss: seq<Server>, q: set<nat>) returns (s: nat)
    requires q != {} && forall p :: p in q ==> p < |ss|
    ensures BestLog(ss, q, s)
    decreases |q|
  {
    s :| s in q;
    if q != {s} {
      var rest := q - {s};
      assert |rest| < |q| by { assert q == rest + {s}; }
      assert rest != {} by { assert q != rest; }
      var r := SomeBestLog(ss, rest);
      if NotAhead(ss[s].log, NamedTerm(ss[r].log), |ss[r].log|) {
        s := r;
      }
    }
  }

  // ---------- a candidate with a term of its own ----------

  /** Only server `s` has changed, and not its log. */
  ghost predicate Alike(ss: seq<Server>, ss2: seq<Server>, s: nat) {
    s < |ss| == |ss2| && ss2 == ss[s := ss2[s]] && ss2[s].log == ss[s].log
  }

  lemma Refused(f: Server, args: AppendArgs)
    requires args.term < f.currentTerm
    ensures S.AppendEntries(f, args) == (f, AppendReply(f.currentTerm, false, 0, 0))
  {
  }

  lemma Demoted(x: Server, n: nat, p: nat, args: AppendArgs, r: AppendReply)
    requires r.term > x.currentTerm
    ensures S.OnAppendReply(x, n, p, args, r) == S.ConvertToFollower(x, r.term, -1)
  {
  }

  /** A leader learns of a later term from a peer that refuses its message, and steps down. */
  lemma Retires(n: nat, run: seq<Step>, q: set<nat>, s: nat, p: nat) returns (more: seq<Step>)
    requires Legal(n, run) && |After(n, run).servers| == n && s < n && p < n && s in q && p in q
    requires After(n, run).servers[s].role == Leader
    requires After(n, run).servers[s].currentTerm < After(n, run).servers[p].currentTerm
    ensures Legal(n, run + more) && Undisturbed(n, run, q, more)
    ensures Alike(After(n, run).servers, After(n, run + more).servers, s)
    ensures After(n, run + more).servers[s].role == Follower
  {
    hide Legal, After, Undisturbed, Inv, S.AppendEntries, S.OnAppendReply;
    var sys, k := After(n, run), |After(n, run).calls|;
    var run1 := run + [SendAppend(s, p)];
    var run2 := run1 + [DeliverAppend(k)];
    more := Exchange(s, p, k);
    assert run2 + [ReturnAppend(k)] == run + more;
    Extend(n, run, SendAppend(s, p));
    Extend(n, run1, DeliverAppend(k));
    var args := After(n, run1).calls[k].append;
    Refused(sys.servers[p], args);
    assert sys.servers[p := sys.servers[p]] == sys.servers;
    Demoted(sys.servers[s], n, p, args, AppendReply(sys.servers[p].currentTerm, false, 0, 0));
    Extend(n, run2, ReturnAppend(k));
    ExchangeGentle(n, run, q, s, p);
  }

  /** A server that does not lead times out `m` times. */
  lemma {:induction false} Stands(n: nat, run: seq<Step>, q: set<nat>, s: nat, m: nat) returns (more: seq<Step>)
    requires Legal(n, run) && |After(n, run).servers| == n && s < n && s in q && m > 0
    requires After(n, run).servers[s].role != Leader
    ensures Legal(n, run + more) && Undisturbed(n, run, q, more)
    ensures Alike(After(n, run).servers, After(n, run + more).servers, s)
    ensures var x, x2 := After(n, run).servers[s], After(n, run + more).servers[s];
            x2.role == Candidate && x2.currentTerm == x.currentTerm + m
    decreases m
  {
    hide Legal, After, Undisturbed;
    more := [Timeout(s)];
    OneStep(n, run, q, Timeout(s));
    if m > 1 {
      var rest := Stands(n, run + [Timeout(s)], q, s, m - 1);
      Then(n, run, q, [Timeout(s)], rest);
      assert run + ([Timeout(s)] + rest) == run + [Timeout(s)] + rest;
      more := [Timeout(s)] + rest;
    }
  }

  lemma {:induction false} TopTerm(ss: seq<Server>) returns (t: nat)
    ensures forall p :: 0 <= p < |ss| ==> ss[p].currentTerm <= t
  {
    t := 0;
    if ss != [] {
      var z := |ss| - 1;
      t := TopTerm(ss[..z]);
      assert forall p :: 0 <= p < z ==> ss[..z][p] == ss[p];
      if t < ss[z].currentTerm {
        t := ss[z].currentTerm;
      }
    }
  }

  // ---------- an election ----------

  /** The servers of `q` among the first `j` of a list. */
  function Among(others: seq<nat>, q: set<nat>, j: nat): set<nat>
    requires j <= |others|
  {
    set i | 0 <= i < j && others[i] in q :: others[i]
  }

  /** Candidate `s` has the votes of the servers of `q` among the first `j` it has asked, in the round
      whose calls begin at `k0`, and the others of `q` are of earlier terms and not ahead of it. */
  ghost predicate Polling(sys: System, n: nat, q: set<nat>, s: nat, k0: nat, cell: nat, j: nat) {
    var others := S.Others(s, n, 0);
    && |sys.servers| == |sys.epochs| == n && s < n && s in q && sys.servers[s].role == Candidate
    && j <= |others| && |sys.calls| == k0 + |others| && cell < |sys.cells|
    && sys.cells[cell] == 1 + |Among(others, q, j)| && 2 * sys.cells[cell] <= n
    && (forall i :: j <= i < |others| ==>
          && sys.calls[k0 + i] ==
             VoteCall(s, others[i], sys.epochs[s], cell, S.MakeVoteArgs(sys.servers[s], s), Sent)
          && others[i] < n && (others[i] in q ==> Behind(sys.servers[others[i]], sys.servers[s])))
  }

  predicate Behind(f: Server, x: Server) {
    f.currentTerm < x.currentTerm && NotAhead(f.log, NamedTerm(x.log), |x.log|)
  }

  /** Server `v` gives its vote to `s`, which leads if that makes a majority. */
  ghost predicate Votes(sys: System, sys2: System, s: nat, v: nat, k: nat, cell: nat) {
    && s < |sys.servers| == |sys2.servers| && v < |sys.servers| && v != s
    && k < |sys.calls| == |sys2.calls| && cell < |sys.cells|
    && sys2.servers == sys.servers[v := sys2.servers[v]][s := sys2.servers[s]]
    && sys2.servers[v].log == sys.servers[v].log && sys2.servers[v].currentTerm == sys.servers[s].currentTerm
    && sys2.servers[s].log == sys.servers[s].log && sys2.servers[s].currentTerm == sys.servers[s].currentTerm
    && sys2.epochs == sys.epochs && sys2.calls == sys.calls[k := sys2.calls[k]]
    && sys2.cells == sys.cells[cell := sys.cells[cell] + 1]
    && if 2 * (sys.cells[cell] + 1) > |sys.servers| then sys2.servers[s].role == Leader
       else sys2.servers[s] == sys.servers[s]
  }

  lemma Granted(f: Server, x: Server, s: nat)
    requires Behind(f, x)
    ensures var (y, r) := S.RequestVote(f, S.MakeVoteArgs(x, s));
            r == VoteReply(x.currentTerm, true) && y.log == f.log && y.currentTerm == x.currentTerm
  {
  }

  lemma Counted(x: Server, s: nat, n: nat, votes: nat)
    requires x.role == Candidate && s < n
    ensures var (y, v) := S.OnVoteReply(x, s, n, S.MakeVoteArgs(x, s), VoteReply(x.currentTerm, true), votes);
            && v == votes + 1 && y.log == x.log && y.currentTerm == x.currentTerm
            && if 2 * v > n then y.role == Leader else y == x
  {
  }

  lemma OneVote(n: nat, run: seq<Step>, q: set<nat>, s: nat, v: nat, k: nat, cell: nat)
    requires Legal(n, run) && s < n && v < n && v != s && k < |After(n, run).calls| && s in q && v in q
    requires |After(n, run).servers| == |After(n, run).epochs| == n && cell < |After(n, run).cells|
    requires After(n, run).servers[s].role == Candidate
    requires After(n, run).calls[k] ==
             VoteCall(s, v, After(n, run).epochs[s], cell, S.MakeVoteArgs(After(n, run).servers[s], s), Sent)
    requires Behind(After(n, run).servers[v], After(n, run).servers[s])
    ensures Legal(n, run + [DeliverVote(k), ReturnVote(k)])
    ensures Undisturbed(n, run, q, [DeliverVote(k), ReturnVote(k)])
    ensures Votes(After(n, run), After(n, run + [DeliverVote(k), ReturnVote(k)]), s, v, k, cell)
  {
    hide Legal, After, Undisturbed, S.RequestVote, S.OnVoteReply, S.MakeVoteArgs, Behind;
    var sys := After(n, run);
    OneStep(n, run, q, DeliverVote(k));
    Granted(sys.servers[v], sys.servers[s], s);
    var sys1 := After(n, run + [DeliverVote(k)]);
    OneStep(n, run + [DeliverVote(k)], q, ReturnVote(k));
    Counted(sys.servers[s], s, n, sys.cells[cell]);
    assert run + [DeliverVote(k)] + [ReturnVote(k)] == run + [DeliverVote(k), ReturnVote(k)];
    Then(n, run, q, [DeliverVote(k)], [ReturnVote(k)]);
    assert [DeliverVote(k)] + [ReturnVote(k)] == [DeliverVote(k), ReturnVote(k)];
  }

  /** Server `s` leads, all logs are as they were, and nobody of `q` is past its term. */
  ghost predicate Elected(ss: seq<Server>, ss2: seq<Server>, q: set<nat>, s: nat) {
    && s < |ss| == |ss2| && ss2[s].role == Leader && NobodyPast(ss2, q, s)
    && forall p :: 0 <= p < |ss| ==> ss2[p].log == ss[p].log
  }

  ghost predicate NobodyPast(ss: seq<Server>, q: set<nat>, s: nat) {
    s < |ss| && forall p :: p in q ==> p < |ss| && ss[p].currentTerm <= ss[s].currentTerm
  }

  lemma AmongStep(others: seq<nat>, q: set<nat>, j: nat)
    requires j < |others| && forall i, l :: 0 <= i < l < |others| ==> others[i] < others[l]
    ensures |Among(others, q, j + 1)| == |Among(others, q, j)| + (if others[j] in q then 1 else 0)
  {
    var was := Among(others, q, j);
    assert others[j] !in was;
    assert Among(others, q, j + 1) == if others[j] in q then was + {others[j]} else was;
  }

  /** One vote more either decides the election or leaves the candidate polling. */
  lemma StillPolling(sys: System, sys2: System, n: nat, q: set<nat>, s: nat, k0: nat, cell: nat, j: nat)
    requires Polling(sys, n, q, s, k0, cell, j) && j < |S.Others(s, n, 0)| && S.Others(s, n, 0)[j] in q
    requires Votes(sys, sys2, s, S.Others(s, n, 0)[j], k0 + j, cell)
    ensures sys2.servers[s].role == Leader || Polling(sys2, n, q, s, k0, cell, j + 1)
  {
    hide NotAhead, NamedTerm, S.MakeVoteArgs, Among;
    OthersAre(s, n, 0);
    if sys2.servers[s].role != Leader {
      var others := S.Others(s, n, 0);
      AmongStep(others, q, j);
      forall i | j + 1 <= i < |others|
        ensures others[i] < n && (others[i] in q ==> Behind(sys2.servers[others[i]], sys2.servers[s]))
        ensures sys2.calls[k0 + i] ==
                VoteCall(s, others[i], sys2.epochs[s], cell, S.MakeVoteArgs(sys2.servers[s], s), Sent)
      {
        assert others[j] < others[i] && others[i] in others;
        assert sys2.servers[others[i]] == sys.servers[others[i]];
        assert sys2.calls[k0 + i] == sys.calls[k0 + i];
      }
    }
  }

  lemma ElectedBy(ss: seq<Server>, ss1: seq<Server>, ss2: seq<Server>, q: set<nat>, s: nat, v: nat)
    requires NobodyPast(ss, q, s) && v < |ss| == |ss1| && v != s && ss1 == ss[v := ss1[v]][s := ss1[s]]
    requires ss1[v].log == ss[v].log && ss1[v].currentTerm == ss[s].currentTerm
    requires ss1[s].log == ss[s].log && ss1[s].currentTerm == ss[s].currentTerm
    ensures NobodyPast(ss1, q, s)
    ensures Elected(ss1, ss2, q, s) ==> Elected(ss, ss2, q, s)
    ensures ss1[s].role == Leader ==> Elected(ss, ss1, q, s)
  {
  }

  /** With the votes of all of a majority the election would be decided. */
  lemma NotAllPolled(sys: System, n: nat, q: set<nat>, s: nat, k0: nat, cell: nat, j: nat)
    requires Polling(sys, n, q, s, k0, cell, j) && Majority(n, q)
    ensures j < |S.Others(s, n, 0)|
  {
    var others := S.Others(s, n, 0);
    OthersAre(s, n, 0);
    if j == |others| {
      forall p | p in q - {s} ensures p in Among(others, q, j) {
        assert p in others;
        var i :| 0 <= i < |others| && others[i] == p;
      }
      Smaller(q - {s}, Among(others, q, j));
    }
  }

  lemma {:induction false} Polls(n: nat, run: seq<Step>, q: set<nat>, s: nat, k0: nat, cell: nat, j: nat)
    returns (more: seq<Step>)
    requires Legal(n, run) && Polling(After(n, run), n, q, s, k0, cell, j)
    requires Majority(n, q) && NobodyPast(After(n, run).servers, q, s)
    ensures Legal(n, run + more) && Undisturbed(n, run, q, more)
    ensures Elected(After(n, run).servers, After(n, run + more).servers, q, s)
    decreases |S.Others(s, n, 0)| - j
  {
    hide Legal, After, Behind, Elected, NobodyPast, Undisturbed, Majority, S.MakeVoteArgs, Among;
    var sys, v := After(n, run), S.Others(s, n, 0);
    OthersAre(s, n, 0);
    NotAllPolled(sys, n, q, s, k0, cell, j);
    assert v[j] in v;
    if v[j] !in q {
      AmongStep(v, q, j);
      more := Polls(n, run, q, s, k0, cell, j + 1);
    } else {
      OneVote(n, run, q, s, v[j], k0 + j, cell);
      more := [DeliverVote(k0 + j), ReturnVote(k0 + j)];
      var sys1 := After(n, run + more);
      StillPolling(sys, sys1, n, q, s, k0, cell, j);
      ElectedBy(sys.servers, sys1.servers, sys1.servers, q, s, v[j]);
      if sys1.servers[s].role != Leader {
        var rest := Polls(n, run + more, q, s, k0, cell, j + 1);
        ElectedBy(sys.servers, sys1.servers, After(n, run + more + rest).servers, q, s, v[j]);
        assert run + more + rest == run + (more + rest);
        Then(n, run, q, more, rest);
        more := more + rest;
      }
    }
  }

  /** A candidate of a majority whose term is its own there and whose log is a best one wins. */
  lemma Wins(n: nat, run: seq<Step>, q: set<nat>, s: nat) returns (more: seq<Step>)
    requires Legal(n, run) && n >= 2 && |After(n, run).servers| == n && Majority(n, q)
    requires BestLog(After(n, run).servers, q, s) && After(n, run).servers[s].role == Candidate
    requires forall p :: p in q && p != s ==>
               After(n, run).servers[p].currentTerm < After(n, run).servers[s].currentTerm
    ensures Legal(n, run + more) && Undisturbed(n, run, q, more)
    ensures Elected(After(n, run).servers, After(n, run + more).servers, q, s)
  {
    hide Legal, After, NotAhead, NamedTerm, Elected, Undisturbed;
    var sys := After(n, run);
    OneStep(n, run, q, StartVoting(s));
    var sys1 := After(n, run + [StartVoting(s)]);
    OthersLength(s, n, 0);
    OthersAre(s, n, 0);
    var others := S.Others(s, n, 0);
    forall i | 0 <= i < |others|
      ensures others[i] < n && (others[i] in q ==> Behind(sys1.servers[others[i]], sys1.servers[s]))
    {
      assert others[i] in others;
    }
    assert Among(others, q, 0) == {};
    var rest := Polls(n, run + [StartVoting(s)], q, s, |sys.calls|, |sys.cells|, 0);
    assert run + [StartVoting(s)] + rest == run + ([StartVoting(s)] + rest);
    Then(n, run, q, [StartVoting(s)], rest);
    more := [StartVoting(s)] + rest;
  }

  lemma AlikeBest(ss: seq<Server>, ss2: seq<Server>, q: set<nat>, s: nat)
    requires Alike(ss, ss2, s) && BestLog(ss, q, s)
    ensures BestLog(ss2, q, s)
    ensures forall ss3 :: Elected(ss2, ss3, q, s) ==> Elected(ss, ss3, q, s)
  {
    hide NotAhead, NamedTerm, NobodyPast;
    forall p | 0 <= p < |ss| ensures ss2[p].log == ss[p].log {}
  }

  /** A server with a best log that does not lead comes to lead. */
  lemma Rises(n: nat, run: seq<Step>, q: set<nat>, s: nat) returns (more: seq<Step>)
    requires Legal(n, run) && n >= 2 && |After(n, run).servers| == n && Majority(n, q)
    requires BestLog(After(n, run).servers, q, s) && After(n, run).servers[s].role != Leader
    ensures Legal(n, run + more) && Undisturbed(n, run, q, more)
    ensures Elected(After(n, run).servers, After(n, run + more).servers, q, s)
  {
    hide Legal, After, Elected, Undisturbed, BestLog, Majority;
    BestKnown(After(n, run).servers, q, s);
    var t := TopTerm(After(n, run).servers);
    var a := Stands(n, run, q, s, t + 1);
    AlikeBest(After(n, run).servers, After(n, run + a).servers, q, s);
    var b := Wins(n, run + a, q, s);
    Then(n, run, q, a, b);
    assert run + a + b == run + (a + b);
    more := a + b;
  }

  lemma BestKnown(ss: seq<Server>, q: set<nat>, s: nat)
    requires BestLog(ss, q, s)
    ensures s < |ss| && s in q && forall p :: p in q ==> p < |ss|
  {
  }

  /** Every server of a majority with a best log there can come to lead, whatever it is now, without
      the other servers. */
  lemma Elects(n: nat, run: seq<Step>, q: set<nat>, s: nat) returns (more: seq<Step>)
    requires Legal(n, run) && n >= 2 && |After(n, run).servers| == n && Majority(n, q)
    requires BestLog(After(n, run).servers, q, s)
    ensures Legal(n, run + more) && Undisturbed(n, run, q, more)
    ensures Elected(After(n, run).servers, After(n, run + more).servers, q, s)
  {
    hide Legal, After, Undisturbed, BestLog, Majority;
    BestKnown(After(n, run).servers, q, s);
    var ss := After(n, run).servers;
    assert run + [] == run;
    if ss[s].role != Leader {
      more := Rises(n, run, q, s);
    } else if p: nat :| p in q && ss[p].currentTerm > ss[s].currentTerm {
      var a := Retires(n, run, q, s, p);
      AlikeBest(ss, After(n, run + a).servers, q, s);
      var b := Rises(n, run + a, q, s);
      Then(n, run, q, a, b);
      assert run + a + b == run + (a + b);
      more := a + b;
    } else {
      more := [];
      NoSteps(n, run, q);
    }
  }

  // ---------- replication to a majority ----------

  /** The server holds the log and knows that its first `c` entries are committed. */
  ghost predicate Has(y: Server, log: Log, c: nat) { log <= y.log && c <= y.commitIndex }

  /** Leader `s` has an entry of its own term at the end of its log, nobody of `q` is past its term,
      and it has brought all servers of `q` before `p` in step and booked them. */
  ghost predicate Spreading(ss: seq<Server>, q: set<nat>, s: nat, log: Log, c: nat, p: nat) {
    && NobodyPast(ss, q, s) && p <= |ss| && ss[s].role == Leader && ss[s].log == log != []
    && log[|log| - 1].term == ss[s].currentTerm && c <= ss[s].commitIndex && |ss[s].matchIndex| == |ss|
    && (forall r :: r in q && r < p && r != s ==> Has(ss[r], log, c) && ss[s].matchIndex[r] == |log|)
    && ((exists r :: r in q && r < p && r != s) ==> Settled(ss, s))
  }

  /** The leader has committed and applied its log if it counts a majority for it. */
  ghost predicate Settled(ss: seq<Server>, s: nat)
    requires s < |ss|
  {
    var x := ss[s];
    x.log != [] && S.CanCommit(x, |ss|, |x.log|) ==> x.commitIndex == |x.log|
  }

  lemma SpreadOne(ss: seq<Server>, ss2: seq<Server>, q: set<nat>, s: nat, log: Log, c: nat, p: nat)
    requires Spreading(ss, q, s, log, c, p) && p < |ss| && p != s && CaughtUp(ss, ss2, s, p)
    ensures Spreading(ss2, q, s, log, c, p + 1)
  {
    hide S.CanCommit;
  }

  lemma DoneMeans(n: nat, run: seq<Step>, s: nat, p: nat, m: nat)
    requires Legal(n, run) && Leading(n, run, s, p) && Done(n, run, s, p, m)
    ensures var run2 := run + Exchanges(s, p, |After(n, run).calls|, m);
            Legal(n, run2) && CaughtUp(After(n, run).servers, After(n, run2).servers, s, p)
  {
  }

  lemma SpreadTo(n: nat, run: seq<Step>, q: set<nat>, s: nat, log: Log, c: nat, p: nat) returns (more: seq<Step>)
    requires Legal(n, run) && p < n == |After(n, run).servers| && p != s && p in q && s in q
    requires Spreading(After(n, run).servers, q, s, log, c, p)
    ensures Legal(n, run + more) && Undisturbed(n, run, q, more) && |After(n, run + more).servers| == n
    ensures Spreading(After(n, run + more).servers, q, s, log, c, p + 1)
  {
    hide Legal, After, CaughtUp, Undisturbed, Searchable, Exchanges, Settled;
    OwnTermSearches(n, run, s, p);
    CatchesUp(n, run, s, p);
    var m: nat :| Done(n, run, s, p, m);
    DoneMeans(n, run, s, p, m);
    more := Exchanges(s, p, |After(n, run).calls|, m);
    ExchangesGentle(n, run, q, s, p, m);
    SpreadOne(After(n, run).servers, After(n, run + more).servers, q, s, log, c, p);
    Reachable(n, run + more);
  }

  lemma SpreadSkip(ss: seq<Server>, q: set<nat>, s: nat, log: Log, c: nat, p: nat)
    requires Spreading(ss, q, s, log, c, p) && p < |ss| && (p == s || p !in q)
    ensures Spreading(ss, q, s, log, c, p + 1)
  {
    hide Settled;
  }

  lemma {:induction false} Spreads(n: nat, run: seq<Step>, q: set<nat>, s: nat, log: Log, c: nat, p: nat)
    returns (more: seq<Step>)
    requires Legal(n, run) && |After(n, run).servers| == n && s in q
    requires p <= n && Spreading(After(n, run).servers, q, s, log, c, p)
    ensures Legal(n, run + more) && Undisturbed(n, run, q, more) && |After(n, run + more).servers| == n
    ensures Spreading(After(n, run + more).servers, q, s, log, c, n)
    decreases n - p
  {
    hide Legal, After, Undisturbed, Spreading;
    assert run + [] == run;
    more := [];
    NoSteps(n, run, q);
    if p < n {
      if p == s || p !in q {
        SpreadSkip(After(n, run).servers, q, s, log, c, p);
      } else {
        more := SpreadTo(n, run, q, s, log, c, p);
      }
      var rest := Spreads(n, run + more, q, s, log, c, p + 1);
      Then(n, run, q, more, rest);
      assert run + more + rest == run + (more + rest);
      more := more + rest;
    }
  }

  /** Once a bare majority is booked, with the leader, the leader has committed. */
  lemma CountsMajority(ss: seq<Server>, q: set<nat>, s: nat, log: Log, c: nat)
    requires Spreading(ss, q, s, log, c, |ss|) && |ss| >= 2 && Majority(|ss|, q) && s in q
    ensures ss[s].commitIndex >= |log|
  {
    var x, n := ss[s], |ss|;
    var rest := q - {s};
    assert q == rest + {s} && |q| == |rest| + 1;
    assert rest != {};
    var r :| r in rest;
    assert r in q && r < n && r != s;
    assert Settled(ss, s);
    CountIsSize(x.matchIndex, |log|);
    Smaller(rest, Reaching(x.matchIndex, |log|));
  }

  lemma Smaller(a: set<nat>, b: set<nat>)
    requires a <= b
    ensures |a| <= |b|
  {
    assert b == a + (b - a);
  }

  // ---------- serving a command ----------

  /** Server `s` leads with its old log and the command behind it, and every server of `q` has that
      log, knows it to be committed, and has applied the command at its index. */
  ghost predicate Served(ss: seq<Server>, ss2: seq<Server>, q: set<nat>, s: nat, c: Command) {
    && s < |ss| == |ss2| && ss2[s].role == Leader && s in q
    && var log := ss[s].log + [Entry(c, ss2[s].currentTerm)];
       && ss2[s].log == log
       && forall p :: p in q ==> p < |ss2| && Has(ss2[p], log, |log|) && Applies(ss2[p], c, |log|)
  }

  predicate Applies(y: Server, c: Command, index: nat) {
    0 < index <= |y.applied| && y.applied[index - 1] == ApplyMsg(true, c, index)
  }

  /** The leader of a moment takes a command, and nobody is in step yet. */
  lemma Starts(n: nat, run: seq<Step>, q: set<nat>, s: nat, c: Command)
    requires Legal(n, run) && |After(n, run).servers| == n && NobodyPast(After(n, run).servers, q, s) && s in q
    requires After(n, run).servers[s].role == Leader
    ensures var run2, x := run + [StartCommand(s, c)], After(n, run).servers[s];
            && Legal(n, run2) && Undisturbed(n, run, q, [StartCommand(s, c)]) && |After(n, run2).servers| == n
            && After(n, run2).servers[s].currentTerm == x.currentTerm
            && Spreading(After(n, run2).servers, q, s, x.log + [Entry(c, x.currentTerm)], 0, 0)
  {
    hide Legal, After, Undisturbed, HistAfter, Inv, CoreInv;
    OneStep(n, run, q, StartCommand(s, c));
    var t := After(n, run).servers[s].currentTerm;
    assert run[..|run|] == run;
    assert Leads(At(n, run, |run|), s, t);
    MatchLength(n, run, |run|, s, t);
  }

  /** What a server has committed it has applied. */
  lemma AppliesCommitted(n: nat, run: seq<Step>, p: nat, log: Log, c: Command)
    requires Legal(n, run) && p < n == |After(n, run).servers| && log != [] && log[|log| - 1].command == c
    requires Has(After(n, run).servers[p], log, |log|)
    ensures Applies(After(n, run).servers[p], c, |log|)
  {
    hide Legal, After;
    assert run[..|run|] == run;
    AppliedInLog(n, run, |run|, p);
    var y := After(n, run).servers[p];
    assert y.log[..|log|] == log;
    assert y.log[|log| - 1] == log[|log| - 1];
  }

  lemma AllServed(n: nat, run: seq<Step>, run2: seq<Step>, q: set<nat>, s: nat, log: Log, c: Command)
    requires Legal(n, run) && Legal(n, run2) && |After(n, run).servers| == |After(n, run2).servers| == n && s in q
    requires s < n && Spreading(After(n, run2).servers, q, s, log, |log|, n)
    requires log == After(n, run).servers[s].log + [Entry(c, After(n, run2).servers[s].currentTerm)]
    ensures Served(After(n, run).servers, After(n, run2).servers, q, s, c)
  {
    hide Legal, After, Settled, Applies;
    var ss2 := After(n, run2).servers;
    forall p | p in q ensures p < n && Has(ss2[p], log, |log|) && Applies(ss2[p], c, |log|) {
      assert p < n;
      AppliesCommitted(n, run2, p, log, c);
    }
  }

  /** From every reachable state, whatever has been lost, delayed or crashed, any majority of two or
      more servers can serve a new command without the others: of its servers any with a best
      log there can win an election and have the command applied by all of the majority, at
      the index behind its own old log. No step is a crash, a loss or a leader's timeout. */
  lemma Recovers(n: nat, run: seq<Step>, q: set<nat>, s: nat, c: Command) returns (more: seq<Step>)
    requires Legal(n, run) && n >= 2 && |After(n, run).servers| == n && Majority(n, q)
    requires BestLog(After(n, run).servers, q, s)
    ensures Legal(n, run + more) && Undisturbed(n, run, q, more)
    ensures Served(After(n, run).servers, After(n, run + more).servers, q, s, c)
  {
    hide Legal, After, Undisturbed, BestLog, Spreading, Served, Majority;
    BestKnown(After(n, run).servers, q, s);
    var a := Elects(n, run, q, s);
    var run1 := run + a;
    var x := After(n, run1).servers[s];
    var log := x.log + [Entry(c, x.currentTerm)];
    Starts(n, run1, q, s, c);
    var run2 := run1 + [StartCommand(s, c)];
    Then(n, run, q, a, [StartCommand(s, c)]);
    var b := a + [StartCommand(s, c)];
    assert run2 == run + b;
    var d := Spreads(n, run2, q, s, log, 0, 0);
    Then(n, run, q, b, d);
    var run3 := run2 + d;
    assert run3 == run + (b + d);
    SpreadAgain(After(n, run3).servers, q, s, log);
    var e := Spreads(n, run3, q, s, log, |log|, 0);
    Then(n, run, q, b + d, e);
    more := b + d + e;
    assert run3 + e == run + more;
    SpreadTerm(After(n, run + more).servers, q, s, log, |log|, n);
    AllServed(n, run, run + more, q, s, log, c);
  }

  /** The leader of a full round has committed, and can spread that in another round. */
  lemma SpreadAgain(ss: seq<Server>, q: set<nat>, s: nat, log: Log)
    requires Spreading(ss, q, s, log, 0, |ss|) && |ss| >= 2 && Majority(|ss|, q) && s in q
    ensures Spreading(ss, q, s, log, |log|, 0)
  {
    hide Settled, Majority;
    CountsMajority(ss, q, s, log, 0);
  }

  lemma SpreadTerm(ss: seq<Server>, q: set<nat>, s: nat, log: Log, c: nat, p: nat)
    requires Spreading(ss, q, s, log, c, p)
    ensures s < |ss| && log != [] && log[|log| - 1].term == ss[s].currentTerm
  {
  }

  /** A server without peers never leads: its vote for itself is counted only when a reply to a
      vote request returns, and it sends none. */
  lemma {:induction false} LoneNeverLeads(run: seq<Step>, i: nat)
    requires Legal(1, run) && i <= |run|
    ensures |At(1, run, i).servers| == 1 && At(1, run, i).servers[0].role != Leader
    decreases i
  {
    hide Legal, After, HistAfter, CoreInv;
    InvAt(1, run, i);
    StartsAtInit(1, run);
    if i > 0 {
      LoneNeverLeads(run, i - 1);
      InvAt(1, run, i - 1);
      AtStep(1, run, i - 1);
      var sys, step := At(1, run, i - 1), run[i - 1];
      if At(1, run, i).servers[0].role == Leader {
        NewLeader(sys, step, 0, At(1, run, i).servers[0].currentTerm);
        PeerCall(sys, HistAt(1, run, i - 1), step.call);
      }
    }
  }

  /** From any reachable state a majority of the servers can serve a command, by itself and without
      any disturbance, if and only if there are two servers or more. */
  lemma ServesIffTwo(n: nat, run: seq<Step>, q: set<nat>, c: Command)
    requires Legal(n, run) && Majority(n, q)
    ensures n >= 2 ==> exists s: nat, more: seq<Step> ::
              Undisturbed(n, run, q, more) && Legal(n, run + more)
              && Served(After(n, run).servers, After(n, run + more).servers, q, s, c)
    ensures n < 2 ==> forall s: nat, more: seq<Step> :: Legal(n, run + more) ==>
              !Served(After(n, run).servers, After(n, run + more).servers, q, s, c)
  {
    hide Legal, After, Undisturbed, Served, BestLog;
    Reachable(n, run);
    if n >= 2 {
      assert q != {};
      var s := SomeBestLog(After(n, run).servers, q);
      var more := Recovers(n, run, q, s, c);
    } else {
      forall s: nat, more: seq<Step> | Legal(n, run + more)
        ensures !Served(After(n, run).servers, After(n, run + more).servers, q, s, c)
      {
        TooFew(n, run, more, q, s, c);
      }
    }
  }

  lemma TooFew(n: nat, run: seq<Step>, more: seq<Step>, q: set<nat>, s: nat, c: Command)
    requires Legal(n, run) && Legal(n, run + more) && n < 2
    ensures !Served(After(n, run).servers, After(n, run + more).servers, q, s, c)
  {
    hide Legal, After;
    var run2 := run + more;
    Reachable(n, run2);
    if n == 1 {
      LoneNeverLeads(run2, |run2|);
      assert run2[..|run2|] == run2;
    }
  }
}
