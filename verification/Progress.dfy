/** What an undisturbed exchange of messages achieves. */
module Progress {
  import opened RaftTypes
  import opened Cluster
  import opened History
  import opened Invariant
  import opened CoreSteps
  import opened LeaderSteps
  import opened Preservation
  import opened Runs
  import opened Safety
  import opened Backtracking
  import S = ServerSteps

  // ---------- replication ----------

  /** A leader sends to a peer whose log matches at the leader's probe, the peer answers, and
      the leader books the answer. */
  function Exchange(l: nat, p: nat, k: nat): seq<Step> {
    [SendAppend(l, p), DeliverAppend(k), ReturnAppend(k)]
  }

  /** The peer has the leader's whole log and has caught up with its commit index. */
  ghost predicate InStep(x: Server, y: Server) {
    y.currentTerm == x.currentTerm && x.log <= y.log && x.commitIndex <= y.commitIndex
  }

  lemma AcceptWhole(ss: seq<Server>, h: Hist, l: nat, p: nat)
    requires CoreInv(ss, h) && l < |ss| && p < |ss| && p != l && ss[l].role == Leader && S.CanSend(ss[l], p)
    requires ss[p].currentTerm <= ss[l].currentTerm && Matches(ss[p].log, ss[l].log, ss[l].nextIndex[p] - 1)
    ensures var (y, r) := S.AppendEntries(ss[p], S.MakeAppendArgs(ss[l], l, p));
            InStep(ss[l], y) && r == AppendReply(ss[l].currentTerm, true, 0, 0)
  {
    hide CoreInv, AppendArgsOk, S.Accept, S.Recognise, InStep;
    var args := S.MakeAppendArgs(ss[l], l, p);
    OnSend(ss, h, l, p);
    OnRecognise(ss, h, p, args, l);
    var s1 := S.Recognise(ss[p], args);
    AcceptSuffix(ss[p := s1], h, l, p, args);
  }

  /** A peer that has recognised the leader accepts a suffix of its log that fits. */
  lemma AcceptSuffix(ss: seq<Server>, h: Hist, l: nat, p: nat, args: AppendArgs)
    requires CoreInv(ss, h) && l < |ss| && p < |ss| && p != l && ss[l].role == Leader && S.CanSend(ss[l], p)
    requires args == S.MakeAppendArgs(ss[l], l, p) && AppendArgsOk(args, l, |ss|, h)
    requires ss[p].currentTerm == ss[l].currentTerm && S.HasPrev(ss[p].log, args)
    ensures InStep(ss[l], S.Accept(ss[p], args)) && S.Accept(ss[p], args).currentTerm == args.term
  {
    hide CoreInv, ServerOk, S.Accept, S.Merge, S.MakeAppendArgs, AppendArgsOk, AcceptedWell;
    LeaderLog(ss, h, l);
    SuffixCovers(ss[l], l, p);
    MergeLog(ss, h, p, args, l);
    AcceptResult(ss, h, p, args, l);
    AcceptLog(ss[p], args);
    CommitReaches(ss[p], args, S.Accept(ss[p], args));
    assert ss[l].log[..|ss[l].log|] == ss[l].log;
  }

  lemma SuffixCovers(x: Server, me: nat, p: nat)
    requires S.CanSend(x, p)
    ensures var args := S.MakeAppendArgs(x, me, p);
            && args.prevLogIndex + |args.entries| == |x.log| && args.term == x.currentTerm
            && args.leaderCommit == x.commitIndex
  {
  }

  lemma CommitReaches(x: Server, args: AppendArgs, y: Server)
    requires AcceptedWell(x, args, y) && args.leaderCommit <= args.prevLogIndex + |args.entries|
    ensures args.leaderCommit <= y.commitIndex
  {
  }

  lemma LeaderLog(ss: seq<Server>, h: Hist, l: nat)
    requires CoreInv(ss, h) && l < |ss| && ss[l].role == Leader
    ensures ss[l].currentTerm in h.reigns && h.reigns[ss[l].currentTerm].log == ss[l].log
    ensures ss[l].commitIndex <= |ss[l].log|
  {
    OneServer(ss, h, l);
  }

  lemma AcceptLog(x: Server, args: AppendArgs)
    requires S.HasPrev(x.log, args)
    ensures var y := S.Accept(x, args);
            y.log == S.Merge(x.log, args.prevLogIndex, args.entries) && y.currentTerm == x.currentTerm
  {
  }

  /** The leader has booked `m` entries of its log for the peer, nothing else, has not lowered
      its commit index, and has committed and applied its last entry if a majority is now
      counted for it. */
  ghost predicate Learnt(x: Server, x1: Server, n: nat, p: nat, m: nat) {
    && x1.role == Leader && x1.log == x.log && x1.currentTerm == x.currentTerm
    && x.commitIndex <= x1.commitIndex
    && p < |x.matchIndex| == |x.nextIndex|
    && x1.matchIndex == x.matchIndex[p := m] && x1.nextIndex == x.nextIndex[p := m + 1]
    && (|x.log| > 0 && S.CanCommit(x1, n, |x.log|) ==> x1.commitIndex == |x.log| == x1.lastApplied)
  }

  /** What the leader makes of a success. */
  lemma Booked(sys: System, k: nat)
    requires Wellformed(sys) && Enabled(sys, ReturnAppend(k)) && InBounds(sys, ReturnAppend(k))
    requires sys.calls[k].appendState.reply.success
    requires S.BookingDue(sys.servers[sys.calls[k].from], sys.calls[k].append, sys.calls[k].appendState.reply)
    requires LocalOk(sys.servers[sys.calls[k].from])
    ensures var c := sys.calls[k];
            && Learnt(sys.servers[c.from], Next(sys, ReturnAppend(k)).servers[c.from], |sys.servers|, c.to,
               c.append.prevLogIndex + |c.append.entries|)
            && (c.to != c.from ==> Next(sys, ReturnAppend(k)).servers[c.to] == sys.servers[c.to])
            && |Next(sys, ReturnAppend(k)).servers| == |sys.servers|
  {
    var c := sys.calls[k];
    var x, m, n := sys.servers[c.from], c.append.prevLogIndex + |c.append.entries|, |sys.servers|;
    var s1 := x.(matchIndex := x.matchIndex[c.to := m], nextIndex := x.nextIndex[c.to := m + 1]);
    var x1 := Next(sys, ReturnAppend(k)).servers[c.from];
    assert x1 == S.CommitTo(s1, S.NewCommit(s1, n, |x.log|));
    if |x.log| > 0 && S.CanCommit(x1, n, |x.log|) {
      assert S.CanCommit(s1, n, |x.log|);
    }
  }

  /** The first two steps of an exchange. */
  lemma SentAndAnswered(sys: System, h: Hist, l: nat, p: nat)
    requires Inv(sys, h) && l < |sys.servers| && p < |sys.servers| && p != l
    requires var x, f := sys.servers[l], sys.servers[p];
             x.role == Leader && f.currentTerm <= x.currentTerm && S.CanSend(x, p)
                 && Matches(f.log, x.log, x.nextIndex[p] - 1)
    ensures Enabled(sys, SendAppend(l, p))
    ensures var k, sys1 := |sys.calls|, Next(sys, SendAppend(l, p));
            && Wellformed(sys1) && Enabled(sys1, DeliverAppend(k))
            && var sys2 := Next(sys1, DeliverAppend(k));
            && Enabled(sys2, ReturnAppend(k)) && sys2.servers[l] == sys.servers[l] && |sys2.servers| == |sys.servers|
            && InStep(sys.servers[l], sys2.servers[p])
            && var c := sys2.calls[k];
            && c.from == l && c.to == p && c.appendState.reply.success
               && S.BookingDue(sys2.servers[l], c.append, c.appendState.reply)
            && c.append.prevLogIndex + |c.append.entries| == |sys.servers[l].log|
  {
    hide CoreInv, InStep, S.AppendEntries, NetInv;
    InvWellformed(sys, h);
    KeepStep(sys, h, SendAppend(l, p));
    InvWellformed(Next(sys, SendAppend(l, p)), Record(sys, SendAppend(l, p), h));
    AcceptWhole(sys.servers, h, l, p);
  }

  lemma InvWellformed(sys: System, h: Hist)
    requires Inv(sys, h)
    ensures Wellformed(sys)
  {
  }

  /** One undisturbed exchange brings the peer in step, the leader learns exactly that, and
      commits its last entry as soon as the match indices show it on a majority. */
  lemma ExchangeWorks(n: nat, run: seq<Step>, l: nat, p: nat)
    requires Legal(n, run) && l < n && p < n && p != l
    requires |After(n, run).servers| == n
    requires var x, f := After(n, run).servers[l], After(n, run).servers[p];
             x.role == Leader && f.currentTerm <= x.currentTerm && S.CanSend(x, p)
                 && Matches(f.log, x.log, x.nextIndex[p] - 1)
    ensures var run3 := run + Exchange(l, p, |After(n, run).calls|);
            && Legal(n, run3) && |After(n, run3).servers| == n
            && InStep(After(n, run).servers[l], After(n, run3).servers[p])
            && Learnt(After(n, run).servers[l], After(n, run3).servers[l], n, p, |After(n, run).servers[l].log|)
  {
    hide Legal, After, HistAfter, CoreInv, NetInv, InStep, Next, Learnt;
    Reachable(n, run);
    var sys, h := After(n, run), HistAfter(n, run);
    var k := |sys.calls|;
    SentAndAnswered(sys, h, l, p);
    OneServer(sys.servers, h, l);
    var run1 := run + [SendAppend(l, p)];
    var run2 := run1 + [DeliverAppend(k)];
    Extend(n, run, SendAppend(l, p));
    Extend(n, run1, DeliverAppend(k));
    Extend(n, run2, ReturnAppend(k));
    assert run2 + [ReturnAppend(k)] == run + Exchange(l, p, k);
    Booked(After(n, run2), k);
  }

  lemma Extend(n: nat, run: seq<Step>, step: Step)
    requires Legal(n, run) && Enabled(After(n, run), step)
    ensures Wellformed(After(n, run)) && InBounds(After(n, run), step) && Legal(n, run + [step])
    ensures After(n, run + [step]) == Next(After(n, run), step)
  {
    NeverOutOfBounds(n, run, step);
    assert (run + [step])[..|run|] == run;
  }

  // ---------- voting ----------

  /** A vote request of a running candidacy that reaches a server of an earlier term, whose log
      is not ahead of the candidate's, is granted and counted once; the candidate becomes
      leader at exactly the vote that completes a majority. */
  lemma VoteWorks(n: nat, run: seq<Step>, k: nat)
    requires Legal(n, run) && |After(n, run).servers| == n
    requires Enabled(After(n, run), DeliverVote(k)) && After(n, run).calls[k].from < n && After(n, run).calls[k].to < n
    requires After(n, run).calls[k].cell < |After(n, run).cells| && |After(n, run).epochs| == n
    requires var c := After(n, run).calls[k];
             var x, f := After(n, run).servers[c.from], After(n, run).servers[c.to];
             && x.role == Candidate && x.currentTerm == c.vote.term && c.epoch == After(n, run).epochs[c.from]
             && f.currentTerm < x.currentTerm && S.UpToDate(S.LastTerm(x.log), |x.log|, f.log)
    ensures var run2 := run + [DeliverVote(k), ReturnVote(k)];
            && Legal(n, run2) && |After(n, run2).servers| == n
            && var c, sys, sys2 := After(n, run).calls[k], After(n, run), After(n, run2);
            && sys2.servers[c.to].votedFor == c.from && sys2.servers[c.to].currentTerm == c.vote.term
            && sys2.cells == sys.cells[c.cell := sys.cells[c.cell] + 1]
            && sys2.servers[c.from].role == (if 2 * (sys.cells[c.cell] + 1) > n then Leader else Candidate)
  {
    hide Legal, After, HistAfter, CoreInv;
    Reachable(n, run);
    var sys, h := After(n, run), HistAfter(n, run);
    var c := sys.calls[k];
    OneServer(sys.servers, h, c.from);
    assert CallOk(c, n, |sys.cells|, h);
    Extend(n, run, DeliverVote(k));
    Extend(n, run + [DeliverVote(k)], ReturnVote(k));
    assert run + [DeliverVote(k)] + [ReturnVote(k)] == run + [DeliverVote(k), ReturnVote(k)];
  }
}
