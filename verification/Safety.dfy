/** The safety properties of Raft, as statements about any two moments of any run.
    None of them mentions the history. */
module Safety {
  import opened RaftTypes
  import opened Cluster
  import opened History
  import opened Invariant
  import opened Facts
  import opened CoreSteps
  import opened LeaderSteps
  import opened Preservation
  import opened Runs
  import S = ServerSteps

  // ---------- leaders ----------

  /** Election Safety: a term has at most one leader over the whole run. */
  lemma ElectionSafety(n: nat, run: seq<Step>, i: nat, j: nat, a: nat, b: nat)
    requires Legal(n, run) && i <= |run| && j <= |run| && a < n && b < n
    ensures |At(n, run, i).servers| == |At(n, run, j).servers| == n
    ensures var x, y := At(n, run, i).servers[a], At(n, run, j).servers[b];
            x.role == Leader && y.role == Leader && x.currentTerm == y.currentTerm ==> a == b
  {
    hide Legal, After, HistAfter, Next, Record;
    ServerAt(n, run, i, a);
    ServerAt(n, run, j, b);
  }

  /** Leader Append-Only: a leader's log only grows while its term lasts. */
  lemma LeaderAppendOnly(n: nat, run: seq<Step>, i: nat, j: nat, s: nat)
    requires Legal(n, run) && i <= j <= |run| && s < n
    ensures |At(n, run, i).servers| == |At(n, run, j).servers| == n
    ensures var x, y := At(n, run, i).servers[s], At(n, run, j).servers[s];
            x.role == Leader && y.role == Leader && x.currentTerm == y.currentTerm ==> x.log <= y.log
  {
    hide Legal, After, HistAfter, Next, Record;
    InvAt(n, run, i);
    InvAt(n, run, j);
    HistGrows(n, run, i, j);
    assert ServerOk(At(n, run, i).servers[s], s, n, HistAt(n, run, i));
    assert ServerOk(At(n, run, j).servers[s], s, n, HistAt(n, run, j));
  }

  // ---------- logs ----------

  /** Log Matching: the logs of any two servers, at any two moments, agree up to every
      position where they hold entries of one term. */
  lemma LogMatching(n: nat, run: seq<Step>, i: nat, j: nat, a: nat, b: nat)
    requires Legal(n, run) && i <= |run| && j <= |run| && a < n && b < n
    ensures |At(n, run, i).servers| == |At(n, run, j).servers| == n
    ensures Related(At(n, run, i).servers[a].log, At(n, run, j).servers[b].log)
  {
    hide Legal, After, HistAfter, Next, Record;
    ServerAt(n, run, i, a);
    ServerAt(n, run, j, b);
    LogsRelated(HistAfter(n, run), At(n, run, i).servers[a].log, At(n, run, j).servers[b].log);
  }

  /** The terms of every log lie between 1 and the server's term and never decrease. */
  lemma LogTerms(n: nat, run: seq<Step>, i: nat, s: nat)
    requires Legal(n, run) && i <= |run| && s < n
    ensures |At(n, run, i).servers| == n
    ensures var x := At(n, run, i).servers[s];
            Sorted(x.log) && forall k :: 0 <= k < |x.log| ==> 1 <= x.log[k].term <= x.currentTerm
  {
    hide Legal, After, HistAfter, Next, Record;
    ServerAt(n, run, i, s);
    HistFinal(n, run, i);
    var ss, h, x := After(n, run).servers, HistAfter(n, run), At(n, run, i).servers[s];
    CoreReigns(ss, h);
    LogSorted(n, h, x.log);
    forall k | 0 <= k < |x.log| ensures 1 <= x.log[k].term <= x.currentTerm {
      assert EntryOk(h, x.log, k);
      var t := x.log[k].term;
      assert ReignOk(n, h, t);
      assert CandOk(ss, h, CandKey(h.reigns[t].leader, t));
    }
  }

  /** Log Matching for messages: a log that has, at a position covered by an AppendEntries
      call, an entry of the same term as the call, holds all entries of the call up to there
      and its preceding entry. */
  lemma MessageMatching(n: nat, run: seq<Step>, i: nat, j: nat, k: nat, s: nat, at: nat)
    requires Legal(n, run) && i <= |run| && j <= |run| && s < n
    requires k < |At(n, run, i).calls| && At(n, run, i).calls[k].AppendCall?
    ensures |At(n, run, j).servers| == n
    ensures var a, log := At(n, run, i).calls[k].append, At(n, run, j).servers[s].log;
            a.prevLogIndex <= at < |log| && at < a.prevLogIndex + |a.entries|
                && log[at].term == a.entries[at - a.prevLogIndex].term ==>
              && log[a.prevLogIndex..at + 1] == a.entries[..at + 1 - a.prevLogIndex]
              && (a.prevLogIndex > 0 ==> log[a.prevLogIndex - 1].term == a.prevLogTerm)
  {
    hide Legal, After, HistAfter, Next, Record, Committed, SafeOk, ServerOk, EntryOk;
    CallAt(n, run, i, k);
    ServerAt(n, run, j, s);
    var h, a, log := HistAfter(n, run), At(n, run, i).calls[k].append, At(n, run, j).servers[s].log;
    var full := h.reigns[a.term].log;
    assert LogOk(h, full) by {
      HistFinal(n, run, i);
      assert ReignOk(n, h, a.term);
    }
    if a.prevLogIndex <= at < |log| && at < a.prevLogIndex + |a.entries|
        && log[at].term == a.entries[at - a.prevLogIndex].term {
      LogsRelated(h, log, full);
      CarriedMatch(log, a, full, at);
    }
  }

  lemma CarriedMatch(log: Log, a: AppendArgs, full: Log, at: nat)
    requires Carries(a, full) && Related(log, full)
    requires a.prevLogIndex <= at < |log| && at < a.prevLogIndex + |a.entries|
    requires log[at].term == a.entries[at - a.prevLogIndex].term
    ensures log[a.prevLogIndex..at + 1] == a.entries[..at + 1 - a.prevLogIndex]
    ensures a.prevLogIndex > 0 ==> log[a.prevLogIndex - 1].term == a.prevLogTerm
  {
    var p := a.prevLogIndex;
    assert log[at].term == full[at].term;
    assert log[..S.Min(at, at) + 1] == full[..S.Min(at, at) + 1];
    assert log[p..at + 1] == log[..at + 1][p..] == full[..at + 1][p..] == full[p..at + 1];
    assert p > 0 ==> log[p - 1] == log[..at + 1][p - 1] == full[..at + 1][p - 1];
  }

  /** An AppendEntries call, at whatever moment, in terms of the history of the whole run. */
  lemma CallAt(n: nat, run: seq<Step>, i: nat, k: nat)
    requires Legal(n, run) && i <= |run|
    requires k < |At(n, run, i).calls| && At(n, run, i).calls[k].AppendCall?
    ensures var c, h := At(n, run, i).calls[k], HistAfter(n, run);
            && AppendArgsOk(c.append, c.from, n, h) && c.from != c.to && c.to < n
            && (c.appendState.Answered? ==> AppendReplyOk(c.append, c.to, c.appendState.reply, h))
  {
    hide Legal, After, HistAfter, Next, Record, CoreInv, Committed;
    InvAt(n, run, i);
    HistFinal(n, run, i);
    var c, hi, h := At(n, run, i).calls[k], HistAt(n, run, i), HistAfter(n, run);
    assert CallOk(c, n, |At(n, run, i).cells|, hi);
    var l, l2 := hi.reigns[c.append.term].log, h.reigns[c.append.term].log;
    assert l == l2[..|l|];
    assert l[..c.append.leaderCommit] == l2[..c.append.leaderCommit];
    OlderCommitted(n, hi, h, l[..c.append.leaderCommit], c.append.term);
    assert Ack(hi, c.to, c.append.term) <= Ack(h, c.to, c.append.term);
  }

  // ---------- commitment ----------

  /** Leader Completeness: what a server has committed is in the log of every leader of a
      later term than the server's, from the start of that leadership and whether it
      begins before or after the commitment. */
  lemma LeaderCompleteness(n: nat, run: seq<Step>, i: nat, j: nat, s: nat, r: nat)
    requires Legal(n, run) && i <= |run| && j <= |run| && s < n && r < n
    ensures |At(n, run, i).servers| == |At(n, run, j).servers| == n
    ensures var x, y := At(n, run, i).servers[s], At(n, run, j).servers[r];
            && x.commitIndex <= |x.log|
            && (y.role == Leader && y.currentTerm > x.currentTerm ==> x.log[..x.commitIndex] <= y.log)
  {
    hide Legal, After, HistAfter, Next, Record;
    ServerAt(n, run, i, s);
    ServerAt(n, run, j, r);
    HistFinal(n, run, i);
    var h, x, y := HistAfter(n, run), At(n, run, i).servers[s], At(n, run, j).servers[r];
    if y.role == Leader && y.currentTerm > x.currentTerm {
      CommittedStart(After(n, run).servers, h, x.log[..x.commitIndex], x.currentTerm, y.currentTerm);
    }
  }

  lemma CommittedStart(ss: seq<Server>, h: Hist, p: Log, t: nat, u: nat)
    requires CoreInv(ss, h) && Committed(|ss|, h, p, t) && t < u && u in h.reigns
    ensures p <= h.reigns[u].start
  {
    if p != [] {
      var w: nat, m: nat :| w <= t && Chosen(|ss|, h, w, m) && p <= h.reigns[w].log[..m];
      ChosenChoosable(ss, h, w, m);
      assert LaterReignHas(ss, h, w, m, u);
    }
  }

  /** The messages that any incarnation of any server has put on its apply channel. */
  ghost predicate IsChannel(sys: System, msgs: seq<ApplyMsg>) {
    || (exists s :: 0 <= s < |sys.servers| && sys.servers[s].applied == msgs)
    || (exists c :: 0 <= c < |sys.retired| && sys.retired[c].messages == msgs)
  }

  /** Every channel carries the commands of a committed prefix, in order. */
  lemma ChannelAt(n: nat, run: seq<Step>, i: nat, msgs: seq<ApplyMsg>) returns (p: Log, t: nat)
    requires Legal(n, run) && i <= |run| && IsChannel(At(n, run, i), msgs)
    ensures Committed(n, HistAfter(n, run), p, t) && msgs == S.Messages(p, 0, |p|)
  {
    hide Legal, After, HistAfter, Next, Record;
    var sys := At(n, run, i);
    InvAt(n, run, i);
    if s: nat :| s < |sys.servers| && sys.servers[s].applied == msgs {
      ServerAt(n, run, i, s);
      var x := sys.servers[s];
      p, t := x.log[..x.commitIndex], x.currentTerm;
      SameMessages(x.log, p, x.commitIndex);
    } else {
      var c :| 0 <= c < |sys.retired| && sys.retired[c].messages == msgs;
      var hi := HistAt(n, run, i);
      assert ChannelOk(sys.retired[c], n, hi);
      p, t :| Committed(n, hi, p, t) && msgs == S.Messages(p, 0, |p|);
      HistFinal(n, run, i);
      OlderCommitted(n, hi, HistAfter(n, run), p, t);
    }
  }

  /** State Machine Safety: of any two apply channels, whichever servers and incarnations
      they belong to and whenever they are read, one is a prefix of the other. */
  lemma StateMachineSafety(n: nat, run: seq<Step>, i: nat, j: nat, a: seq<ApplyMsg>, b: seq<ApplyMsg>)
    requires Legal(n, run) && i <= |run| && j <= |run|
    requires IsChannel(At(n, run, i), a) && IsChannel(At(n, run, j), b)
    ensures a <= b || b <= a
  {
    hide Legal, After, HistAfter, Next, Record;
    var p, t := ChannelAt(n, run, i, a);
    var q, u := ChannelAt(n, run, j, b);
    HistFinal(n, run, i);
    CommittedAgree(After(n, run).servers, HistAfter(n, run), p, t, q, u);
  }

  /** No two messages on any channels carry the same index with different commands, and
      each channel carries the indices 1, 2, 3, ... in this order. */
  lemma SameIndexSameCommand(n: nat, run: seq<Step>, i: nat, j: nat, a: seq<ApplyMsg>, b: seq<ApplyMsg>, k: nat, l: nat)
    requires Legal(n, run) && i <= |run| && j <= |run|
    requires IsChannel(At(n, run, i), a) && IsChannel(At(n, run, j), b) && k < |a| && l < |b|
    ensures a[k].index == k + 1 && a[k].valid
    ensures a[k].index == b[l].index ==> a[k] == b[l]
  {
    hide Legal, After, HistAfter, IsChannel, Committed;
    var p, t := ChannelAt(n, run, i, a);
    MessageNumber(p, k);
    var q, u := ChannelAt(n, run, j, b);
    MessageNumber(q, l);
    StateMachineSafety(n, run, i, j, a, b);
  }

  lemma MessageNumber(log: Log, k: nat)
    requires k < |log|
    ensures S.Messages(log, 0, |log|)[k] == ApplyMsg(true, log[k].command, k + 1)
  {
  }

  /** In every state a server has applied exactly what it knows to be committed, and that
      is within its log. */
  lemma AppliedInLog(n: nat, run: seq<Step>, i: nat, s: nat)
    requires Legal(n, run) && i <= |run| && s < n
    ensures |At(n, run, i).servers| == n
    ensures var x := At(n, run, i).servers[s];
            && x.lastApplied == x.commitIndex <= |x.log|
            && x.applied == S.Messages(x.log, 0, x.lastApplied)
  {
    ServerAt(n, run, i, s);
  }

  // ---------- accepting a message ----------

  /** What Figure 2 of the extended Raft paper prescribes: the minimum of the leader's
      commit index and the index of the last new entry. */
  function Figure2Commit(s: Server, args: AppendArgs): nat {
    if args.leaderCommit > s.commitIndex then S.Min(args.leaderCommit, args.prevLogIndex + |args.entries|)
        else s.commitIndex
  }

  /** The state after accepting a message holds the message's entries, keeps the committed
      prefix, and has the commit index of Figure 2. */
  ghost predicate AcceptedWell(x: Server, args: AppendArgs, y: Server) {
    var e := args.prevLogIndex + |args.entries|;
    && x.commitIndex <= |x.log| && x.log[..x.commitIndex] <= y.log
    && y.commitIndex == Figure2Commit(x, args)
    && e <= |y.log| && y.log[args.prevLogIndex..e] == args.entries
  }

  lemma AcceptResult(ss: seq<Server>, h: Hist, s: nat, args: AppendArgs, from: nat)
    requires CoreInv(ss, h) && s < |ss| && AppendArgsOk(args, from, |ss|, h)
    requires ss[s].currentTerm == args.term && S.HasPrev(ss[s].log, args)
    ensures AcceptedWell(ss[s], args, S.Accept(ss[s], args))
  {
    MergeLog(ss, h, s, args, from);
    var full, e := h.reigns[args.term].log, args.prevLogIndex + |args.entries|;
    var log2 := S.Merge(ss[s].log, args.prevLogIndex, args.entries);
    assert log2[..e] == full[..e];
    assert log2[args.prevLogIndex..e] == log2[..e][args.prevLogIndex..];
    assert full[args.prevLogIndex..e] == full[..e][args.prevLogIndex..];
  }

  lemma HandlerResult(ss: seq<Server>, h: Hist, s: nat, args: AppendArgs, from: nat)
    requires CoreInv(ss, h) && s < |ss| && AppendArgsOk(args, from, |ss|, h)
    ensures var (y, r) := S.AppendEntries(ss[s], args);
            if r.success then AcceptedWell(ss[s], args, y)
            else y.log == ss[s].log && y.commitIndex == ss[s].commitIndex && y.applied == ss[s].applied
  {
    if ss[s].currentTerm <= args.term {
      OnRecognise(ss, h, s, args, from);
      var x := S.Recognise(ss[s], args);
      if S.HasPrev(x.log, args) {
        AcceptResult(ss[s := x], h, s, args, from);
      }
    }
  }

  /** The code takes the minimum with the length of the log instead, and that comes to the
      same, because a message carries the sender's whole suffix. */
  lemma CommitShortcut(n: nat, run: seq<Step>, i: nat, k: nat)
    requires Legal(n, run) && i <= |run|
    requires Enabled(At(n, run, i), DeliverAppend(k)) && At(n, run, i).calls[k].to < |At(n, run, i).servers|
    ensures var c := At(n, run, i).calls[k];
            var x, r := At(n, run, i).servers[c.to], S.AppendEntries(At(n, run, i).servers[c.to], c.append);
            && c.append.leaderCommit <= c.append.prevLogIndex + |c.append.entries|
            && (r.1.success ==> AcceptedWell(x, c.append, r.0))
  {
    hide Legal, After, HistAfter, Next, Record;
    InvAt(n, run, i);
    var sys, h := At(n, run, i), HistAt(n, run, i);
    var c := sys.calls[k];
    assert CallOk(c, n, |sys.cells|, h);
    HandlerResult(sys.servers, h, c.to, c.append, c.from);
  }

  /** What is committed is never cut off: a server keeps its committed prefix across every
      step, and its commit index goes down exactly when it crashes with something
      committed, which is then forgotten, and never taken back from the apply channel. */
  lemma CommittedStays(n: nat, run: seq<Step>, i: nat, s: nat)
    requires Legal(n, run) && i < |run| && s < n
    ensures |At(n, run, i).servers| == |At(n, run, i + 1).servers| == n
    ensures var x, y := At(n, run, i).servers[s], At(n, run, i + 1).servers[s];
            && x.commitIndex <= |x.log| && x.log[..x.commitIndex] <= y.log
            && (y.commitIndex < x.commitIndex <==> Crashes(run[i], s) && x.commitIndex > 0)
            && (if Crashes(run[i], s) then y.commitIndex == 0 else x.applied <= y.applied)
  {
    hide Legal, After, HistAfter, Next, Record;
    ServerAt(n, run, i, s);
    ServerAt(n, run, i + 1, s);
    AtStep(n, run, i);
    InvAt(n, run, i);
    StepKeepsCommitted(At(n, run, i), HistAt(n, run, i), run[i], s);
    if !Crashes(run[i], s) {
      AppliedGrows(At(n, run, i).servers[s], At(n, run, i + 1).servers[s]);
    }
  }

  lemma StepKeepsCommitted(sys: System, h: Hist, step: Step, s: nat)
    requires Inv(sys, h) && Enabled(sys, step) && InBounds(sys, step) && s < |sys.servers|
    ensures var x, y := sys.servers[s], Next(sys, step).servers[s];
            && x.commitIndex <= |x.log| && x.log[..x.commitIndex] <= y.log
            && (if Crashes(step, s) then y.commitIndex == 0 else x.commitIndex <= y.commitIndex)
  {
    hide CoreInv, LogOk, Committed, S.RequestVote, S.OnVoteReply, S.AppendEntries, S.OnAppendReply;
    OneServer(sys.servers, h, s);
    match step {
      case DeliverVote(k) => VoteSteady(sys.servers[s], sys.calls[k].vote);
      case ReturnVote(k) =>
        var c := sys.calls[k];
        if c.from == s {
          VoteReplySteady(sys.servers[s], s, |sys.servers|, c.vote, c.voteState.reply, sys.cells[c.cell]);
        }
      case DeliverAppend(k) =>
        assert CallOk(sys.calls[k], |sys.servers|, |sys.cells|, h);
        HandlerResult(sys.servers, h, sys.calls[k].to, sys.calls[k].append, sys.calls[k].from);
      case ReturnAppend(k) =>
        var c := sys.calls[k];
        if c.from == s {
          AppendReplySteady(sys.servers[s], |sys.servers|, c.to, c.append, c.appendState.reply);
        }
      case Crash(t, _) =>
        OneServer(sys.servers, h, t);
        CrashKeepsLog(sys, step);
      case _ =>
    }
  }

  lemma CrashKeepsLog(sys: System, step: Step)
    requires Enabled(sys, step) && step.Crash? && Wellformed(sys) && LocalOk(sys.servers[step.server])
    ensures var x, sys2 := sys.servers[step.server], Next(sys, step);
            && sys2.servers == sys.servers[step.server := sys2.servers[step.server]]
            && var y := sys2.servers[step.server];
               y.log == x.log && x.currentTerm <= y.currentTerm && y.commitIndex == 0
  {
  }

  lemma AppliedGrows(x: Server, y: Server)
    requires LocalOk(x) && LocalOk(y) && x.commitIndex <= y.commitIndex && x.log[..x.commitIndex] <= y.log
    ensures x.applied <= y.applied
  {
    SameMessages(x.log, y.log, x.commitIndex);
  }
}
