/** Every step of a cluster stays in bounds and keeps the invariant. */
module Preservation {
  import opened RaftTypes
  import opened Cluster
  import opened History
  import opened Invariant
  import opened Facts
  import opened Growth
  import opened CoreSteps
  import opened LeaderSteps
  import opened NetSteps
  import S = ServerSteps

  // ---------- the handlers, as compositions of actions ----------

  lemma OnRequestVote(ss: seq<Server>, h: Hist, c: Call, cells: nat, h2: Hist)
    requires CoreInv(ss, h) && c.VoteCall? && CallOk(c, |ss|, cells, h)
    requires var (x, reply) := S.RequestVote(ss[c.to], c.vote);
             h2 == if reply.granted then AddVote(h, VoteKey(c.to, c.vote.term, c.from), ss[c.to].log) else h
    ensures CoreInv(ss[c.to := S.RequestVote(ss[c.to], c.vote).0], h2) && Grow(h, h2, c.to)
    ensures S.RequestVote(ss[c.to], c.vote).1.granted ==> VoteKey(c.to, c.vote.term, c.from) in h2.votes
  {
    GrowSelf(h, c.to);
    var s := ss[c.to];
    if c.vote.term < s.currentTerm {
      assert ss[c.to := s] == ss;
    } else {
      var s1 := S.JoinTerm(s, c.vote.term);
      var ss1 := ss[c.to := s1];
      if c.vote.term > s.currentTerm {
        StepDown(ss, h, c.to, c.vote.term, -1);
      } else {
        assert ss1 == ss;
      }
      if S.Grants(s1, c.vote) {
        GrantStep(ss1, h, c.to, c.from);
        assert ss1[c.to := S.Persist(s1.(votedFor := c.from))] == ss[c.to := S.Persist(s1.(votedFor := c.from))];
      }
    }
  }

  lemma OnVoteReplyStep(ss: seq<Server>, h: Hist, me: nat, args: VoteArgs, reply: VoteReply, votes: nat,
      voters: set<nat>, h2: Hist)
    requires CoreInv(ss, h) && me < |ss|
    requires S.VoteCounts(ss[me], args, reply) ==>
               && Bounded(|ss|, voters) && |voters| == S.OnVoteReply(ss[me], me, |ss|, args, reply, votes).1
               && forall v :: v in voters ==> VoteKey(v, args.term, me) in h.votes
    requires var x := S.OnVoteReply(ss[me], me, |ss|, args, reply, votes).0;
             h2 == if ss[me].role == Candidate && x.role == Leader
                   then AddReign(h, args.term, me, voters, ss[me].log) else h
    ensures CoreInv(ss[me := S.OnVoteReply(ss[me], me, |ss|, args, reply, votes).0], h2) && Grow(h, h2, me)
  {
    GrowSelf(h, me);
    if reply.term > ss[me].currentTerm {
      StepDown(ss, h, me, reply.term, -1);
    } else if S.VoteCounts(ss[me], args, reply) && |voters| * 2 > |ss| {
      WinStep(ss, h, me, voters);
    } else {
      assert ss[me := ss[me]] == ss;
    }
  }

  lemma OnStart(ss: seq<Server>, h: Hist, s: nat, command: Command, h2: Hist)
    requires CoreInv(ss, h) && s < |ss|
    requires h2 == if ss[s].role == Leader && ss[s].currentTerm in h.reigns
                   then AddEntry(h, s, ss[s].currentTerm, Entry(command, ss[s].currentTerm)) else h
    ensures CoreInv(ss[s := S.Start(ss[s], command).0], h2) && Grow(h, h2, s)
  {
    GrowSelf(h, s);
    if ss[s].role == Leader {
      AppendStep(ss, h, s, Entry(command, ss[s].currentTerm));
    } else {
      assert ss[s := ss[s]] == ss;
    }
  }

  /** The receiver recognises the leader of the message. */
  lemma OnRecognise(ss: seq<Server>, h: Hist, s: nat, args: AppendArgs, from: nat)
    requires CoreInv(ss, h) && s < |ss| && AppendArgsOk(args, from, |ss|, h)
    requires ss[s].currentTerm <= args.term
    ensures CoreInv(ss[s := S.Recognise(ss[s], args)], h)
    ensures var x := S.Recognise(ss[s], args);
            x.currentTerm == args.term && x.role != Candidate && x.log == ss[s].log
                && x.commitIndex == ss[s].commitIndex
  {
    if ss[s].currentTerm < args.term || ss[s].role == Candidate {
      StepDown(ss, h, s, args.term, args.leaderId);
    } else {
      assert ss[s := ss[s]] == ss;
    }
  }

  /** The receiver accepts the message: its commit index moves to exactly the leader's,
      which lies within the prefix that the message covers. */
  lemma OnAccept(ss: seq<Server>, h: Hist, s: nat, args: AppendArgs, from: nat, h2: Hist)
    requires CoreInv(ss, h) && s < |ss| && s != from && AppendArgsOk(args, from, |ss|, h)
    requires ss[s].currentTerm == args.term && ss[s].role != Candidate && S.HasPrev(ss[s].log, args)
    requires h2 == AddAck(h, s, args.term, args.prevLogIndex + |args.entries|)
    ensures CoreInv(ss[s := S.Accept(ss[s], args)], h2) && Grow(h, h2, s)
    ensures args.leaderCommit > ss[s].commitIndex ==> S.Accept(ss[s], args).commitIndex == args.leaderCommit
  {
    hide HistOk, SafeOk, LogOk, EntryOk, Committed, ServerOk;
    var full := h.reigns[args.term].log;
    MergeLog(ss, h, s, args, from);
    MergeStep(ss, h, s, args, from);
    var x := S.Persist(ss[s].(log := S.Merge(ss[s].log, args.prevLogIndex, args.entries)));
    var ss1 := ss[s := x];
    if args.leaderCommit > x.commitIndex {
      var c := args.leaderCommit;
      assert x.log[..c] == full[..c];
      CommittedStable(|ss|, h, h2, s, full[..c], args.term, args.term);
      CommitStep(ss1, h2, s, c);
      assert ss1[s := S.CommitTo(x, c)] == ss[s := S.CommitTo(x, c)];
    }
  }

  lemma OnAppendEntries(ss: seq<Server>, h: Hist, c: Call, cells: nat, h2: Hist)
    requires CoreInv(ss, h) && c.AppendCall? && CallOk(c, |ss|, cells, h)
    requires var (x, reply) := S.AppendEntries(ss[c.to], c.append);
             h2 == if reply.success
                   then AddAck(h, c.to, c.append.term, c.append.prevLogIndex + |c.append.entries|) else h
    ensures CoreInv(ss[c.to := S.AppendEntries(ss[c.to], c.append).0], h2) && Grow(h, h2, c.to)
    ensures AppendReplyOk(c.append, c.to, S.AppendEntries(ss[c.to], c.append).1, h2)
  {
    hide CoreInv, Committed;
    GrowSelf(h, c.to);
    var s, args := ss[c.to], c.append;
    if args.term < s.currentTerm {
      assert ss[c.to := s] == ss;
    } else {
      OnRecognise(ss, h, c.to, args, c.from);
      var s1 := S.Recognise(s, args);
      var ss1 := ss[c.to := s1];
      if S.HasPrev(s1.log, args) {
        OnAccept(ss1, h, c.to, args, c.from, h2);
        assert ss1[c.to := S.Accept(s1, args)] == ss[c.to := S.Accept(s1, args)];
      } else if args.prevLogIndex <= |s1.log| {
        RejectIndex(s1.log, args.prevLogIndex);
      }
    }
  }

  /** The first entry of the conflicting term is not behind the conflict. */
  lemma RejectIndex(log: Log, prev: nat)
    requires 0 < prev <= |log|
    ensures 1 <= S.FirstOfTerm(log, log[prev - 1].term) <= prev
  {
  }

  // ---------- the leader's bookkeeping ----------

  /** The commit loop only accepts indices that a majority has confirmed: the leader's own
      match index is below every index of its own term, so it is not counted twice. */
  lemma CountedIsChosen(ss: seq<Server>, h: Hist, s: nat, k: nat)
    requires CoreInv(ss, h) && s < |ss| && ss[s].role == Leader
    requires 1 <= k <= |ss[s].log| && S.CanCommit(ss[s], |ss|, k)
    ensures Chosen(|ss|, h, ss[s].currentTerm, k)
  {
    var x, t := ss[s], ss[s].currentTerm;
    assert ServerOk(x, s, |ss|, h);
    CoreReigns(ss, h);
    assert ReignOk(|ss|, h, t);
    ReignEntry(|ss|, h, t, k - 1);
    var a := Reaching(x.matchIndex, k);
    CountIsSize(x.matchIndex, k);
    assert s !in a;
    forall i | i in a + {s} ensures i in Ackers(|ss|, h, t, k) {}
    var q: set<nat> := a + {s};
    assert |q| == |a| + 1;
    LargerQuorum(|ss|, q, Ackers(|ss|, h, t, k));
  }

  lemma OnAdvance(ss: seq<Server>, h: Hist, s: nat)
    requires CoreInv(ss, h) && s < |ss| && ss[s].role == Leader
    ensures ss[s].commitIndex <= |ss[s].log|
    ensures CoreInv(ss[s := S.CommitTo(ss[s], S.NewCommit(ss[s], |ss|, |ss[s].log|))], h)
  {
    var x := ss[s];
    assert ServerOk(x, s, |ss|, h);
    var c := S.NewCommit(x, |ss|, |x.log|);
    if c > x.commitIndex {
      CountedIsChosen(ss, h, s, c);
      assert Committed(|ss|, h, x.log[..c], x.currentTerm);
    }
    CommitStep(ss, h, s, c);
  }

  lemma NextInRange(log: Log, next: int, reply: AppendReply, prev: nat)
    requires 1 <= next <= |log| + 1 && 1 <= reply.conflictIndex <= prev <= |log|
    ensures 1 <= S.Backtrack(log, next, reply.conflictTerm, reply.conflictIndex) <= |log| + 1
  {
  }

  lemma OnConfirm(ss: seq<Server>, h: Hist, s: nat, p: nat, m: nat)
    requires CoreInv(ss, h) && s < |ss| && ss[s].role == Leader && p < |ss| && p != s
    requires |ss[s].matchIndex| == |ss[s].nextIndex| == |ss|
    requires m <= Ack(h, p, ss[s].currentTerm) && m <= |ss[s].log|
    ensures ss[s].commitIndex <= |ss[s].log|
    ensures var x1 := ss[s].(matchIndex := ss[s].matchIndex[p := m], nextIndex := ss[s].nextIndex[p := m + 1]);
            CoreInv(ss[s := S.CommitTo(x1, S.NewCommit(x1, |ss|, |x1.log|))], h)
  {
    hide CoreInv;
    NoteStep(ss, h, s, p, m, m + 1);
    var x1 := ss[s].(matchIndex := ss[s].matchIndex[p := m], nextIndex := ss[s].nextIndex[p := m + 1]);
    var ss1 := ss[s := x1];
    OnAdvance(ss1, h, s);
    var x2 := S.CommitTo(x1, S.NewCommit(x1, |ss|, |x1.log|));
    assert ss1[s := x2] == ss[s := x2];
  }

  lemma OnBook(ss: seq<Server>, h: Hist, s: nat, c: Call, cells: nat)
    requires CoreInv(ss, h) && c.AppendCall? && CallOk(c, |ss|, cells, h) && c.from == s
    requires c.appendState.Answered? && S.BookingDue(ss[s], c.append, c.appendState.reply)
    ensures S.CanBook(ss[s], |ss|, c.to)
    ensures CoreInv(ss[s := S.Book(ss[s], |ss|, c.to, c.append, c.appendState.reply)], h)
  {
    hide CoreInv, LogOk, EntryOk, Committed, S.NewCommit, S.CommitTo, S.Backtrack;
    var x, r := ss[s], c.appendState.reply;
    OneServer(ss, h, s);
    if r.success {
      OnConfirm(ss, h, s, c.to, c.append.prevLogIndex + |c.append.entries|);
    } else {
      var next := S.Backtrack(x.log, x.nextIndex[c.to], r.conflictTerm, r.conflictIndex);
      NextInRange(x.log, x.nextIndex[c.to], r, c.append.prevLogIndex);
      NoteStep(ss, h, s, c.to, x.matchIndex[c.to], next);
      assert x.matchIndex[c.to := x.matchIndex[c.to]] == x.matchIndex;
    }
  }

  lemma OnAppendReplyStep(ss: seq<Server>, h: Hist, c: Call, cells: nat)
    requires CoreInv(ss, h) && c.AppendCall? && CallOk(c, |ss|, cells, h) && c.appendState.Answered?
    ensures S.BookingDue(ss[c.from], c.append, c.appendState.reply) ==> S.CanBook(ss[c.from], |ss|, c.to)
    ensures CoreInv(ss[c.from := S.OnAppendReply(ss[c.from], |ss|, c.to, c.append, c.appendState.reply)], h)
  {
    var x, r := ss[c.from], c.appendState.reply;
    if S.BookingDue(x, c.append, r) {
      OnBook(ss, h, c.from, c, cells);
    } else if r.term > x.currentTerm {
      StepDown(ss, h, c.from, r.term, -1);
    } else {
      assert ss[c.from := x] == ss;
    }
  }

  /** What a leader sends is a suffix of its log with a commit index inside the log. */
  lemma OnSend(ss: seq<Server>, h: Hist, s: nat, p: nat)
    requires CoreInv(ss, h) && s < |ss| && p < |ss| && ss[s].role == Leader
    ensures S.CanSend(ss[s], p)
    ensures AppendArgsOk(S.MakeAppendArgs(ss[s], s, p), s, |ss|, h)
  {
    assert ServerOk(ss[s], s, |ss|, h);
  }

  // ---------- steps of the cluster ----------

  lemma KeepTimeout(sys: System, h: Hist, s: nat)
    requires Inv(sys, h) && s < |sys.servers|
    ensures Inv(Next(sys, Timeout(s)), Record(sys, Timeout(s), h))
    ensures Grow(h, Record(sys, Timeout(s), h), s)
  {
    CandidacyStep(sys.servers, h, s);
    NetQuiet(sys, h, Next(sys, Timeout(s)), Record(sys, Timeout(s), h), s);
  }

  lemma KeepStartVoting(sys: System, h: Hist, s: nat)
    requires Inv(sys, h) && Enabled(sys, StartVoting(s))
    ensures Inv(Next(sys, StartVoting(s)), h)
  {
    assert ServerOk(sys.servers[s], s, |sys.servers|, h);
    NetRound(sys, h, s, sys.epochs[s], S.MakeVoteArgs(sys.servers[s], s), Next(sys, StartVoting(s)));
  }

  lemma KeepDeliverVote(sys: System, h: Hist, k: nat)
    requires Inv(sys, h) && Enabled(sys, DeliverVote(k))
    ensures Inv(Next(sys, DeliverVote(k)), Record(sys, DeliverVote(k), h))
    ensures Grow(h, Record(sys, DeliverVote(k), h), sys.calls[k].to)
  {
    var c := sys.calls[k];
    var h2 := Record(sys, DeliverVote(k), h);
    assert CallOk(c, |sys.servers|, |sys.cells|, h);
    OnRequestVote(sys.servers, h, c, |sys.cells|, h2);
    CallStable(c, |sys.servers|, |sys.cells|, |sys.cells|, h, h2, c.to);
    NetSet(sys, h, Next(sys, DeliverVote(k)), h2, c.to, k,
        c.(voteState := Answered(S.RequestVote(sys.servers[c.to], c.vote).1)));
  }

  /** The votes of a round, with the candidate's own, are as many as its counter says. */
  lemma RoundVoters(calls: seq<Call>, cell: nat, votes: nat, from: nat, term: nat, k: nat, n: nat, cells: nat, h: Hist)
    requires k < |calls| && calls[k].VoteCall? && calls[k].cell == cell && calls[k].from == from
        && calls[k].vote.term == term
    requires forall i {:trigger CallOk(calls[i], n, cells, h)} :: 0 <= i < |calls| ==> CallOk(calls[i], n, cells, h)
    requires forall i, j :: RoundOk(calls, i, j)
    requires votes == 1 + |CountedPeers(calls, cell)| && from < n && VoteKey(from, term, from) in h.votes
    ensures var q := CountedPeers(calls, cell) + {from};
            && |q| == votes && Bounded(n, q) && forall v :: v in q ==> VoteKey(v, term, from) in h.votes
  {
    forall p | p in CountedPeers(calls, cell) ensures p != from && p < n && VoteKey(p, term, from) in h.votes {
      var i :| 0 <= i < |calls| && calls[i].VoteCall? && calls[i].cell == cell && calls[i].voteState == Finished(true)
          && calls[i].to == p;
      assert CallOk(calls[i], n, cells, h);
      assert RoundOk(calls, i, k) && RoundOk(calls, k, i);
    }
  }

  lemma KeepReturnVote(sys: System, h: Hist, k: nat)
    requires Inv(sys, h) && Enabled(sys, ReturnVote(k))
    ensures Inv(Next(sys, ReturnVote(k)), Record(sys, ReturnVote(k), h))
    ensures Grow(h, Record(sys, ReturnVote(k), h), sys.calls[k].from)
  {
    hide HistOk, SafeOk, LogOk, EntryOk, Committed;
    var c := sys.calls[k];
    var ss, s, n := sys.servers, sys.servers[c.from], |sys.servers|;
    var reply := c.voteState.reply;
    var sys2, h2 := Next(sys, ReturnVote(k)), Record(sys, ReturnVote(k), h);
    assert CallOk(c, n, |sys.cells|, h);
    GrowSelf(h, c.from);
    var c2 := c.(voteState := Finished(reply.granted && S.VoteCounts(s, c.vote, reply)));
    assert sys.cells[c.cell := sys.cells[c.cell]] == sys.cells;
    var mid := sys.(calls := sys2.calls, cells := sys2.cells);
    NetSet(sys, h, mid, h, c.from, k, c2);
    var voters := CountedPeers(sys2.calls, c.cell) + {c.from};
    if S.VoteCounts(s, c.vote, reply) {
      assert ServerOk(s, c.from, n, h);
      assert CellOk(mid, c.cell);
      RoundVoters(mid.calls, c.cell, mid.cells[c.cell], c.from, c.vote.term, k, n, |mid.cells|, h);
    }
    OnVoteReplyStep(ss, h, c.from, c.vote, reply, sys.cells[c.cell], voters, h2);
    NetQuiet(mid, h, sys2, h2, c.from);
  }

  lemma KeepStart(sys: System, h: Hist, s: nat, command: Command)
    requires Inv(sys, h) && s < |sys.servers|
    ensures Inv(Next(sys, StartCommand(s, command)), Record(sys, StartCommand(s, command), h))
    ensures Grow(h, Record(sys, StartCommand(s, command), h), s)
  {
    var h2 := Record(sys, StartCommand(s, command), h);
    OnStart(sys.servers, h, s, command, h2);
    NetQuiet(sys, h, Next(sys, StartCommand(s, command)), h2, s);
  }

  lemma KeepSend(sys: System, h: Hist, s: nat, p: nat)
    requires Inv(sys, h) && Enabled(sys, SendAppend(s, p))
    ensures InBounds(sys, SendAppend(s, p)) && Inv(Next(sys, SendAppend(s, p)), h)
  {
    OnSend(sys.servers, h, s, p);
    var c := AppendCall(s, p, sys.epochs[s], S.MakeAppendArgs(sys.servers[s], s, p), Sent);
    NetSend(sys, h, c, Next(sys, SendAppend(s, p)));
  }

  lemma KeepDeliverAppend(sys: System, h: Hist, k: nat)
    requires Inv(sys, h) && Enabled(sys, DeliverAppend(k))
    ensures Inv(Next(sys, DeliverAppend(k)), Record(sys, DeliverAppend(k), h))
    ensures Grow(h, Record(sys, DeliverAppend(k), h), sys.calls[k].to)
  {
    hide CoreInv;
    var c := sys.calls[k];
    var h2 := Record(sys, DeliverAppend(k), h);
    assert CallOk(c, |sys.servers|, |sys.cells|, h);
    OnAppendEntries(sys.servers, h, c, |sys.cells|, h2);
    CallStable(c, |sys.servers|, |sys.cells|, |sys.cells|, h, h2, c.to);
    NetSet(sys, h, Next(sys, DeliverAppend(k)), h2, c.to, k,
        c.(appendState := Answered(S.AppendEntries(sys.servers[c.to], c.append).1)));
  }

  lemma KeepReturnAppend(sys: System, h: Hist, k: nat)
    requires Inv(sys, h) && Enabled(sys, ReturnAppend(k))
    ensures InBounds(sys, ReturnAppend(k)) && Inv(Next(sys, ReturnAppend(k)), h)
  {
    var c := sys.calls[k];
    assert CallOk(c, |sys.servers|, |sys.cells|, h);
    OnAppendReplyStep(sys.servers, h, c, |sys.cells|);
    GrowSelf(h, c.from);
    NetSet(sys, h, Next(sys, ReturnAppend(k)), h, c.from, k, c.(appendState := Finished(true)));
  }

  lemma KeepLose(sys: System, h: Hist, k: nat)
    requires Inv(sys, h) && k < |sys.calls|
    ensures Inv(Next(sys, Lose(k)), h)
  {
    var c := sys.calls[k];
    assert CallOk(c, |sys.servers|, |sys.cells|, h);
    GrowSelf(h, 0);
    NetSet(sys, h, Next(sys, Lose(k)), h, 0, k, Next(sys, Lose(k)).calls[k]);
  }

  /** A server that crashes has applied a committed prefix. */
  lemma RetiredOk(ss: seq<Server>, h: Hist, s: nat)
    requires CoreInv(ss, h) && s < |ss|
    ensures ChannelOk(Channel(s, ss[s].applied), |ss|, h)
  {
    var x := ss[s];
    assert ServerOk(x, s, |ss|, h);
    var p := x.log[..x.commitIndex];
    SameMessages(x.log, p, x.commitIndex);
    assert Committed(|ss|, h, p, x.currentTerm) && x.applied == S.Messages(p, 0, |p|);
  }

  /** Server `s`, in state `x` of the same invariant, is replaced by a new incarnation. */
  lemma OnCrash(sys: System, h: Hist, s: nat, x: Server)
    requires s < |sys.servers| && CoreInv(sys.servers[s := x], h) && NetInv(sys, h)
    ensures Inv(Reboot(sys, s, x), h)
  {
    hide CoreInv;
    var ss := sys.servers[s := x];
    RebootStep(ss, h, s);
    RetiredOk(ss, h, s);
    assert ss[s := S.Boot(x.disk)] == sys.servers[s := S.Boot(x.disk)];
    var mid := SetServer(sys, s, S.Boot(x.disk));
    GrowSelf(h, s);
    NetQuiet(sys, h, mid, h, s);
    NetRetire(mid, h, Channel(s, x.applied), Reboot(sys, s, x));
  }

  /** The state between the two stores of a handler satisfies the invariant. */
  lemma OnBegin(ss: seq<Server>, h: Hist, c: Call, cells: nat)
    requires CoreInv(ss, h) && CallOk(c, |ss|, cells, h)
    ensures CoreInv(ss[c.to := Begun(ss[c.to], c)], h)
  {
    hide CoreInv;
    var x := ss[c.to];
    assert ss[c.to := x] == ss;
    if c.VoteCall? {
      if c.vote.term > x.currentTerm {
        StepDown(ss, h, c.to, c.vote.term, -1);
      }
    } else if c.append.term >= x.currentTerm {
      OnRecognise(ss, h, c.to, c.append, c.from);
    }
  }

  lemma KeepCrash(sys: System, h: Hist, s: nat, during: Option<nat>)
    requires Inv(sys, h) && Enabled(sys, Crash(s, during))
    ensures Inv(Next(sys, Crash(s, during)), h)
  {
    hide CoreInv;
    match during
    case None =>
      assert sys.servers[s := sys.servers[s]] == sys.servers;
      OnCrash(sys, h, s, sys.servers[s]);
    case Some(k) =>
      var c := sys.calls[k];
      assert CallOk(c, |sys.servers|, |sys.cells|, h);
      OnBegin(sys.servers, h, c, |sys.cells|);
      GrowSelf(h, s);
      NetSet(sys, h, SetCall(sys, k, Lost(c)), h, s, k, Lost(c));
      OnCrash(SetCall(sys, k, Lost(c)), h, s, Begun(sys.servers[s], c));
  }

  /** The server that acts in a step. */
  function Actor(sys: System, step: Step): nat
    requires Enabled(sys, step)
  {
    match step
    case Timeout(s) => s
    case StartVoting(s) => s
    case DeliverVote(k) => sys.calls[k].to
    case ReturnVote(k) => sys.calls[k].from
    case StartCommand(s, _) => s
    case SendAppend(s, _) => s
    case DeliverAppend(k) => sys.calls[k].to
    case ReturnAppend(k) => sys.calls[k].from
    case Lose(k) => 0
    case Crash(s, _) => s
  }

  lemma KeepStep(sys: System, h: Hist, step: Step)
    requires Inv(sys, h) && Enabled(sys, step)
    ensures InBounds(sys, step)
    ensures Inv(Next(sys, step), Record(sys, step, h))
    ensures Grow(h, Record(sys, step, h), Actor(sys, step))
  {
    GrowSelf(h, Actor(sys, step));
    match step
    case Timeout(s) => KeepTimeout(sys, h, s);
    case StartVoting(s) => KeepStartVoting(sys, h, s);
    case DeliverVote(k) => KeepDeliverVote(sys, h, k);
    case ReturnVote(k) => KeepReturnVote(sys, h, k);
    case StartCommand(s, c) => KeepStart(sys, h, s, c);
    case SendAppend(s, p) => KeepSend(sys, h, s, p);
    case DeliverAppend(k) => KeepDeliverAppend(sys, h, k);
    case ReturnAppend(k) => KeepReturnAppend(sys, h, k);
    case Lose(k) => KeepLose(sys, h, k);
    case Crash(s, during) => KeepCrash(sys, h, s, during);
  }
}
