/** Runs in which the code departs from what is often taken for granted about Raft. */
module Departures {
  import opened RaftTypes
  import opened Cluster
  import opened Runs
  import opened Safety
  import opened Progress
  import opened MatchIndex
  import opened Backtracking
  import opened Retry
  import S = ServerSteps

  // ---------- playing a run ----------

  /** The run leads to the state. */
  ghost predicate LeadsTo(n: nat, run: seq<Step>, sys: System) {
    Legal(n, run) && After(n, run) == sys && |sys.servers| == |sys.epochs| == n
  }

  lemma Begin(n: nat)
    ensures LeadsTo(n, [], Init(n))
  {
  }

  lemma Play(n: nat, run: seq<Step>, sys: System, step: Step) returns (sys2: System)
    requires LeadsTo(n, run, sys) && Enabled(sys, step)
    ensures Wellformed(sys) && InBounds(sys, step) && sys2 == Next(sys, step) && LeadsTo(n, run + [step], sys2)
  {
    Extend(n, run, step);
    sys2 := Next(sys, step);
    Reachable(n, run + [step]);
  }

  lemma AtMoment(n: nat, run: seq<Step>, i: nat, sys: System)
    requires Legal(n, run) && i <= |run| && LeadsTo(n, run[..i], sys)
    ensures At(n, run, i) == sys
  {
  }

  lemma TimesOut(n: nat, run: seq<Step>, sys: System, s: nat) returns (sys2: System)
    requires LeadsTo(n, run, sys) && s < n
    ensures LeadsTo(n, run + [Timeout(s)], sys2)
    ensures sys2 == SetServer(sys, s, S.ConvertToCandidate(sys.servers[s], s))
  {
    hide Legal, After;
    sys2 := Play(n, run, sys, Timeout(s));
  }

  lemma Commands(n: nat, run: seq<Step>, sys: System, s: nat, c: Command) returns (sys2: System)
    requires LeadsTo(n, run, sys) && s < n
    ensures LeadsTo(n, run + [StartCommand(s, c)], sys2)
    ensures sys2 == SetServer(sys, s, S.Start(sys.servers[s], c).0)
  {
    hide Legal, After;
    sys2 := Play(n, run, sys, StartCommand(s, c));
  }

  lemma SendsTo(n: nat, run: seq<Step>, sys: System, s: nat, p: nat) returns (sys2: System)
    requires LeadsTo(n, run, sys) && s < n && p < n && p != s && sys.servers[s].role == Leader
    ensures LeadsTo(n, run + [SendAppend(s, p)], sys2) && S.CanSend(sys.servers[s], p)
    ensures var c := AppendCall(s, p, sys.epochs[s], S.MakeAppendArgs(sys.servers[s], s, p), Sent);
            sys2 == sys.(calls := sys.calls + [c])
  {
    hide Legal, After;
    sys2 := Play(n, run, sys, SendAppend(s, p));
  }

  lemma Appends(n: nat, run: seq<Step>, sys: System, k: nat, a: AppendArgs, to: nat) returns (sys2: System)
    requires LeadsTo(n, run, sys) && k < |sys.calls| && to < n && sys.calls[k].AppendCall?
    requires sys.calls[k].to == to && sys.calls[k].append == a && sys.calls[k].appendState.Sent?
    ensures LeadsTo(n, run + [DeliverAppend(k)], sys2)
    ensures var (y, r) := S.AppendEntries(sys.servers[to], a);
            sys2 == SetCall(SetServer(sys, to, y), k, sys.calls[k].(appendState := Answered(r)))
  {
    hide Legal, After, S.AppendEntries;
    sys2 := Play(n, run, sys, DeliverAppend(k));
  }

  lemma Votes(n: nat, run: seq<Step>, sys: System, k: nat, a: VoteArgs, to: nat) returns (sys2: System)
    requires LeadsTo(n, run, sys) && k < |sys.calls| && to < n && sys.calls[k].VoteCall?
    requires sys.calls[k].to == to && sys.calls[k].vote == a && sys.calls[k].voteState.Sent?
    ensures LeadsTo(n, run + [DeliverVote(k)], sys2)
    ensures var (y, r) := S.RequestVote(sys.servers[to], a);
            sys2 == SetCall(SetServer(sys, to, y), k, sys.calls[k].(voteState := Answered(r)))
  {
    hide Legal, After, S.RequestVote;
    sys2 := Play(n, run, sys, DeliverVote(k));
  }

  /** The server that made call `k` books the reply `r`. */
  lemma BooksReply(n: nat, run: seq<Step>, sys: System, k: nat, a: AppendArgs, r: AppendReply, l: nat, p: nat)
    returns (sys2: System)
    requires LeadsTo(n, run, sys) && l < n && k < |sys.calls|
    requires sys.calls[k] == AppendCall(l, p, sys.epochs[l], a, Answered(r))
    ensures LeadsTo(n, run + [ReturnAppend(k)], sys2)
    ensures S.BookingDue(sys.servers[l], a, r) ==> S.CanBook(sys.servers[l], n, p)
    ensures sys2.servers == sys.servers[l := S.OnAppendReply(sys.servers[l], n, p, a, r)] && sys2.epochs == sys.epochs
    ensures |sys2.calls| == |sys.calls| && forall i :: 0 <= i < |sys.calls| && i != k ==> sys2.calls[i] == sys.calls[i]
  {
    hide Legal, After, S.OnAppendReply;
    sys2 := Play(n, run, sys, ReturnAppend(k));
  }

  // ---------- elections ----------

  function Voted(f: Server, term: nat, s: nat): Server {
    S.Persist(S.JoinTerm(f, term).(votedFor := s))
  }

  lemma Granted(f: Server, args: VoteArgs)
    requires f.currentTerm < args.term && S.UpToDate(args.lastLogTerm, args.lastLogIndex, f.log)
    requires args.candidateId >= 0
    ensures S.RequestVote(f, args) == (Voted(f, args.term, args.candidateId), VoteReply(args.term, true))
  {
  }

  /** The peers that one of two or three servers asks for their votes. */
  function Asked(n: nat, s: nat): seq<nat>
    requires n == 2 || n == 3
  {
    if n == 2 then (if s == 1 then [0] else [1])
    else if s == 2 then [0, 1] else if s == 1 then [0, 2] else [1, 2]
  }

  lemma AskedOthers(n: nat, s: nat)
    requires (n == 2 || n == 3) && s < n
    ensures S.Others(s, n, 0) == Asked(n, s)
  {
    assert S.Others(s, n, n) == [];
    assert S.Others(s, n, n - 1) == if s == n - 1 then [] else [n - 1];
    assert S.Others(s, n, n - 2) == if s == n - 1 then [n - 2] else if s == n - 2 then [n - 1] else [n - 2, n - 1];
  }

  lemma AsksAll(n: nat, run: seq<Step>, sys: System, s: nat) returns (sys2: System)
    requires LeadsTo(n, run, sys) && (n == 2 || n == 3) && s < n && sys.servers[s].role == Candidate
    ensures LeadsTo(n, run + [StartVoting(s)], sys2)
    ensures sys2.servers == sys.servers && sys2.epochs == sys.epochs && sys2.cells == sys.cells + [1]
    ensures |sys2.calls| == |sys.calls| + |Asked(n, s)|
    ensures forall j :: 0 <= j < |sys.calls| ==> sys2.calls[j] == sys.calls[j]
    ensures forall j :: 0 <= j < |Asked(n, s)| ==>
              sys2.calls[|sys.calls| + j] ==
              VoteCall(s, Asked(n, s)[j], sys.epochs[s], |sys.cells|, S.MakeVoteArgs(sys.servers[s], s), Sent)
  {
    hide Legal, After;
    AskedOthers(n, s);
    sys2 := Play(n, run, sys, StartVoting(s));
  }

  /** The vote that decides an election of two or three servers returns. */
  lemma Wins(n: nat, run: seq<Step>, sys: System, k: nat, s: nat, c: Call) returns (sys2: System)
    requires LeadsTo(n, run, sys) && (n == 2 || n == 3) && s < n && k < |sys.calls| && sys.calls[k] == c
    requires c.VoteCall? && c.from == s && c.epoch == sys.epochs[s] && c.cell < |sys.cells| && sys.cells[c.cell] == 1
    requires sys.servers[s].role == Candidate && c.vote.term == sys.servers[s].currentTerm
    requires c.voteState == Answered(VoteReply(c.vote.term, true))
    ensures LeadsTo(n, run + [ReturnVote(k)], sys2)
    ensures sys2.servers == sys.servers[s := S.ConvertToLeader(sys.servers[s], s, n)] && sys2.epochs == sys.epochs
    ensures |sys2.calls| == |sys.calls| && forall i :: 0 <= i < |sys.calls| && i != k ==> sys2.calls[i] == sys.calls[i]
  {
    hide Legal, After, S.ConvertToLeader;
    sys2 := Play(n, run, sys, ReturnVote(k));
  }

  /** The steps with which `s` wins a term with one vote, returned by call `k`. */
  function Campaign(s: nat, k: nat): seq<Step> {
    [Timeout(s), StartVoting(s), DeliverVote(k), ReturnVote(k)]
  }

  function Request(sys: System, s: nat, to: nat): Call
    requires s < |sys.servers| == |sys.epochs|
  {
    VoteCall(s, to, sys.epochs[s], |sys.cells|,
             S.MakeVoteArgs(S.ConvertToCandidate(sys.servers[s], s), s), Sent)
  }

  /** Server `s` times out and asks its peers. */
  lemma Stands(n: nat, run: seq<Step>, sys: System, s: nat) returns (sys2: System)
    requires LeadsTo(n, run, sys) && (n == 2 || n == 3) && s < n
    ensures LeadsTo(n, run + [Timeout(s)] + [StartVoting(s)], sys2)
    ensures sys2.servers == sys.servers[s := S.ConvertToCandidate(sys.servers[s], s)]
    ensures sys2.epochs == sys.epochs && sys2.cells == sys.cells + [1]
    ensures |sys2.calls| == |sys.calls| + |Asked(n, s)|
    ensures forall j :: 0 <= j < |Asked(n, s)| ==> sys2.calls[|sys.calls| + j] == Request(sys, s, Asked(n, s)[j])
  {
    hide Legal, After, Next;
    var s1 := TimesOut(n, run, sys, s);
    sys2 := AsksAll(n, run + [Timeout(s)], s1, s);
  }

  /** Server `v` grants the request that is call `k`. */
  lemma Grants(n: nat, run: seq<Step>, sys: System, k: nat, c: Call, v: nat) returns (sys2: System)
    requires LeadsTo(n, run, sys) && v < n && k < |sys.calls| && sys.calls[k] == c
    requires c.VoteCall? && c.to == v && c.voteState.Sent? && sys.servers[v].currentTerm < c.vote.term
    requires c.vote.candidateId >= 0 && S.UpToDate(c.vote.lastLogTerm, c.vote.lastLogIndex, sys.servers[v].log)
    ensures LeadsTo(n, run + [DeliverVote(k)], sys2)
    ensures sys2 == sys.(servers := sys.servers[v := Voted(sys.servers[v], c.vote.term, c.vote.candidateId)],
                         calls := sys.calls[k := c.(voteState := Answered(VoteReply(c.vote.term, true)))])
  {
    hide Legal, After, Next, S.RequestVote, Voted, S.UpToDate;
    sys2 := Votes(n, run, sys, k, c.vote, v);
    Granted(sys.servers[v], c.vote);
  }

  /** Of two or three servers, `s` times out and wins its next term with the vote of the
      peer that it asks first, if `i` is 0, or last. */
  lemma Election(n: nat, run: seq<Step>, sys: System, s: nat, i: nat) returns (sys2: System)
    requires LeadsTo(n, run, sys) && (n == 2 || n == 3) && s < n && i < |Asked(n, s)|
    requires sys.servers[Asked(n, s)[i]].currentTerm <= sys.servers[s].currentTerm
    requires S.UpToDate(S.LastTerm(sys.servers[s].log), |sys.servers[s].log|, sys.servers[Asked(n, s)[i]].log)
    ensures LeadsTo(n, run + Campaign(s, |sys.calls| + i), sys2)
    ensures sys2.epochs == sys.epochs && |sys2.calls| == |sys.calls| + |Asked(n, s)|
    ensures var x, v := S.ConvertToCandidate(sys.servers[s], s), Asked(n, s)[i];
            && sys2.servers == sys.servers[s := S.ConvertToLeader(x, s, n)]
                                          [v := Voted(sys.servers[v], x.currentTerm, s)]
            && forall j :: 0 <= j < |Asked(n, s)| && j != i ==>
                 sys2.calls[|sys.calls| + j] == Request(sys, s, Asked(n, s)[j])
  {
    hide Legal, After, Next, S.ConvertToLeader, Voted, S.UpToDate, S.LastTerm;
    var k, v := |sys.calls| + i, Asked(n, s)[i];
    var r2 := run + [Timeout(s)] + [StartVoting(s)];
    var s2 := Stands(n, run, sys, s);
    var c := s2.calls[|sys.calls| + i];
    var s3 := Grants(n, r2, s2, k, c, v);
    sys2 := Wins(n, r2 + [DeliverVote(k)], s3, k, s, s3.calls[k]);
    assert r2 + [DeliverVote(k)] + [ReturnVote(k)] == run + Campaign(s, k);
    SwapUpdates(sys.servers, s, s2.servers[s], v, s3.servers[v], sys2.servers[s]);
  }

  lemma SwapUpdates(ss: seq<Server>, s: nat, x: Server, v: nat, f: Server, l: Server)
    requires s < |ss| && v < |ss| && s != v
    ensures ss[s := x][v := f][s := l] == ss[s := l][v := f]
  {
  }

  // ---------- a match index that goes down ----------

  /** Two messages of one leader, the second with a command more, are accepted in order, and
      their replies return in the opposite order. */
  function LateReply(c: Command): seq<Step> {
    Campaign(0, 0) + [SendAppend(0, 1)] + [StartCommand(0, c)] + [SendAppend(0, 1)]
    + [DeliverAppend(1)] + [DeliverAppend(2)] + [ReturnAppend(2)] + [ReturnAppend(1)]
  }

  function Suffix(log: Log): AppendArgs { AppendArgs(1, 0, 0, 0, log, 0) }

  const Accepted: AppendReply := AppendReply(1, true, 0, 0)

  /** A server's state as far as it matters below. */
  predicate Looks(s: Server, term: nat, role: Role, log: Log) {
    s.currentTerm == term && s.role == role && s.log == log && s.commitIndex == 0 == s.lastApplied
  }

  /** A server that has just joined term 1, or joins it now, takes over what it is sent. */
  lemma AcceptsSuffix(f: Server, log: Log)
    requires f == S.Boot(None) || Looks(f, 1, Follower, [])
    ensures Looks(S.AppendEntries(f, Suffix(log)).0, 1, Follower, log)
    ensures S.AppendEntries(f, Suffix(log)).1 == Accepted
  {
    hide S.Merge;
    MergeAll(log);
  }

  lemma MergeAll(log: Log)
    ensures S.Merge([], 0, log) == log
  {
    assert [] + log == log;
  }

  lemma BothSent(c: Command, run: seq<Step>) returns (sys: System)
    requires run == Campaign(0, 0) + [SendAppend(0, 1)] + [StartCommand(0, c)] + [SendAppend(0, 1)]
    ensures LeadsTo(2, run, sys) && |sys.calls| == 3 && Looks(sys.servers[0], 1, Leader, [Entry(c, 1)])
    ensures sys.servers[0].matchIndex == [0, 0] && |sys.servers[0].nextIndex| == 2
    ensures Looks(sys.servers[1], 1, Follower, [])
    ensures sys.calls[1] == AppendCall(0, 1, sys.epochs[0], Suffix([]), Sent)
    ensures sys.calls[2] == AppendCall(0, 1, sys.epochs[0], Suffix([Entry(c, 1)]), Sent)
  {
    hide Legal, After, Next, S.MakeAppendArgs, S.CanSend;
    Begin(2);
    var s4 := Election(2, [], Init(2), 0, 0);
    assert [] + Campaign(0, 0) == Campaign(0, 0);
    var x := s4.servers[0];
    NewLeader2(S.ConvertToCandidate(S.Boot(None), 0));
    assert Looks(x, 1, Leader, []) && x.nextIndex == [1, 1];
    var s5 := SendsTo(2, Campaign(0, 0), s4, 0, 1);
    FirstSuffix(x, 1);
    var r := Campaign(0, 0) + [SendAppend(0, 1)];
    var s6 := Commands(2, r, s5, 0, c);
    FirstSuffix(s6.servers[0], 1);
    sys := SendsTo(2, r + [StartCommand(0, c)], s6, 0, 1);
  }

  lemma NewLeader2(x: Server)
    requires x.log == []
    ensures var y := S.ConvertToLeader(x, 0, 2); y.nextIndex == [1, 1] && y.matchIndex == [0, 0]
  {
  }

  lemma FirstSuffix(x: Server, p: nat)
    requires Looks(x, 1, Leader, x.log) && p < |x.nextIndex| && x.nextIndex[p] == 1
    ensures S.CanSend(x, p) && S.MakeAppendArgs(x, 0, p) == Suffix(x.log)
  {
    assert x.log[0..] == x.log;
  }

  lemma BothAccepted(c: Command, run: seq<Step>) returns (sys: System)
    requires run == Campaign(0, 0) + [SendAppend(0, 1)] + [StartCommand(0, c)] + [SendAppend(0, 1)]
                    + [DeliverAppend(1)] + [DeliverAppend(2)]
    ensures LeadsTo(2, run, sys) && |sys.calls| == 3 && Looks(sys.servers[0], 1, Leader, [Entry(c, 1)])
    ensures sys.servers[0].matchIndex == [0, 0] && |sys.servers[0].nextIndex| == 2
    ensures sys.calls[1] == AppendCall(0, 1, sys.epochs[0], Suffix([]), Answered(Accepted))
    ensures sys.calls[2] == AppendCall(0, 1, sys.epochs[0], Suffix([Entry(c, 1)]), Answered(Accepted))
  {
    hide Legal, After, Next, S.AppendEntries;
    var r := Campaign(0, 0) + [SendAppend(0, 1)] + [StartCommand(0, c)] + [SendAppend(0, 1)];
    var s7 := BothSent(c, r);
    AcceptsSuffix(s7.servers[1], []);
    var s8 := Appends(2, r, s7, 1, Suffix([]), 1);
    AcceptsSuffix(s8.servers[1], [Entry(c, 1)]);
    sys := Appends(2, r + [DeliverAppend(1)], s8, 2, Suffix([Entry(c, 1)]), 1);
  }

  lemma BooksSuffix(x: Server, log: Log)
    requires x.role == Leader && x.currentTerm == 1 && |log| <= |x.log| && x.commitIndex <= |x.log|
    requires |x.nextIndex| == |x.matchIndex| == 2
    ensures var y := S.OnAppendReply(x, 2, 1, Suffix(log), Accepted);
            && y.matchIndex == x.matchIndex[1 := |log|] && y.role == Leader && y.currentTerm == 1
            && y.log == x.log && |y.nextIndex| == 2 && y.commitIndex <= |y.log|
  {
    hide S.NewCommit;
  }

  /** The source comments call match indices monotone. This run lowers one from 1 to 0 while
      its server leads throughout. */
  lemma MatchIndexGoesDown(c: Command)
    ensures var run := LateReply(c);
            && |run| == 11 && Legal(2, run) && Leads(At(2, run, 10), 0, 1) && Leads(At(2, run, 11), 0, 1)
            && MatchAt(2, run, 10, 0, 1, 1) == 1 && MatchAt(2, run, 11, 0, 1, 1) == 0
  {
    hide Legal, After, S.OnAppendReply;
    var run := LateReply(c);
    var s9 := BothAccepted(c, run[..9]);
    BooksSuffix(s9.servers[0], [Entry(c, 1)]);
    var s10 := BooksReply(2, run[..9], s9, 2, Suffix([Entry(c, 1)]), Accepted, 0, 1);
    BooksSuffix(s10.servers[0], []);
    var s11 := BooksReply(2, run[..10], s10, 1, Suffix([]), Accepted, 0, 1);
    assert run[..9] + [ReturnAppend(2)] == run[..10] && run[..10] + [ReturnAppend(1)] == run[..11] == run;
    AtMoment(2, run, 10, s10);
    AtMoment(2, run, 11, s11);
  }

  // ---------- a commit index that goes down ----------

  /** A leader commits a command with the confirmation of its peer, and crashes. */
  function CommitAndCrash(c: Command): seq<Step> {
    LateReply(c)[..10] + [Crash(0, None)]
  }

  /** A first confirmation of a leader's one entry commits and applies it. */
  lemma CommitsFirst(x: Server, c: Command)
    requires Looks(x, 1, Leader, [Entry(c, 1)]) && x.matchIndex == [0, 0] && |x.nextIndex| == 2
    ensures S.OnAppendReply(x, 2, 1, Suffix(x.log), Accepted).commitIndex == 1
  {
    var m := [0, 1];
    assert x.matchIndex[1 := 1] == m;
    assert m[..1] == [0] && [0][..0] == [];
    assert S.CountAtLeast([0], 1) == 0 && S.CountAtLeast(m, 1) == 1;
    var x1 := x.(matchIndex := m, nextIndex := x.nextIndex[1 := 2]);
    assert S.CanCommit(x1, 2, 1);
  }

  /** A server that has committed and applied a command at index 1 knows of nothing committed
      after a crash; the command is still in its log and what it applied on record. */
  lemma CommitIndexGoesDown(c: Command)
    ensures var run := CommitAndCrash(c);
            && |run| == 11 && Legal(2, run) && |At(2, run, 10).servers| == |At(2, run, 11).servers| == 2
            && var x, y := At(2, run, 10).servers[0], At(2, run, 11).servers[0];
            && x.commitIndex == 1 && x.applied == [ApplyMsg(true, c, 1)]
            && y.commitIndex == 0 && y.applied == [] && y.log == x.log == [Entry(c, 1)]
            && Channel(0, x.applied) in At(2, run, 11).retired
  {
    hide Legal, After, S.OnAppendReply;
    var run := CommitAndCrash(c);
    var s9 := BothAccepted(c, run[..9]);
    BooksSuffix(s9.servers[0], [Entry(c, 1)]);
    CommitsFirst(s9.servers[0], c);
    var s10 := BooksReply(2, run[..9], s9, 2, Suffix([Entry(c, 1)]), Accepted, 0, 1);
    assert run[..9] + [ReturnAppend(2)] == run[..10] && run[..10] + [Crash(0, None)] == run[..11] == run;
    var s11 := Play(2, run[..10], s10, Crash(0, None));
    AtMoment(2, run, 10, s10);
    AtMoment(2, run, 11, s11);
    AppliedInLog(2, run, 10, 0);
    assert S.Messages([Entry(c, 1)], 0, 1) == [ApplyMsg(true, c, 1)];
    ServerAt(2, run, 10, 0);
    CrashKeepsLog(s10, Crash(0, None));
  }

  // ---------- a vote that changes within its term ----------

  /** Two candidates of one term; the winner's first message reaches the other. */
  function LateCandidate(): seq<Step> {
    [Timeout(1)] + Campaign(0, 1) + [SendAppend(0, 1)] + [DeliverAppend(2)]
  }

  lemma HearsOf(x: Server)
    requires Looks(x, 1, Candidate, [])
    ensures S.AppendEntries(x, Suffix([])).0 == S.ConvertToFollower(x, 1, 0)
  {
  }

  lemma TwoCandidates(run: seq<Step>) returns (sys: System)
    requires run == [Timeout(1)] + Campaign(0, 1)
    ensures LeadsTo(3, run, sys) && |sys.calls| == 2 && Looks(sys.servers[0], 1, Leader, [])
    ensures |sys.servers[0].nextIndex| == 3 && sys.servers[0].nextIndex[1] == 1
    ensures sys.servers[1] == Server(1, 1, [], 0, 0, Candidate, [], [], [], Some(Image(1, 1, [])))
  {
    hide Legal, After, Next;
    Begin(3);
    var s1 := TimesOut(3, [], Init(3), 1);
    assert run == [] + [Timeout(1)] + Campaign(0, 1);
    sys := Election(3, [] + [Timeout(1)], s1, 0, 1);
  }

  /** A server that has voted for itself in term 1 has voted for server 0 in term 1 a step later,
      in memory and in storage. */
  lemma VoteChanges()
    ensures var run := LateCandidate();
            && |run| == 7 && Legal(3, run) && |At(3, run, 6).servers| == |At(3, run, 7).servers| == 3
            && At(3, run, 6).servers[1] == Server(1, 1, [], 0, 0, Candidate, [], [], [], Some(Image(1, 1, [])))
            && At(3, run, 7).servers[1] == Server(1, 0, [], 0, 0, Follower, [], [], [], Some(Image(1, 0, [])))
  {
    hide Legal, After, Next, S.AppendEntries, S.MakeAppendArgs, S.CanSend;
    var run := LateCandidate();
    var s5 := TwoCandidates(run[..5]);
    FirstSuffix(s5.servers[0], 1);
    var s6 := SendsTo(3, run[..5], s5, 0, 1);
    assert run[..6] == run[..5] + [SendAppend(0, 1)] && run[..7] == run[..6] + [DeliverAppend(2)] == run;
    HearsOf(s6.servers[1]);
    var s7 := Appends(3, run[..6], s6, 2, Suffix([]), 1);
    AtMoment(3, run, 6, s6);
    AtMoment(3, run, 7, s7);
  }

  // ---------- a vote that is not given again ----------

  /** A candidate asks twice in one term, wins on an answer to its first round, and puts an entry
      into the log of a voter before its second request gets there. */
  function SecondRequest(c: Command): seq<Step> {
    [Timeout(0)] + [StartVoting(0)] + [StartVoting(0)] + [DeliverVote(0)] + [ReturnVote(0)]
    + [StartCommand(0, c)] + [SendAppend(0, 1)] + [DeliverAppend(4)] + [DeliverVote(2)]
  }

  lemma AskedTwice(run: seq<Step>) returns (sys: System)
    requires run == [Timeout(0)] + [StartVoting(0)] + [StartVoting(0)]
    ensures LeadsTo(3, run, sys) && sys.epochs == [0, 0, 0] && |sys.calls| == 4 && sys.cells == [1, 1]
    ensures var x := S.ConvertToCandidate(S.Boot(None), 0);
            && sys.servers == [x, S.Boot(None), S.Boot(None)]
            && sys.calls[0] == VoteCall(0, 1, 0, 0, S.MakeVoteArgs(x, 0), Sent)
            && sys.calls[2] == VoteCall(0, 1, 0, 1, S.MakeVoteArgs(x, 0), Sent)
  {
    hide Legal, After, Next;
    Begin(3);
    var s1 := TimesOut(3, [], Init(3), 0);
    assert [] + [Timeout(0)] == [Timeout(0)];
    var s2 := AsksAll(3, [Timeout(0)], s1, 0);
    assert s2.calls[|s1.calls| + 0].to == Asked(3, 0)[0] == 1;
    sys := AsksAll(3, [Timeout(0)] + [StartVoting(0)], s2, 0);
    assert sys.calls[|s2.calls| + 0].to == Asked(3, 0)[0] == 1;
  }

  lemma WonOnFirst(c: Command, run: seq<Step>, sys: System, run2: seq<Step>) returns (sys2: System)
    requires run == [Timeout(0)] + [StartVoting(0)] + [StartVoting(0)]
    requires LeadsTo(3, run, sys) && sys.epochs == [0, 0, 0] && |sys.calls| == 4 && sys.cells == [1, 1]
    requires var x := S.ConvertToCandidate(S.Boot(None), 0);
             && sys.servers == [x, S.Boot(None), S.Boot(None)]
             && sys.calls[0] == VoteCall(0, 1, 0, 0, S.MakeVoteArgs(x, 0), Sent)
             && sys.calls[2] == VoteCall(0, 1, 0, 1, S.MakeVoteArgs(x, 0), Sent)
    requires run2 == run + [DeliverVote(0)] + [ReturnVote(0)] + [StartCommand(0, c)]
    ensures LeadsTo(3, run2, sys2) && |sys2.calls| == 4 && sys2.calls[2] == sys.calls[2]
    ensures Looks(sys2.servers[0], 1, Leader, [Entry(c, 1)]) && |sys2.servers[0].nextIndex| == 3
    ensures sys2.servers[0].nextIndex[1] == 1 && Looks(sys2.servers[1], 1, Follower, [])
  {
    hide Legal, After, Next, S.RequestVote;
    var a := sys.calls[0].vote;
    Granted(S.Boot(None), a);
    var s4 := Votes(3, run, sys, 0, a, 1);
    var s5 := Wins(3, run + [DeliverVote(0)], s4, 0, 0, s4.calls[0]);
    sys2 := Commands(3, run + [DeliverVote(0)] + [ReturnVote(0)], s5, 0, c);
  }

  /** Server 1 grants the first request of candidate 0 in term 1 and refuses the second, which is the
      same, in the same term, because its log has got ahead of it. */
  lemma GrantNotRepeated(c: Command)
    ensures var run := SecondRequest(c);
            && |run| == 9 && Legal(3, run) && run[3] == DeliverVote(0) && run[8] == DeliverVote(2)
            && |At(3, run, 4).calls| >= 3 && |At(3, run, 9).calls| >= 3
            && var c0, c2 := At(3, run, 4).calls[0], At(3, run, 9).calls[2];
            && c0 == VoteCall(0, 1, 0, 0, VoteArgs(1, 0, 0, -1), Answered(VoteReply(1, true)))
            && c2 == VoteCall(0, 1, 0, 1, VoteArgs(1, 0, 0, -1), Answered(VoteReply(1, false)))
  {
    hide Legal, After, Next, S.RequestVote, S.AppendEntries, S.MakeAppendArgs, S.CanSend;
    var run := SecondRequest(c);
    var s3 := AskedTwice(run[..3]);
    var a := s3.calls[0].vote;
    Granted(S.Boot(None), a);
    var s4 := Votes(3, run[..3], s3, 0, a, 1);
    assert run[..4] == run[..3] + [DeliverVote(0)];
    var s6 := WonOnFirst(c, run[..3], s3, run[..6]);
    FirstSuffix(s6.servers[0], 1);
    var s7 := SendsTo(3, run[..6], s6, 0, 1);
    assert run[..7] == run[..6] + [SendAppend(0, 1)] && run[..8] == run[..7] + [DeliverAppend(4)];
    AcceptsSuffix(s7.servers[1], [Entry(c, 1)]);
    var s8 := Appends(3, run[..7], s7, 4, Suffix([Entry(c, 1)]), 1);
    Overtaken(s8.servers[1], c);
    assert run[..9] == run[..8] + [DeliverVote(2)] == run;
    var s9 := Votes(3, run[..8], s8, 2, a, 1);
    AtMoment(3, run, 4, s4);
    AtMoment(3, run, 9, s9);
  }

  lemma Overtaken(f: Server, c: Command)
    requires Looks(f, 1, Follower, [Entry(c, 1)])
    ensures S.RequestVote(f, VoteArgs(1, 0, 0, -1)).1 == VoteReply(1, false)
  {
  }

  // ---------- a search that does not advance ----------

  /** Server 0 leads term 1 and puts two entries into its log, the first also into that of
      server 2. Server 2 leads term 2 and adds an entry, and server 0 follows. Server 0
      leads term 3, adds nothing, and probes the log of server 2. */
  function StuckProbe(c: Command): seq<Step> {
    Campaign(0, 0) + [StartCommand(0, c)] + [SendAppend(0, 2)] + [DeliverAppend(2)] + [StartCommand(0, c)]
    + Campaign(2, 4) + [StartCommand(2, c)] + [DeliverVote(3)]
    + Campaign(0, 5) + [SendAppend(0, 2)] + [DeliverAppend(7)] + [ReturnAppend(7)]
  }

  lemma FirstTerm(c: Command, run: seq<Step>) returns (sys: System)
    requires run == Campaign(0, 0) + [StartCommand(0, c)] + [SendAppend(0, 2)] + [DeliverAppend(2)]
        + [StartCommand(0, c)]
    ensures LeadsTo(3, run, sys) && |sys.calls| == 3
    ensures Looks(sys.servers[0], 1, Leader, [Entry(c, 1), Entry(c, 1)])
    ensures Looks(sys.servers[1], 1, Follower, []) && Looks(sys.servers[2], 1, Follower, [Entry(c, 1)])
  {
    hide Legal, After, Next, S.AppendEntries, S.MakeAppendArgs, S.CanSend;
    Begin(3);
    var s4 := Election(3, [], Init(3), 0, 0);
    assert [] + Campaign(0, 0) == Campaign(0, 0);
    var s5 := Commands(3, Campaign(0, 0), s4, 0, c);
    var r := Campaign(0, 0) + [StartCommand(0, c)];
    var s6 := SendsTo(3, r, s5, 0, 2);
    FirstSuffix(s5.servers[0], 2);
    AcceptsSuffix(s6.servers[2], [Entry(c, 1)]);
    var s7 := Appends(3, r + [SendAppend(0, 2)], s6, 2, Suffix([Entry(c, 1)]), 2);
    sys := Commands(3, r + [SendAppend(0, 2)] + [DeliverAppend(2)], s7, 0, c);
  }

  lemma SecondTerm(c: Command, run: seq<Step>, sys: System, run2: seq<Step>) returns (sys2: System)
    requires LeadsTo(3, run, sys) && |sys.calls| == 3
    requires Looks(sys.servers[0], 1, Leader, [Entry(c, 1), Entry(c, 1)])
    requires Looks(sys.servers[1], 1, Follower, []) && Looks(sys.servers[2], 1, Follower, [Entry(c, 1)])
    requires run2 == run + Campaign(2, 4) + [StartCommand(2, c)] + [DeliverVote(3)]
    ensures LeadsTo(3, run2, sys2) && |sys2.calls| == 5
    ensures Looks(sys2.servers[0], 2, Follower, [Entry(c, 1), Entry(c, 1)])
    ensures Looks(sys2.servers[1], 2, Follower, []) && Looks(sys2.servers[2], 2, Leader, [Entry(c, 1), Entry(c, 2)])
  {
    hide Legal, After, Next, S.RequestVote;
    var s12 := Election(3, run, sys, 2, 1);
    assert s12.calls[|sys.calls| + 0].to == Asked(3, 2)[0] == 0;
    var s13 := Commands(3, run + Campaign(2, 4), s12, 2, c);
    var a := s13.calls[3].vote;
    Refuses(s13.servers[0], a);
    sys2 := Votes(3, run + Campaign(2, 4) + [StartCommand(2, c)], s13, 3, a, 0);
  }

  lemma Refuses(x: Server, a: VoteArgs)
    requires x.currentTerm < a.term && !S.UpToDate(a.lastLogTerm, a.lastLogIndex, x.log)
    ensures S.RequestVote(x, a).0 == S.ConvertToFollower(x, a.term, -1)
  {
  }

  lemma Rejects(f: Server, c: Command)
    requires Looks(f, 2, Leader, [Entry(c, 1), Entry(c, 2)])
    ensures var (y, r) := S.AppendEntries(f, AppendArgs(3, 0, 2, 1, [], 0));
            Looks(y, 3, Follower, f.log) && r == AppendReply(3, false, 2, 2)
  {
  }

  lemma StaysPut(x: Server, c: Command)
    requires Looks(x, 3, Leader, [Entry(c, 1), Entry(c, 1)]) && |x.nextIndex| == |x.matchIndex| == 3
    ensures S.OnAppendReply(x, 3, 2, AppendArgs(3, 0, 2, 1, [], 0), AppendReply(3, false, 2, 2)) == x
  {
    assert S.FirstAbove(x.log, 2) == 2;
    assert x.nextIndex[2 := x.nextIndex[2]] == x.nextIndex;
  }

  /** A leader whose log ends in older terms than its own probes a follower that has a later term
      there than all of the leader's. The rejection leaves the leader as it was, next index
      and all, and the follower's log too: the next round is the same again. */
  lemma ProbeStays(c: Command)
    ensures var run := StuckProbe(c);
            && |run| == 21 && Legal(3, run) && |At(3, run, 18).servers| == |At(3, run, 21).servers| == 3
            && var x, f, f2 := At(3, run, 18).servers[0], At(3, run, 18).servers[2], At(3, run, 21).servers[2];
            && Looks(x, 3, Leader, [Entry(c, 1), Entry(c, 1)]) && x.nextIndex == [3, 3, 3]
            && Looks(f, 2, Leader, [Entry(c, 1), Entry(c, 2)])
            && At(3, run, 21).servers[0] == x && Looks(f2, 3, Follower, f.log)
  {
    hide Legal, After, Next, S.AppendEntries, S.OnAppendReply;
    var run := StuckProbe(c);
    var s8 := FirstTerm(c, run[..8]);
    var s14 := SecondTerm(c, run[..8], s8, run[..14]);
    assert run[..18] == run[..14] + Campaign(0, 5);
    var s18 := Election(3, run[..14], s14, 0, 0);
    var a, r := AppendArgs(3, 0, 2, 1, [], 0), AppendReply(3, false, 2, 2);
    assert run[..19] == run[..18] + [SendAppend(0, 2)];
    var s19 := SendsTo(3, run[..18], s18, 0, 2);
    assert s19.calls[7].append == a;
    Rejects(s19.servers[2], c);
    assert run[..20] == run[..19] + [DeliverAppend(7)];
    var s20 := Appends(3, run[..19], s19, 7, a, 2);
    StaysPut(s20.servers[0], c);
    assert run[..21] == run[..20] + [ReturnAppend(7)] == run;
    var s21 := BooksReply(3, run[..20], s20, 7, a, r, 0, 2);
    AtMoment(3, run, 18, s18);
    AtMoment(3, run, 21, s21);
  }

  /** From there on, no number of undisturbed exchanges brings the follower in step. */
  lemma SearchNeverEnds(c: Command, m: nat)
    ensures var run := StuckProbe(c)[..18];
            Legal(3, run) && Leading(3, run, 0, 2) && !Done(3, run, 0, 2, m)
  {
    hide Legal, After, Done;
    ProbeStays(c);
    var run := StuckProbe(c)[..18];
    PrefixLegal(3, StuckProbe(c), 18);
    var x, f := After(3, run).servers[0], After(3, run).servers[2];
    assert At(3, StuckProbe(c), 18) == After(3, run);
    assert !Open(f.log, x.log, 2);
    CatchesUp(3, run, 0, 2);
  }
}
