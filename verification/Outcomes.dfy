/** What every step of a run does, stated outright: when a request is granted or accepted, what
    the reply says, what the server is afterwards, and that nothing else changes. */
module Outcomes {
  import opened RaftTypes
  import opened Cluster
  import opened History
  import opened Invariant
  import opened Facts
  import opened CoreSteps
  import opened LeaderSteps
  import opened Preservation
  import opened Runs
  import opened Safety
  import opened Replication
  import opened NetSteps
  import opened MatchIndex
  import S = ServerSteps

  /** Of all servers, only `s` has changed. Storage is left open; `CrashKeeps` says what it holds. */
  ghost predicate Becomes(sys: System, sys2: System, s: nat, y: Server) {
    && s < |sys.servers| == |sys2.servers|
    && (forall p :: 0 <= p < |sys.servers| && p != s ==> sys2.servers[p] == sys.servers[p])
    && sys2.servers[s].(disk := y.disk) == y
  }

  /** Nothing has changed but servers and the state of call `k`. */
  ghost predicate OnlyCall(sys: System, sys2: System, k: nat, c: Call) {
    && k < |sys.calls| == |sys2.calls| && sys2.calls[k] == c
    && (forall l :: 0 <= l < |sys.calls| && l != k ==> sys2.calls[l] == sys.calls[l])
    && sys2.epochs == sys.epochs && sys2.retired == sys.retired && |sys2.servers| == |sys.servers|
  }

  function Max(a: nat, b: nat): nat { if a < b then b else a }

  // ---------- votes ----------

  /** The last entry of the log is not later than the given term, and if it is of that term the
      log is not longer than the given length. */
  predicate NotAhead(log: Log, lastTerm: int, lastIndex: nat) {
    log != [] ==>
      var t := log[|log| - 1].term;
      t < lastTerm || (t == lastTerm && |log| <= lastIndex)
  }

  /** A vote is granted if and only if the request is not of an earlier term, the server has not
      given its vote of that term to another, and its log is not ahead of the candidate's. */
  predicate MayVote(x: Server, candidate: int, a: VoteArgs) {
    && x.currentTerm <= a.term
    && (x.currentTerm == a.term ==> x.votedFor == -1 || x.votedFor == candidate)
    && NotAhead(x.log, a.lastLogTerm, a.lastLogIndex)
  }

  lemma VoteAnswer(x: Server, a: VoteArgs)
    requires a.lastLogTerm >= -1
    ensures var (y, r) := S.RequestVote(x, a);
            var t, granted := Max(x.currentTerm, a.term), MayVote(x, a.candidateId, a);
            && r == VoteReply(t, granted)
            && y.(disk := x.disk) ==
               x.(currentTerm := t,
                  role := if x.currentTerm < a.term then Follower else x.role,
                  votedFor := if granted then a.candidateId else if x.currentTerm < a.term then -1 else x.votedFor)
  {
  }

  /** What the handler of a vote request answers and does. */
  lemma VoteRequested(n: nat, run: seq<Step>, i: nat, k: nat)
    requires Legal(n, run) && i < |run| && run[i] == DeliverVote(k)
    ensures var sys, sys2 := At(n, run, i), At(n, run, i + 1);
            && k < |sys.calls| && sys.calls[k].VoteCall? && sys.calls[k].to < |sys.servers| == n
            && var c := sys.calls[k];
            var x, t, granted := sys.servers[c.to], c.vote.term, MayVote(sys.servers[c.to], c.from, c.vote);
            && OnlyCall(sys, sys2, k, c.(voteState := Answered(VoteReply(Max(x.currentTerm, t), granted))))
            && sys2.cells == sys.cells
            && Becomes(sys, sys2, c.to, x.(
                 currentTerm := Max(x.currentTerm, t),
                 role := if x.currentTerm < t then Follower else x.role,
                 votedFor := if granted then c.from else if x.currentTerm < t then -1 else x.votedFor))
  {
    hide Legal, After, HistAfter, CoreInv, S.RequestVote, MayVote;
    InvAt(n, run, i);
    AtStep(n, run, i);
    var sys, h := At(n, run, i), HistAt(n, run, i);
    assert CallOk(sys.calls[k], n, |sys.cells|, h);
    VoteAnswer(sys.servers[sys.calls[k].to], sys.calls[k].vote);
  }

  /** A vote stays while its term lasts, unless the voter is a candidate that has voted for itself. */
  lemma {:induction false} VoteStays(n: nat, run: seq<Step>, i: nat, j: nat, s: nat)
    requires Legal(n, run) && i <= j <= |run| && s < n
    requires |At(n, run, i).servers| == |At(n, run, j).servers| == n
    requires At(n, run, i).servers[s].votedFor != -1 && At(n, run, i).servers[s].votedFor != s
    requires At(n, run, j).servers[s].currentTerm == At(n, run, i).servers[s].currentTerm
    ensures At(n, run, j).servers[s].votedFor == At(n, run, i).servers[s].votedFor
    decreases j
  {
    hide Legal, After, HistAfter, Record, Inv, Next;
    if i < j {
      InvAt(n, run, j - 1);
      TermsAdvance(n, run, i, j - 1, s);
      TermsAdvance(n, run, j - 1, j, s);
      VoteStays(n, run, i, j - 1, s);
      VoteOverwritten(n, run, j - 1, s);
    }
  }

  /** A server that has granted a request answers a later one of the same candidate and term with a
      grant, too, if and only if it is still in the term and its log has not got ahead. */
  lemma GrantRepeated(n: nat, run: seq<Step>, i: nat, k: nat, j: nat, l: nat)
    requires Legal(n, run) && i < j < |run| && run[i] == DeliverVote(k) && run[j] == DeliverVote(l)
    requires k < |At(n, run, i).calls| && At(n, run, i).calls[k].VoteCall?
    requires l < |At(n, run, j).calls| && At(n, run, j).calls[l].VoteCall?
    requires var c, d := At(n, run, i).calls[k], At(n, run, j).calls[l];
             c.from == d.from && c.to == d.to && c.vote.term == d.vote.term && c.to < n
    requires |At(n, run, i).servers| == |At(n, run, j).servers| == n
    requires var c := At(n, run, i).calls[k]; MayVote(At(n, run, i).servers[c.to], c.from, c.vote)
    ensures var d := At(n, run, j).calls[l];
            var x := At(n, run, j).servers[d.to];
            MayVote(x, d.from, d.vote) <==>
              x.currentTerm == d.vote.term && NotAhead(x.log, d.vote.lastLogTerm, d.vote.lastLogIndex)
  {
    hide Legal, After, HistAfter, Record, CoreInv, Next, NotAhead;
    var c := At(n, run, i).calls[k];
    VoteRequested(n, run, i, k);
    InvAt(n, run, i);
    InvAt(n, run, i + 1);
    assert CallOk(c, n, |At(n, run, i).cells|, HistAt(n, run, i));
    TermsAdvance(n, run, i + 1, j, c.to);
    if At(n, run, j).servers[c.to].currentTerm == c.vote.term {
      VoteStays(n, run, i + 1, j, c.to);
    }
  }

  // ---------- replies ----------

  /** A caller that gets a reply of a later term follows in that term, without a vote. */
  function Demoted(x: Server, t: nat): Server {
    x.(role := Follower, currentTerm := t, votedFor := -1)
  }

  function Elected(x: Server, me: nat, n: nat): Server
    requires me < n
  {
    x.(role := Leader, nextIndex := seq(n, _ => |x.log| + 1), matchIndex := seq(n, p => if p == me then |x.log| else 0))
  }

  lemma VoteReplyEffect(x: Server, me: nat, n: nat, a: VoteArgs, r: VoteReply, votes: nat)
    requires me < n
    ensures var (y, v) := S.OnVoteReply(x, me, n, a, r, votes);
            var current := r.term <= x.currentTerm == a.term && x.role == Candidate;
            && v == (if current && r.granted then votes + 1 else votes)
            && y.(disk := x.disk) ==
               if r.term > x.currentTerm then Demoted(x, r.term)
               else if current && 2 * v > n then Elected(x, me, n) else x
  {
    assert seq(n, _ => 0)[me := |x.log|] == seq(n, p => if p == me then |x.log| else 0);
  }

  /** What a returning vote reply does: a later term demotes the caller; otherwise, if the caller is
      still a candidate of the call's term, a grant is counted in its round, and the caller
      leads if and only if the round then counts a majority; otherwise nothing happens. */
  lemma VoteReturned(n: nat, run: seq<Step>, i: nat, k: nat)
    requires Legal(n, run) && i < |run| && run[i] == ReturnVote(k)
    ensures var sys, sys2 := At(n, run, i), At(n, run, i + 1);
            && k < |sys.calls| && sys.calls[k].VoteCall? && sys.calls[k].voteState.Answered?
            && sys.calls[k].from < |sys.servers| == n && sys.calls[k].cell < |sys.cells|
            && var c, r := sys.calls[k], sys.calls[k].voteState.reply;
            var x := sys.servers[c.from];
            var current := r.term <= x.currentTerm == c.vote.term && x.role == Candidate;
            var votes := sys.cells[c.cell] + (if current && r.granted then 1 else 0);
            && OnlyCall(sys, sys2, k, c.(voteState := Finished(current && r.granted)))
            && sys2.cells == sys.cells[c.cell := votes]
            && Becomes(sys, sys2, c.from,
                 if r.term > x.currentTerm then Demoted(x, r.term)
                 else if current && 2 * votes > n then Elected(x, c.from, n) else x)
  {
    hide Legal, After, HistAfter, CoreInv, S.OnVoteReply;
    InvAt(n, run, i);
    AtStep(n, run, i);
    var sys, h := At(n, run, i), HistAt(n, run, i);
    assert CallOk(sys.calls[k], n, |sys.cells|, h);
    var c := sys.calls[k];
    VoteReplyEffect(sys.servers[c.from], c.from, n, c.vote, c.voteState.reply, sys.cells[c.cell]);
  }

  // ---------- commands ----------

  /** What Start answers and does: it succeeds if and only if the server leads, and then adds one
      entry; otherwise it answers (-1, -1, false) and nothing changes. */
  lemma CommandStarted(n: nat, run: seq<Step>, i: nat, s: nat, c: Command)
    requires Legal(n, run) && i < |run| && run[i] == StartCommand(s, c)
    ensures var sys, sys2 := At(n, run, i), At(n, run, i + 1);
            && s < |sys.servers| && sys2 == sys.(servers := sys2.servers)
            && var x, r := sys.servers[s], StartReplyAt(n, run, i, s, c);
            && (r.isLeader <==> x.role == Leader)
            && (r.isLeader ==>
                 && r.index == |x.log| + 1 && r.term == x.currentTerm
                 && Becomes(sys, sys2, s, x.(log := x.log + [Entry(c, x.currentTerm)])))
            && (!r.isLeader ==> r == StartReply(-1, -1, false) && sys2 == sys)
  {
    hide Legal, After;
    AtStep(n, run, i);
    var sys := At(n, run, i);
    assert sys.servers[s := sys.servers[s]] == sys.servers;
  }

  // ---------- messages ----------

  /** What a leader sends: the position and term of the entry before the peer's next index, all
      entries from there on, and its commit index. */
  lemma MessageSent(n: nat, run: seq<Step>, i: nat, s: nat, p: nat)
    requires Legal(n, run) && i < |run| && run[i] == SendAppend(s, p)
    ensures var sys, sys2 := At(n, run, i), At(n, run, i + 1);
            && s < |sys.servers| == n && p < n && p < |sys.servers[s].nextIndex| && |sys.epochs| == n
            && var x := sys.servers[s];
            && x.role == Leader && 1 <= x.nextIndex[p] <= |x.log| + 1
            && |sys2.calls| == |sys.calls| + 1 && sys2 == sys.(calls := sys.calls + [sys2.calls[|sys.calls|]])
            && var prev := x.nextIndex[p] - 1;
               sys2.calls[|sys.calls|] ==
               AppendCall(s, p, sys.epochs[s],
                          AppendArgs(x.currentTerm, s, prev, if prev == 0 then 0 else x.log[prev - 1].term,
                                     x.log[prev..], x.commitIndex),
                          Sent)
  {
    hide Legal, After, HistAfter;
    InvAt(n, run, i);
    AtStep(n, run, i);
    OneServer(At(n, run, i).servers, HistAt(n, run, i), s);
  }

  predicate HoldsPrev(log: Log, a: AppendArgs) {
    a.prevLogIndex == 0 || (a.prevLogIndex <= |log| && log[a.prevLogIndex - 1].term == a.prevLogTerm)
  }

  /** An entry of the log has another term than the entry of the message at its position. */
  ghost predicate Clashes(log: Log, a: AppendArgs) {
    exists j :: 0 <= j < |a.entries| && a.prevLogIndex + j < |log| && log[a.prevLogIndex + j].term != a.entries[j].term
  }

  /** A log after taking a message over: cut and extended only where it clashes or falls short. */
  ghost function Taken(log: Log, a: AppendArgs): Log
    requires a.prevLogIndex <= |log|
  {
    if Clashes(log, a) || |log| < a.prevLogIndex + |a.entries| then log[..a.prevLogIndex] + a.entries else log
  }

  /** The messages that apply the first `c` entries, in order. */
  function AppliedUpTo(log: Log, c: nat): seq<ApplyMsg>
    requires c <= |log|
  {
    seq(c, j requires 0 <= j < c => ApplyMsg(true, log[j].command, j + 1))
  }

  ghost predicate CommitsTo(x: Server, y: Server, c: nat) {
    c <= |y.log| && y == x.(log := y.log, commitIndex := c, lastApplied := c, applied := AppliedUpTo(y.log, c))
  }

  /** What a rejection says: the length of a log that is too short, or the term of the conflicting
      entry and the first position that holds an entry of that term. */
  predicate Explains(log: Log, a: AppendArgs, r: AppendReply) {
    if |log| < a.prevLogIndex then r.conflictTerm == -1 && r.conflictIndex == |log| + 1
    else
      && 1 <= r.conflictIndex <= a.prevLogIndex <= |log| && r.conflictTerm == log[a.prevLogIndex - 1].term
      && log[r.conflictIndex - 1].term == r.conflictTerm
      && forall j :: 0 <= j < r.conflictIndex - 1 ==> log[j].term != r.conflictTerm
  }

  /** The server as a follower of the message's leader. */
  function Following(x: Server, a: AppendArgs): Server {
    if x.currentTerm < a.term || x.role == Candidate
    then x.(currentTerm := a.term, role := Follower, votedFor := a.leaderId) else x
  }

  lemma RejectExplained(x: Server, a: AppendArgs)
    requires x.currentTerm <= a.term && !HoldsPrev(x.log, a)
    ensures var (y, r) := S.AppendEntries(x, a);
            && r.term == a.term && !r.success && Explains(x.log, a, r) && y.(disk := x.disk) == Following(x, a)
  {
    assert S.Recognise(x, a).log == x.log;
    if a.prevLogIndex <= |x.log| {
      RejectIndex(x.log, a.prevLogIndex);
    }
  }

  /** Where two related logs hold entries of one term they agree up to there. */
  lemma AgreeUpTo(log: Log, full: Log, m: nat)
    requires Related(log, full) && m <= |log| && m <= |full| && (m > 0 ==> log[m - 1].term == full[m - 1].term)
    ensures log[..m] == full[..m]
  {
    if m > 0 {
      assert log[..S.Min(m - 1, m - 1) + 1] == full[..S.Min(m - 1, m - 1) + 1];
    }
  }

  lemma CoveredIs(log: Log, a: AppendArgs, full: Log)
    requires S.HasPrev(log, a) && Carries(a, full) && Related(log, full)
    ensures var k := a.prevLogIndex + |a.entries|;
            && full[..k] == log[..a.prevLogIndex] + a.entries
            && (full[..k] <= log <==> k <= |log| && !Clashes(log, a))
  {
    hide Related;
    var p, k := a.prevLogIndex, a.prevLogIndex + |a.entries|;
    AgreeUpTo(log, full, p);
    forall j | 0 <= j < |a.entries| ensures a.entries[j] == full[p + j] {}
    if full[..k] <= log {
      forall j | 0 <= j < |a.entries| ensures log[p + j] == a.entries[j] {
        assert log[p + j] == full[..k][p + j];
      }
    } else if k <= |log| && !Clashes(log, a) {
      if k > p {
        assert log[p + (k - 1 - p)].term == a.entries[k - 1 - p].term;
      }
      AgreeUpTo(log, full, k);
    }
  }

  lemma TakenIs(log: Log, a: AppendArgs, full: Log)
    requires S.HasPrev(log, a) && Carries(a, full) && Related(log, full)
    ensures S.Merge(log, a.prevLogIndex, a.entries) == Taken(log, a)
  {
    hide Related, Clashes, S.Merge;
    MergeMessage(log, a, full);
    CoveredIs(log, a, full);
  }

  /** Accepting a message, for a server that is in its term. */
  lemma TakesOver(ss: seq<Server>, h: Hist, s: nat, a: AppendArgs, from: nat)
    requires CoreInv(ss, h) && s < |ss| && s != from && AppendArgsOk(a, from, |ss|, h)
    requires ss[s].currentTerm == a.term && ss[s].role != Candidate && HoldsPrev(ss[s].log, a)
    ensures S.HasPrev(ss[s].log, a) && Taken(ss[s].log, a) == S.Accept(ss[s], a).log
    ensures var x, y := ss[s], S.Accept(ss[s], a);
            CommitsTo(x, y.(disk := x.disk), Max(x.commitIndex, a.leaderCommit))
  {
    hide CoreInv, Committed, Related, Carries, Taken, S.Merge;
    var x, y := ss[s], S.Accept(ss[s], a);
    MessageFits(ss, h, s, a, from);
    TakenIs(x.log, a, h.reigns[a.term].log);
    var h2 := AddAck(h, s, a.term, a.prevLogIndex + |a.entries|);
    OnAccept(ss, h, s, a, from, h2);
    OneServer(ss[s := y], h2, s);
    OneServer(ss, h, s);
    AppliedIs(y);
  }

  lemma AppliedIs(y: Server)
    requires LocalOk(y)
    ensures y.lastApplied == y.commitIndex <= |y.log| && y.applied == AppliedUpTo(y.log, y.commitIndex)
  {
  }

  /** What the handler of a message answers and does. It refuses a message of an earlier term and
      stays as it is. Otherwise it follows the leader, and accepts if and only if it holds the
      entry before the message; it then takes the entries over, and the leader's commit
      index if that is greater than its own, and applies what is committed. */
  lemma MessageHandled(n: nat, run: seq<Step>, i: nat, k: nat)
    requires Legal(n, run) && i < |run| && run[i] == DeliverAppend(k)
    ensures var sys, sys2 := At(n, run, i), At(n, run, i + 1);
            && k < |sys.calls| && sys.calls[k].AppendCall? && sys.calls[k].to < |sys.servers| == n
            && k < |sys2.calls| && sys2.calls[k].AppendCall? && sys2.calls[k].appendState.Answered?
            && var c, r, x := sys.calls[k], sys2.calls[k].appendState.reply, sys.servers[sys.calls[k].to];
            && OnlyCall(sys, sys2, k, c.(appendState := Answered(r))) && sys2.cells == sys.cells
            && r.term == Max(x.currentTerm, c.append.term) && c.append.leaderId == c.from
            && (r.success <==> x.currentTerm <= c.append.term && HoldsPrev(x.log, c.append))
            && (x.currentTerm > c.append.term ==> r.conflictTerm == 0 == r.conflictIndex && sys2.servers == sys.servers)
            && (x.currentTerm <= c.append.term && !r.success ==>
                 Explains(x.log, c.append, r) && Becomes(sys, sys2, c.to, Following(x, c.append)))
            && (r.success ==>
                 && c.append.prevLogIndex <= |x.log| && r.conflictTerm == 0 == r.conflictIndex
                 && sys2.servers[c.to].log == Taken(x.log, c.append)
                 && CommitsTo(Following(x, c.append), sys2.servers[c.to].(disk := x.disk),
                              Max(x.commitIndex, c.append.leaderCommit))
                 && Becomes(sys, sys2, c.to, sys2.servers[c.to]))
  {
    hide Legal, After, HistAfter, CoreInv, Committed, S.AppendEntries, Explains, Taken, CommitsTo, HoldsPrev;
    InvAt(n, run, i);
    AtStep(n, run, i);
    var sys, h := At(n, run, i), HistAt(n, run, i);
    var c := sys.calls[k];
    assert CallOk(c, n, |sys.cells|, h);
    HandlerAnswer(sys.servers, h, c.to, c.append, c.from);
    assert sys.servers[c.to := sys.servers[c.to]] == sys.servers;
  }

  lemma HandlerAnswer(ss: seq<Server>, h: Hist, s: nat, a: AppendArgs, from: nat)
    requires CoreInv(ss, h) && s < |ss| && s != from && AppendArgsOk(a, from, |ss|, h)
    ensures var (y, r) := S.AppendEntries(ss[s], a);
            var x := ss[s];
            && r.term == Max(x.currentTerm, a.term)
            && (r.success <==> x.currentTerm <= a.term && HoldsPrev(x.log, a))
            && (x.currentTerm > a.term ==> r.conflictTerm == 0 == r.conflictIndex && y == x)
            && (x.currentTerm <= a.term && !r.success ==>
                 Explains(x.log, a, r) && y.(disk := x.disk) == Following(x, a))
            && (r.success ==>
                 && a.prevLogIndex <= |x.log| && r.conflictTerm == 0 == r.conflictIndex
                 && y.log == Taken(x.log, a)
                 && CommitsTo(Following(x, a), y.(disk := x.disk), Max(x.commitIndex, a.leaderCommit)))
  {
    hide CoreInv, AppendArgsOk, Explains, Taken, S.Accept;
    var x := ss[s];
    if x.currentTerm <= a.term {
      if HoldsPrev(x.log, a) {
        OnRecognise(ss, h, s, a, from);
        var x1 := S.Recognise(x, a);
        TakesOver(ss[s := x1], h, s, a, from);
        assert x1.(disk := x.disk) == Following(x, a);
      } else {
        RejectExplained(x, a);
      }
    }
  }

  // ---------- bookkeeping ----------

  /** The leader and the peers whose match index reaches `m`. */
  function Holders(matches: seq<int>, l: nat, m: nat): set<nat> {
    set p: nat | p < |matches| && (p == l || matches[p] >= m)
  }

  /** The entry at index `m` is of term `t`, and a majority is counted for it. */
  ghost predicate Committable(log: Log, t: nat, matches: seq<int>, n: nat, l: nat, m: nat) {
    0 < m <= |log| && log[m - 1].term == t && Majority(n, Holders(matches, l, m))
  }

  /** The commit index moves to the greatest index above the old one whose entry is of the term
      and counted for a bare majority, or stays if there is none. */
  ghost predicate CommitMoves(x: Server, matches: seq<int>, n: nat, l: nat, c: nat) {
    && x.commitIndex <= c
    && (c == x.commitIndex || Committable(x.log, x.currentTerm, matches, n, l, c))
    && forall m :: c < m <= |x.log| ==> !Committable(x.log, x.currentTerm, matches, n, l, m)
  }

  /** The commit test says that a majority is counted, provided that the leader's own match index
      is below the indices of its own term. */
  lemma TestIsMajority(x: Server, n: nat, l: nat, m: nat)
    requires l < n == |x.matchIndex| && 1 <= m <= |x.log| && x.matchIndex[l] < m
    ensures S.CanCommit(x, n, m) <==> Committable(x.log, x.currentTerm, x.matchIndex, n, l, m)
  {
    CountIsSize(x.matchIndex, m);
    var r := Reaching(x.matchIndex, m);
    assert l !in r;
    assert Holders(x.matchIndex, l, m) == r + {l};
    assert |r + {l}| == |r| + 1;
  }

  /** The leader's own match index is the length of the log it started with. */
  lemma OwnMatchIndex(ss: seq<Server>, h: Hist, l: nat, m: nat)
    requires CoreInv(ss, h) && l < |ss| && ss[l].role == Leader
    requires 1 <= m <= |ss[l].log| && ss[l].log[m - 1].term == ss[l].currentTerm
    ensures |ss[l].matchIndex| == |ss| && ss[l].matchIndex[l] < m
  {
    var t := ss[l].currentTerm;
    OneServer(ss, h, l);
    CoreReigns(ss, h);
    assert ReignOk(|ss|, h, t);
    ReignEntry(|ss|, h, t, m - 1);
  }

  /** What a rejection makes of the next index of a leader whose next index was `last`: the position
      behind its last entry of the conflicting term, if it has entries of that term; the
      conflict index, if it has none, or if there was no entry to conflict; and no change,
      if it has no entry of a later term. */
  predicate Retreats(log: Log, last: int, r: AppendReply, next: int) {
    if r.conflictTerm <= 0 then next == r.conflictIndex
    else if forall j :: 0 <= j < |log| ==> log[j].term <= r.conflictTerm then next == last
    else if exists j :: 0 <= j < |log| && log[j].term == r.conflictTerm
    then 2 <= next <= |log| && log[next - 2].term == r.conflictTerm < log[next - 1].term
    else next == r.conflictIndex
  }

  lemma RetreatIs(log: Log, next: int, r: AppendReply)
    requires Sorted(log)
    ensures Retreats(log, next, r, S.Backtrack(log, next, r.conflictTerm, r.conflictIndex))
  {
    if r.conflictTerm > 0 {
      var i := S.FirstAbove(log, r.conflictTerm);
      if i < |log| {
        forall j | 0 <= j < |log| && log[j].term == r.conflictTerm ensures j < i && log[i - 1].term == r.conflictTerm {
          assert log[j].term <= log[i - 1].term;
        }
      }
    }
  }

  /** What a leader makes of a success. */
  lemma SuccessBooked(ss: seq<Server>, h: Hist, l: nat, p: nat, a: AppendArgs, r: AppendReply)
    requires CoreInv(ss, h) && l < |ss| && p < |ss| && p != l && S.BookingDue(ss[l], a, r) && r.success
    requires S.CanBook(ss[l], |ss|, p)
    requires CoreInv(ss[l := S.OnAppendReply(ss[l], |ss|, p, a, r)], h)
    ensures var x, y, e := ss[l], S.OnAppendReply(ss[l], |ss|, p, a, r), a.prevLogIndex + |a.entries|;
            && y.commitIndex <= |x.log| && CommitMoves(x, x.matchIndex[p := e], |ss|, l, y.commitIndex)
            && y == x.(matchIndex := x.matchIndex[p := e], nextIndex := x.nextIndex[p := e + 1],
                       commitIndex := y.commitIndex, lastApplied := y.commitIndex,
                       applied := AppliedUpTo(x.log, y.commitIndex))
  {
    hide CoreInv, Committable, S.CanCommit;
    var x, e, n := ss[l], a.prevLogIndex + |a.entries|, |ss|;
    var x1 := x.(matchIndex := x.matchIndex[p := e], nextIndex := x.nextIndex[p := e + 1]);
    var c := S.NewCommit(x1, n, |x.log|);
    var y := S.OnAppendReply(x, n, p, a, r);
    assert y == S.CommitTo(x1, c);
    OneServer(ss[l := y], h, l);
    AppliedIs(y);
    forall m | x.commitIndex < m <= |x.log| && x.log[m - 1].term == x.currentTerm
      ensures S.CanCommit(x1, n, m) <==> Committable(x.log, x.currentTerm, x1.matchIndex, n, l, m)
    {
      OwnMatchIndex(ss, h, l, m);
      TestIsMajority(x1, n, l, m);
    }
    if c > x.commitIndex {
      CommitTerm(x1, n, c);
    }
    forall m | c < m <= |x.log| ensures !Committable(x.log, x.currentTerm, x1.matchIndex, n, l, m) {
      CommittableTerm(x.log, x.currentTerm, x1.matchIndex, n, l, m);
    }
  }

  lemma CommitTerm(x: Server, n: nat, c: nat)
    requires 0 < c <= |x.log| && S.CanCommit(x, n, c)
    ensures x.log[c - 1].term == x.currentTerm
  {
  }

  lemma CommittableTerm(log: Log, t: nat, matches: seq<int>, n: nat, l: nat, m: nat)
    requires 0 < m <= |log|
    ensures Committable(log, t, matches, n, l, m) ==> log[m - 1].term == t
  {
  }

  /** What a returning reply to a message does: a later term demotes the caller; a reply to a call
      of a term that the caller does not lead does nothing; a success is booked and moves the
      commit index exactly as far as a majority is counted; a rejection moves the next index. */
  lemma MessageReturned(n: nat, run: seq<Step>, i: nat, k: nat)
    requires Legal(n, run) && i < |run| && run[i] == ReturnAppend(k)
    ensures var sys, sys2 := At(n, run, i), At(n, run, i + 1);
            && k < |sys.calls| && sys.calls[k].AppendCall? && sys.calls[k].appendState.Answered?
            && sys.calls[k].from < |sys.servers| == |sys2.servers| == n && sys.calls[k].to < n
            && var c, a, r := sys.calls[k], sys.calls[k].append, sys.calls[k].appendState.reply;
            var x, y, e := sys.servers[c.from], sys2.servers[c.from], a.prevLogIndex + |a.entries|;
            && OnlyCall(sys, sys2, k, c.(appendState := Finished(true))) && sys2.cells == sys.cells
            && Becomes(sys, sys2, c.from, y)
            && if r.term > x.currentTerm then Becomes(sys, sys2, c.from, Demoted(x, r.term))
               else if x.currentTerm != a.term || x.role != Leader then y == x
               else
                 && |x.matchIndex| == |x.nextIndex| == n
                 && if r.success then
                      && y.commitIndex <= |x.log|
                      && CommitMoves(x, x.matchIndex[c.to := e], n, c.from, y.commitIndex)
                      && y == x.(matchIndex := x.matchIndex[c.to := e], nextIndex := x.nextIndex[c.to := e + 1],
                                 commitIndex := y.commitIndex, lastApplied := y.commitIndex,
                                 applied := AppliedUpTo(x.log, y.commitIndex))
                    else
                      && |y.nextIndex| == n && y == x.(nextIndex := x.nextIndex[c.to := y.nextIndex[c.to]])
                      && Retreats(x.log, x.nextIndex[c.to], r, y.nextIndex[c.to])
  {
    hide Legal, After, HistAfter, CoreInv, CommitMoves, Retreats, S.NewCommit, S.Backtrack, AppendCallOk;
    InvAt(n, run, i);
    InvAt(n, run, i + 1);
    HistStep(n, run, i);
    AtStep(n, run, i);
    var sys, h := At(n, run, i), HistAt(n, run, i);
    var c := sys.calls[k];
    var x, r := sys.servers[c.from], c.appendState.reply;
    PeerCall(sys, h, k);
    if S.BookingDue(x, c.append, r) {
      if r.success {
        SuccessBooked(sys.servers, h, c.from, c.to, c.append, r);
      } else {
        LogTerms(n, run, i, c.from);
        RetreatIs(x.log, x.nextIndex[c.to], r);
      }
    }
  }

  lemma PeerCall(sys: System, h: Hist, k: nat)
    requires Inv(sys, h) && k < |sys.calls|
    ensures var c := sys.calls[k]; c.from < |sys.servers| && c.to < |sys.servers| && c.from != c.to
  {
    hide CoreInv;
    assert CallOk(sys.calls[k], |sys.servers|, |sys.cells|, h);
  }

  // ---------- candidacies ----------

  /** A timeout makes the server a candidate of the next term with its own vote. */
  lemma TimedOut(n: nat, run: seq<Step>, i: nat, s: nat)
    requires Legal(n, run) && i < |run| && run[i] == Timeout(s)
    ensures var sys, sys2 := At(n, run, i), At(n, run, i + 1);
            && s < |sys.servers| && sys2 == sys.(servers := sys2.servers)
            && Becomes(sys, sys2, s,
                 sys.servers[s].(currentTerm := sys.servers[s].currentTerm + 1, role := Candidate, votedFor := s))
  {
    hide Legal, After;
    AtStep(n, run, i);
  }

  /** The last term of a log, as a vote request names it. */
  function NamedTerm(log: Log): int { if log == [] then -1 else log[|log| - 1].term }

  /** A voting round makes one request to each other server and has one vote, the candidate's. */
  lemma RoundStarted(n: nat, run: seq<Step>, i: nat, s: nat)
    requires Legal(n, run) && i < |run| && run[i] == StartVoting(s)
    ensures var sys, sys2 := At(n, run, i), At(n, run, i + 1);
            && s < |sys.servers| == |sys.epochs| == n && sys.servers[s].role == Candidate
            && sys2 == sys.(cells := sys.cells + [1], calls := sys2.calls)
            && |sys2.calls| == |sys.calls| + n - 1 && sys.calls == sys2.calls[..|sys.calls|]
            && var x := sys.servers[s];
            var request := VoteArgs(x.currentTerm, s, |x.log|, NamedTerm(x.log));
            forall p :: 0 <= p < n && p != s ==>
              VoteCall(s, p, sys.epochs[s], |sys.cells|, request, Sent) in sys2.calls[|sys.calls|..]
  {
    hide Legal, After, HistAfter, CoreInv;
    InvAt(n, run, i);
    AtStep(n, run, i);
    OthersAre(s, n, 0);
    OthersLength(s, n, 0);
    var sys := At(n, run, i);
    var others := S.Others(s, n, 0);
    var args := S.MakeVoteArgs(sys.servers[s], s);
    var ballots := Ballots(s, others, sys.epochs[s], |sys.cells|, args);
    assert At(n, run, i + 1).calls[|sys.calls|..] == ballots;
    forall p | 0 <= p < n && p != s ensures VoteCall(s, p, sys.epochs[s], |sys.cells|, args, Sent) in ballots {
      assert p in others;
      var j :| 0 <= j < |others| && others[j] == p;
      assert ballots[j].to == p;
    }
  }

  // ---------- crashes and losses ----------

  /** What the server is when a crash takes effect: itself, or, if the crash is in the handler of a
      call of a later term or of its own leader, in that term already. */
  function AtCrash(x: Server, c: Call): Server {
    if c.AppendCall? then (if c.append.term < x.currentTerm then x else Following(x, c.append))
    else if x.currentTerm < c.vote.term then Demoted(x, c.vote.term) else x
  }

  /** A crash keeps term, vote and log, forgets everything else, retires the apply channel, and ends
      the call that was being handled, if there was one. */
  lemma Crashed(n: nat, run: seq<Step>, i: nat, s: nat, during: Option<nat>)
    requires Legal(n, run) && i < |run| && run[i] == Crash(s, during)
    ensures var sys, sys2 := At(n, run, i), At(n, run, i + 1);
            && s < |sys.servers| == |sys.epochs| && (during.Some? ==> during.value < |sys.calls|)
            && var x := if during.None? then sys.servers[s] else AtCrash(sys.servers[s], sys.calls[during.value]);
            && Becomes(sys, sys2, s, Server(x.currentTerm, x.votedFor, x.log, 0, 0, Follower, [], [], [], x.disk))
            && sys2.epochs == sys.epochs[s := sys.epochs[s] + 1] && sys2.cells == sys.cells
            && sys2.retired == sys.retired + [Channel(s, sys.servers[s].applied)]
            && |sys2.calls| == |sys.calls|
            && forall k :: 0 <= k < |sys.calls| ==>
                 if during == Some(k) then Stage(sys2.calls[k]) == 2 else sys2.calls[k] == sys.calls[k]
  {
    hide Legal, After, HistAfter, Committed;
    InvAt(n, run, i);
    AtStep(n, run, i);
    OneServer(At(n, run, i).servers, HistAt(n, run, i), s);
  }

  /** A loss ends one call and changes nothing else. */
  lemma CallLost(n: nat, run: seq<Step>, i: nat, k: nat)
    requires Legal(n, run) && i < |run| && run[i] == Lose(k)
    ensures var sys, sys2 := At(n, run, i), At(n, run, i + 1);
            && sys2 == sys.(calls := sys2.calls) && k < |sys2.calls| == |sys.calls| && Stage(sys2.calls[k]) == 2
            && forall l :: 0 <= l < |sys.calls| && l != k ==> sys2.calls[l] == sys.calls[l]
  {
    hide Legal, After;
    AtStep(n, run, i);
  }

  /** No call is of a later incarnation than its caller's. */
  lemma {:induction false} EpochsKnown(n: nat, run: seq<Step>, i: nat, k: nat)
    requires Legal(n, run) && i <= |run| && k < |At(n, run, i).calls|
    ensures At(n, run, i).calls[k].from < |At(n, run, i).epochs|
    ensures At(n, run, i).calls[k].epoch <= At(n, run, i).epochs[At(n, run, i).calls[k].from]
    decreases i
  {
    hide Legal, After, Next;
    StartsAtInit(n, run);
    if i > 0 {
      AtStep(n, run, i - 1);
      var sys := At(n, run, i - 1);
      if k < |sys.calls| {
        EpochsKnown(n, run, i - 1, k);
        EpochStep(sys, run[i - 1], k);
      } else {
        NewEpoch(sys, run[i - 1], k);
      }
    }
  }

  lemma EpochStep(sys: System, step: Step, k: nat)
    requires Wellformed(sys) && Enabled(sys, step) && InBounds(sys, step) && k < |sys.calls|
    ensures var c, sys2 := sys.calls[k], Next(sys, step);
            && k < |sys2.calls| && sys2.calls[k].from == c.from && sys2.calls[k].epoch == c.epoch
            && |sys2.epochs| == |sys.epochs| && sys.epochs[c.from] <= sys2.epochs[c.from]
            && (Crashes(step, c.from) ==> sys.epochs[c.from] < sys2.epochs[c.from])
  {
  }

  lemma NewEpoch(sys: System, step: Step, k: nat)
    requires Wellformed(sys) && Enabled(sys, step) && InBounds(sys, step)
    requires |sys.calls| <= k < |Next(sys, step).calls|
    ensures var c, sys2 := Next(sys, step).calls[k], Next(sys, step);
            c.from < |sys2.epochs| && c.epoch == sys2.epochs[c.from]
  {
  }

  /** A reply to a call that an incarnation made is never handed to a later incarnation. */
  lemma OldRepliesLost(n: nat, run: seq<Step>, i: nat, j: nat, k: nat)
    requires Legal(n, run) && i < j < |run| && k < |At(n, run, i).calls|
    requires Crashes(run[i], At(n, run, i).calls[k].from)
    ensures !Returns(run[j], k)
  {
    hide Legal, After, Next;
    EpochsKnown(n, run, i, k);
    AtStep(n, run, i);
    EpochStep(At(n, run, i), run[i], k);
    EpochsRise(n, run, i + 1, j, k);
    AtStep(n, run, j);
  }

  lemma {:induction false} EpochsRise(n: nat, run: seq<Step>, i: nat, j: nat, k: nat)
    requires Legal(n, run) && i <= j <= |run| && k < |At(n, run, i).calls|
    requires At(n, run, i).calls[k].from < |At(n, run, i).epochs|
    ensures var c, sys2 := At(n, run, i).calls[k], At(n, run, j);
            && k < |sys2.calls| && sys2.calls[k].from == c.from && sys2.calls[k].epoch == c.epoch
            && |sys2.epochs| == |At(n, run, i).epochs| && At(n, run, i).epochs[c.from] <= sys2.epochs[c.from]
    decreases j
  {
    hide Legal, After, Next;
    if i < j {
      EpochsRise(n, run, i, j - 1, k);
      AtStep(n, run, j - 1);
      EpochStep(At(n, run, j - 1), run[j - 1], k);
    }
  }
}
