/** The effect of every critical section of a Raft server, as a function of the
    server's state. The class in RaftServer.dfy is proved against these functions,
    and the cluster in Cluster.dfy takes its steps with them. */
module ServerSteps {
  import opened RaftTypes

  // ---------- persistence and role changes ----------

  function Persist(s: Server): Server {
    s.(disk := Some(Image(s.currentTerm, s.votedFor, s.log)))
  }

  /** A server started from stable storage; empty storage gives the initial state. */
  function Boot(disk: Option<Image>): Server {
    match disk
    case None => Server(0, -1, [], 0, 0, Follower, [], [], [], disk)
    case Some(i) => Server(i.currentTerm, i.votedFor, i.log, 0, 0, Follower, [], [], [], disk)
  }

  function ConvertToFollower(s: Server, term: nat, votedFor: int): Server {
    Persist(s.(role := Follower, currentTerm := term, votedFor := votedFor))
  }

  function ConvertToCandidate(s: Server, me: nat): Server {
    Persist(s.(role := Candidate, currentTerm := s.currentTerm + 1, votedFor := me))
  }

  function ConvertToLeader(s: Server, me: nat, n: nat): Server
    requires me < n
  {
    Persist(s.(role := Leader,
               nextIndex := seq(n, _ => |s.log| + 1),
               matchIndex := seq(n, _ => 0)[me := |s.log|]))
  }

  // ---------- voting ----------

  function LastTerm(log: Log): int {
    if log == [] then -1 else log[|log| - 1].term
  }

  /** Whether a log described by its last term and its length is at least as
      up-to-date as `log` (section 5.4.1 of the extended Raft paper). */
  predicate UpToDate(lastTerm: int, lastIndex: nat, log: Log) {
    lastTerm > LastTerm(log) || (lastTerm == LastTerm(log) && lastIndex >= |log|)
  }

  /** The peers of server `me` from `p` on, in order: all servers but itself. */
  function Others(me: nat, n: nat, p: nat): seq<nat>
    decreases n - p
  {
    if p >= n then [] else if p == me then Others(me, n, p + 1) else [p] + Others(me, n, p + 1)
  }

  function MakeVoteArgs(s: Server, me: nat): VoteArgs {
    VoteArgs(s.currentTerm, me, |s.log|, LastTerm(s.log))
  }

  /** The server's state once it has taken over the term of a vote request. */
  function JoinTerm(s: Server, term: nat): Server {
    if term > s.currentTerm then ConvertToFollower(s, term, -1) else s
  }

  predicate Grants(s: Server, args: VoteArgs) {
    && (s.votedFor == -1 || s.votedFor == args.candidateId)
    && UpToDate(args.lastLogTerm, args.lastLogIndex, s.log)
  }

  function RequestVote(s: Server, args: VoteArgs): (Server, VoteReply) {
    if args.term < s.currentTerm then (s, VoteReply(s.currentTerm, false))
    else
      var s1 := JoinTerm(s, args.term);
      if Grants(s1, args)
      then (Persist(s1.(votedFor := args.candidateId)), VoteReply(s1.currentTerm, true))
      else (s1, VoteReply(s1.currentTerm, false))
  }

  /** Whether a vote reply still counts for the round that asked for it. */
  predicate VoteCounts(s: Server, args: VoteArgs, reply: VoteReply) {
    && reply.term <= s.currentTerm == args.term
    && s.role == Candidate
  }

  /** A vote reply reaches the candidate, whose round holds `votes` votes. */
  function OnVoteReply(s: Server, me: nat, n: nat, args: VoteArgs, reply: VoteReply, votes: nat): (Server, nat)
    requires me < n
  {
    if reply.term > s.currentTerm then (ConvertToFollower(s, reply.term, -1), votes)
    else if !VoteCounts(s, args, reply) then (s, votes)
    else
      var votes1 := if reply.granted then votes + 1 else votes;
      if votes1 * 2 > n then (ConvertToLeader(s, me, n), votes1) else (s, votes1)
  }

  // ---------- replication ----------

  function Start(s: Server, command: Command): (Server, StartReply) {
    if s.role != Leader then (s, StartReply(-1, -1, false))
    else
      var s1 := Persist(s.(log := s.log + [Entry(command, s.currentTerm)]));
      (s1, StartReply(|s1.log|, s1.currentTerm, true))
  }

  predicate CanSend(s: Server, peer: nat) {
    peer < |s.nextIndex| && 1 <= s.nextIndex[peer] <= |s.log| + 1
  }

  function MakeAppendArgs(s: Server, me: nat, peer: nat): AppendArgs
    requires CanSend(s, peer)
  {
    var prev := s.nextIndex[peer] - 1;
    AppendArgs(s.currentTerm, me, prev,
               if prev > 0 then s.log[prev - 1].term else 0,
               s.log[prev..], s.commitIndex)
  }

  /** The server's state once it has recognised the sender of an accepted-term
      AppendEntries as leader. */
  function Recognise(s: Server, args: AppendArgs): Server {
    var s1 := if args.term > s.currentTerm then ConvertToFollower(s, args.term, args.leaderId) else s;
    if s1.role == Candidate && args.term >= s1.currentTerm
    then ConvertToFollower(s1, args.term, args.leaderId) else s1
  }

  predicate HasPrev(log: Log, args: AppendArgs) {
    && args.prevLogIndex <= |log|
    && (args.prevLogIndex > 0 ==> log[args.prevLogIndex - 1].term == args.prevLogTerm)
  }

  /** The 1-based index of the first entry of term `t`. */
  function FirstOfTerm(log: Log, t: nat): (i: nat)
    requires exists k :: 0 <= k < |log| && log[k].term == t
    ensures 1 <= i <= |log| && log[i - 1].term == t
    ensures forall k :: 0 <= k < i - 1 ==> log[k].term != t
  {
    if log[0].term == t then 1
    else
      assert exists k :: 0 <= k < |log[1..]| && log[1..][k].term == t by {
        var k :| 0 <= k < |log| && log[k].term == t;
        assert log[1..][k - 1].term == t;
      }
      1 + FirstOfTerm(log[1..], t)
  }

  function Reject(s: Server, args: AppendArgs): AppendReply
    requires !HasPrev(s.log, args)
  {
    if args.prevLogIndex > |s.log|
    then AppendReply(s.currentTerm, false, -1, |s.log| + 1)
    else
      var t := s.log[args.prevLogIndex - 1].term;
      AppendReply(s.currentTerm, false, t, FirstOfTerm(s.log, t))
  }

  /** The log after writing `entries` behind the first `at` entries: an existing
      suffix goes only if one of its entries conflicts with a new one. */
  function Merge(log: Log, at: nat, entries: Log): Log
    requires at <= |log|
    decreases |entries|
  {
    if at == |log| || entries == [] then log + entries
    else if entries[0].term != log[at].term then log[..at] + entries
    else Merge(log, at + 1, entries[1..])
  }

  function Min(a: nat, b: nat): nat { if a > b then b else a }

  /** The messages that apply the entries with 0-based positions from..to. */
  function Messages(log: Log, from: nat, to: nat): seq<ApplyMsg>
    requires from <= to <= |log|
  {
    seq(to - from, i requires 0 <= i < to - from => ApplyMsg(true, log[from + i].command, from + i + 1))
  }

  /** Sets the commit index and applies what it newly covers. */
  function CommitTo(s: Server, commit: nat): Server
    requires commit <= |s.log|
  {
    if s.lastApplied >= commit then s.(commitIndex := commit)
    else s.(commitIndex := commit, lastApplied := commit,
            applied := s.applied + Messages(s.log, s.lastApplied, commit))
  }

  /** An accepted AppendEntries: merge, store, commit, apply. */
  function Accept(s: Server, args: AppendArgs): Server
    requires HasPrev(s.log, args)
  {
    var s1 := Persist(s.(log := Merge(s.log, args.prevLogIndex, args.entries)));
    if args.leaderCommit > s1.commitIndex
    then CommitTo(s1, Min(args.leaderCommit, |s1.log|)) else s1
  }

  function AppendEntries(s: Server, args: AppendArgs): (Server, AppendReply) {
    if args.term < s.currentTerm then (s, AppendReply(s.currentTerm, false, 0, 0))
    else
      var s1 := Recognise(s, args);
      if !HasPrev(s1.log, args) then (s1, Reject(s1, args))
      else (Accept(s1, args), AppendReply(s1.currentTerm, true, 0, 0))
  }

  // ---------- the leader's bookkeeping ----------

  function CountAtLeast(matches: seq<int>, k: nat): nat {
    if matches == [] then 0
    else CountAtLeast(matches[..|matches| - 1], k) + (if matches[|matches| - 1] >= k then 1 else 0)
  }

  /** Whether the commit loop accepts index `k`: an entry of the current term
      that, with the leader itself, more than half of the servers are counted for. */
  predicate CanCommit(s: Server, n: nat, k: nat)
    requires 1 <= k <= |s.log|
  {
    s.log[k - 1].term == s.currentTerm && (1 + CountAtLeast(s.matchIndex, k)) * 2 > n
  }

  /** The greatest committable index in commitIndex+1..top, or else commitIndex. */
  function NewCommit(s: Server, n: nat, top: nat): (c: nat)
    requires top <= |s.log|
    ensures s.commitIndex <= c && (c == s.commitIndex || (s.commitIndex < c <= top && CanCommit(s, n, c)))
    ensures forall k :: c < k <= top ==> !CanCommit(s, n, k)
  {
    if top <= s.commitIndex then s.commitIndex
    else if CanCommit(s, n, top) then top
    else NewCommit(s, n, top - 1)
  }

  /** The 0-based position of the first entry with a term above `t`, or |log|. */
  function FirstAbove(log: Log, t: int): (i: nat)
    ensures i <= |log|
    ensures i < |log| ==> log[i].term > t
    ensures forall k :: 0 <= k < i ==> log[k].term <= t
  {
    if log == [] || log[0].term > t then 0 else 1 + FirstAbove(log[1..], t)
  }

  /** The leader's new nextIndex for a peer that answered with a conflict. */
  function Backtrack(log: Log, next: int, conflictTerm: int, conflictIndex: int): int {
    if conflictTerm <= 0 then conflictIndex
    else
      var i := FirstAbove(log, conflictTerm);
      if i == |log| then next
      else if exists k :: 0 <= k < i && log[k].term == conflictTerm then i + 1
      else conflictIndex
  }

  predicate CanBook(s: Server, n: nat, peer: nat) {
    && |s.nextIndex| == |s.matchIndex| == n && peer < n
    && s.commitIndex <= |s.log|
  }

  /** A reply from the peer's own term reaches the leader. */
  function Book(s: Server, n: nat, peer: nat, args: AppendArgs, reply: AppendReply): Server
    requires CanBook(s, n, peer)
  {
    if reply.success then
      var m := args.prevLogIndex + |args.entries|;
      var s1 := s.(matchIndex := s.matchIndex[peer := m], nextIndex := s.nextIndex[peer := m + 1]);
      CommitTo(s1, NewCommit(s1, n, |s1.log|))
    else
      s.(nextIndex := s.nextIndex[peer := Backtrack(s.log, s.nextIndex[peer], reply.conflictTerm, reply.conflictIndex)])
  }

  predicate BookingDue(s: Server, args: AppendArgs, reply: AppendReply) {
    reply.term <= s.currentTerm == args.term && s.role == Leader
  }

  function OnAppendReply(s: Server, n: nat, peer: nat, args: AppendArgs, reply: AppendReply): Server
    requires BookingDue(s, args, reply) ==> CanBook(s, n, peer)
  {
    if reply.term > s.currentTerm then ConvertToFollower(s, reply.term, -1)
    else if !BookingDue(s, args, reply) then s
    else Book(s, n, peer, args, reply)
  }
}
