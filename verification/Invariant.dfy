/** The invariant of every reachable state together with its history. */
module Invariant {
  import opened RaftTypes
  import opened Cluster
  import opened History
  import S = ServerSteps

  // ---------- logs ----------

  /** An entry lies where the leader of its term put it, behind the log that leader had there. */
  ghost predicate EntryOk(h: Hist, log: Log, i: nat)
    requires i < |log|
  {
    var t := log[i].term;
    t in h.reigns && |h.reigns[t].start| <= i < |h.reigns[t].log| && log[..i + 1] == h.reigns[t].log[..i + 1]
  }

  ghost predicate LogOk(h: Hist, log: Log) {
    forall i :: 0 <= i < |log| ==> EntryOk(h, log, i)
  }

  /** All terms of a log are below `t`. */
  ghost predicate Below(log: Log, t: nat) {
    forall i :: 0 <= i < |log| ==> log[i].term < t
  }

  // ---------- quorums ----------

  ghost predicate Bounded(n: nat, q: set<nat>) {
    forall v :: v in q ==> v < n
  }

  ghost predicate Majority(n: nat, q: set<nat>) {
    Bounded(n, q) && 2 * |q| > n
  }

  /** An entry of a leader's own term, at 1-based index `m`. */
  ghost predicate OwnIndex(h: Hist, t: nat, m: nat) {
    t in h.reigns && |h.reigns[t].start| < m <= |h.reigns[t].log|
  }

  ghost function Ackers(n: nat, h: Hist, t: nat, m: nat): set<nat> {
    set i: nat | i < n && Ack(h, i, t) >= m
  }

  /** Index `m` of term `t` is on a majority, so it is committed for good. */
  ghost predicate Chosen(n: nat, h: Hist, t: nat, m: nat) {
    OwnIndex(h, t, m) && Majority(n, Ackers(n, h, t, m))
  }

  /** The servers that have confirmed index `m` of term `t`, or still could. */
  ghost function MayAck(ss: seq<Server>, h: Hist, t: nat, m: nat): set<nat> {
    set i: nat | i < |ss| && (Ack(h, i, t) >= m || ss[i].currentTerm <= t)
  }

  /** Index `m` of term `t` is on a majority or may still get there. */
  ghost predicate Choosable(ss: seq<Server>, h: Hist, t: nat, m: nat) {
    OwnIndex(h, t, m) && Majority(|ss|, MayAck(ss, h, t, m))
  }

  /** A log prefix that has been committed in term `t` or before. */
  ghost predicate Committed(n: nat, h: Hist, p: Log, t: nat) {
    p == [] || exists u: nat, m: nat :: u <= t && Chosen(n, h, u, m) && p <= h.reigns[u].log[..m]
  }

  // ---------- the history by itself ----------

  ghost predicate ReignOk(n: nat, h: Hist, t: nat)
    requires t in h.reigns
  {
    var r := h.reigns[t];
    && r.leader < n && Majority(n, r.voters)
    && (forall v :: v in r.voters ==> VoteKey(v, t, r.leader) in h.votes)
    && CandKey(r.leader, t) in h.cands && h.cands[CandKey(r.leader, t)] == r.start
    && r.start <= r.log && LogOk(h, r.log)
    && (forall i :: |r.start| <= i < |r.log| ==> r.log[i].term == t)
  }

  ghost predicate CandOk(ss: seq<Server>, h: Hist, k: CandKey)
    requires k in h.cands
  {
    && 1 <= k.term && k.cand < |ss| && k.term <= ss[k.cand].currentTerm
    && LogOk(h, h.cands[k]) && Below(h.cands[k], k.term)
  }

  ghost predicate VoteOk(ss: seq<Server>, h: Hist, k: VoteKey)
    requires k in h.votes
  {
    && k.voter < |ss| && k.term <= ss[k.voter].currentTerm
    && CandKey(k.cand, k.term) in h.cands
    && LogOk(h, h.votes[k])
    && S.UpToDate(S.LastTerm(h.cands[CandKey(k.cand, k.term)]), |h.cands[CandKey(k.cand, k.term)]|, h.votes[k])
  }

  ghost predicate AckOk(ss: seq<Server>, h: Hist, k: AckKey)
    requires k in h.acks
  {
    && k.server < |ss| && k.term <= ss[k.server].currentTerm
    && k.term in h.reigns && h.acks[k] <= |h.reigns[k.term].log|
  }

  /** A server that voted for two candidates in one term had stood itself, had heard from
      the elected leader, and then answered that leader's late request. */
  ghost predicate DoubleVoteOk(h: Hist, v: nat, t: nat, a: nat, b: nat) {
    VoteKey(v, t, a) in h.votes && VoteKey(v, t, b) in h.votes && a != b ==>
      t in h.reigns && ((a == v && b == h.reigns[t].leader) || (b == v && a == h.reigns[t].leader))
  }

  ghost predicate HistOk(ss: seq<Server>, h: Hist) {
    && (forall t {:trigger ReignOk(|ss|, h, t)} :: t in h.reigns ==> ReignOk(|ss|, h, t))
    && (forall k {:trigger CandOk(ss, h, k)} :: k in h.cands ==> CandOk(ss, h, k))
    && (forall k {:trigger VoteOk(ss, h, k)} :: k in h.votes ==> VoteOk(ss, h, k))
    && (forall k {:trigger AckOk(ss, h, k)} :: k in h.acks ==> AckOk(ss, h, k))
    && (forall v, t, a, b :: DoubleVoteOk(h, v, t, a, b))
  }

  // ---------- one server against the history ----------

  /** The volatile and stored parts of a server agree with each other. */
  ghost predicate LocalOk(s: Server) {
    && s.lastApplied == s.commitIndex <= |s.log|
    && s.applied == S.Messages(s.log, 0, s.lastApplied)
    && (match s.disk
        case None => s.currentTerm == 0 && s.votedFor == -1 && s.log == []
        case Some(i) => i == Image(s.currentTerm, s.votedFor, s.log))
  }

  ghost predicate CandidateOk(s: Server, me: nat, h: Hist) {
    && s.votedFor == me
    && CandKey(me, s.currentTerm) in h.cands && h.cands[CandKey(me, s.currentTerm)] == s.log
    && VoteKey(me, s.currentTerm, me) in h.votes
    && !(s.currentTerm in h.reigns && h.reigns[s.currentTerm].leader == me)
  }

  ghost predicate LeaderOk(s: Server, me: nat, n: nat, h: Hist) {
    && s.currentTerm in h.reigns && h.reigns[s.currentTerm].leader == me
    && h.reigns[s.currentTerm].log == s.log
    && me < n == |s.nextIndex| == |s.matchIndex|
    && s.matchIndex[me] == |h.reigns[s.currentTerm].start|
    && (|h.reigns[s.currentTerm].start| < |s.log| ==> |s.log| <= Ack(h, me, s.currentTerm))
    && (forall p :: 0 <= p < n && p != me ==> 0 <= s.matchIndex[p] <= Ack(h, p, s.currentTerm))
    && (forall p :: 0 <= p < n ==> 1 <= s.nextIndex[p] <= |s.log| + 1)
  }

  /** A vote that the server gave in its current term is the one it remembers, except
      that recognising the elected leader overwrites a candidate's vote for itself. */
  ghost predicate CurrentVoteOk(s: Server, me: nat, h: Hist, c: nat) {
    VoteKey(me, s.currentTerm, c) in h.votes && c != s.votedFor ==>
      && c == me && s.role != Candidate
      && s.currentTerm in h.reigns && h.reigns[s.currentTerm].leader == s.votedFor
  }

  /** The server holds what it confirmed in its current term. */
  ghost predicate HoldsAcked(s: Server, me: nat, h: Hist) {
    var a := Ack(h, me, s.currentTerm);
    a > 0 ==>
      && s.currentTerm in h.reigns && a <= |h.reigns[s.currentTerm].log|
      && h.reigns[s.currentTerm].log[..a] <= s.log
  }

  ghost predicate ServerOk(s: Server, me: nat, n: nat, h: Hist) {
    && LocalOk(s) && LogOk(h, s.log) && Below(s.log, s.currentTerm + 1)
    && -1 <= s.votedFor < n
    && (s.role == Candidate ==> CandidateOk(s, me, h))
    && (s.role == Leader ==> LeaderOk(s, me, n, h))
    && (forall c :: CurrentVoteOk(s, me, h, c))
    && HoldsAcked(s, me, h)
    && Committed(n, h, s.log[..s.commitIndex], s.currentTerm)
  }

  // ---------- what keeps committed entries in place ----------

  /** Every later leader started with whatever may be committed in an earlier term. */
  ghost predicate LaterReignHas(ss: seq<Server>, h: Hist, t: nat, m: nat, u: nat) {
    Choosable(ss, h, t, m) && u in h.reigns && t < u ==> h.reigns[t].log[..m] <= h.reigns[u].start
  }

  ghost predicate ServerHas(ss: seq<Server>, h: Hist, t: nat, m: nat, v: nat) {
    Choosable(ss, h, t, m) && v < |ss| && m <= Ack(h, v, t) ==> h.reigns[t].log[..m] <= ss[v].log
  }

  ghost predicate VoterHad(ss: seq<Server>, h: Hist, t: nat, m: nat, k: VoteKey) {
    Choosable(ss, h, t, m) && k in h.votes && t < k.term && m <= Ack(h, k.voter, t) ==>
        h.reigns[t].log[..m] <= h.votes[k]
  }

  ghost predicate SafeOk(ss: seq<Server>, h: Hist) {
    && (forall t, m, u :: LaterReignHas(ss, h, t, m, u))
    && (forall t, m, v :: ServerHas(ss, h, t, m, v))
    && (forall t, m, k :: VoterHad(ss, h, t, m, k))
  }

  ghost predicate CoreInv(ss: seq<Server>, h: Hist) {
    && HistOk(ss, h)
    && (forall i {:trigger ServerOk(ss[i], i, |ss|, h)} :: 0 <= i < |ss| ==> ServerOk(ss[i], i, |ss|, h))
    && SafeOk(ss, h)
  }

  // ---------- calls ----------

  ghost predicate VoteCallOk(c: Call, n: nat, h: Hist)
    requires c.VoteCall?
  {
    && c.vote.candidateId == c.from != c.to
    && CandKey(c.from, c.vote.term) in h.cands
    && c.vote.lastLogIndex == |h.cands[CandKey(c.from, c.vote.term)]|
    && c.vote.lastLogTerm == S.LastTerm(h.cands[CandKey(c.from, c.vote.term)])
    && (c.voteState.Answered? && c.voteState.reply.granted ==> VoteKey(c.to, c.vote.term, c.from) in h.votes)
    && (c.voteState == Finished(true) ==> VoteKey(c.to, c.vote.term, c.from) in h.votes)
  }

  ghost predicate AppendArgsOk(a: AppendArgs, from: nat, n: nat, h: Hist) {
    && a.term in h.reigns && h.reigns[a.term].leader == from == a.leaderId
    && a.prevLogIndex + |a.entries| <= |h.reigns[a.term].log|
    && a.entries == h.reigns[a.term].log[a.prevLogIndex..a.prevLogIndex + |a.entries|]
    && (a.prevLogIndex > 0 ==> h.reigns[a.term].log[a.prevLogIndex - 1].term == a.prevLogTerm)
    && a.leaderCommit <= a.prevLogIndex + |a.entries|
    && Committed(n, h, h.reigns[a.term].log[..a.leaderCommit], a.term)
  }

  ghost predicate AppendReplyOk(a: AppendArgs, to: nat, r: AppendReply, h: Hist) {
    if r.success then r.term == a.term && a.prevLogIndex + |a.entries| <= Ack(h, to, a.term)
    else r.term > a.term || (r.term == a.term && 1 <= r.conflictIndex <= a.prevLogIndex)
  }

  ghost predicate AppendCallOk(c: Call, n: nat, h: Hist)
    requires c.AppendCall?
  {
    && c.from != c.to
    && AppendArgsOk(c.append, c.from, n, h)
    && (c.appendState.Answered? ==> AppendReplyOk(c.append, c.to, c.appendState.reply, h))
  }

  ghost predicate CallOk(c: Call, n: nat, cells: nat, h: Hist) {
    && c.from < n && c.to < n
    && (c.VoteCall? ==> c.cell < cells && VoteCallOk(c, n, h))
    && (c.AppendCall? ==> AppendCallOk(c, n, h))
  }

  /** Calls of one voting round go to different peers for the same candidacy. */
  ghost predicate RoundOk(calls: seq<Call>, k: nat, l: nat) {
    k < l < |calls| && calls[k].VoteCall? && calls[l].VoteCall? && calls[k].cell == calls[l].cell ==>
      calls[k].to != calls[l].to && calls[k].from == calls[l].from && calls[k].vote == calls[l].vote
  }

  ghost predicate CellOk(sys: System, c: nat)
    requires c < |sys.cells|
  {
    sys.cells[c] == 1 + |CountedPeers(sys.calls, c)|
  }

  ghost predicate ChannelOk(c: Channel, n: nat, h: Hist) {
    exists p: Log, t: nat :: Committed(n, h, p, t) && c.messages == S.Messages(p, 0, |p|)
  }

  ghost predicate NetInv(sys: System, h: Hist) {
    && Wellformed(sys)
    && (forall k {:trigger CallOk(sys.calls[k], |sys.servers|, |sys.cells|, h)} :: 0 <= k < |sys.calls| ==>
         CallOk(sys.calls[k], |sys.servers|, |sys.cells|, h))
    && (forall k, l :: RoundOk(sys.calls, k, l))
    && (forall c :: 0 <= c < |sys.cells| ==> CellOk(sys, c))
    && (forall i {:trigger ChannelOk(sys.retired[i], |sys.servers|, h)} :: 0 <= i < |sys.retired| ==>
         ChannelOk(sys.retired[i], |sys.servers|, h))
  }

  ghost predicate Inv(sys: System, h: Hist) {
    CoreInv(sys.servers, h) && NetInv(sys, h)
  }
}
