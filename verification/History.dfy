/** What a run has done so far: facts that no server stores but that the safety
    argument is about. Steps add to the history and never read it. */
module History {
  import opened RaftTypes
  import opened Cluster
  import S = ServerSteps

  /** The leadership of one term: who led, whose votes it counted, the log it started
      with, and that log as the leader has extended it since. */
  datatype Reign = Reign(leader: nat, voters: set<nat>, start: Log, log: Log)

  datatype CandKey = CandKey(cand: nat, term: nat)
  datatype VoteKey = VoteKey(voter: nat, term: nat, cand: nat)
  datatype AckKey = AckKey(server: nat, term: nat)

  datatype Hist = Hist(
    reigns: map<nat, Reign>,
    cands: map<CandKey, Log>,     // the log of a candidate when its candidacy began
    votes: map<VoteKey, Log>,     // the log of a voter when it first granted the vote
    acks: map<AckKey, nat>)       // the longest prefix of a term's log a server has confirmed

  function Ack(h: Hist, server: nat, term: nat): nat {
    if AckKey(server, term) in h.acks then h.acks[AckKey(server, term)] else 0
  }

  function AddVote(h: Hist, k: VoteKey, log: Log): Hist {
    if k in h.votes then h else h.(votes := h.votes[k := log])
  }

  function AddCandidacy(h: Hist, me: nat, term: nat, log: Log): Hist {
    AddVote(h.(cands := h.cands[CandKey(me, term) := log]), VoteKey(me, term, me), log)
  }

  function AddReign(h: Hist, term: nat, leader: nat, voters: set<nat>, log: Log): Hist {
    h.(reigns := h.reigns[term := Reign(leader, voters, log, log)])
  }

  function AddAck(h: Hist, server: nat, term: nat, upTo: nat): Hist {
    if upTo <= Ack(h, server, term) then h else h.(acks := h.acks[AckKey(server, term) := upTo])
  }

  function AddEntry(h: Hist, leader: nat, term: nat, e: Entry): Hist
    requires term in h.reigns
  {
    var r := h.reigns[term];
    AddAck(h.(reigns := h.reigns[term := r.(log := r.log + [e])]), leader, term, |r.log| + 1)
  }

  /** The peers whose granted votes have been counted in a cell. */
  function CountedPeers(calls: seq<Call>, cell: nat): set<nat> {
    set k | 0 <= k < |calls| && calls[k].VoteCall? && calls[k].cell == cell && calls[k].voteState == Finished(true) ::
        calls[k].to
  }

  function Record(sys: System, step: Step, h: Hist): Hist
    requires Wellformed(sys) && Enabled(sys, step) && InBounds(sys, step)
  {
    match step
    case Timeout(s) => AddCandidacy(h, s, sys.servers[s].currentTerm + 1, sys.servers[s].log)
    case DeliverVote(k) =>
      var c := sys.calls[k];
      if S.RequestVote(sys.servers[c.to], c.vote).1.granted
      then AddVote(h, VoteKey(c.to, c.vote.term, c.from), sys.servers[c.to].log) else h
    case ReturnVote(k) =>
      var c := sys.calls[k];
      var sys1 := Next(sys, step);
      if sys.servers[c.from].role == Candidate && sys1.servers[c.from].role == Leader
      then AddReign(h, c.vote.term, c.from, CountedPeers(sys1.calls, c.cell) + {c.from}, sys.servers[c.from].log) else h
    case StartCommand(s, command) =>
      var x := sys.servers[s];
      if x.role == Leader && x.currentTerm in h.reigns
      then AddEntry(h, s, x.currentTerm, Entry(command, x.currentTerm)) else h
    case DeliverAppend(k) =>
      var c := sys.calls[k];
      if S.AppendEntries(sys.servers[c.to], c.append).1.success
      then AddAck(h, c.to, c.append.term, c.append.prevLogIndex + |c.append.entries|) else h
    case _ => h
  }

  ghost function HistAfter(n: nat, run: seq<Step>): Hist
    requires Legal(n, run)
  {
    if run == [] then Hist(map[], map[], map[], map[])
    else Record(After(n, run[..|run| - 1]), run[|run| - 1], HistAfter(n, run[..|run| - 1]))
  }
}
