/** Each kind of action by one server keeps the invariant of servers and history.
    The handlers are compositions of these actions. */
module CoreSteps {
  import opened RaftTypes
  import opened History
  import opened Invariant
  import opened Facts
  import opened Growth
  import S = ServerSteps

  lemma GrowSelf(h: Hist, s: nat)
    ensures Grow(h, h, s)
  {
  }

  lemma CoreReigns(ss: seq<Server>, h: Hist)
    requires CoreInv(ss, h)
    ensures ReignsOk(|ss|, h)
  {
    forall t | t in h.reigns ensures ReignOk(|ss|, h, t) && Below(h.reigns[t].start, t) {
      assert ReignOk(|ss|, h, t);
      assert CandOk(ss, h, CandKey(h.reigns[t].leader, t));
    }
  }

  lemma OneServer(ss: seq<Server>, h: Hist, s: nat)
    requires CoreInv(ss, h) && s < |ss|
    ensures ServerOk(ss[s], s, |ss|, h)
  {
  }

  /** A server confirms, votes and stands only in terms it has reached. */
  lemma NoFuture(ss: seq<Server>, h: Hist, s: nat, t: nat)
    requires HistOk(ss, h) && s < |ss| && ss[s].currentTerm < t
    ensures Ack(h, s, t) == 0 && CandKey(s, t) !in h.cands && forall c :: VoteKey(s, t, c) !in h.votes
    ensures t in h.reigns ==> h.reigns[t].leader != s
  {
    assert AckKey(s, t) in h.acks ==> AckOk(ss, h, AckKey(s, t));
    assert CandKey(s, t) in h.cands ==> CandOk(ss, h, CandKey(s, t));
    assert t in h.reigns ==> ReignOk(|ss|, h, t);
    forall c ensures VoteKey(s, t, c) !in h.votes {
      assert VoteKey(s, t, c) in h.votes ==> VoteOk(ss, h, VoteKey(s, t, c));
    }
  }

  // ---------- actions that leave the history alone ----------

  /** A change of one server that keeps its log and does not take back its term. */
  lemma QuietStep(ss: seq<Server>, h: Hist, s: nat, x: Server)
    requires CoreInv(ss, h) && s < |ss|
    requires x.log == ss[s].log && ss[s].currentTerm <= x.currentTerm
    requires ServerOk(x, s, |ss|, h)
    ensures CoreInv(ss[s := x], h)
  {
    var ss2 := ss[s := x];
    GrowSelf(h, s);
    OldHistory(ss, h, ss2, h, s);
    SafeFrame(ss, h, ss2, h, s);
    forall v, t, a, b ensures DoubleVoteOk(h, v, t, a, b) {}
    CoreUpdate(ss, h, ss2, h, s);
  }

  /** Joining a later term, or recognising the leader of the own term as a candidate. */
  lemma StepDown(ss: seq<Server>, h: Hist, s: nat, t: nat, vf: int)
    requires CoreInv(ss, h) && s < |ss|
    requires ss[s].currentTerm < t || (ss[s].currentTerm == t && ss[s].role == Candidate && vf != -1)
    requires vf == -1 || (t in h.reigns && h.reigns[t].leader == vf)
    ensures CoreInv(ss[s := S.ConvertToFollower(ss[s], t, vf)], h)
  {
    var x := S.ConvertToFollower(ss[s], t, vf);
    assert ServerOk(ss[s], s, |ss|, h);
    if vf != -1 { assert ReignOk(|ss|, h, t); }
    forall c ensures CurrentVoteOk(x, s, h, c) {
      if ss[s].currentTerm < t {
        NoFuture(ss, h, s, t);
      } else {
        assert CurrentVoteOk(ss[s], s, h, c);
      }
    }
    if ss[s].currentTerm < t { NoFuture(ss, h, s, t); }
    CommittedLater(|ss|, h, ss[s].log[..ss[s].commitIndex], ss[s].currentTerm, t);
    QuietStep(ss, h, s, x);
  }

  /** A crash keeps term, vote and log, and nothing else. */
  lemma RebootStep(ss: seq<Server>, h: Hist, s: nat)
    requires CoreInv(ss, h) && s < |ss|
    ensures CoreInv(ss[s := S.Boot(ss[s].disk)], h)
    ensures var x := S.Boot(ss[s].disk);
            x.currentTerm == ss[s].currentTerm && x.votedFor == ss[s].votedFor && x.log == ss[s].log
  {
    var x := S.Boot(ss[s].disk);
    assert ServerOk(ss[s], s, |ss|, h);
    assert x.log == ss[s].log;
    forall c ensures CurrentVoteOk(x, s, h, c) {
      assert CurrentVoteOk(ss[s], s, h, c);
    }
    QuietStep(ss, h, s, x);
  }

  /** Moving the commit index to a committed position and applying up to it. */
  lemma CommitStep(ss: seq<Server>, h: Hist, s: nat, c: nat)
    requires CoreInv(ss, h) && s < |ss|
    requires ss[s].commitIndex <= c <= |ss[s].log|
    requires Committed(|ss|, h, ss[s].log[..c], ss[s].currentTerm)
    ensures CoreInv(ss[s := S.CommitTo(ss[s], c)], h)
  {
    var x := S.CommitTo(ss[s], c);
    assert ServerOk(ss[s], s, |ss|, h);
    assert LocalOk(x);
    forall k ensures CurrentVoteOk(x, s, h, k) {
      assert CurrentVoteOk(ss[s], s, h, k);
    }
    QuietStep(ss, h, s, x);
  }

  /** The leader notes what a peer has confirmed, and where to continue. */
  lemma NoteStep(ss: seq<Server>, h: Hist, s: nat, p: nat, m: int, next: int)
    requires CoreInv(ss, h) && s < |ss| && ss[s].role == Leader
    requires p < |ss| && p != s && |ss[s].matchIndex| == |ss[s].nextIndex| == |ss|
    requires 0 <= m <= Ack(h, p, ss[s].currentTerm) && 1 <= next <= |ss[s].log| + 1
    ensures CoreInv(ss[s := ss[s].(matchIndex := ss[s].matchIndex[p := m], nextIndex := ss[s].nextIndex[p := next])], h)
  {
    var x := ss[s].(matchIndex := ss[s].matchIndex[p := m], nextIndex := ss[s].nextIndex[p := next]);
    assert ServerOk(ss[s], s, |ss|, h);
    forall k ensures CurrentVoteOk(x, s, h, k) {
      assert CurrentVoteOk(ss[s], s, h, k);
    }
    QuietStep(ss, h, s, x);
  }

  // ---------- candidacies and votes ----------

  lemma CandidacyHistory(ss: seq<Server>, h: Hist, s: nat, ss2: seq<Server>, h2: Hist)
    requires HistOk(ss, h) && s < |ss| && LogOk(h, ss[s].log) && Below(ss[s].log, ss[s].currentTerm + 1)
    requires ss2 == ss[s := S.ConvertToCandidate(ss[s], s)]
    requires h2 == AddCandidacy(h, s, ss[s].currentTerm + 1, ss[s].log)
    ensures Advance(ss, h, ss2, h2, s) && HistOk(ss2, h2) && LogOk(h2, ss[s].log)
    ensures h2 == h.(cands := h2.cands, votes := h2.votes)
    ensures forall k {:trigger k in h2.votes} :: k in h2.votes ==>
        k in h.votes || (k == VoteKey(s, ss[s].currentTerm + 1, s) && h2.votes[k] == ss[s].log)
    ensures VoteKey(s, ss[s].currentTerm + 1, s) in h2.votes
    ensures var k := CandKey(s, ss[s].currentTerm + 1); k in h2.cands && h2.cands[k] == ss[s].log
  {
    hide EntryOk, LogOk, Committed;
    var t := ss[s].currentTerm + 1;
    NoFuture(ss, h, s, t);
    OldHistory(ss, h, ss2, h2, s);
    LogStable(h, h2, s, ss[s].log);
    forall v, u, a, b ensures DoubleVoteOk(h2, v, u, a, b) {
      assert DoubleVoteOk(h, v, u, a, b);
    }
  }

  lemma CandidacyStep(ss: seq<Server>, h: Hist, s: nat)
    requires CoreInv(ss, h) && s < |ss|
    ensures CoreInv(ss[s := S.ConvertToCandidate(ss[s], s)], AddCandidacy(h, s, ss[s].currentTerm + 1, ss[s].log))
    ensures Grow(h, AddCandidacy(h, s, ss[s].currentTerm + 1, ss[s].log), s)
  {
    var t := ss[s].currentTerm + 1;
    var x := S.ConvertToCandidate(ss[s], s);
    var ss2, h2 := ss[s := x], AddCandidacy(h, s, t, ss[s].log);
    assert ServerOk(ss[s], s, |ss|, h);
    NoFuture(ss, h, s, t);
    CandidacyHistory(ss, h, s, ss2, h2);
    CommittedStable(|ss|, h, h2, s, x.log[..x.commitIndex], ss[s].currentTerm, t);
    forall c ensures CurrentVoteOk(x, s, h2, c) {}
    assert HoldsAcked(x, s, h2) by { assert Ack(h2, s, t) == Ack(h, s, t); }
    SafeFrame(ss, h, ss2, h2, s);
    CoreUpdate(ss, h, ss2, h2, s);
  }

  lemma GrantHistory(ss: seq<Server>, h: Hist, s: nat, c: nat, ss2: seq<Server>, h2: Hist)
    requires HistOk(ss, h) && s < |ss| && c < |ss| && c != s && LogOk(h, ss[s].log)
    requires ss[s].votedFor == -1 || ss[s].votedFor == c
    requires forall d :: CurrentVoteOk(ss[s], s, h, d)
    requires ss[s].role == Candidate ==> ss[s].votedFor == s
    requires var k := CandKey(c, ss[s].currentTerm);
             k in h.cands && S.UpToDate(S.LastTerm(h.cands[k]), |h.cands[k]|, ss[s].log)
    requires ss2 == ss[s := S.Persist(ss[s].(votedFor := c))]
    requires h2 == AddVote(h, VoteKey(s, ss[s].currentTerm, c), ss[s].log)
    ensures Advance(ss, h, ss2, h2, s) && HistOk(ss2, h2)
  {
    hide EntryOk, LogOk, DoubleVoteOk, CurrentVoteOk, S.UpToDate;
    OldHistory(ss, h, ss2, h2, s);
    LogStable(h, h2, s, ss[s].log);
    forall v, u, a, b ensures DoubleVoteOk(h2, v, u, a, b) {
      assert CurrentVoteOk(ss[s], s, h, a) && CurrentVoteOk(ss[s], s, h, b);
      GrantDouble(h, s, c, ss[s], v, u, a, b);
    }
  }

  /** A second vote of a term goes to the elected leader, after the voter stood itself. */
  lemma GrantDouble(h: Hist, s: nat, c: nat, x: Server, v: nat, u: nat, a: nat, b: nat)
    requires DoubleVoteOk(h, v, u, a, b) && CurrentVoteOk(x, s, h, a) && CurrentVoteOk(x, s, h, b)
    requires x.votedFor == -1 || x.votedFor == c
    requires c != s && (x.role == Candidate ==> x.votedFor == s)
    ensures DoubleVoteOk(AddVote(h, VoteKey(s, x.currentTerm, c), x.log), v, u, a, b)
  {
  }

  /** Granting a vote to a candidate whose log at its candidacy is up-to-date. */
  lemma GrantStep(ss: seq<Server>, h: Hist, s: nat, c: nat)
    requires CoreInv(ss, h) && s < |ss| && c < |ss| && c != s
    requires ss[s].votedFor == -1 || ss[s].votedFor == c
    requires var k := CandKey(c, ss[s].currentTerm);
             k in h.cands && S.UpToDate(S.LastTerm(h.cands[k]), |h.cands[k]|, ss[s].log)
    ensures CoreInv(ss[s := S.Persist(ss[s].(votedFor := c))], AddVote(h, VoteKey(s, ss[s].currentTerm, c), ss[s].log))
    ensures Grow(h, AddVote(h, VoteKey(s, ss[s].currentTerm, c), ss[s].log), s)
  {
    var t := ss[s].currentTerm;
    var x := S.Persist(ss[s].(votedFor := c));
    var ss2, h2 := ss[s := x], AddVote(h, VoteKey(s, t, c), ss[s].log);
    assert ServerOk(ss[s], s, |ss|, h);
    GrantHistory(ss, h, s, c, ss2, h2);
    LogStable(h, h2, s, x.log);
    CommittedStable(|ss|, h, h2, s, x.log[..x.commitIndex], t, t);
    forall d ensures CurrentVoteOk(x, s, h2, d) {
      assert CurrentVoteOk(ss[s], s, h, d);
    }
    assert forall v, u :: Ack(h2, v, u) == Ack(h, v, u);
    assert ServerOk(x, s, |ss|, h2);
    SafeFrame(ss, h, ss2, h2, s);
    CoreUpdate(ss, h, ss2, h2, s);
  }
}
