/** The three actions that committed entries depend on: winning an election, appending
    a command, and merging a leader's entries. */
module LeaderSteps {
  import opened RaftTypes
  import opened History
  import opened Invariant
  import opened Facts
  import opened Growth
  import opened CoreSteps
  import S = ServerSteps

  // ---------- elections ----------

  /** A candidate with a majority of the votes is the first to win its term. */
  lemma FirstWinner(ss: seq<Server>, h: Hist, s: nat, voters: set<nat>)
    requires CoreInv(ss, h) && s < |ss| && ss[s].role == Candidate
    requires Majority(|ss|, voters)
    requires forall v :: v in voters ==> VoteKey(v, ss[s].currentTerm, s) in h.votes
    ensures ss[s].currentTerm !in h.reigns
  {
    var t := ss[s].currentTerm;
    if t in h.reigns {
      var l := h.reigns[t].leader;
      assert ReignOk(|ss|, h, t);
      assert l != s && VoteKey(s, t, l) !in h.votes by {
        assert ServerOk(ss[s], s, |ss|, h);
        assert CurrentVoteOk(ss[s], s, h, l);
      }
      var v := QuorumsMeet(|ss|, voters, h.reigns[t].voters);
      assert v == s by {
        assert DoubleVoteOk(h, v, t, s, l);
      }
    }
  }

  /** The election restriction: a log that is at least as up-to-date as one that holds a
      prefix ending in the own entries of term `t` holds that prefix, too, provided
      every later leader started with it. */
  lemma UpToDateHolds(n: nat, h: Hist, cand: Log, log: Log, t: nat, m: nat)
    requires ReignsOk(n, h) && LogOk(h, cand) && LogOk(h, log)
    requires S.UpToDate(S.LastTerm(cand), |cand|, log)
    requires OwnIndex(h, t, m) && h.reigns[t].log[..m] <= log
    requires forall u :: u in h.reigns && t < u ==> h.reigns[t].log[..m] <= h.reigns[u].start
    ensures h.reigns[t].log[..m] <= cand
  {
    var p := h.reigns[t].log[..m];
    assert ReignOk(n, h, t);
    ReignEntry(n, h, t, m - 1);
    assert log[m - 1] == p[m - 1];
    LogSorted(n, h, log);
    assert log[m - 1].term <= log[|log| - 1].term;
    var last := |cand| - 1;
    var u := cand[last].term;
    assert EntryOk(h, cand, last);
    assert cand[..last + 1] == cand;
    if t < u {
      assert ReignOk(n, h, u);
      assert p <= h.reigns[u].start <= h.reigns[u].log;
    } else {
      assert EntryOk(h, log, |log| - 1);
      assert log[..|log|] == log;
    }
  }

  lemma NewReignHolds(ss: seq<Server>, h: Hist, s: nat, voters: set<nat>, t: nat, m: nat)
    requires CoreInv(ss, h) && s < |ss| && ss[s].role == Candidate
    requires Majority(|ss|, voters)
    requires forall v :: v in voters ==> VoteKey(v, ss[s].currentTerm, s) in h.votes
    requires Choosable(ss, h, t, m) && t < ss[s].currentTerm
    ensures h.reigns[t].log[..m] <= ss[s].log
  {
    assert ServerOk(ss[s], s, |ss|, h);
    var v := QuorumsMeet(|ss|, voters, MayAck(ss, h, t, m));
    var k := VoteKey(v, ss[s].currentTerm, s);
    assert VoteOk(ss, h, k);
    assert VoterHad(ss, h, t, m, k);
    CoreReigns(ss, h);
    forall u | u in h.reigns && t < u ensures h.reigns[t].log[..m] <= h.reigns[u].start {
      assert LaterReignHas(ss, h, t, m, u);
    }
    UpToDateHolds(|ss|, h, ss[s].log, h.votes[k], t, m);
  }

  lemma WinHistory(ss: seq<Server>, h: Hist, s: nat, voters: set<nat>, ss2: seq<Server>, h2: Hist)
    requires CoreInv(ss, h) && s < |ss| && ss[s].role == Candidate
    requires Majority(|ss|, voters)
    requires forall v :: v in voters ==> VoteKey(v, ss[s].currentTerm, s) in h.votes
    requires ss[s].currentTerm !in h.reigns
    requires ss2 == ss[s := S.ConvertToLeader(ss[s], s, |ss|)]
    requires h2 == AddReign(h, ss[s].currentTerm, s, voters, ss[s].log)
    ensures Advance(ss, h, ss2, h2, s) && HistOk(ss2, h2)
    ensures LogOk(h2, ss[s].log)
  {
    var t := ss[s].currentTerm;
    assert forall v, u :: Ack(h2, v, u) == Ack(h, v, u);
    OldHistory(ss, h, ss2, h2, s);
    assert ServerOk(ss[s], s, |ss|, h);
    LogStable(h, h2, s, ss[s].log);
    forall u | u in h2.reigns ensures ReignOk(|ss2|, h2, u) {}
    forall v, u, a, b ensures DoubleVoteOk(h2, v, u, a, b) {
      assert DoubleVoteOk(h, v, u, a, b);
    }
  }

  lemma WinSafe(ss: seq<Server>, h: Hist, s: nat, voters: set<nat>, ss2: seq<Server>, h2: Hist)
    requires CoreInv(ss, h) && s < |ss| && ss[s].role == Candidate
    requires Majority(|ss|, voters)
    requires forall v :: v in voters ==> VoteKey(v, ss[s].currentTerm, s) in h.votes
    requires ss[s].currentTerm !in h.reigns
    requires ss2 == ss[s := S.ConvertToLeader(ss[s], s, |ss|)]
    requires h2 == AddReign(h, ss[s].currentTerm, s, voters, ss[s].log)
    requires Advance(ss, h, ss2, h2, s)
    ensures SafeOk(ss2, h2)
  {
    forall t: nat, m: nat | Choosable(ss2, h2, t, m) ensures Choosable(ss, h, t, m) && h2.reigns[t] == h.reigns[t] {
      assert t != ss[s].currentTerm;
      ChoosableBack(ss, h, ss2, h2, s, t, m);
    }
    forall t, m, u ensures LaterReignHas(ss2, h2, t, m, u) {
      if Choosable(ss2, h2, t, m) && t < u {
        assert LaterReignHas(ss, h, t, m, u);
        if u == ss[s].currentTerm {
          NewReignHolds(ss, h, s, voters, t, m);
        }
      }
    }
    forall t: nat, m: nat, v: nat ensures ServerHas(ss2, h2, t, m, v) {
      assert ServerHas(ss, h, t, m, v);
    }
    forall t, m, k ensures VoterHad(ss2, h2, t, m, k) {
      assert VoterHad(ss, h, t, m, k);
    }
  }

  lemma WinStep(ss: seq<Server>, h: Hist, s: nat, voters: set<nat>)
    requires CoreInv(ss, h) && s < |ss| && ss[s].role == Candidate
    requires Majority(|ss|, voters)
    requires forall v :: v in voters ==> VoteKey(v, ss[s].currentTerm, s) in h.votes
    ensures CoreInv(ss[s := S.ConvertToLeader(ss[s], s, |ss|)], AddReign(h, ss[s].currentTerm, s, voters, ss[s].log))
    ensures Grow(h, AddReign(h, ss[s].currentTerm, s, voters, ss[s].log), s)
  {
    var t := ss[s].currentTerm;
    var x := S.ConvertToLeader(ss[s], s, |ss|);
    var ss2, h2 := ss[s := x], AddReign(h, t, s, voters, ss[s].log);
    FirstWinner(ss, h, s, voters);
    WinHistory(ss, h, s, voters, ss2, h2);
    WinSafe(ss, h, s, voters, ss2, h2);
    assert ServerOk(ss[s], s, |ss|, h);
    CommittedStable(|ss|, h, h2, s, x.log[..x.commitIndex], t, t);
    forall c ensures CurrentVoteOk(x, s, h2, c) {
      assert CurrentVoteOk(ss[s], s, h, c);
    }
    assert HoldsAcked(x, s, h2) by { assert Ack(h2, s, t) == Ack(h, s, t); }
    CoreUpdate(ss, h, ss2, h2, s);
  }

  // ---------- a new command ----------

  lemma AckBound(ss: seq<Server>, h: Hist, v: nat, t: nat)
    requires HistOk(ss, h)
    ensures Ack(h, v, t) > 0 ==>
              v < |ss| && t <= ss[v].currentTerm && t in h.reigns && Ack(h, v, t) <= |h.reigns[t].log|
  {
    assert AckKey(v, t) in h.acks ==> AckOk(ss, h, AckKey(v, t));
  }

  lemma AppendedLog(ss: seq<Server>, h: Hist, s: nat, e: Entry, h2: Hist)
    requires CoreInv(ss, h) && s < |ss| && ss[s].role == Leader && e.term == ss[s].currentTerm
    requires e.term in h.reigns && h2 == AddEntry(h, s, e.term, e)
    ensures h.reigns[e.term].leader == s && h.reigns[e.term].log == ss[s].log
    ensures h2 == h.(reigns := h.reigns[e.term := h.reigns[e.term].(log := ss[s].log + [e])],
                     acks := h.acks[AckKey(s, e.term) := |ss[s].log| + 1])
    ensures Grow(h, h2, s) && LogOk(h2, ss[s].log + [e])
    ensures forall v, t :: (v != s || t != e.term) ==> Ack(h2, v, t) == Ack(h, v, t)
  {
    hide SafeOk, Committed, Majority;
    var t := e.term;
    var log2 := ss[s].log + [e];
    assert ServerOk(ss[s], s, |ss|, h);
    assert ReignOk(|ss|, h, t);
    AckBound(ss, h, s, t);
    LogStable(h, h2, s, ss[s].log);
    forall i | 0 <= i < |log2| ensures EntryOk(h2, log2, i) {
      if i < |ss[s].log| {
        assert EntryOk(h2, ss[s].log, i);
        assert log2[..i + 1] == ss[s].log[..i + 1];
      }
    }
  }

  lemma AppendHistory(ss: seq<Server>, h: Hist, s: nat, e: Entry, ss2: seq<Server>, h2: Hist)
    requires CoreInv(ss, h) && s < |ss| && ss[s].role == Leader && e.term == ss[s].currentTerm
    requires ss2 == ss[s := S.Persist(ss[s].(log := ss[s].log + [e]))]
    requires e.term in h.reigns && h2 == AddEntry(h, s, e.term, e)
    ensures Advance(ss, h, ss2, h2, s) && HistOk(ss2, h2)
  {
    AppendedLog(ss, h, s, e, h2);
    OldHistory(ss, h, ss2, h2, s);
    var t := e.term;
    assert ReignOk(|ss|, h, t);
    assert ReignOk(|ss2|, h2, t);
    forall k | k in h2.acks ensures AckOk(ss2, h2, k) {
      assert k in h.acks ==> AckOk(ss, h, k);
    }
    forall v, u, a, b ensures DoubleVoteOk(h2, v, u, a, b) {
      assert DoubleVoteOk(h, v, u, a, b);
    }
  }

  lemma AppendSafe(ss: seq<Server>, h: Hist, s: nat, e: Entry, ss2: seq<Server>, h2: Hist)
    requires CoreInv(ss, h) && s < |ss| && ss[s].role == Leader && e.term == ss[s].currentTerm
    requires ss2 == ss[s := S.Persist(ss[s].(log := ss[s].log + [e]))]
    requires e.term in h.reigns && h.reigns[e.term].log == ss[s].log && h2.votes == h.votes
    requires Advance(ss, h, ss2, h2, s)
    requires h2.reigns == h.reigns[e.term := h.reigns[e.term].(log := ss2[s].log)]
    requires Ack(h2, s, e.term) == |ss2[s].log|
    requires forall v, t :: (v != s || t != e.term) ==> Ack(h2, v, t) == Ack(h, v, t)
    ensures SafeOk(ss2, h2)
  {
    forall t: nat, m: nat | Choosable(ss2, h2, t, m)
      ensures (Choosable(ss, h, t, m) && h2.reigns[t].log[..m] == h.reigns[t].log[..m])
          || (t == e.term && m == |ss2[s].log|)
    {
      if OwnIndex(h, t, m) {
        ChoosableBack(ss, h, ss2, h2, s, t, m);
      }
    }
    forall t, m, u ensures LaterReignHas(ss2, h2, t, m, u) {
      assert LaterReignHas(ss, h, t, m, u);
      if Choosable(ss2, h2, t, m) && t == e.term && m == |ss2[s].log| && u in h.reigns && t < u {
        FreshUnconfirmed(ss, h, s, u, ss2, h2, t, m);
      }
    }
    forall t: nat, m: nat, v: nat ensures ServerHas(ss2, h2, t, m, v) {
      assert ServerHas(ss, h, t, m, v);
      AckBound(ss, h, v, t);
    }
    forall t, m, k ensures VoterHad(ss2, h2, t, m, k) {
      assert VoterHad(ss, h, t, m, k);
      assert k in h.votes ==> VoteOk(ss, h, k);
      AckBound(ss, h, k.voter, t);
    }
  }

  /** The voters of a later leader can no longer confirm a new entry of an earlier term. */
  lemma FreshUnconfirmed(ss: seq<Server>, h: Hist, s: nat, u: nat, ss2: seq<Server>, h2: Hist, t: nat, m: nat)
    requires HistOk(ss, h) && Advance(ss, h, ss2, h2, s) && u in h.reigns && t < u
    requires ss[s].currentTerm == ss2[s].currentTerm == t && t in h.reigns && m > |h.reigns[t].log|
    ensures !Choosable(ss2, h2, t, m)
  {
    assert ReignOk(|ss|, h, u);
    forall v | v in h.reigns[u].voters ensures v !in MayAck(ss2, h2, t, m) {
      assert VoteOk(ss, h, VoteKey(v, u, h.reigns[u].leader));
      AckBound(ss, h, v, t);
      assert Ack(h2, v, t) == Ack(h, v, t);
    }
    if Choosable(ss2, h2, t, m) {
      var v := QuorumsMeet(|ss|, h.reigns[u].voters, MayAck(ss2, h2, t, m));
    }
  }

  lemma AppendStep(ss: seq<Server>, h: Hist, s: nat, e: Entry)
    requires CoreInv(ss, h) && s < |ss| && ss[s].role == Leader && e.term == ss[s].currentTerm
    ensures e.term in h.reigns && h.reigns[e.term].log == ss[s].log
    ensures CoreInv(ss[s := S.Persist(ss[s].(log := ss[s].log + [e]))], AddEntry(h, s, e.term, e))
    ensures Grow(h, AddEntry(h, s, e.term, e), s)
  {
    hide LogOk, EntryOk, SafeOk, HistOk, Committed;
    var t := e.term;
    assert ServerOk(ss[s], s, |ss|, h);
    var x := S.Persist(ss[s].(log := ss[s].log + [e]));
    var ss2, h2 := ss[s := x], AddEntry(h, s, t, e);
    AppendedLog(ss, h, s, e, h2);
    AppendHistory(ss, h, s, e, ss2, h2);
    AppendSafe(ss, h, s, e, ss2, h2);
    assert x.log[..x.commitIndex] == ss[s].log[..x.commitIndex];
    CommittedStable(|ss|, h, h2, s, x.log[..x.commitIndex], t, t);
    forall c ensures CurrentVoteOk(x, s, h2, c) {
      assert CurrentVoteOk(ss[s], s, h, c);
    }
    assert HoldsAcked(x, s, h2);
    CoreUpdate(ss, h, ss2, h2, s);
  }

  // ---------- merging a leader's entries ----------

  lemma SameMessages(a: Log, b: Log, c: nat)
    requires c <= |a| && c <= |b| && a[..c] == b[..c]
    ensures S.Messages(a, 0, c) == S.Messages(b, 0, c)
  {
    forall i | 0 <= i < c ensures a[i] == b[i] {
      assert a[..c][i] == b[..c][i];
    }
  }

  /** A server that shares the term of a message relates to the sender's log. */
  lemma MessageFits(ss: seq<Server>, h: Hist, s: nat, args: AppendArgs, from: nat)
    requires CoreInv(ss, h) && s < |ss| && AppendArgsOk(args, from, |ss|, h)
    requires ss[s].currentTerm == args.term
    ensures var full := h.reigns[args.term].log;
            && Carries(args, full) && Related(ss[s].log, full) && LogOk(h, full) && LogOk(h, ss[s].log)
            && Below(ss[s].log, args.term + 1)
            && ss[s].commitIndex <= |ss[s].log| && ss[s].log[..ss[s].commitIndex] <= full
  {
    assert ServerOk(ss[s], s, |ss|, h);
    assert ReignOk(|ss|, h, args.term);
    LogsRelated(h, ss[s].log, h.reigns[args.term].log);
    CommittedReach(ss, h, ss[s].log[..ss[s].commitIndex], args.term, args.term);
  }

  lemma ReignBelow(ss: seq<Server>, h: Hist, t: nat)
    requires CoreInv(ss, h) && t in h.reigns
    ensures Below(h.reigns[t].log, t + 1)
  {
    CoreReigns(ss, h);
    assert ReignOk(|ss|, h, t);
    forall i | 0 <= i < |h.reigns[t].log| ensures h.reigns[t].log[i].term < t + 1 {
      ReignEntry(|ss|, h, t, i);
    }
  }

  lemma CarriesBound(args: AppendArgs, full: Log)
    requires Carries(args, full)
    ensures args.prevLogIndex + |args.entries| <= |full|
  {
  }

  /** What a merge leaves of the log, and what it adds. */
  lemma MergeLog(ss: seq<Server>, h: Hist, s: nat, args: AppendArgs, from: nat)
    requires CoreInv(ss, h) && s < |ss| && AppendArgsOk(args, from, |ss|, h)
    requires ss[s].currentTerm == args.term && S.HasPrev(ss[s].log, args)
    ensures ss[s].commitIndex <= |ss[s].log|
    ensures var full := h.reigns[args.term].log;
            var log2 := S.Merge(ss[s].log, args.prevLogIndex, args.entries);
            && Carries(args, full) && Related(ss[s].log, full)
            && full[..args.prevLogIndex + |args.entries|] <= log2
            && LogOk(h, log2) && Below(log2, args.term + 1)
            && ss[s].log[..ss[s].commitIndex] <= log2
  {
    hide CoreInv, ServerOk, LogOk, EntryOk, Committed, ReignOk, Related, Carries, S.Merge, S.HasPrev;
    var full := h.reigns[args.term].log;
    MessageFits(ss, h, s, args, from);
    CarriesBound(args, full);
    MergeMessage(ss[s].log, args, full);
    PrefixOk(h, full, args.prevLogIndex + |args.entries|);
    ReignBelow(ss, h, args.term);
    MergeKeeps(ss[s].log, args, full, ss[s].log[..ss[s].commitIndex]);
  }

  /** The merged log keeps whatever the server confirmed and may still be committed. */
  lemma MergeHolds(ss: seq<Server>, h: Hist, s: nat, args: AppendArgs, from: nat, t: nat, m: nat)
    requires CoreInv(ss, h) && s < |ss| && AppendArgsOk(args, from, |ss|, h)
    requires ss[s].currentTerm == args.term && S.HasPrev(ss[s].log, args)
    requires Choosable(ss, h, t, m) && m <= Ack(AddAck(h, s, args.term, args.prevLogIndex + |args.entries|), s, t)
    ensures h.reigns[t].log[..m] <= S.Merge(ss[s].log, args.prevLogIndex, args.entries)
  {
    hide LogOk, EntryOk, ServerOk, Committed;
    var full := h.reigns[args.term].log;
    var k := args.prevLogIndex + |args.entries|;
    MergeLog(ss, h, s, args, from);
    if t == args.term && m <= k {
      assert full[..k][..m] == full[..m];
    } else {
      AckBound(ss, h, s, t);
      assert ServerHas(ss, h, t, m, s);
      assert LaterReignHas(ss, h, t, m, args.term);
      assert ReignOk(|ss|, h, args.term);
      MergeKeeps(ss[s].log, args, full, h.reigns[t].log[..m]);
    }
  }

  lemma MergeSafe(ss: seq<Server>, h: Hist, s: nat, args: AppendArgs, from: nat, ss2: seq<Server>, h2: Hist)
    requires CoreInv(ss, h) && s < |ss| && AppendArgsOk(args, from, |ss|, h)
    requires ss[s].currentTerm == args.term && S.HasPrev(ss[s].log, args)
    requires ss2 == ss[s := S.Persist(ss[s].(log := S.Merge(ss[s].log, args.prevLogIndex, args.entries)))]
    requires h2 == AddAck(h, s, args.term, args.prevLogIndex + |args.entries|)
    requires Advance(ss, h, ss2, h2, s)
    ensures SafeOk(ss2, h2)
  {
    hide LogOk, EntryOk, ServerOk, Committed, ReignOk;
    forall t: nat, m: nat | Choosable(ss2, h2, t, m) ensures Choosable(ss, h, t, m) {
      ChoosableBack(ss, h, ss2, h2, s, t, m);
    }
    forall t, m, u ensures LaterReignHas(ss2, h2, t, m, u) {
      assert LaterReignHas(ss, h, t, m, u);
    }
    forall t: nat, m: nat, v: nat ensures ServerHas(ss2, h2, t, m, v) {
      assert ServerHas(ss, h, t, m, v);
      assert v != s ==> Ack(h2, v, t) == Ack(h, v, t);
      if Choosable(ss2, h2, t, m) && v == s && m <= Ack(h2, s, t) {
        MergeHolds(ss, h, s, args, from, t, m);
      }
    }
    forall t, m, j ensures VoterHad(ss2, h2, t, m, j) {
      assert VoterHad(ss, h, t, m, j);
      assert j in h.votes ==> VoteOk(ss, h, j);
      assert j.voter != s || t != args.term ==> Ack(h2, j.voter, t) == Ack(h, j.voter, t);
    }
  }

  lemma MergeHistory(ss: seq<Server>, h: Hist, s: nat, args: AppendArgs, from: nat, ss2: seq<Server>, h2: Hist)
    requires CoreInv(ss, h) && s < |ss| && s != from && AppendArgsOk(args, from, |ss|, h)
    requires ss[s].currentTerm == args.term && S.HasPrev(ss[s].log, args)
    requires ss2 == ss[s := S.Persist(ss[s].(log := S.Merge(ss[s].log, args.prevLogIndex, args.entries)))]
    requires h2 == AddAck(h, s, args.term, args.prevLogIndex + |args.entries|)
    ensures Advance(ss, h, ss2, h2, s) && HistOk(ss2, h2)
  {
    hide ServerOk, LogOk, EntryOk, SafeOk, Committed;
    assert Advance(ss, h, ss2, h2, s);
    OldHistory(ss, h, ss2, h2, s);
    forall j | j in h2.acks ensures AckOk(ss2, h2, j) {
      assert j in h.acks ==> AckOk(ss, h, j);
    }
    forall v, u, a, b ensures DoubleVoteOk(h2, v, u, a, b) {
      assert DoubleVoteOk(h, v, u, a, b);
    }
  }

  lemma MergeStep(ss: seq<Server>, h: Hist, s: nat, args: AppendArgs, from: nat)
    requires CoreInv(ss, h) && s < |ss| && s != from && AppendArgsOk(args, from, |ss|, h)
    requires ss[s].currentTerm == args.term && ss[s].role != Candidate && S.HasPrev(ss[s].log, args)
    ensures CoreInv(ss[s := S.Persist(ss[s].(log := S.Merge(ss[s].log, args.prevLogIndex, args.entries)))],
                    AddAck(h, s, args.term, args.prevLogIndex + |args.entries|))
    ensures Grow(h, AddAck(h, s, args.term, args.prevLogIndex + |args.entries|), s)
  {
    var x := S.Persist(ss[s].(log := S.Merge(ss[s].log, args.prevLogIndex, args.entries)));
    var ss2, h2 := ss[s := x], AddAck(h, s, args.term, args.prevLogIndex + |args.entries|);
    MergeHistory(ss, h, s, args, from, ss2, h2);
    MergeSafe(ss, h, s, args, from, ss2, h2);
    MergeServer(ss, h, s, args, from, x, h2);
    CoreUpdate(ss, h, ss2, h2, s);
  }

  lemma MergeServer(ss: seq<Server>, h: Hist, s: nat, args: AppendArgs, from: nat, x: Server, h2: Hist)
    requires CoreInv(ss, h) && s < |ss| && s != from && AppendArgsOk(args, from, |ss|, h)
    requires ss[s].currentTerm == args.term && ss[s].role != Candidate && S.HasPrev(ss[s].log, args)
    requires x == S.Persist(ss[s].(log := S.Merge(ss[s].log, args.prevLogIndex, args.entries)))
    requires h2 == AddAck(h, s, args.term, args.prevLogIndex + |args.entries|) && Grow(h, h2, s)
    ensures ServerOk(x, s, |ss|, h2)
  {
    hide LogOk, EntryOk, SafeOk, Committed, HistOk;
    var t := args.term;
    var full := h.reigns[t].log;
    var k := args.prevLogIndex + |args.entries|;
    assert ServerOk(ss[s], s, |ss|, h);
    MergeLog(ss, h, s, args, from);
    LogStable(h, h2, s, x.log);
    assert x.log[..x.commitIndex] == ss[s].log[..x.commitIndex];
    SameMessages(x.log, ss[s].log, x.commitIndex);
    CommittedStable(|ss|, h, h2, s, x.log[..x.commitIndex], t, t);
    forall c ensures CurrentVoteOk(x, s, h2, c) {
      assert CurrentVoteOk(ss[s], s, h, c);
    }
    var a := Ack(h, s, t);
    AckBound(ss, h, s, t);
    if a > k {
      MergeKeeps(ss[s].log, args, full, full[..a]);
    }
    assert HoldsAcked(x, s, h2);
  }
}
