/** What replication and candidacies guarantee over whole runs, beyond safety. */
module Replication {
  import opened RaftTypes
  import opened Cluster
  import opened History
  import opened Invariant
  import opened Facts
  import opened CoreSteps
  import opened LeaderSteps
  import opened Preservation
  import opened Runs
  import opened Safety
  import S = ServerSteps

  // ---------- terms and stored state ----------

  /** A server that takes a step times out, crashes or is steady. */
  lemma TermStep(sys: System, h: Hist, step: Step, s: nat)
    requires Inv(sys, h) && Enabled(sys, step) && InBounds(sys, step) && s < |sys.servers|
    ensures var x, y := sys.servers[s], Next(sys, step).servers[s];
            x.currentTerm <= y.currentTerm && (Steady(x, y) || step == Timeout(s))
  {
    hide CoreInv, CallOk, S.RequestVote, S.OnVoteReply, S.AppendEntries, S.OnAppendReply;
    match step {
      case DeliverVote(k) => VoteSteady(sys.servers[s], sys.calls[k].vote);
      case ReturnVote(k) =>
        var c := sys.calls[k];
        if c.from == s {
          VoteReplySteady(sys.servers[s], s, |sys.servers|, c.vote, c.voteState.reply, sys.cells[c.cell]);
        }
      case DeliverAppend(k) => AppendSteady(sys.servers[s], sys.calls[k].append);
      case ReturnAppend(k) =>
        var c := sys.calls[k];
        if c.from == s {
          AppendReplySteady(sys.servers[s], |sys.servers|, c.to, c.append, c.appendState.reply);
        }
      case Crash(t, _) =>
        OneServer(sys.servers, h, t);
        CrashKeepsLog(sys, step);
      case _ =>
    }
  }

  /** A server's term never goes back, not even across crashes. */
  lemma {:induction false} TermsAdvance(n: nat, run: seq<Step>, i: nat, j: nat, s: nat)
    requires Legal(n, run) && i <= j <= |run| && s < n
    ensures |At(n, run, i).servers| == |At(n, run, j).servers| == n
    ensures At(n, run, i).servers[s].currentTerm <= At(n, run, j).servers[s].currentTerm
    decreases j - i
  {
    hide Legal, After, HistAfter, Next, Record;
    InvAt(n, run, i);
    InvAt(n, run, j);
    if i < j {
      TermsAdvance(n, run, i, j - 1, s);
      InvAt(n, run, j - 1);
      AtStep(n, run, j - 1);
      TermStep(At(n, run, j - 1), HistAt(n, run, j - 1), run[j - 1], s);
    }
  }

  /** In every state stable storage holds the server's term, vote and log, or is empty
      while these are still initial: a crash at any moment keeps all three. */
  lemma CrashKeeps(n: nat, run: seq<Step>, i: nat, s: nat)
    requires Legal(n, run) && i <= |run| && s < n
    ensures |At(n, run, i).servers| == n
    ensures var x := At(n, run, i).servers[s];
            && (x.disk == Some(Image(x.currentTerm, x.votedFor, x.log))
                 || (x.disk == None && Image(x.currentTerm, x.votedFor, x.log) == Image(0, -1, [])))
            && var y := S.Boot(x.disk); y.currentTerm == x.currentTerm && y.votedFor == x.votedFor && y.log == x.log
  {
    ServerAt(n, run, i, s);
  }

  // ---------- confirmations ----------

  /** The server is in term `t` after `j` steps and its log starts with `p`. */
  ghost predicate HeldAt(n: nat, run: seq<Step>, j: nat, s: nat, t: nat, p: Log)
    requires Legal(n, run)
  {
    j <= |run| && s < |At(n, run, j).servers| && At(n, run, j).servers[s].currentTerm == t
        && p <= At(n, run, j).servers[s].log
  }

  /** A server confirms more of a term's log only in that term. */
  lemma FreshAck(sys: System, h: Hist, step: Step, s: nat, t: nat)
    requires Inv(sys, h) && Enabled(sys, step) && InBounds(sys, step) && s < |sys.servers|
    requires Ack(Record(sys, step, h), s, t) > Ack(h, s, t)
    ensures Next(sys, step).servers[s].currentTerm == t
  {
    hide CoreInv, Committed;
    match step {
      case DeliverAppend(k) =>
        var c := sys.calls[k];
        assert CallOk(c, |sys.servers|, |sys.cells|, h);
        if sys.servers[c.to].currentTerm <= c.append.term {
          OnRecognise(sys.servers, h, c.to, c.append, c.from);
        }
      case _ =>
    }
  }

  lemma NothingConfirmedYet(n: nat, run: seq<Step>, s: nat, t: nat)
    requires Legal(n, run)
    ensures Ack(HistAt(n, run, 0), s, t) == 0
  {
  }

  /** Whatever a server has confirmed of a term's log, it held at some moment in that term. */
  lemma {:induction false} AckHeld(n: nat, run: seq<Step>, i: nat, s: nat, t: nat) returns (j: nat)
    requires Legal(n, run) && i <= |run| && s < n && Ack(HistAt(n, run, i), s, t) > 0
    ensures t in HistAt(n, run, i).reigns && Ack(HistAt(n, run, i), s, t) <= |HistAt(n, run, i).reigns[t].log|
    ensures j <= i && HeldAt(n, run, j, s, t, HistAt(n, run, i).reigns[t].log[..Ack(HistAt(n, run, i), s, t)])
  {
    hide Legal, After, HistAfter, Next, Record, LogOk, EntryOk, SafeOk, HistOk, Committed, NetInv;
    InvAt(n, run, i);
    AckBound(At(n, run, i).servers, HistAt(n, run, i), s, t);
    NothingConfirmedYet(n, run, s, t);
    j := i;
    if i > 0 {
      var h, h2 := HistAt(n, run, i - 1), HistAt(n, run, i);
      InvAt(n, run, i - 1);
      HistStep(n, run, i - 1);
      AtStep(n, run, i - 1);
      if Ack(h2, s, t) == Ack(h, s, t) {
        j := AckHeld(n, run, i - 1, s, t);
        assert h.reigns[t].log[..Ack(h, s, t)] == h2.reigns[t].log[..Ack(h, s, t)];
      } else {
        FreshAck(At(n, run, i - 1), h, run[i - 1], s, t);
        assert ServerOk(At(n, run, i).servers[s], s, n, h2);
      }
    }
  }

  /** The leader's match index for a peer is sound, although late replies can lower it: the
      peer held that much of the leader's log at some moment of the term, and still does
      if it is still in the term. */
  lemma MatchIndexSound(n: nat, run: seq<Step>, i: nat, l: nat, p: nat) returns (j: nat)
    requires Legal(n, run) && i <= |run| && l < n && p < n && p != l
    requires |At(n, run, i).servers| == n && At(n, run, i).servers[l].role == Leader
    ensures var x, y := At(n, run, i).servers[l], At(n, run, i).servers[p];
            && |x.matchIndex| == n && 0 <= x.matchIndex[p] <= |x.log|
            && (y.currentTerm == x.currentTerm ==> x.log[..x.matchIndex[p]] <= y.log)
            && (x.matchIndex[p] > 0 ==> j <= i && HeldAt(n, run, j, p, x.currentTerm, x.log[..x.matchIndex[p]]))
  {
    hide Legal, After, HistAfter, Next, Record;
    InvAt(n, run, i);
    var h, x, y := HistAt(n, run, i), At(n, run, i).servers[l], At(n, run, i).servers[p];
    assert ServerOk(x, l, n, h);
    assert ServerOk(y, p, n, h);
    var t, m := x.currentTerm, x.matchIndex[p];
    AckBound(At(n, run, i).servers, h, p, t);
    j := i;
    if m > 0 {
      j := AckHeld(n, run, i, p, t);
      assert x.log[..m] == x.log[..Ack(h, p, t)][..m];
      assert x.log[..m] <= x.log[..Ack(h, p, t)];
    }
  }

  /** Reordering tolerance: from the moment a server has accepted a message of a term's leader
      and while it stays in the term, it keeps the leader's log up to the end of that
      message, whatever other messages of the term it accepts in whatever order. */
  lemma AcceptedStays(n: nat, run: seq<Step>, i: nat, j: nat, k: nat, l: nat, r: nat)
    requires Legal(n, run) && i <= j <= |run| && l <= |run| && r < n
    requires k < |At(n, run, i).calls| && At(n, run, i).calls[k].AppendCall? && At(n, run, i).calls[k].to < n
    requires At(n, run, i).calls[k].appendState.Answered? && At(n, run, i).calls[k].appendState.reply.success
    ensures |At(n, run, j).servers| == |At(n, run, l).servers| == n
    ensures var c := At(n, run, i).calls[k];
            var y, z, e := At(n, run, j).servers[c.to], At(n, run, l).servers[r],
                c.append.prevLogIndex + |c.append.entries|;
            y.currentTerm == c.append.term ==>
              && e <= |y.log| && y.log[c.append.prevLogIndex..e] == c.append.entries
              && (z.role == Leader && z.currentTerm == c.append.term ==> y.log[..S.Min(e, |z.log|)] <= z.log)
  {
    hide Legal, After, HistAfter, Next, Record, LogOk, EntryOk, SafeOk, HistOk, Committed;
    InvAt(n, run, i);
    InvAt(n, run, j);
    ServerAt(n, run, l, r);
    var c := At(n, run, i).calls[k];
    var hi, hj, h := HistAt(n, run, i), HistAt(n, run, j), HistAfter(n, run);
    assert CallOk(c, n, |At(n, run, i).cells|, hi);
    HistGrows(n, run, i, j);
    HistFinal(n, run, j);
    var y, z := At(n, run, j).servers[c.to], At(n, run, l).servers[r];
    assert ServerOk(y, c.to, n, hj);
    if y.currentTerm == c.append.term {
      ConfirmedSlice(hi, hj, c.append, c.to, y);
      if z.role == Leader && z.currentTerm == c.append.term {
        SharedPrefix(hj.reigns[c.append.term].log, h.reigns[c.append.term].log, y.log, z.log,
            c.append.prevLogIndex + |c.append.entries|);
      }
    }
  }

  lemma ConfirmedSlice(hi: Hist, hj: Hist, a: AppendArgs, to: nat, y: Server)
    requires Older(hi, hj) && HoldsAcked(y, to, hj) && y.currentTerm == a.term
    requires a.term in hi.reigns && Carries(a, hi.reigns[a.term].log)
    requires a.prevLogIndex + |a.entries| <= Ack(hi, to, a.term)
    ensures var e := a.prevLogIndex + |a.entries|;
            && e <= |y.log| && e <= |hj.reigns[a.term].log| && y.log[..e] == hj.reigns[a.term].log[..e]
            && y.log[a.prevLogIndex..e] == a.entries
  {
    var e, p, f := a.prevLogIndex + |a.entries|, a.prevLogIndex, hj.reigns[a.term].log;
    assert Ack(hi, to, a.term) <= Ack(hj, to, a.term);
    if e > 0 {
      assert y.log[..e] == f[..Ack(hj, to, a.term)][..e] == f[..e];
      assert hi.reigns[a.term].log[p..e] == f[p..e] == y.log[..e][p..];
    }
  }

  lemma SharedPrefix(f: Log, g: Log, y: Log, z: Log, e: nat)
    requires f <= g && z <= g && e <= |f| && e <= |y| && y[..e] == f[..e]
    ensures y[..S.Min(e, |z|)] <= z
  {
    var m := S.Min(e, |z|);
    assert y[..m] == y[..e][..m] == f[..m] == g[..m] == z[..m];
  }

  /** How a reply can raise the caller's commit index. */
  lemma CommitRaised(sys: System, k: nat)
    requires Wellformed(sys) && Enabled(sys, ReturnAppend(k)) && InBounds(sys, ReturnAppend(k))
    requires var s := sys.calls[k].from; sys.servers[s].commitIndex < Next(sys, ReturnAppend(k)).servers[s].commitIndex
    ensures var y := Next(sys, ReturnAppend(k)).servers[sys.calls[k].from];
            && y.role == Leader && 0 < y.commitIndex <= |y.log| && S.CanCommit(y, |sys.servers|, y.commitIndex)
            && forall m :: y.commitIndex < m <= |y.log| ==> !S.CanCommit(y, |sys.servers|, m)
  {
    var c, y, n := sys.calls[k], Next(sys, ReturnAppend(k)).servers[sys.calls[k].from], |sys.servers|;
    var x := sys.servers[c.from].(matchIndex := y.matchIndex, nextIndex := y.nextIndex);
    assert y.commitIndex == S.NewCommit(x, n, |x.log|);
    forall m | y.commitIndex < m <= |y.log| ensures !S.CanCommit(y, n, m) {
      assert !S.CanCommit(x, n, m);
    }
  }

  /** When the commit loop of a leader raises its commit index, the entry there is of the
      current term, a true majority held the log up to it at some moment of the term,
      and no higher index passes the test. */
  lemma CommitHasMajority(n: nat, run: seq<Step>, i: nat, k: nat) returns (q: set<nat>)
    requires Legal(n, run) && i < |run| && run[i] == ReturnAppend(k)
    requires k < |At(n, run, i).calls| && At(n, run, i).calls[k].from < n
    requires |At(n, run, i).servers| == |At(n, run, i + 1).servers| == n
    requires var s := At(n, run, i).calls[k].from;
             At(n, run, i).servers[s].commitIndex < At(n, run, i + 1).servers[s].commitIndex
    ensures var y := At(n, run, i + 1).servers[At(n, run, i).calls[k].from];
            && 0 < y.commitIndex <= |y.log| && y.log[y.commitIndex - 1].term == y.currentTerm
            && Majority(n, q)
            && (forall v :: v in q ==> exists j: nat ::
                 j <= i + 1 && HeldAt(n, run, j, v, y.currentTerm, y.log[..y.commitIndex]))
            && (forall m :: y.commitIndex < m <= |y.log| ==> !S.CanCommit(y, n, m))
  {
    hide Legal, After, HistAfter, Next, Record, LogOk, EntryOk, SafeOk, HistOk, Committed, NetInv;
    AtStep(n, run, i);
    InvAt(n, run, i);
    InvAt(n, run, i + 1);
    var s := At(n, run, i).calls[k].from;
    var ss, h := At(n, run, i + 1).servers, HistAt(n, run, i + 1);
    var y := ss[s];
    var c, t := y.commitIndex, y.currentTerm;
    assert ServerOk(y, s, n, h);
    CommitRaised(At(n, run, i), k);
    CountedIsChosen(ss, h, s, c);
    q := Ackers(n, h, t, c);
    forall v | v in q ensures exists j: nat :: j <= i + 1 && HeldAt(n, run, j, v, t, y.log[..c]) {
      var j := AckHeld(n, run, i + 1, v, t);
      var a := Ack(h, v, t);
      AckBound(ss, h, v, t);
      assert y.log[..c] == y.log[..a][..c];
      assert y.log[..c] <= y.log[..a];
      assert HeldAt(n, run, j, v, t, y.log[..c]);
    }
  }

  /** While a server leads, every next index lies between 1 and one past its log; and a
      rejection that reaches the backtracking code names a usable conflict index. */
  lemma NextIndexInRange(n: nat, run: seq<Step>, i: nat, s: nat, p: nat)
    requires Legal(n, run) && i <= |run| && s < n && p < n
    ensures |At(n, run, i).servers| == n
    ensures var x := At(n, run, i).servers[s];
            x.role == Leader ==> |x.nextIndex| == n && 1 <= x.nextIndex[p] <= |x.log| + 1
    ensures forall k :: 0 <= k < |At(n, run, i).calls|
                        && At(n, run, i).calls[k].AppendCall? && At(n, run, i).calls[k].from == s ==>
              var c := At(n, run, i).calls[k];
              c.appendState.Answered? && !c.appendState.reply.success
                  && S.BookingDue(At(n, run, i).servers[s], c.append, c.appendState.reply) ==>
                1 <= c.appendState.reply.conflictIndex <= c.append.prevLogIndex
  {
    hide Legal, After, HistAfter, Next, Record;
    InvAt(n, run, i);
    var sys, h := At(n, run, i), HistAt(n, run, i);
    assert ServerOk(sys.servers[s], s, n, h);
    forall k | 0 <= k < |sys.calls| ensures CallOk(sys.calls[k], n, |sys.cells|, h) {}
  }

  // ---------- candidacies ----------

  /** A server is a candidate after a step only if it timed out, which starts a new term, or
      was one already, in the same term and with the same log. */
  lemma CandidateStep(sys: System, h: Hist, step: Step, s: nat)
    requires Inv(sys, h) && Enabled(sys, step) && InBounds(sys, step) && s < |sys.servers|
    ensures var x, y := sys.servers[s], Next(sys, step).servers[s];
            y.role == Candidate ==>
              x.currentTerm < y.currentTerm || (x.role == Candidate && x.currentTerm == y.currentTerm && x.log == y.log)
  {
    hide Inv;
    TermStep(sys, h, step, s);
  }

  /** A server that has left its candidacy of a term is never a candidate of that term again. */
  lemma {:induction false} NoSecondCandidacy(n: nat, run: seq<Step>, i: nat, j: nat, k: nat, s: nat)
    requires Legal(n, run) && i <= j <= k <= |run| && s < n
    requires |At(n, run, i).servers| == |At(n, run, j).servers| == n
    requires At(n, run, i).servers[s].role == Candidate
    requires !(At(n, run, j).servers[s].role == Candidate
        && At(n, run, j).servers[s].currentTerm == At(n, run, i).servers[s].currentTerm)
    ensures |At(n, run, k).servers| == n
    ensures !(At(n, run, k).servers[s].role == Candidate
        && At(n, run, k).servers[s].currentTerm == At(n, run, i).servers[s].currentTerm)
    decreases k - j
  {
    hide Legal, After, HistAfter, Next, Record, Inv;
    InvAt(n, run, k);
    if j < k {
      NoSecondCandidacy(n, run, i, j, k - 1, s);
      InvAt(n, run, k - 1);
      AtStep(n, run, k - 1);
      CandidateStep(At(n, run, k - 1), HistAt(n, run, k - 1), run[k - 1], s);
      TermsAdvance(n, run, i, k - 1, s);
    }
  }

  /** Every vote request describes the log with which its sender stands throughout the
      candidacy, and, if it wins, starts as leader: the entries of the new term are
      exactly those behind that log. */
  lemma VoteArgsStable(n: nat, run: seq<Step>, i: nat, j: nat, k: nat)
    requires Legal(n, run) && i <= |run| && j <= |run|
    requires k < |At(n, run, i).calls| && At(n, run, i).calls[k].VoteCall? && At(n, run, i).calls[k].from < n
    ensures |At(n, run, j).servers| == n
    ensures var c := At(n, run, i).calls[k];
            var x := At(n, run, j).servers[c.from];
            x.currentTerm == c.vote.term ==>
              && (x.role == Candidate ==> c.vote == S.MakeVoteArgs(x, c.from) && Below(x.log, c.vote.term))
              && (x.role == Leader ==>
                   && c.vote.lastLogIndex <= |x.log| && c.vote.lastLogTerm == S.LastTerm(x.log[..c.vote.lastLogIndex])
                   && forall m :: 0 <= m < |x.log| ==> (x.log[m].term == c.vote.term <==> c.vote.lastLogIndex <= m))
  {
    hide Legal, After, HistAfter, Next, Record, LogOk, EntryOk, SafeOk, Committed;
    InvAt(n, run, i);
    InvAt(n, run, j);
    HistFinal(n, run, i);
    HistFinal(n, run, j);
    var c, x := At(n, run, i).calls[k], At(n, run, j).servers[At(n, run, i).calls[k].from];
    var hi, hj := HistAt(n, run, i), HistAt(n, run, j);
    assert CallOk(c, n, |At(n, run, i).cells|, hi);
    assert ServerOk(x, c.from, n, hj);
    var key := CandKey(c.from, c.vote.term);
    if x.currentTerm == c.vote.term {
      assert key in hj.cands ==> hj.cands[key] == hi.cands[key];
      if x.role == Candidate {
        assert CandOk(At(n, run, j).servers, hj, key);
      }
      if x.role == Leader {
        CoreReigns(At(n, run, j).servers, hj);
        assert ReignOk(n, hj, c.vote.term);
        forall m | 0 <= m < |x.log| ensures x.log[m].term == c.vote.term <==> c.vote.lastLogIndex <= m {
          ReignEntry(n, hj, c.vote.term, m);
        }
      }
    }
  }

  /** A server grants the requests of at most one candidate per term, over the whole run. */
  lemma OneGrantPerTerm(n: nat, run: seq<Step>, i: nat, k: nat, j: nat, l: nat)
    requires Legal(n, run) && i <= |run| && j <= |run|
    requires k < |At(n, run, i).calls| && At(n, run, i).calls[k].VoteCall? && At(n, run, i).calls[k].voteState.Answered?
    requires l < |At(n, run, j).calls| && At(n, run, j).calls[l].VoteCall? && At(n, run, j).calls[l].voteState.Answered?
    ensures var c, d := At(n, run, i).calls[k], At(n, run, j).calls[l];
            c.to == d.to && c.vote.term == d.vote.term && c.voteState.reply.granted && d.voteState.reply.granted ==>
                c.from == d.from
  {
    hide Legal, After, HistAfter, Next, Record, CoreInv;
    InvAt(n, run, i);
    InvAt(n, run, j);
    var c, d := At(n, run, i).calls[k], At(n, run, j).calls[l];
    assert CallOk(c, n, |At(n, run, i).cells|, HistAt(n, run, i));
    assert CallOk(d, n, |At(n, run, j).cells|, HistAt(n, run, j));
    HistFinal(n, run, i);
    HistFinal(n, run, j);
    if c.to == d.to {
      SingleGrant(After(n, run).servers, HistAfter(n, run), c.to, c.vote.term, c.from, d.from);
    }
  }

  lemma SingleGrant(ss: seq<Server>, h: Hist, v: nat, t: nat, a: nat, b: nat)
    requires CoreInv(ss, h) && a != v && b != v
    ensures VoteKey(v, t, a) in h.votes && VoteKey(v, t, b) in h.votes ==> a == b
  {
    assert DoubleVoteOk(h, v, t, a, b);
  }

  /** The step hands server `s`, a candidate, a message of its own term's leader. */
  ghost predicate HearsLeader(sys: System, step: Step, s: nat)
    requires s < |sys.servers|
  {
    && Handled(step).Some? && Handled(step).value < |sys.calls|
    && var c := sys.calls[Handled(step).value];
       c.AppendCall? && c.to == s && c.append.term == sys.servers[s].currentTerm && sys.servers[s].role == Candidate
  }

  /** The candidate's vote for itself has become a vote for the sender of the message. */
  ghost predicate VoteReplaced(sys: System, step: Step, s: nat, x: Server, y: Server) {
    && x.votedFor == s != y.votedFor && y.role == Follower && y.currentTerm == x.currentTerm
    && Handled(step).Some? && Handled(step).value < |sys.calls| && y.votedFor == sys.calls[Handled(step).value].from
  }

  /** A server does not keep its vote within a term: a candidate that is handed a message of
      its term's leader always replaces its vote for itself by the leader's name, even if
      it crashes right after. Every other vote stays as long as the term. */
  lemma VoteOverwritten(n: nat, run: seq<Step>, i: nat, s: nat)
    requires Legal(n, run) && i < |run| && s < n
    ensures |At(n, run, i).servers| == |At(n, run, i + 1).servers| == n
    ensures var sys, x, y := At(n, run, i), At(n, run, i).servers[s], At(n, run, i + 1).servers[s];
            && (HearsLeader(sys, run[i], s) ==> VoteReplaced(sys, run[i], s, x, y))
            && (x.currentTerm == y.currentTerm && x.votedFor != -1 ==>
                 (y.votedFor != x.votedFor <==> HearsLeader(sys, run[i], s)))
  {
    hide Legal, After, HistAfter, Record, Inv, Next, HearsLeader;
    InvAt(n, run, i);
    InvAt(n, run, i + 1);
    AtStep(n, run, i);
    var sys, h := At(n, run, i), HistAt(n, run, i);
    if HearsLeader(sys, run[i], s) {
      ReplacesVote(sys, h, run[i], s);
    } else if sys.servers[s].votedFor != -1 && sys.servers[s].currentTerm == At(n, run, i + 1).servers[s].currentTerm {
      VoteStep(sys, h, run[i], s);
    }
  }

  lemma ReplacesVote(sys: System, h: Hist, step: Step, s: nat)
    requires Inv(sys, h) && Enabled(sys, step) && InBounds(sys, step) && s < |sys.servers|
    requires HearsLeader(sys, step, s)
    ensures VoteReplaced(sys, step, s, sys.servers[s], Next(sys, step).servers[s])
  {
    hide LogOk, EntryOk, SafeOk, HistOk, Committed, S.Accept, S.Reject;
    var c := sys.calls[Handled(step).value];
    assert ServerOk(sys.servers[s], s, |sys.servers|, h);
    assert CallOk(c, |sys.servers|, |sys.cells|, h);
    assert S.Recognise(sys.servers[s], c.append) == S.ConvertToFollower(sys.servers[s], c.append.term, c.from);
    if S.HasPrev(sys.servers[s].log, c.append) {
      AcceptKeepsVote(S.Recognise(sys.servers[s], c.append), c.append);
    }
  }

  lemma AcceptKeepsVote(x: Server, args: AppendArgs)
    requires S.HasPrev(x.log, args)
    ensures var y := S.Accept(x, args); y.votedFor == x.votedFor && y.currentTerm == x.currentTerm && y.role == x.role
  {
  }

  /** A handler for votes keeps a vote for as long as the term. */
  lemma GrantKeepsVote(x: Server, args: VoteArgs)
    requires x.votedFor != -1
    ensures var y := S.RequestVote(x, args).0; y.currentTerm == x.currentTerm ==> y.votedFor == x.votedFor
  {
  }

  lemma AppendKeepsVote(x: Server, args: AppendArgs)
    requires !(args.term == x.currentTerm && x.role == Candidate)
    ensures var y := S.AppendEntries(x, args).0; y.currentTerm == x.currentTerm ==> y.votedFor == x.votedFor
  {
    hide S.Accept;
    if args.term >= x.currentTerm && S.HasPrev(S.Recognise(x, args).log, args) {
      AcceptKeepsVote(S.Recognise(x, args), args);
    }
  }

  lemma VoteStep(sys: System, h: Hist, step: Step, s: nat)
    requires Inv(sys, h) && Enabled(sys, step) && InBounds(sys, step) && s < |sys.servers|
    requires !HearsLeader(sys, step, s) && sys.servers[s].votedFor != -1
    requires sys.servers[s].currentTerm == Next(sys, step).servers[s].currentTerm
    ensures Next(sys, step).servers[s].votedFor == sys.servers[s].votedFor
  {
    hide LogOk, EntryOk, SafeOk, HistOk, Committed, NetInv, S.AppendEntries, S.RequestVote;
    assert ServerOk(sys.servers[s], s, |sys.servers|, h);
    match step {
      case DeliverVote(k) => GrantKeepsVote(sys.servers[s], sys.calls[k].vote);
      case DeliverAppend(k) =>
        if sys.calls[k].to == s { AppendKeepsVote(sys.servers[s], sys.calls[k].append); }
      case _ =>
    }
  }

  /** The counter of a voting round is one more than the number of distinct peers whose
      votes it has counted, and whoever wins has the votes of a majority. */
  lemma RoundCount(n: nat, run: seq<Step>, i: nat, cell: nat)
    requires Legal(n, run) && i <= |run| && cell < |At(n, run, i).cells|
    ensures At(n, run, i).cells[cell] == 1 + |CountedPeers(At(n, run, i).calls, cell)|
  {
    InvAt(n, run, i);
    assert CellOk(At(n, run, i), cell);
  }

  lemma WinnerHasMajority(n: nat, run: seq<Step>, i: nat, k: nat)
    requires Legal(n, run) && i < |run| && run[i] == ReturnVote(k)
    requires k < |At(n, run, i).calls| && At(n, run, i).calls[k].VoteCall?
    requires At(n, run, i).calls[k].from < n == |At(n, run, i).servers| == |At(n, run, i + 1).servers|
    requires var s := At(n, run, i).calls[k].from;
             At(n, run, i).servers[s].role == Candidate && At(n, run, i + 1).servers[s].role == Leader
    ensures var c := At(n, run, i).calls[k];
            Majority(n, CountedPeers(At(n, run, i + 1).calls, c.cell) + {c.from})
  {
    hide Legal, After, HistAfter;
    InvAt(n, run, i);
    InvAt(n, run, i + 1);
    HistStep(n, run, i);
    AtStep(n, run, i);
    var c := At(n, run, i).calls[k];
    assert ReignOk(n, HistAt(n, run, i + 1), c.vote.term);
  }

  // ---------- commands ----------

  /** What the call of `Start` at step `i` returns. */
  ghost function StartReplyAt(n: nat, run: seq<Step>, i: nat, s: nat, command: Command): StartReply
    requires Legal(n, run) && i < |run| && run[i] == StartCommand(s, command)
  {
    AtStep(n, run, i);
    S.Start(At(n, run, i).servers[s], command).1
  }

  /** A call of `Start` that claims success. */
  ghost predicate Started(n: nat, run: seq<Step>, i: nat, s: nat, command: Command)
    requires Legal(n, run)
  {
    i < |run| && run[i] == StartCommand(s, command) && StartReplyAt(n, run, i, s, command).isLeader
  }

  ghost function StartResult(n: nat, run: seq<Step>, i: nat, s: nat, command: Command): StartReply
    requires Legal(n, run) && Started(n, run, i, s, command)
  {
    StartReplyAt(n, run, i, s, command)
  }

  /** A position and term that `Start` has returned belong to its command for good: any entry
      that any log holds there in that term, at any moment, is that command. */
  lemma StartedCommand(n: nat, run: seq<Step>, i: nat, s: nat, command: Command, j: nat, b: nat)
    requires Legal(n, run) && Started(n, run, i, s, command) && j <= |run| && b < n
    ensures |At(n, run, j).servers| == n
    ensures var r, y := StartResult(n, run, i, s, command), At(n, run, j).servers[b];
            && r.isLeader && 1 <= r.index
            && (r.index <= |y.log| && y.log[r.index - 1].term == r.term ==> y.log[r.index - 1].command == command)
  {
    hide Legal, After, HistAfter, Next, Record;
    StartedReign(n, run, i, s, command);
    ServerAt(n, run, j, b);
    var r, y, h := StartResult(n, run, i, s, command), At(n, run, j).servers[b], HistAfter(n, run);
    if r.index <= |y.log| && y.log[r.index - 1].term == r.term {
      assert EntryOk(h, y.log, r.index - 1);
      assert y.log[r.index - 1] == y.log[..r.index][r.index - 1];
    }
  }

  lemma StartedReign(n: nat, run: seq<Step>, i: nat, s: nat, command: Command)
    requires Legal(n, run) && Started(n, run, i, s, command)
    ensures var r, h, hi := StartResult(n, run, i, s, command), HistAfter(n, run), HistAt(n, run, i + 1);
            && r.term >= 0 && r.index >= 1 && r.term in hi.reigns && r.term in h.reigns
            && r.index == |hi.reigns[r.term].log| <= |h.reigns[r.term].log|
            && h.reigns[r.term].log[r.index - 1] == Entry(command, r.term)
  {
    hide Legal, After, HistAfter;
    InvAt(n, run, i);
    HistStep(n, run, i);
    HistFinal(n, run, i + 1);
    var x, hi := At(n, run, i).servers[s], HistAt(n, run, i);
    assert ServerOk(x, s, n, hi);
    AppendedLog(At(n, run, i).servers, hi, s, Entry(command, x.currentTerm), HistAt(n, run, i + 1));
  }

  /** Successful calls of `Start`, on whatever servers, return distinct positions or terms. */
  lemma StartUnique(n: nat, run: seq<Step>, i: nat, a: nat, c: Command, j: nat, b: nat, d: Command)
    requires Legal(n, run) && Started(n, run, i, a, c) && Started(n, run, j, b, d) && i < j
    ensures var r, q := StartResult(n, run, i, a, c), StartResult(n, run, j, b, d);
            r.index != q.index || r.term != q.term
  {
    hide Legal, After, HistAfter, Next, Record;
    StartedReign(n, run, i, a, c);
    InvAt(n, run, j);
    AtStep(n, run, j);
    HistGrows(n, run, i + 1, j);
    assert ServerOk(At(n, run, j).servers[b], b, n, HistAt(n, run, j));
  }
}
