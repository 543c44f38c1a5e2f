/** Calls, voting rounds and apply channels under every step. */
module NetSteps {
  import opened RaftTypes
  import opened Cluster
  import opened History
  import opened Invariant
  import opened Growth
  import S = ServerSteps

  lemma CallStable(c: Call, n: nat, cells: nat, cells2: nat, h: Hist, h2: Hist, s: nat)
    requires CallOk(c, n, cells, h) && Grow(h, h2, s) && cells <= cells2
    ensures CallOk(c, n, cells2, h2)
  {
    if c.AppendCall? {
      var a := c.append;
      var l, l2 := h.reigns[a.term].log, h2.reigns[a.term].log;
      assert l == l2[..|l|];
      assert l[..a.leaderCommit] == l2[..a.leaderCommit];
      CommittedStable(n, h, h2, s, l[..a.leaderCommit], a.term, a.term);
      assert Ack(h, c.to, a.term) <= Ack(h2, c.to, a.term);
    }
  }

  lemma ChannelStable(c: Channel, n: nat, h: Hist, h2: Hist, s: nat)
    requires ChannelOk(c, n, h) && Grow(h, h2, s)
    ensures ChannelOk(c, n, h2)
  {
    var p: Log, t: nat :| Committed(n, h, p, t) && c.messages == S.Messages(p, 0, |p|);
    CommittedStable(n, h, h2, s, p, t, t);
  }

  predicate Counted(c: Call) { c.VoteCall? && c.voteState == Finished(true) }

  /** Both calls are the same request of the same round. */
  predicate SameRequest(c: Call, d: Call) {
    if c.VoteCall? then d == c.(voteState := if d.VoteCall? then d.voteState else c.voteState)
    else d == c.(appendState := if d.AppendCall? then d.appendState else c.appendState)
  }

  /** A step that leaves calls and rounds as they are. */
  lemma NetQuiet(sys: System, h: Hist, sys2: System, h2: Hist, s: nat)
    requires NetInv(sys, h) && Grow(h, h2, s)
    requires |sys2.servers| == |sys.servers| && |sys2.epochs| == |sys.epochs|
    requires sys2.calls == sys.calls && sys2.cells == sys.cells && sys2.retired == sys.retired
    ensures NetInv(sys2, h2)
  {
    NetCalls(sys, h, h2, s);
    forall c | 0 <= c < |sys2.cells| ensures CellOk(sys2, c) {
      assert CellOk(sys, c);
    }
  }

  lemma NetCalls(sys: System, h: Hist, h2: Hist, s: nat)
    requires NetInv(sys, h) && Grow(h, h2, s)
    ensures forall k {:trigger CallOk(sys.calls[k], |sys.servers|, |sys.cells|, h2)} :: 0 <= k < |sys.calls| ==>
        CallOk(sys.calls[k], |sys.servers|, |sys.cells|, h2)
    ensures forall i {:trigger ChannelOk(sys.retired[i], |sys.servers|, h2)} :: 0 <= i < |sys.retired| ==>
        ChannelOk(sys.retired[i], |sys.servers|, h2)
  {
    forall k | 0 <= k < |sys.calls| ensures CallOk(sys.calls[k], |sys.servers|, |sys.cells|, h2) {
      assert CallOk(sys.calls[k], |sys.servers|, |sys.cells|, h);
      CallStable(sys.calls[k], |sys.servers|, |sys.cells|, |sys.cells|, h, h2, s);
    }
    forall i | 0 <= i < |sys.retired| ensures ChannelOk(sys.retired[i], |sys.servers|, h2) {
      assert ChannelOk(sys.retired[i], |sys.servers|, h);
      ChannelStable(sys.retired[i], |sys.servers|, h, h2, s);
    }
  }

  lemma RoundsKept(calls: seq<Call>, k: nat, c2: Call, calls2: seq<Call>)
    requires k < |calls| && SameRequest(calls[k], c2) && calls2 == calls[k := c2]
    requires forall i, j :: RoundOk(calls, i, j)
    ensures forall i, j :: RoundOk(calls2, i, j)
  {
    forall i: nat, j: nat ensures RoundOk(calls2, i, j) {
      assert RoundOk(calls, i, j);
    }
  }

  /** A call changes its state, which may add one vote to its round. */
  lemma CountedAfter(calls: seq<Call>, k: nat, c2: Call, cell: nat)
    requires k < |calls| && SameRequest(calls[k], c2) && (Counted(calls[k]) ==> Counted(c2))
    requires forall i, j :: RoundOk(calls, i, j)
    ensures var added := Counted(c2) && !Counted(calls[k]) && c2.cell == cell;
            && CountedPeers(calls[k := c2], cell) == CountedPeers(calls, cell) + (if added then {c2.to} else {})
            && (added ==> c2.to !in CountedPeers(calls, cell))
  {
    var calls2 := calls[k := c2];
    var added := Counted(c2) && !Counted(calls[k]) && c2.cell == cell;
    forall p | p in CountedPeers(calls, cell) ensures p in CountedPeers(calls2, cell) {
      var i :| 0 <= i < |calls| && calls[i].VoteCall? && calls[i].cell == cell && calls[i].voteState == Finished(true)
          && calls[i].to == p;
      assert calls2[i].VoteCall? && calls2[i].cell == cell && calls2[i].voteState == Finished(true)
          && calls2[i].to == p;
    }
    forall i | 0 <= i < |calls| && Counted(calls[i]) && calls[i].cell == cell && added
      ensures calls[i].to != c2.to
    {
      assert RoundOk(calls, i, k) && RoundOk(calls, k, i);
    }
    forall p | p in CountedPeers(calls2, cell) ensures p in CountedPeers(calls, cell) || (added && p == c2.to) {
      var i :| 0 <= i < |calls2| && calls2[i].VoteCall? && calls2[i].cell == cell
          && calls2[i].voteState == Finished(true) && calls2[i].to == p;
      if i != k {
        assert calls[i] == calls2[i];
      }
    }
    if added {
      assert calls2[k] == c2;
      assert c2.to in CountedPeers(calls2, cell);
    }
  }

  /** A step that changes the state of one call, and counts at most that call's vote. */
  lemma NetSet(sys: System, h: Hist, sys2: System, h2: Hist, s: nat, k: nat, c2: Call)
    requires NetInv(sys, h) && Grow(h, h2, s) && k < |sys.calls|
    requires |sys2.servers| == |sys.servers| && |sys2.epochs| == |sys.epochs|
    requires sys2.calls == sys.calls[k := c2] && sys2.retired == sys.retired
    requires SameRequest(sys.calls[k], c2) && (Counted(sys.calls[k]) ==> Counted(c2))
    requires if Counted(c2) && !Counted(sys.calls[k])
             then c2.cell < |sys.cells| && sys2.cells == sys.cells[c2.cell := sys.cells[c2.cell] + 1]
             else sys2.cells == sys.cells
    requires CallOk(c2, |sys.servers|, |sys.cells|, h2)
    ensures NetInv(sys2, h2)
  {
    NetCalls(sys, h, h2, s);
    forall i | 0 <= i < |sys2.calls| ensures CallOk(sys2.calls[i], |sys2.servers|, |sys2.cells|, h2) {
      if i != k {
        assert CallOk(sys.calls[i], |sys.servers|, |sys.cells|, h2);
      }
    }
    RoundsKept(sys.calls, k, c2, sys2.calls);
    forall c | 0 <= c < |sys2.cells| ensures CellOk(sys2, c) {
      assert CellOk(sys, c);
      CountedAfter(sys.calls, k, c2, c);
    }
  }

  // ---------- a new voting round ----------

  lemma {:induction false} OthersAre(me: nat, n: nat, p: nat)
    ensures forall x :: x in S.Others(me, n, p) <==> p <= x < n && x != me
    ensures forall i, j :: 0 <= i < j < |S.Others(me, n, p)| ==> S.Others(me, n, p)[i] < S.Others(me, n, p)[j]
    decreases n - p
  {
    if p < n {
      OthersAre(me, n, p + 1);
      var rest := S.Others(me, n, p + 1);
      forall j | 0 <= j < |rest| ensures p < rest[j] {
        assert rest[j] in rest;
      }
    }
  }

  lemma {:induction false} OthersLength(me: nat, n: nat, p: nat)
    requires p <= n
    ensures |S.Others(me, n, p)| == n - p - (if p <= me < n then 1 else 0)
    decreases n - p
  {
    if p < n {
      OthersLength(me, n, p + 1);
    }
  }

  lemma CountedKept(calls: seq<Call>, more: seq<Call>, cell: nat)
    requires forall i :: 0 <= i < |more| ==> !Counted(more[i])
    ensures CountedPeers(calls + more, cell) == CountedPeers(calls, cell)
  {
    forall p | p in CountedPeers(calls, cell) ensures p in CountedPeers(calls + more, cell) {
      var i :| 0 <= i < |calls| && calls[i].VoteCall? && calls[i].cell == cell && calls[i].voteState == Finished(true)
          && calls[i].to == p;
      assert (calls + more)[i] == calls[i];
    }
    forall p | p in CountedPeers(calls + more, cell) ensures p in CountedPeers(calls, cell) {
      var i :| 0 <= i < |calls + more| && (calls + more)[i].VoteCall? && (calls + more)[i].cell == cell
          && (calls + more)[i].voteState == Finished(true) && (calls + more)[i].to == p;
      if i < |calls| {
        assert (calls + more)[i] == calls[i];
      } else {
        assert !Counted(more[i - |calls|]) && Counted((calls + more)[i]);
      }
    }
  }

  lemma NetRound(sys: System, h: Hist, me: nat, epoch: nat, args: VoteArgs, sys2: System)
    requires NetInv(sys, h) && me < |sys.servers|
    requires sys2 == sys.(
      cells := sys.cells + [1],
      calls := sys.calls + Ballots(me, S.Others(me, |sys.servers|, 0), epoch, |sys.cells|, args))
    requires args.candidateId == me && CandKey(me, args.term) in h.cands
    requires args.lastLogIndex == |h.cands[CandKey(me, args.term)]|
    requires args.lastLogTerm == S.LastTerm(h.cands[CandKey(me, args.term)])
    ensures NetInv(sys2, h)
  {
    var n, cell := |sys.servers|, |sys.cells|;
    var asked := S.Others(me, n, 0);
    var b := Ballots(me, asked, epoch, cell, args);
    OthersAre(me, n, 0);
    forall i | 0 <= i < |b| ensures CallOk(b[i], n, |sys2.cells|, h) {
      assert asked[i] in asked;
    }
    NewCallsOk(sys, h, b, sys2);
    forall k: nat, l: nat ensures RoundOk(sys2.calls, k, l) {
      assert RoundOk(sys.calls, k, l);
      if k < l < |sys2.calls| && l >= |sys.calls| {
        assert sys2.calls[l] == b[l - |sys.calls|];
        if k >= |sys.calls| {
          assert sys2.calls[k] == b[k - |sys.calls|];
        } else {
          assert sys2.calls[k] == sys.calls[k];
        }
      }
    }
    forall c | 0 <= c < |sys2.cells| ensures CellOk(sys2, c) {
      CountedKept(sys.calls, b, c);
      if c < |sys.cells| {
        assert CellOk(sys, c);
      } else {
        assert CountedPeers(sys.calls, c) == {};
      }
    }
  }

  lemma NewCallsOk(sys: System, h: Hist, more: seq<Call>, sys2: System)
    requires NetInv(sys, h)
    requires sys2 == sys.(cells := sys2.cells, calls := sys.calls + more) && |sys.cells| <= |sys2.cells|
    requires forall i :: 0 <= i < |more| ==> CallOk(more[i], |sys.servers|, |sys2.cells|, h)
    ensures Wellformed(sys2)
    ensures forall k {:trigger CallOk(sys2.calls[k], |sys2.servers|, |sys2.cells|, h)} :: 0 <= k < |sys2.calls| ==>
        CallOk(sys2.calls[k], |sys2.servers|, |sys2.cells|, h)
  {
    forall k | 0 <= k < |sys2.calls| ensures CallOk(sys2.calls[k], |sys2.servers|, |sys2.cells|, h) {
      if k < |sys.calls| {
        assert sys2.calls[k] == sys.calls[k];
        assert CallOk(sys.calls[k], |sys.servers|, |sys.cells|, h);
      } else {
        assert sys2.calls[k] == more[k - |sys.calls|];
      }
    }
    forall k | 0 <= k < |sys2.calls|
      ensures sys2.calls[k].from < |sys2.servers| && sys2.calls[k].to < |sys2.servers|
          && (sys2.calls[k].VoteCall? ==> sys2.calls[k].cell < |sys2.cells|)
    {
      assert CallOk(sys2.calls[k], |sys2.servers|, |sys2.cells|, h);
    }
  }

  /** An apply channel is retired. */
  lemma NetRetire(sys: System, h: Hist, c: Channel, sys2: System)
    requires NetInv(sys, h) && ChannelOk(c, |sys.servers|, h)
    requires sys2 == sys.(epochs := sys2.epochs, retired := sys.retired + [c]) && |sys2.epochs| == |sys.epochs|
    ensures NetInv(sys2, h)
  {
    forall k | 0 <= k < |sys2.calls| ensures CallOk(sys2.calls[k], |sys2.servers|, |sys2.cells|, h) {
      assert CallOk(sys.calls[k], |sys.servers|, |sys.cells|, h);
    }
    forall k: nat, l: nat ensures RoundOk(sys2.calls, k, l) {
      assert RoundOk(sys.calls, k, l);
    }
    forall d | 0 <= d < |sys2.cells| ensures CellOk(sys2, d) {
      assert CellOk(sys, d);
    }
    forall i | 0 <= i < |sys2.retired| ensures ChannelOk(sys2.retired[i], |sys2.servers|, h) {
      assert i < |sys.retired| ==> ChannelOk(sys.retired[i], |sys.servers|, h);
    }
  }

  /** A leader's new AppendEntries call. */
  lemma NetSend(sys: System, h: Hist, c: Call, sys2: System)
    requires NetInv(sys, h) && c.AppendCall? && CallOk(c, |sys.servers|, |sys.cells|, h)
    requires sys2 == sys.(calls := sys.calls + [c])
    ensures NetInv(sys2, h)
  {
    NewCallsOk(sys, h, [c], sys2);
    forall k: nat, l: nat ensures RoundOk(sys2.calls, k, l) {
      assert RoundOk(sys.calls, k, l);
    }
    forall d | 0 <= d < |sys2.cells| ensures CellOk(sys2, d) {
      assert CellOk(sys, d);
      CountedKept(sys.calls, [c], d);
    }
  }
}
