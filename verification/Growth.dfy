/** What stays true while one server acts and the history grows. */
module Growth {
  import opened RaftTypes
  import opened History
  import opened Invariant
  import opened Facts

  /** A reign keeps everything but the log, which only its leader extends. */
  ghost predicate Extends(r: Reign, r2: Reign, s: nat) {
    && r2 == r.(log := r2.log) && r.log <= r2.log
    && (r.leader != s ==> r2.log == r.log)
  }

  /** The history grows from `h` to `h2` by an action of server `s`. */
  ghost predicate Grow(h: Hist, h2: Hist, s: nat) {
    && (forall t {:trigger t in h2.reigns} {:trigger t in h.reigns} :: t in h.reigns ==>
         t in h2.reigns && Extends(h.reigns[t], h2.reigns[t], s))
    && (forall t {:trigger t in h2.reigns} :: t in h2.reigns && t !in h.reigns ==> h2.reigns[t].leader == s)
    && (forall k {:trigger k in h.cands} {:trigger k in h2.cands} :: k in h.cands ==>
         k in h2.cands && h2.cands[k] == h.cands[k])
    && (forall k {:trigger k in h.votes} {:trigger k in h2.votes} :: k in h.votes ==>
         k in h2.votes && h2.votes[k] == h.votes[k])
    && (forall k {:trigger k in h2.votes} :: k in h2.votes && k !in h.votes ==> k.voter == s)
    && (forall v, t {:trigger Ack(h, v, t)} {:trigger Ack(h2, v, t)} ::
         Ack(h, v, t) <= Ack(h2, v, t) && (v != s ==> Ack(h2, v, t) == Ack(h, v, t)))
  }

  lemma LogStable(h: Hist, h2: Hist, s: nat, log: Log)
    requires Grow(h, h2, s) && LogOk(h, log)
    ensures LogOk(h2, log)
  {
    forall i | 0 <= i < |log| ensures EntryOk(h2, log, i) {
      assert EntryOk(h, log, i);
      var t := log[i].term;
      assert h.reigns[t].log[..i + 1] == h2.reigns[t].log[..i + 1];
    }
  }

  lemma ChosenStable(n: nat, h: Hist, h2: Hist, s: nat, t: nat, m: nat)
    requires Grow(h, h2, s) && Chosen(n, h, t, m)
    ensures Chosen(n, h2, t, m) && h2.reigns[t].log[..m] == h.reigns[t].log[..m]
  {
    LargerQuorum(n, Ackers(n, h, t, m), Ackers(n, h2, t, m));
  }

  lemma CommittedStable(n: nat, h: Hist, h2: Hist, s: nat, p: Log, t: nat, t2: nat)
    requires Grow(h, h2, s) && Committed(n, h, p, t) && t <= t2
    ensures Committed(n, h2, p, t2)
  {
    if p != [] {
      var u: nat, m: nat :| u <= t && Chosen(n, h, u, m) && p <= h.reigns[u].log[..m];
      ChosenStable(n, h, h2, s, u, m);
    }
  }

  lemma CommittedLater(n: nat, h: Hist, p: Log, t: nat, t2: nat)
    requires Committed(n, h, p, t) && t <= t2
    ensures Committed(n, h, p, t2)
  {
  }

  /** A server is not disturbed by what another server does. */
  lemma ServerStable(x: Server, i: nat, n: nat, h: Hist, h2: Hist, s: nat)
    requires ServerOk(x, i, n, h) && Grow(h, h2, s) && i != s
    ensures ServerOk(x, i, n, h2)
  {
    LogStable(h, h2, s, x.log);
    CommittedStable(n, h, h2, s, x.log[..x.commitIndex], x.currentTerm, x.currentTerm);
    forall c ensures CurrentVoteOk(x, i, h2, c) {
      assert CurrentVoteOk(x, i, h, c);
    }
    assert HoldsAcked(x, i, h2) by {
      assert Ack(h2, i, x.currentTerm) == Ack(h, i, x.currentTerm);
    }
  }

  // ---------- terms advance, and what may still be confirmed shrinks ----------

  /** Server `s` moves from ss to ss2 and the history from h to h2: no term goes back, and
      `s` confirms nothing in terms it had already left. */
  ghost predicate Advance(ss: seq<Server>, h: Hist, ss2: seq<Server>, h2: Hist, s: nat) {
    && s < |ss| == |ss2| && ss2 == ss[s := ss2[s]]
    && ss[s].currentTerm <= ss2[s].currentTerm
    && Grow(h, h2, s)
    && (forall t {:trigger Ack(h2, s, t)} :: Ack(h2, s, t) > Ack(h, s, t) ==> ss[s].currentTerm <= t)
  }

  lemma ChoosableBack(ss: seq<Server>, h: Hist, ss2: seq<Server>, h2: Hist, s: nat, t: nat, m: nat)
    requires Advance(ss, h, ss2, h2, s)
    requires Choosable(ss2, h2, t, m) && OwnIndex(h, t, m)
    ensures Choosable(ss, h, t, m)
  {
    forall i | i in MayAck(ss2, h2, t, m) ensures i in MayAck(ss, h, t, m) {
      assert i != s ==> Ack(h2, i, t) == Ack(h, i, t);
    }
    LargerQuorum(|ss|, MayAck(ss2, h2, t, m), MayAck(ss, h, t, m));
  }

  // ---------- old history stays in order ----------

  lemma OldHistory(ss: seq<Server>, h: Hist, ss2: seq<Server>, h2: Hist, s: nat)
    requires HistOk(ss, h) && Advance(ss, h, ss2, h2, s)
    ensures forall k {:trigger CandOk(ss2, h2, k)} :: k in h.cands ==> CandOk(ss2, h2, k)
    ensures forall k {:trigger VoteOk(ss2, h2, k)} :: k in h.votes ==> VoteOk(ss2, h2, k)
    ensures forall t {:trigger ReignOk(|ss2|, h2, t)} :: t in h.reigns && h2.reigns[t].log == h.reigns[t].log ==>
        ReignOk(|ss2|, h2, t)
    ensures forall k {:trigger AckOk(ss2, h2, k)} :: k in h.acks && k in h2.acks && h2.acks[k] == h.acks[k] ==>
        AckOk(ss2, h2, k)
  {
    forall k | k in h.cands ensures CandOk(ss2, h2, k) {
      assert CandOk(ss, h, k);
      LogStable(h, h2, s, h.cands[k]);
    }
    forall k | k in h.votes ensures VoteOk(ss2, h2, k) {
      assert VoteOk(ss, h, k);
      LogStable(h, h2, s, h.votes[k]);
    }
    forall t | t in h.reigns && h2.reigns[t].log == h.reigns[t].log ensures ReignOk(|ss2|, h2, t) {
      assert ReignOk(|ss|, h, t);
      LogStable(h, h2, s, h.reigns[t].log);
    }
    forall k | k in h.acks && k in h2.acks && h2.acks[k] == h.acks[k] ensures AckOk(ss2, h2, k) {
      assert AckOk(ss, h, k);
    }
  }

  // ---------- putting one server's action together ----------

  lemma CoreUpdate(ss: seq<Server>, h: Hist, ss2: seq<Server>, h2: Hist, s: nat)
    requires CoreInv(ss, h) && Advance(ss, h, ss2, h2, s)
    requires HistOk(ss2, h2) && ServerOk(ss2[s], s, |ss2|, h2) && SafeOk(ss2, h2)
    ensures CoreInv(ss2, h2)
  {
    forall i | 0 <= i < |ss2| ensures ServerOk(ss2[i], i, |ss2|, h2) {
      if i != s {
        assert ServerOk(ss[i], i, |ss|, h);
        ServerStable(ss[i], i, |ss|, h, h2, s);
      }
    }
  }

  /** Committed entries stay in place under an action that leaves the server's log, all
      reigns and all confirmations alone; a new vote records the voter's log. */
  lemma SafeFrame(ss: seq<Server>, h: Hist, ss2: seq<Server>, h2: Hist, s: nat)
    requires SafeOk(ss, h) && Advance(ss, h, ss2, h2, s)
    requires h2.reigns == h.reigns && h2.acks == h.acks && ss2[s].log == ss[s].log
    requires forall k {:trigger k in h2.votes} :: k in h2.votes && k !in h.votes ==> h2.votes[k] == ss[s].log
    ensures SafeOk(ss2, h2)
  {
    forall t, m, u ensures LaterReignHas(ss2, h2, t, m, u) {
      if Choosable(ss2, h2, t, m) {
        ChoosableBack(ss, h, ss2, h2, s, t, m);
        assert LaterReignHas(ss, h, t, m, u);
      }
    }
    forall t, m, v ensures ServerHas(ss2, h2, t, m, v) {
      if Choosable(ss2, h2, t, m) {
        ChoosableBack(ss, h, ss2, h2, s, t, m);
        assert ServerHas(ss, h, t, m, v);
      }
    }
    forall t, m, k ensures VoterHad(ss2, h2, t, m, k) {
      if Choosable(ss2, h2, t, m) {
        ChoosableBack(ss, h, ss2, h2, s, t, m);
        assert VoterHad(ss, h, t, m, k);
        assert ServerHas(ss, h, t, m, s);
      }
    }
  }
}
