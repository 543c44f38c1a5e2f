/** From steps to whole runs. */
module Runs {
  import opened RaftTypes
  import opened Cluster
  import opened History
  import opened Invariant
  import opened Facts
  import opened Growth
  import opened Preservation
  import S = ServerSteps

  lemma InitInv(n: nat)
    ensures Inv(Init(n), Hist(map[], map[], map[], map[]))
  {
    var ss, h := Init(n).servers, Hist(map[], map[], map[], map[]);
    forall i | 0 <= i < n ensures ServerOk(ss[i], i, n, h) {
      assert ss[i] == S.Boot(None);
    }
    forall t, m ensures !OwnIndex(h, t, m) {}
  }

  /** Every reachable state satisfies the invariant with the history of its run. */
  lemma {:induction false} Reachable(n: nat, run: seq<Step>)
    requires Legal(n, run)
    ensures Inv(After(n, run), HistAfter(n, run)) && |After(n, run).servers| == n
    decreases |run|
  {
    if run == [] {
      InitInv(n);
    } else {
      var before := run[..|run| - 1];
      Reachable(n, before);
      KeepStep(After(n, before), HistAfter(n, before), run[|run| - 1]);
    }
  }

  /** No enabled step ever leaves the slices that its code indexes. */
  lemma NeverOutOfBounds(n: nat, run: seq<Step>, step: Step)
    requires Legal(n, run)
    requires Enabled(After(n, run), step)
    ensures Wellformed(After(n, run)) && InBounds(After(n, run), step)
    ensures Legal(n, run + [step])
  {
    Reachable(n, run);
    KeepStep(After(n, run), HistAfter(n, run), step);
    assert (run + [step])[..|run|] == run;
  }

  ghost function HistAt(n: nat, run: seq<Step>, i: nat): Hist
    requires Legal(n, run) && i <= |run|
  {
    PrefixLegal(n, run, i);
    HistAfter(n, run[..i])
  }

  lemma InvAt(n: nat, run: seq<Step>, i: nat)
    requires Legal(n, run) && i <= |run|
    ensures Inv(At(n, run, i), HistAt(n, run, i)) && |At(n, run, i).servers| == n
  {
    PrefixLegal(n, run, i);
    Reachable(n, run[..i]);
  }

  lemma HistStep(n: nat, run: seq<Step>, i: nat)
    requires Legal(n, run) && i < |run|
    ensures Wellformed(At(n, run, i)) && Enabled(At(n, run, i), run[i]) && InBounds(At(n, run, i), run[i])
    ensures HistAt(n, run, i + 1) == Record(At(n, run, i), run[i], HistAt(n, run, i))
    ensures Grow(HistAt(n, run, i), HistAt(n, run, i + 1), Actor(At(n, run, i), run[i]))
  {
    PrefixLegal(n, run, i + 1);
    var r := run[..i + 1];
    assert r[..|r| - 1] == run[..i] && r[|r| - 1] == run[i];
    InvAt(n, run, i);
    KeepStep(At(n, run, i), HistAt(n, run, i), run[i]);
  }

  // ---------- the history only grows ----------

  ghost predicate Older(h: Hist, h2: Hist) {
    && (forall t {:trigger t in h2.reigns} {:trigger t in h.reigns} :: t in h.reigns ==>
          t in h2.reigns && h2.reigns[t] == h.reigns[t].(log := h2.reigns[t].log)
              && h.reigns[t].log <= h2.reigns[t].log)
    && (forall k {:trigger k in h.cands} {:trigger k in h2.cands} :: k in h.cands ==>
         k in h2.cands && h2.cands[k] == h.cands[k])
    && (forall k {:trigger k in h.votes} {:trigger k in h2.votes} :: k in h.votes ==> k in h2.votes)
    && (forall v, t {:trigger Ack(h, v, t)} {:trigger Ack(h2, v, t)} :: Ack(h, v, t) <= Ack(h2, v, t))
  }

  lemma {:induction false} HistGrows(n: nat, run: seq<Step>, i: nat, j: nat)
    requires Legal(n, run) && i <= j <= |run|
    ensures Older(HistAt(n, run, i), HistAt(n, run, j))
    decreases j - i
  {
    hide Legal, After, HistAfter, Next, Record;
    if i < j {
      HistGrows(n, run, i, j - 1);
      HistStep(n, run, j - 1);
    }
  }

  /** The history of the whole run is past every moment of it. */
  lemma HistFinal(n: nat, run: seq<Step>, i: nat)
    requires Legal(n, run) && i <= |run|
    ensures Older(HistAt(n, run, i), HistAfter(n, run))
    ensures CoreInv(After(n, run).servers, HistAfter(n, run)) && |After(n, run).servers| == n
  {
    HistGrows(n, run, i, |run|);
    assert run[..|run|] == run;
    Reachable(n, run);
  }

  lemma OlderLog(h: Hist, h2: Hist, log: Log)
    requires Older(h, h2) && LogOk(h, log)
    ensures LogOk(h2, log)
  {
    forall i | 0 <= i < |log| ensures EntryOk(h2, log, i) {
      assert EntryOk(h, log, i);
      var t := log[i].term;
      assert h.reigns[t].log[..i + 1] == h2.reigns[t].log[..i + 1];
    }
  }

  lemma OlderCommitted(n: nat, h: Hist, h2: Hist, p: Log, t: nat)
    requires Older(h, h2) && Committed(n, h, p, t)
    ensures Committed(n, h2, p, t)
  {
    if p != [] {
      var u: nat, m: nat :| u <= t && Chosen(n, h, u, m) && p <= h.reigns[u].log[..m];
      LargerQuorum(n, Ackers(n, h, u, m), Ackers(n, h2, u, m));
      assert h.reigns[u].log[..m] == h2.reigns[u].log[..m];
      assert Chosen(n, h2, u, m);
    }
  }

  // ---------- a server at a moment of a run ----------

  /** Everything the invariant says about one server at one moment, in terms of the
      history of the whole run. */
  lemma ServerAt(n: nat, run: seq<Step>, i: nat, s: nat)
    requires Legal(n, run) && i <= |run| && s < n
    ensures |At(n, run, i).servers| == n
    ensures var h, x := HistAfter(n, run), At(n, run, i).servers[s];
            && LocalOk(x) && LogOk(h, x.log) && Below(x.log, x.currentTerm + 1)
            && Committed(n, h, x.log[..x.commitIndex], x.currentTerm)
            && (x.role == Leader ==>
                 && x.currentTerm in h.reigns && h.reigns[x.currentTerm].leader == s
                 && h.reigns[x.currentTerm].start <= x.log <= h.reigns[x.currentTerm].log)
  {
    hide Legal, After, HistAfter, Next, Record;
    InvAt(n, run, i);
    HistFinal(n, run, i);
    var hi, h, sys := HistAt(n, run, i), HistAfter(n, run), At(n, run, i);
    var x := sys.servers[s];
    assert ServerOk(x, s, n, hi);
    OlderLog(hi, h, x.log);
    OlderCommitted(n, hi, h, x.log[..x.commitIndex], x.currentTerm);
    assert x.currentTerm in hi.reigns ==> ReignOk(n, hi, x.currentTerm);
  }
}
