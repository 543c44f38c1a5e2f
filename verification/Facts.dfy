/** Facts about quorums, logs and the merge of an AppendEntries message. */
module Facts {
  import opened RaftTypes
  import opened History
  import opened Invariant
  import S = ServerSteps

  // ---------- quorums ----------

  lemma {:induction false} BoundedSize(n: nat, q: set<nat>)
    requires Bounded(n, q)
    ensures |q| <= n
  {
    if n == 0 {
      assert q == {};
    } else {
      BoundedSize(n - 1, q - {n - 1});
    }
  }

  lemma QuorumsMeet(n: nat, a: set<nat>, b: set<nat>) returns (v: nat)
    requires Majority(n, a) && Majority(n, b)
    ensures v in a && v in b && v < n
  {
    BoundedSize(n, a + b);
    assert |a + b| == |a| + |b| - |a * b|;
    v :| v in a * b;
  }

  lemma LargerQuorum(n: nat, a: set<nat>, b: set<nat>)
    requires Majority(n, a) && a <= b && Bounded(n, b)
    ensures Majority(n, b)
  {
    assert b == a + (b - a);
    assert |b| == |a| + |b - a|;
  }

  /** The servers whose match index reaches `k`. */
  function Reaching(matches: seq<int>, k: nat): set<nat> {
    set i: nat | i < |matches| && matches[i] >= k
  }

  lemma ReachingStep(matches: seq<int>, k: nat)
    requires matches != []
    ensures var z := |matches| - 1;
            && z !in Reaching(matches[..z], k)
            && Reaching(matches, k) == Reaching(matches[..z], k) + (if matches[z] >= k then {z} else {})
  {
  }

  /** The leader's count is the number of peers whose match index reaches `k`. */
  lemma {:induction false} CountIsSize(matches: seq<int>, k: nat)
    ensures S.CountAtLeast(matches, k) == |Reaching(matches, k)|
  {
    if matches == [] {
      assert Reaching(matches, k) == {};
    } else {
      hide Reaching;
      CountIsSize(matches[..|matches| - 1], k);
      ReachingStep(matches, k);
    }
  }

  // ---------- logs ----------

  /** Log Matching in its strong form: wherever two logs hold entries of one term, at
      whatever positions, they agree up to the lower of the two positions. */
  ghost predicate Related(a: Log, b: Log) {
    forall i, j :: 0 <= i < |a| && 0 <= j < |b| && a[i].term == b[j].term ==>
        a[..S.Min(i, j) + 1] == b[..S.Min(i, j) + 1]
  }

  lemma LogsRelated(h: Hist, a: Log, b: Log)
    requires LogOk(h, a) && LogOk(h, b)
    ensures Related(a, b)
  {
    forall i, j | 0 <= i < |a| && 0 <= j < |b| && a[i].term == b[j].term
      ensures a[..S.Min(i, j) + 1] == b[..S.Min(i, j) + 1]
    {
      assert EntryOk(h, a, i) && EntryOk(h, b, j);
      var l := h.reigns[a[i].term].log;
      var m := S.Min(i, j) + 1;
      assert a[..m] == a[..i + 1][..m] == l[..i + 1][..m] == l[..m];
      assert b[..m] == b[..j + 1][..m] == l[..j + 1][..m] == l[..m];
    }
  }

  /** Terms never decrease along a log. */
  ghost predicate Sorted(log: Log) {
    forall i, j :: 0 <= i <= j < |log| ==> log[i].term <= log[j].term
  }

  lemma ReignEntry(n: nat, h: Hist, t: nat, i: nat)
    requires t in h.reigns && ReignOk(n, h, t) && Below(h.reigns[t].start, t) && i < |h.reigns[t].log|
    ensures h.reigns[t].log[i].term <= t
    ensures h.reigns[t].log[i].term == t <==> |h.reigns[t].start| <= i
  {
    var r := h.reigns[t];
    if i < |r.start| {
      assert r.log[i] == r.log[..|r.start|][i] == r.start[i];
    }
  }

  ghost predicate ReignsOk(n: nat, h: Hist) {
    forall t {:trigger ReignOk(n, h, t)} :: t in h.reigns ==> ReignOk(n, h, t) && Below(h.reigns[t].start, t)
  }

  lemma LogSorted(n: nat, h: Hist, log: Log)
    requires ReignsOk(n, h) && LogOk(h, log)
    ensures Sorted(log)
  {
    forall i, j | 0 <= i <= j < |log| ensures log[i].term <= log[j].term {
      assert EntryOk(h, log, j);
      var t := log[j].term;
      assert ReignOk(n, h, t);
      assert log[i] == log[..j + 1][i] == h.reigns[t].log[i];
      ReignEntry(n, h, t, i);
    }
  }

  lemma PrefixOk(h: Hist, log: Log, m: nat)
    requires LogOk(h, log) && m <= |log|
    ensures LogOk(h, log[..m])
  {
    forall i | 0 <= i < m ensures EntryOk(h, log[..m], i) {
      assert EntryOk(h, log, i);
      assert log[..m][..i + 1] == log[..i + 1];
    }
  }

  // ---------- the merge ----------

  /** What an accepted message does to a log: nothing if the log already holds the sender's
      prefix that the message covers, and otherwise the log becomes that prefix. */
  lemma {:induction false} MergeMatches(log: Log, at: nat, k: nat, full: Log)
    requires at <= |log| && at <= k <= |full|
    requires log[..at] == full[..at]
    requires Related(log, full)
    ensures S.Merge(log, at, full[at..k]) == if full[..k] <= log then log else full[..k]
    decreases k - at
  {
    var entries := full[at..k];
    if at == |log| || entries == [] {
      assert full[..k] == full[..at] + entries;
      if at == k {
        assert full[..k] <= log && log + entries == log;
      } else {
        assert log == log[..at];
      }
    } else if entries[0].term != log[at].term {
      assert full[..k] == full[..at] + entries;
      assert full[..k][at] == full[at] == entries[0];
    } else {
      assert entries[0] == full[at];
      assert log[..at + 1] == full[..at + 1];
      assert entries[1..] == full[at + 1..k];
      MergeMatches(log, at + 1, k, full);
    }
  }

  /** The message carries the sender's log from prevLogIndex to position k. */
  ghost predicate Carries(args: AppendArgs, full: Log) {
    var k := args.prevLogIndex + |args.entries|;
    && k <= |full| && args.entries == full[args.prevLogIndex..k]
    && (args.prevLogIndex > 0 ==> full[args.prevLogIndex - 1].term == args.prevLogTerm)
  }

  lemma MergeMessage(log: Log, args: AppendArgs, full: Log)
    requires S.HasPrev(log, args) && Carries(args, full) && Related(log, full)
    ensures var k := args.prevLogIndex + |args.entries|;
            S.Merge(log, args.prevLogIndex, args.entries) == if full[..k] <= log then log else full[..k]
  {
    var p := args.prevLogIndex;
    if p > 0 {
      assert log[p - 1].term == full[p - 1].term;
      assert log[..S.Min(p - 1, p - 1) + 1] == full[..S.Min(p - 1, p - 1) + 1];
    }
    assert log[..p] == full[..p];
    MergeMatches(log, p, p + |args.entries|, full);
  }

  /** A merge keeps every prefix that the log and the sender's log share. */
  lemma MergeKeeps(log: Log, args: AppendArgs, full: Log, p: Log)
    requires S.HasPrev(log, args) && Carries(args, full) && Related(log, full)
    requires p <= log && p <= full
    ensures p <= S.Merge(log, args.prevLogIndex, args.entries)
  {
    MergeMessage(log, args, full);
    var k := args.prevLogIndex + |args.entries|;
    if |p| >= k {
      assert full[..k] == p[..k] == log[..k];
    } else {
      assert full[..k][..|p|] == full[..|p|] == p;
    }
  }

  // ---------- what the handlers keep ----------

  /** No term goes back, and nobody becomes a candidate. */
  predicate Steady(x: Server, y: Server) {
    && x.currentTerm <= y.currentTerm
    && (y.role == Candidate ==> x.role == Candidate && y.currentTerm == x.currentTerm && y.log == x.log)
  }

  predicate SameLog(x: Server, y: Server) { y.log == x.log && x.commitIndex <= y.commitIndex }

  lemma VoteSteady(x: Server, args: VoteArgs)
    ensures Steady(x, S.RequestVote(x, args).0) && SameLog(x, S.RequestVote(x, args).0)
  {
  }

  lemma VoteReplySteady(x: Server, me: nat, n: nat, args: VoteArgs, reply: VoteReply, votes: nat)
    requires me < n
    ensures var y := S.OnVoteReply(x, me, n, args, reply, votes).0; Steady(x, y) && SameLog(x, y)
  {
  }

  lemma AppendReplySteady(x: Server, n: nat, peer: nat, args: AppendArgs, reply: AppendReply)
    requires S.BookingDue(x, args, reply) ==> S.CanBook(x, n, peer)
    ensures var y := S.OnAppendReply(x, n, peer, args, reply); Steady(x, y) && SameLog(x, y)
  {
  }

  lemma AppendSteady(x: Server, args: AppendArgs)
    ensures Steady(x, S.AppendEntries(x, args).0)
  {
    hide S.Merge;
  }

  // ---------- committed prefixes are comparable ----------

  /** Two committed prefixes are prefixes of the log of one term's leader. */
  lemma CommittedReach(ss: seq<Server>, h: Hist, p: Log, t: nat, u: nat)
    requires CoreInv(ss, h)
    requires Committed(|ss|, h, p, t) && t <= u && u in h.reigns
    ensures p <= h.reigns[u].log
  {
    if p != [] {
      var w: nat, m: nat :| w <= t && Chosen(|ss|, h, w, m) && p <= h.reigns[w].log[..m];
      ChosenChoosable(ss, h, w, m);
      assert LaterReignHas(ss, h, w, m, u);
      if w < u {
        assert ReignOk(|ss|, h, u);
        assert h.reigns[w].log[..m] <= h.reigns[u].start <= h.reigns[u].log;
      }
    }
  }

  lemma ChosenChoosable(ss: seq<Server>, h: Hist, t: nat, m: nat)
    requires Chosen(|ss|, h, t, m)
    ensures Choosable(ss, h, t, m)
  {
    LargerQuorum(|ss|, Ackers(|ss|, h, t, m), MayAck(ss, h, t, m));
  }

  lemma CommittedAgree(ss: seq<Server>, h: Hist, p: Log, t: nat, q: Log, u: nat)
    requires CoreInv(ss, h)
    requires Committed(|ss|, h, p, t) && Committed(|ss|, h, q, u)
    ensures p <= q || q <= p
  {
    if p != [] && q != [] {
      var w: nat, m: nat :| w <= t && Chosen(|ss|, h, w, m) && p <= h.reigns[w].log[..m];
      var x: nat, l: nat :| x <= u && Chosen(|ss|, h, x, l) && q <= h.reigns[x].log[..l];
      var z := if w < x then x else w;
      assert Committed(|ss|, h, p, w) && Committed(|ss|, h, q, x);
      CommittedReach(ss, h, p, w, z);
      CommittedReach(ss, h, q, x, z);
      var f := h.reigns[z].log;
      assert p == f[..|p|] && q == f[..|q|];
    }
  }
}
