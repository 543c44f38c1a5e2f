/** Fast backtracking: how a leader finds the point where a follower's log departs
    from its own, and how many rejections that takes. */
module Backtracking {
  import opened RaftTypes
  import opened Invariant
  import opened Facts
  import S = ServerSteps

  /** The leader's probe of a follower's log `f` behind the first `prev` entries of `l`. */
  ghost predicate Matches(f: Log, l: Log, prev: nat)
    requires prev <= |l|
  {
    prev <= |f| && (prev > 0 ==> f[prev - 1].term == l[prev - 1].term)
  }

  /** The leader's next probe after a rejection at `prev`. */
  function NextProbe(f: Log, l: Log, prev: nat): int
    requires prev <= |l| && !Matches(f, l, prev)
  {
    if prev > |f| then S.Backtrack(l, prev + 1, -1, |f| + 1) - 1
    else S.Backtrack(l, prev + 1, f[prev - 1].term, S.FirstOfTerm(f, f[prev - 1].term)) - 1
  }

  /** Logs as reachable states have them: sorted, related, terms at least 1. */
  ghost predicate Comparable(f: Log, l: Log) {
    && Sorted(f) && Sorted(l) && Related(f, l)
    && forall i :: 0 <= i < |f| ==> 1 <= f[i].term
  }

  ghost predicate HasAbove(l: Log, t: int) {
    exists i :: 0 <= i < |l| && l[i].term > t
  }

  /** A rejection makes the leader's probe move back, and never past the common prefix of the
      two logs, if and only if the follower's log is too short or the leader's log has
      an entry of a later term than the conflicting one; otherwise the probe stays. */
  lemma ProbeMoves(f: Log, l: Log, prev: nat)
    requires Comparable(f, l) && prev <= |l| && !Matches(f, l, prev)
    ensures var q := NextProbe(f, l, prev);
            if prev > |f| || HasAbove(l, f[prev - 1].term)
            then q < prev && forall m :: 0 <= m <= |f| && m <= |l| && f[..m] == l[..m] ==> m <= q
            else q == prev
  {
    if prev <= |f| {
      var t := f[prev - 1].term;
      var i, c := S.FirstAbove(l, t), S.FirstOfTerm(f, t);
      assert c <= prev;
      if i < |l| {
        ProbeBelow(f, l, prev);
        forall m | 0 <= m <= |f| && m <= |l| && f[..m] == l[..m] ensures m <= NextProbe(f, l, prev) {
          CommonBelow(f, l, prev, m);
        }
      }
    }
  }

  /** If the leader has entries of the conflicting term, the last of them lies before the
      probe, and the follower has the same entries up to there. */
  lemma ProbeBelow(f: Log, l: Log, prev: nat)
    requires Comparable(f, l) && 0 < prev <= |l| && prev <= |f| && !Matches(f, l, prev)
    requires HasAbove(l, f[prev - 1].term)
    ensures 0 <= NextProbe(f, l, prev) < prev
    ensures (exists k :: 0 <= k < |l| && l[k].term == f[prev - 1].term) ==> Matches(f, l, NextProbe(f, l, prev))
    ensures !(exists k :: 0 <= k < |l| && l[k].term == f[prev - 1].term) ==>
              forall j :: 0 <= j < NextProbe(f, l, prev) ==> f[j].term < f[prev - 1].term
  {
    var t := f[prev - 1].term;
    var i, c := S.FirstAbove(l, t), S.FirstOfTerm(f, t);
    assert i < |l|;
    assert c <= prev;
    if k :| 0 <= k < |l| && l[k].term == t {
      assert k < i;
      assert l[i - 1].term == t;
      var m := S.Min(prev - 1, i - 1);
      assert f[..m + 1] == l[..m + 1];
      assert f[m] == f[..m + 1][m] == l[m];
    } else {
      assert NextProbe(f, l, prev) == c - 1;
    }
  }

  lemma CommonBelow(f: Log, l: Log, prev: nat, m: nat)
    requires Comparable(f, l) && 0 < prev <= |l| && prev <= |f| && !Matches(f, l, prev)
    requires HasAbove(l, f[prev - 1].term)
    requires m <= |f| && m <= |l| && f[..m] == l[..m]
    ensures m <= NextProbe(f, l, prev)
  {
    forall k | 0 <= k < m ensures f[k] == l[k] {
      assert f[..m][k] == l[..m][k];
    }
    ProbeBelow(f, l, prev);
  }

  // ---------- the retry loop ----------

  /** A leader that can probe a follower that is not past the leader's term. */
  ghost predicate CanProbe(x: Server, f: Server, n: nat, p: nat) {
    && x.role == Leader && |x.nextIndex| == |x.matchIndex| == n && p < n && S.CanSend(x, p)
    && x.commitIndex <= |x.log|
    && f.currentTerm <= x.currentTerm && Below(f.log, f.currentTerm + 1)
    && Comparable(f.log, x.log)
  }

  /** Where the first probe inside the follower's log falls, the two logs match or the leader has
      an entry of a later term than the follower has there. */
  ghost predicate Open(f: Log, l: Log, prev: nat)
    requires prev <= |l|
  {
    var q := S.Min(prev, |f|);
    Matches(f, l, q) || HasAbove(l, f[q - 1].term)
  }

  ghost predicate CanRetry(x: Server, f: Server, n: nat, p: nat) {
    CanProbe(x, f, n, p) && Open(f.log, x.log, x.nextIndex[p] - 1)
  }

  /** One round of the loop: the leader sends, the follower answers, the leader books it. */
  function Round(x: Server, f: Server, me: nat, n: nat, p: nat): (Server, Server, bool)
    requires S.CanSend(x, p) && S.CanBook(x, n, p)
  {
    var args := S.MakeAppendArgs(x, me, p);
    var (f1, r) := S.AppendEntries(f, args);
    (S.OnAppendReply(x, n, p, args, r), f1, r.success)
  }

  lemma Recognised(f: Server, args: AppendArgs)
    requires f.currentTerm <= args.term
    ensures S.Recognise(f, args).log == f.log && S.Recognise(f, args).currentTerm == args.term
  {
  }

  /** What the follower answers: it takes the leader's term and tells whether the probe matches. */
  lemma Answer(x: Server, f: Server, me: nat, n: nat, p: nat)
    requires CanProbe(x, f, n, p)
    ensures var args, l := S.MakeAppendArgs(x, me, p), x.log;
            var (f1, r) := S.AppendEntries(f, args);
            var prev := args.prevLogIndex;
            && r.term == x.currentTerm && r.success == Matches(f.log, l, prev)
            && (!r.success ==>
                 && f1.log == f.log && f1.currentTerm == x.currentTerm
                 && r.conflictTerm == (if prev > |f.log| then -1 else f.log[prev - 1].term)
                 && r.conflictIndex == (if prev > |f.log| then |f.log| + 1
                                        else S.FirstOfTerm(f.log, f.log[prev - 1].term)))
  {
    hide Comparable, S.Accept, S.FirstOfTerm, S.Recognise;
    var args := S.MakeAppendArgs(x, me, p);
    Recognised(f, args);
    assert S.HasPrev(f.log, args) == Matches(f.log, x.log, args.prevLogIndex);
  }

  lemma Matched(x: Server, f: Server, me: nat, n: nat, p: nat)
    requires CanProbe(x, f, n, p) && Matches(f.log, x.log, x.nextIndex[p] - 1)
    ensures Round(x, f, me, n, p).2
  {
    hide Comparable, S.AppendEntries, S.OnAppendReply;
    Answer(x, f, me, n, p);
  }

  /** A rejection only moves the next index, to the next probe. */
  lemma BookedProbe(x: Server, f: Server, me: nat, n: nat, p: nat)
    requires CanProbe(x, f, n, p) && !Matches(f.log, x.log, x.nextIndex[p] - 1)
    ensures var (x1, f1, ok) := Round(x, f, me, n, p);
            && !ok && x1 == x.(nextIndex := x.nextIndex[p := NextProbe(f.log, x.log, x.nextIndex[p] - 1) + 1])
            && f1.log == f.log && f1.currentTerm == x.currentTerm
  {
    hide Comparable, S.AppendEntries, S.Backtrack, S.FirstOfTerm;
    Answer(x, f, me, n, p);
  }

  /** A round whose probe is rejected leaves both logs alone. It moves the next index back, to
      no less than one past the common prefix, if and only if the follower's log is too short
      or the leader has an entry of a later term than the conflicting one; otherwise it
      leaves the leader exactly as it was. */
  lemma RejectedRound(x: Server, f: Server, me: nat, n: nat, p: nat)
    requires CanProbe(x, f, n, p) && !Matches(f.log, x.log, x.nextIndex[p] - 1)
    ensures var (x1, f1, ok) := Round(x, f, me, n, p);
            var prev := x.nextIndex[p] - 1;
            && !ok && |x1.nextIndex| == n && x1 == x.(nextIndex := x.nextIndex[p := x1.nextIndex[p]])
            && f1.log == f.log && f1.currentTerm == x.currentTerm
            && (if prev > |f.log| || HasAbove(x.log, f.log[prev - 1].term)
                then x1.nextIndex[p] < x.nextIndex[p]
                     && forall m :: 0 <= m <= |f.log| && m <= |x.log| && f.log[..m] == x.log[..m] ==>
                        m < x1.nextIndex[p]
                else x1 == x)
  {
    hide Comparable, Matches, HasAbove, NextProbe, Round;
    BookedProbe(x, f, me, n, p);
    ProbeMoves(f.log, x.log, x.nextIndex[p] - 1);
    var (x1, f1, ok) := Round(x, f, me, n, p);
    if x1.nextIndex[p] == x.nextIndex[p] {
      assert x1.nextIndex == x.nextIndex;
    }
  }

  /** A round ends the loop exactly if the probe matches; otherwise both logs stay as they
      are and the next probe is strictly earlier. */
  lemma RoundMoves(x: Server, f: Server, me: nat, n: nat, p: nat)
    requires CanRetry(x, f, n, p)
    ensures var (x1, f1, ok) := Round(x, f, me, n, p);
            && ok == Matches(f.log, x.log, x.nextIndex[p] - 1)
            && (!ok ==>
                 && CanRetry(x1, f1, n, p) && f1.log == f.log && x1.log == x.log
                 && x1.nextIndex[p] - 1 == NextProbe(f.log, x.log, x.nextIndex[p] - 1)
                 && x1.nextIndex[p] < x.nextIndex[p])
            && (x.nextIndex[p] - 1 > |f.log| ==> !ok && x1.nextIndex[p] - 1 == |f.log|)
            && (!ok && x.nextIndex[p] - 1 <= |f.log| ==> HasAbove(x.log, f.log[x.nextIndex[p] - 2].term))
  {
    hide Comparable, Matches, HasAbove, NextProbe, Round;
    var prev := x.nextIndex[p] - 1;
    ProbeInside(f.log, x.log, prev);
    if Matches(f.log, x.log, prev) {
      Matched(x, f, me, n, p);
    } else {
      BookedProbe(x, f, me, n, p);
    }
  }

  lemma ProbeInside(f: Log, l: Log, prev: nat)
    requires Comparable(f, l) && prev <= |l| && Open(f, l, prev)
    ensures prev > |f| ==> !Matches(f, l, prev)
    ensures !Matches(f, l, prev) ==>
              && 0 <= NextProbe(f, l, prev) < prev && Open(f, l, NextProbe(f, l, prev))
              && (if prev > |f| then NextProbe(f, l, prev) == |f|
                  else prev > 0 && f[prev - 1].term > 0 && HasAbove(l, f[prev - 1].term))
  {
    if !Matches(f, l, prev) && prev <= |f| {
      ProbeBelow(f, l, prev);
      OpenBelow(f, l, prev, NextProbe(f, l, prev));
    }
  }

  lemma OpenBelow(f: Log, l: Log, prev: nat, q: nat)
    requires Sorted(f) && q < prev <= |f| && prev <= |l| && HasAbove(l, f[prev - 1].term)
    ensures Open(f, l, q)
  {
    if q > 0 {
      var i :| 0 <= i < |l| && l[i].term > f[prev - 1].term;
      assert f[q - 1].term <= f[prev - 1].term;
      assert l[i].term > f[q - 1].term;
    }
  }

  /** A leader whose last entry is of its own term always finds the search open: what conflicts
      is older than its own entries. */
  lemma OwnTermOpen(f: Log, l: Log, prev: nat, t: nat)
    requires Comparable(f, l) && prev <= |l| && l != [] && l[|l| - 1].term == t && Below(f, t + 1)
    ensures Open(f, l, prev)
  {
    var q := S.Min(prev, |f|);
    if !Matches(f, l, q) {
      if f[q - 1].term == t {
        RelatedBefore(f, l, q - 1, |l| - 1);
      }
      assert l[|l| - 1].term > f[q - 1].term;
    }
  }

  lemma RelatedBefore(f: Log, l: Log, i: nat, j: nat)
    requires Related(f, l) && i < |f| && i <= j < |l| && f[i].term == l[j].term
    ensures f[i] == l[i]
  {
    assert f[..S.Min(i, j) + 1] == l[..S.Min(i, j) + 1];
    assert f[i] == f[..i + 1][i];
  }

  /** The number of rejections until the loop succeeds; the loop ends. */
  ghost function Rejections(x: Server, f: Server, me: nat, n: nat, p: nat): nat
    requires CanRetry(x, f, n, p)
    decreases x.nextIndex[p]
  {
    RoundMoves(x, f, me, n, p);
    var (x1, f1, ok) := Round(x, f, me, n, p);
    if ok then 0 else 1 + Rejections(x1, f1, me, n, p)
  }

  function Terms(log: Log): set<nat> {
    set i | 0 <= i < |log| :: log[i].term
  }

  lemma FewerTerms(f: Log, prev: nat, q: nat)
    requires 0 < prev <= |f| && q < prev
    ensures |Terms(f[..q])| <= |Terms(f[..prev])| && 1 <= |Terms(f[..prev])|
    ensures (forall j :: 0 <= j < q ==> f[j].term < f[prev - 1].term) ==> |Terms(f[..q])| < |Terms(f[..prev])|
  {
    var a, b, t := Terms(f[..q]), Terms(f[..prev]), f[prev - 1].term;
    forall u | u in a ensures u in b {
      var j :| 0 <= j < q && f[..q][j].term == u;
      assert f[..prev][j].term == u;
    }
    assert f[..prev][prev - 1].term == t;
    assert t in b;
    Subset(a, b);
    if forall j :: 0 <= j < q ==> f[j].term < t {
      assert t !in a;
      Subset(a, b - {t});
    }
  }

  lemma Subset(a: set<nat>, b: set<nat>)
    requires a <= b
    ensures |a| <= |b|
  {
    assert b == a + (b - a);
  }

  /** Once the probe is inside the follower's log, every rejection but the last rules out
      one of the terms there. */
  lemma {:induction false} RejectionsInside(x: Server, f: Server, me: nat, n: nat, p: nat)
    requires CanRetry(x, f, n, p) && x.nextIndex[p] - 1 <= |f.log|
    ensures Rejections(x, f, me, n, p) <= |Terms(f.log[..x.nextIndex[p] - 1])|
    decreases x.nextIndex[p]
  {
    hide Round, NextProbe, Matches, Comparable;
    RoundMoves(x, f, me, n, p);
    var (x1, f1, ok) := Round(x, f, me, n, p);
    if !ok {
      var prev, q := x.nextIndex[p] - 1, x1.nextIndex[p] - 1;
      ProbeBelow(f.log, x.log, prev);
      FewerTerms(f.log, prev, q);
      RejectionsInside(x1, f1, me, n, p);
      RoundMoves(x1, f1, me, n, p);
      if exists k :: 0 <= k < |x.log| && x.log[k].term == f.log[prev - 1].term {
        assert Rejections(x1, f1, me, n, p) == 0;
      }
    }
  }

  /** The loop succeeds after at most one rejection more than the follower's log has
      distinct terms. */
  lemma RejectionsBound(x: Server, f: Server, me: nat, n: nat, p: nat)
    requires CanRetry(x, f, n, p)
    ensures Rejections(x, f, me, n, p) <= 1 + |Terms(f.log)|
  {
    hide Round, NextProbe, Matches, Comparable;
    RoundMoves(x, f, me, n, p);
    var (x1, f1, ok) := Round(x, f, me, n, p);
    var prev := x.nextIndex[p] - 1;
    if prev <= |f.log| {
      RejectionsInside(x, f, me, n, p);
      if prev < |f.log| && 0 < |f.log| {
        FewerTerms(f.log, |f.log|, prev);
        assert f.log[..|f.log|] == f.log;
      } else {
        assert f.log[..prev] == f.log;
      }
    } else {
      RejectionsInside(x1, f1, me, n, p);
      assert f.log[..|f.log|] == f.log;
    }
  }
}
