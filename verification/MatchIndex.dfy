/** When a leader's match index for a peer goes down. The source says that it never does;
    it does whenever the replies to two calls return in the wrong order. */
module MatchIndex {
  import opened RaftTypes
  import opened Cluster
  import opened History
  import opened Invariant
  import opened NetSteps
  import opened Runs
  import opened Safety
  import S = ServerSteps

  /** How much of the sender's log a message covers: all of it, when it is sent. */
  function Covered(a: AppendArgs): nat { a.prevLogIndex + |a.entries| }

  predicate Leads(sys: System, l: nat, t: nat) {
    l < |sys.servers| && sys.servers[l].role == Leader && sys.servers[l].currentTerm == t
  }

  /** Step `i` makes `l`, as leader of term `t`, book a success of peer `p`. */
  ghost predicate Books(n: nat, run: seq<Step>, i: nat, l: nat, p: nat, t: nat)
    requires Legal(n, run)
  {
    i < |run| && BooksCall(At(n, run, i), run[i], l, p, t)
  }

  predicate BooksCall(sys: System, step: Step, l: nat, p: nat, t: nat) {
    && step.ReturnAppend? && step.call < |sys.calls|
    && var c := sys.calls[step.call];
    && c.AppendCall? && c.from == l < |sys.servers| && c.to == p && c.append.term == t
    && c.appendState.Answered? && c.appendState.reply.success
    && S.BookingDue(sys.servers[l], c.append, c.appendState.reply)
  }

  /** The call that was booked last before step `i`. */
  ghost function LastBooked(n: nat, run: seq<Step>, i: nat, l: nat, p: nat, t: nat): Option<nat>
    requires Legal(n, run) && i <= |run|
  {
    if i == 0 then None
    else if Books(n, run, i - 1, l, p, t) then Some(run[i - 1].call)
    else LastBooked(n, run, i - 1, l, p, t)
  }

  // ---------- calls keep their arguments ----------

  lemma CallStep(sys: System, step: Step, k: nat)
    requires Wellformed(sys) && Enabled(sys, step) && InBounds(sys, step) && k < |sys.calls|
    ensures k < |Next(sys, step).calls| && SameRequest(sys.calls[k], Next(sys, step).calls[k])
  {
  }

  lemma {:induction false} CallKept(n: nat, run: seq<Step>, i: nat, j: nat, k: nat)
    requires Legal(n, run) && i <= j <= |run| && k < |At(n, run, i).calls|
    ensures k < |At(n, run, j).calls| && SameRequest(At(n, run, i).calls[k], At(n, run, j).calls[k])
    decreases j
  {
    hide Legal, After, Next;
    if i < j {
      CallKept(n, run, i, j - 1, k);
      AtStep(n, run, j - 1);
      CallStep(At(n, run, j - 1), run[j - 1], k);
    }
  }

  /** Step `a` makes the call with number `k`. */
  ghost predicate Sends(n: nat, run: seq<Step>, a: nat, k: nat, l: nat, p: nat)
    requires Legal(n, run)
  {
    a < |run| && run[a] == SendAppend(l, p) && l < |At(n, run, a).servers| && |At(n, run, a).calls| == k
  }

  lemma SentStep(sys: System, step: Step, k: nat)
    requires Wellformed(sys) && Enabled(sys, step) && InBounds(sys, step)
    requires |sys.calls| <= k < |Next(sys, step).calls| && Next(sys, step).calls[k].AppendCall?
    ensures var c := Next(sys, step).calls[k];
            step == SendAppend(c.from, c.to) && k == |sys.calls| && c.from < |sys.servers|
  {
  }

  lemma {:induction false} CallSent(n: nat, run: seq<Step>, i: nat, k: nat) returns (a: nat)
    requires Legal(n, run) && i <= |run| && k < |At(n, run, i).calls| && At(n, run, i).calls[k].AppendCall?
    ensures a < i && Sends(n, run, a, k, At(n, run, i).calls[k].from, At(n, run, i).calls[k].to)
    decreases i
  {
    hide Legal, After, Next;
    a := 0;
    StartsAtInit(n, run);
    if i > 0 {
      AtStep(n, run, i - 1);
      a := i - 1;
      if k < |At(n, run, i - 1).calls| {
        CallStep(At(n, run, i - 1), run[i - 1], k);
        a := CallSent(n, run, i - 1, k);
      } else {
        SentStep(At(n, run, i - 1), run[i - 1], k);
      }
    }
  }

  lemma StartsAtInit(n: nat, run: seq<Step>)
    requires Legal(n, run)
    ensures At(n, run, 0) == Init(n)
  {
  }

  /** A call covers the log that its sender had when it sent it, and its term is the sender's. */
  lemma SentCovers(n: nat, run: seq<Step>, a: nat, i: nat, k: nat, l: nat, p: nat)
    requires Legal(n, run) && a < i <= |run| && Sends(n, run, a, k, l, p)
    ensures k < |At(n, run, i).calls| && At(n, run, i).calls[k].AppendCall?
    ensures Covered(At(n, run, i).calls[k].append) == |At(n, run, a).servers[l].log|
    ensures Leads(At(n, run, a), l, At(n, run, i).calls[k].append.term)
  {
    hide Legal, After;
    AtStep(n, run, a);
    CallKept(n, run, a + 1, i, k);
  }

  // ---------- the match index is that of the call booked last ----------

  lemma AppendLead(x: Server, args: AppendArgs)
    ensures var y := S.AppendEntries(x, args).0;
            y.role == Leader ==> x.role == Leader && y.currentTerm == x.currentTerm && y.matchIndex == x.matchIndex
  {
  }

  lemma VoteLead(x: Server, args: VoteArgs)
    ensures var y := S.RequestVote(x, args).0;
            y.role == Leader ==> x.role == Leader && y.currentTerm == x.currentTerm && y.matchIndex == x.matchIndex
  {
  }

  lemma ReplyLead(x: Server, n: nat, peer: nat, args: AppendArgs, reply: AppendReply)
    requires S.BookingDue(x, args, reply) ==> S.CanBook(x, n, peer)
    ensures var y := S.OnAppendReply(x, n, peer, args, reply);
            y.role == Leader ==>
              && x.role == Leader && y.currentTerm == x.currentTerm
              && y.matchIndex == if S.BookingDue(x, args, reply) && reply.success
                                 then x.matchIndex[peer := Covered(args)] else x.matchIndex
  {
    hide S.NewCommit, S.Backtrack;
  }

  /** A step other than booking leaves the match index of a leader alone. */
  lemma MatchStep(sys: System, step: Step, l: nat, p: nat, t: nat)
    requires Wellformed(sys) && Enabled(sys, step) && InBounds(sys, step)
    requires Leads(sys, l, t) && Leads(Next(sys, step), l, t) && p < |sys.servers[l].matchIndex|
    ensures var x, y := sys.servers[l], Next(sys, step).servers[l];
            && |y.matchIndex| == |x.matchIndex|
            && y.matchIndex[p] == if BooksCall(sys, step, l, p, t) then Covered(sys.calls[step.call].append)
                                  else x.matchIndex[p]
  {
    hide S.AppendEntries, S.OnAppendReply, S.RequestVote;
    match step {
      case DeliverAppend(k) => AppendLead(sys.servers[sys.calls[k].to], sys.calls[k].append);
      case DeliverVote(k) => VoteLead(sys.servers[sys.calls[k].to], sys.calls[k].vote);
      case ReturnAppend(k) =>
        var c := sys.calls[k];
        ReplyLead(sys.servers[c.from], |sys.servers|, c.to, c.append, c.appendState.reply);
      case _ =>
    }
  }

  /** A leadership begins with an election, and with match indices of zero. */
  lemma NewLeader(sys: System, step: Step, l: nat, t: nat)
    requires Wellformed(sys) && Enabled(sys, step) && InBounds(sys, step)
    requires !Leads(sys, l, t) && Leads(Next(sys, step), l, t)
    ensures l < |sys.servers| && sys.servers[l].role == Candidate && sys.servers[l].currentTerm == t
    ensures step.ReturnVote?
    ensures var m := Next(sys, step).servers[l].matchIndex;
            |m| == |sys.servers| && forall p :: 0 <= p < |m| && p != l ==> m[p] == 0
  {
    hide S.AppendEntries, S.OnAppendReply, S.RequestVote;
    match step {
      case DeliverAppend(k) => AppendLead(sys.servers[sys.calls[k].to], sys.calls[k].append);
      case DeliverVote(k) => VoteLead(sys.servers[sys.calls[k].to], sys.calls[k].vote);
      case ReturnAppend(k) =>
        var c := sys.calls[k];
        ReplyLead(sys.servers[c.from], |sys.servers|, c.to, c.append, c.appendState.reply);
      case _ =>
    }
  }

  /** Whoever has led a term is not a candidate of that term later. */
  lemma LedBefore(n: nat, run: seq<Step>, i: nat, j: nat, l: nat, t: nat)
    requires Legal(n, run) && i <= j <= |run| && Leads(At(n, run, i), l, t)
    ensures |At(n, run, j).servers| == n && l < n
    ensures !(At(n, run, j).servers[l].role == Candidate && At(n, run, j).servers[l].currentTerm == t)
  {
    hide Legal, After, HistAfter, Next, Record;
    InvAt(n, run, i);
    InvAt(n, run, j);
    HistGrows(n, run, i, j);
    assert ServerOk(At(n, run, i).servers[l], l, n, HistAt(n, run, i));
    assert ServerOk(At(n, run, j).servers[l], l, n, HistAt(n, run, j));
  }

  lemma {:induction false} NothingBooked(n: nat, run: seq<Step>, i: nat, j: nat, l: nat, p: nat, t: nat)
    requires Legal(n, run) && i <= j <= |run| && |At(n, run, j).servers| == n && l < n
    requires At(n, run, j).servers[l].role == Candidate && At(n, run, j).servers[l].currentTerm == t
    ensures LastBooked(n, run, i, l, p, t) == None
    decreases i
  {
    hide Legal, After;
    if i > 0 {
      NothingBooked(n, run, i - 1, j, l, p, t);
      if Books(n, run, i - 1, l, p, t) {
        LedBefore(n, run, i - 1, j, l, t);
      }
    }
  }

  /** What the match index is: how much the call booked last covers, or 0 if none was. */
  ghost function BookedLast(n: nat, run: seq<Step>, i: nat, l: nat, p: nat, t: nat): nat
    requires Legal(n, run) && i <= |run|
  {
    match LastBooked(n, run, i, l, p, t)
    case None => 0
    case Some(k) =>
      if k < |At(n, run, i).calls| && At(n, run, i).calls[k].AppendCall?
      then Covered(At(n, run, i).calls[k].append) else 0
  }

  lemma {:induction false} LastBookedKnown(n: nat, run: seq<Step>, i: nat, l: nat, p: nat, t: nat) returns (x: nat)
    requires Legal(n, run) && i <= |run| && LastBooked(n, run, i, l, p, t).Some?
    ensures x < i && Books(n, run, x, l, p, t) && run[x].call == LastBooked(n, run, i, l, p, t).value
    ensures run[x].call < |At(n, run, i).calls| && At(n, run, i).calls[run[x].call].AppendCall?
    ensures forall y :: x < y < i ==> !Books(n, run, y, l, p, t)
    decreases i
  {
    hide Legal, After;
    x := i - 1;
    if !Books(n, run, i - 1, l, p, t) {
      x := LastBookedKnown(n, run, i - 1, l, p, t);
    }
    CallKept(n, run, x, i, run[x].call);
  }

  lemma {:induction false} MatchIndexIs(n: nat, run: seq<Step>, i: nat, l: nat, p: nat, t: nat)
    requires Legal(n, run) && i <= |run| && Leads(At(n, run, i), l, t) && p < n && p != l
    ensures |At(n, run, i).servers[l].matchIndex| == n
    ensures At(n, run, i).servers[l].matchIndex[p] == BookedLast(n, run, i, l, p, t)
    decreases i
  {
    hide Legal, After, HistAfter, Next, BooksCall, Inv, BookedLast;
    StartsAtInit(n, run);
    MatchLength(n, run, i, l, t);
    if i > 0 {
      var z := i - 1;
      var sys := At(n, run, z);
      AtStep(n, run, z);
      InvAt(n, run, z);
      if Leads(sys, l, t) {
        MatchIndexIs(n, run, z, l, p, t);
        MatchStep(sys, run[z], l, p, t);
        SameBooked(n, run, z, l, p, t);
      } else {
        NewLeader(sys, run[z], l, t);
        NothingBooked(n, run, z, z, l, p, t);
        NotBooking(n, run, z, l, p, t);
        SameBooked(n, run, z, l, p, t);
        assert BookedLast(n, run, z, l, p, t) == 0 by { NoneIsZero(n, run, z, l, p, t); }
      }
    }
  }

  lemma MatchLength(n: nat, run: seq<Step>, i: nat, l: nat, t: nat)
    requires Legal(n, run) && i <= |run| && Leads(At(n, run, i), l, t)
    ensures l < n && |At(n, run, i).servers[l].matchIndex| == n
  {
    hide Legal, After, HistAfter;
    InvAt(n, run, i);
    assert ServerOk(At(n, run, i).servers[l], l, n, HistAt(n, run, i));
  }

  lemma NotBooking(n: nat, run: seq<Step>, z: nat, l: nat, p: nat, t: nat)
    requires Legal(n, run) && z < |run| && !run[z].ReturnAppend?
    ensures !Books(n, run, z, l, p, t)
  {
  }

  lemma NoneIsZero(n: nat, run: seq<Step>, z: nat, l: nat, p: nat, t: nat)
    requires Legal(n, run) && z <= |run| && LastBooked(n, run, z, l, p, t) == None
    ensures BookedLast(n, run, z, l, p, t) == 0
  {
  }

  /** One step of the definition of `BookedLast`. */
  lemma SameBooked(n: nat, run: seq<Step>, z: nat, l: nat, p: nat, t: nat)
    requires Legal(n, run) && z < |run|
    ensures Books(n, run, z, l, p, t) ==> run[z].call < |At(n, run, z).calls|
    ensures BookedLast(n, run, z + 1, l, p, t) ==
            if Books(n, run, z, l, p, t) then Covered(At(n, run, z).calls[run[z].call].append)
            else BookedLast(n, run, z, l, p, t)
  {
    hide Legal, After;
    if Books(n, run, z, l, p, t) {
      CallKept(n, run, z, z + 1, run[z].call);
    } else if LastBooked(n, run, z, l, p, t).Some? {
      var x := LastBookedKnown(n, run, z, l, p, t);
      CallKept(n, run, z, z + 1, run[x].call);
    }
  }

  // ---------- when it goes down ----------

  /** Call `k2` was sent later than call `k`, and the sender's log had grown in between. */
  ghost predicate SentLater(n: nat, run: seq<Step>, l: nat, p: nat, k: nat, k2: nat)
    requires Legal(n, run)
  {
    exists a: nat, b: nat :: a < b && Sends(n, run, a, k, l, p) && Sends(n, run, b, k2, l, p)
                   && |At(n, run, a).servers[l].log| < |At(n, run, b).servers[l].log|
  }

  ghost function MatchAt(n: nat, run: seq<Step>, i: nat, l: nat, p: nat, t: nat): int
    requires Legal(n, run) && i <= |run| && Leads(At(n, run, i), l, t) && p < n
  {
    MatchLength(n, run, i, l, t);
    At(n, run, i).servers[l].matchIndex[p]
  }

  lemma SentLonger(n: nat, run: seq<Step>, l: nat, p: nat, t: nat, i: nat, k: nat, k2: nat)
    requires Legal(n, run) && i <= |run| && k < |At(n, run, i).calls| && k2 < |At(n, run, i).calls|
    requires var c := At(n, run, i).calls[k]; c.AppendCall? && c.from == l && c.to == p && c.append.term == t
    requires var c := At(n, run, i).calls[k2]; c.AppendCall? && c.from == l && c.to == p && c.append.term == t
    ensures Covered(At(n, run, i).calls[k].append) < Covered(At(n, run, i).calls[k2].append)
            <==> SentLater(n, run, l, p, k, k2)
  {
    hide Legal, After;
    var a := CallSent(n, run, i, k);
    var b := CallSent(n, run, i, k2);
    SentCovers(n, run, a, i, k, l, p);
    SentCovers(n, run, b, i, k2, l, p);
    InvAt(n, run, a);
    if b <= a {
      LeaderAppendOnly(n, run, b, a, l);
    }
    if SentLater(n, run, l, p, k, k2) {
      var a1: nat, b1: nat :| a1 < b1 && Sends(n, run, a1, k, l, p) && Sends(n, run, b1, k2, l, p)
                              && |At(n, run, a1).servers[l].log| < |At(n, run, b1).servers[l].log|;
      SentOnce(n, run, a, a1, k, l, p);
      SentOnce(n, run, b, b1, k2, l, p);
    }
  }

  /** A call is sent at one step only. */
  lemma SentOnce(n: nat, run: seq<Step>, a: nat, b: nat, k: nat, l: nat, p: nat)
    requires Legal(n, run) && Sends(n, run, a, k, l, p) && Sends(n, run, b, k, l, p)
    ensures a == b
  {
    hide Legal, After;
    if a < b {
      SentCovers(n, run, a, b, k, l, p);
    } else if b < a {
      SentCovers(n, run, b, a, k, l, p);
    }
  }

  /** Across a step of a leadership, a peer's match index goes down if and only if the step books
      a success of the peer and the success booked before it, of the same leadership,
      answers a call that was sent later, when the leader's log had grown. */
  lemma MatchIndexLowered(n: nat, run: seq<Step>, i: nat, l: nat, p: nat, t: nat)
    requires Legal(n, run) && i < |run| && p < n && p != l
    requires Leads(At(n, run, i), l, t) && Leads(At(n, run, i + 1), l, t)
    ensures MatchAt(n, run, i + 1, l, p, t) < MatchAt(n, run, i, l, p, t) <==>
              && Books(n, run, i, l, p, t) && LastBooked(n, run, i, l, p, t).Some?
              && SentLater(n, run, l, p, run[i].call, LastBooked(n, run, i, l, p, t).value)
  {
    hide Legal, After, SentLater;
    MatchIndexIs(n, run, i, l, p, t);
    MatchIndexIs(n, run, i + 1, l, p, t);
    SameBooked(n, run, i, l, p, t);
    if Books(n, run, i, l, p, t) && LastBooked(n, run, i, l, p, t).Some? {
      var x := LastBookedKnown(n, run, i, l, p, t);
      CallKept(n, run, x, i, run[x].call);
      SentLonger(n, run, l, p, t, i, run[i].call, run[x].call);
    }
  }

  // ---------- whole leaderships ----------

  /** A leadership is not interrupted: who leads a term at two moments leads it in between. */
  lemma {:induction false} LeadsBetween(n: nat, run: seq<Step>, i: nat, m: nat, j: nat, l: nat, t: nat)
    requires Legal(n, run) && i <= m <= j <= |run| && Leads(At(n, run, i), l, t) && Leads(At(n, run, j), l, t)
    ensures Leads(At(n, run, m), l, t)
    decreases j
  {
    hide Legal, After, Next, HistAfter;
    if m < j {
      AtStep(n, run, j - 1);
      LedBefore(n, run, i, j - 1, l, t);
      if !Leads(At(n, run, j - 1), l, t) {
        NewLeader(At(n, run, j - 1), run[j - 1], l, t);
      }
      LeadsBetween(n, run, i, m, j - 1, l, t);
    }
  }

  /** The match index for `p` never goes down while `l` leads term `t`, up to moment `j`. */
  ghost predicate NeverLowered(n: nat, run: seq<Step>, j: nat, l: nat, p: nat, t: nat)
    requires Legal(n, run) && j <= |run| && p < n
  {
    forall x {:trigger At(n, run, x)} :: 0 <= x < j && Leads(At(n, run, x), l, t) && Leads(At(n, run, x + 1), l, t) ==>
      MatchAt(n, run, x, l, p, t) <= MatchAt(n, run, x + 1, l, p, t)
  }

  /** No success of `p` is booked after one whose call was sent later, with more in the log. */
  ghost predicate BookedInOrder(n: nat, run: seq<Step>, j: nat, l: nat, p: nat, t: nat)
    requires Legal(n, run) && j <= |run|
  {
    forall x, y :: 0 <= x < y < j && Books(n, run, x, l, p, t) && Books(n, run, y, l, p, t) ==>
      !SentLater(n, run, l, p, run[y].call, run[x].call)
  }

  lemma {:induction false} Rises(n: nat, run: seq<Step>, x: nat, y: nat, j: nat, l: nat, p: nat, t: nat)
    requires Legal(n, run) && x <= y <= j <= |run| && p < n && NeverLowered(n, run, j, l, p, t)
    requires Leads(At(n, run, x), l, t) && Leads(At(n, run, y), l, t)
    ensures MatchAt(n, run, x, l, p, t) <= MatchAt(n, run, y, l, p, t)
    decreases y
  {
    hide Legal, After, MatchAt;
    if x < y {
      LeadsBetween(n, run, x, y - 1, y, l, t);
      Rises(n, run, x, y - 1, j, l, p, t);
    }
  }

  /** Over a leadership the match index for a peer never goes down if and only if no two of the
      peer's successes are booked in the opposite order of their calls, apart from calls
      between which nothing was added to the leader's log. */
  lemma MatchIndexMonotone(n: nat, run: seq<Step>, j: nat, l: nat, p: nat, t: nat)
    requires Legal(n, run) && j <= |run| && p < n && p != l && Leads(At(n, run, j), l, t)
    ensures NeverLowered(n, run, j, l, p, t) <==> BookedInOrder(n, run, j, l, p, t)
  {
    hide Legal, After, SentLater, MatchAt;
    if BookedInOrder(n, run, j, l, p, t) {
      forall x | 0 <= x < j && Leads(At(n, run, x), l, t) && Leads(At(n, run, x + 1), l, t)
        ensures MatchAt(n, run, x, l, p, t) <= MatchAt(n, run, x + 1, l, p, t)
      {
        MatchIndexLowered(n, run, x, l, p, t);
        if LastBooked(n, run, x, l, p, t).Some? {
          var w := LastBookedKnown(n, run, x, l, p, t);
        }
      }
    }
    if NeverLowered(n, run, j, l, p, t) {
      forall x: nat, y: nat | x < y < j && Books(n, run, x, l, p, t) && Books(n, run, y, l, p, t)
        ensures !SentLater(n, run, l, p, run[y].call, run[x].call)
      {
        BookedTwice(n, run, x, y, j, l, p, t);
      }
    }
  }

  lemma BookedTwice(n: nat, run: seq<Step>, x: nat, y: nat, j: nat, l: nat, p: nat, t: nat)
    requires Legal(n, run) && x < y < j <= |run| && p < n && p != l && Leads(At(n, run, j), l, t)
    requires NeverLowered(n, run, j, l, p, t) && Books(n, run, x, l, p, t) && Books(n, run, y, l, p, t)
    ensures !SentLater(n, run, l, p, run[y].call, run[x].call)
  {
    hide Legal, After, SentLater, NeverLowered, BookedLast;
    LeadsBetween(n, run, x, x + 1, j, l, t);
    LeadsBetween(n, run, x, y + 1, j, l, t);
    Rises(n, run, x + 1, y + 1, j, l, p, t);
    MatchIndexIs(n, run, x + 1, l, p, t);
    MatchIndexIs(n, run, y + 1, l, p, t);
    SameBooked(n, run, x, l, p, t);
    SameBooked(n, run, y, l, p, t);
    CallKept(n, run, x, y, run[x].call);
    SentLonger(n, run, l, p, t, y, run[y].call, run[x].call);
  }

  /** Replies that return in the order in which their calls were sent never lower it. */
  lemma InOrderNeverLowers(n: nat, run: seq<Step>, j: nat, l: nat, p: nat, t: nat)
    requires Legal(n, run) && j <= |run| && p < n && p != l && Leads(At(n, run, j), l, t)
    requires forall x, y :: 0 <= x < y < j && Books(n, run, x, l, p, t) && Books(n, run, y, l, p, t) ==>
               run[x].call < run[y].call
    ensures NeverLowered(n, run, j, l, p, t)
  {
    hide Legal, After, NeverLowered;
    forall x: nat, y: nat | x < y < j && Books(n, run, x, l, p, t) && Books(n, run, y, l, p, t)
      ensures !SentLater(n, run, l, p, run[y].call, run[x].call)
    {
      if SentLater(n, run, l, p, run[y].call, run[x].call) {
        var a: nat, b: nat :| a < b && Sends(n, run, a, run[y].call, l, p) && Sends(n, run, b, run[x].call, l, p);
        SentCovers(n, run, a, b, run[y].call, l, p);
      }
    }
    MatchIndexMonotone(n, run, j, l, p, t);
  }
}
