/** A cluster: servers that run the critical sections of ServerSteps, and a network
    that may lose, delay and reorder requests and replies, but hands each request to
    its handler at most once and each reply to its caller at most once. */
module Cluster {
  import opened RaftTypes
  import S = ServerSteps

  datatype CallState<R> = Sent | Answered(reply: R) | Finished(counted: bool)

  /** A remote call. `epoch` is the incarnation of the caller that made it; `cell`
      names the vote counter of the caller's voting round. */
  datatype Call =
    | VoteCall(from: nat, to: nat, epoch: nat, cell: nat, vote: VoteArgs, voteState: CallState<VoteReply>)
    | AppendCall(from: nat, to: nat, epoch: nat, append: AppendArgs, appendState: CallState<AppendReply>)

  /** The apply channel of an incarnation that has crashed. */
  datatype Channel = Channel(server: nat, messages: seq<ApplyMsg>)

  datatype System = System(
    servers: seq<Server>,
    epochs: seq<nat>,
    calls: seq<Call>,
    cells: seq<nat>,
    retired: seq<Channel>)

  /** A server can crash between two critical sections, or while it handles a call: after it
      has stored the sender's term and before it does anything else. */
  datatype Step =
    | Timeout(server: nat)
    | StartVoting(server: nat)
    | DeliverVote(call: nat)
    | ReturnVote(call: nat)
    | StartCommand(server: nat, command: Command)
    | SendAppend(server: nat, peer: nat)
    | DeliverAppend(call: nat)
    | ReturnAppend(call: nat)
    | Lose(call: nat)
    | Crash(server: nat, during: Option<nat>)

  function Init(n: nat): System {
    System(seq(n, _ => S.Boot(None)), seq(n, _ => 0), [], [], [])
  }

  /** The vote calls of one round, one to each of the peers that the candidate asks. */
  function Ballots(me: nat, asked: seq<nat>, epoch: nat, cell: nat, args: VoteArgs): seq<Call> {
    seq(|asked|, i requires 0 <= i < |asked| => VoteCall(me, asked[i], epoch, cell, args, Sent))
  }

  /** How far a call has got: requested, answered, or over. */
  function Stage(c: Call): nat {
    if c.VoteCall?
    then (match c.voteState case Sent => 0 case Answered(_) => 1 case Finished(_) => 2)
    else (match c.appendState case Sent => 0 case Answered(_) => 1 case Finished(_) => 2)
  }

  /** The call is over without any further effect. */
  function Lost(c: Call): Call {
    if c.AppendCall? then c.(appendState := Finished(false))
    else if c.voteState.Finished? then c else c.(voteState := Finished(false))
  }

  /** A server whose handler has taken over the term of a call and done nothing else. */
  function Begun(s: Server, c: Call): Server {
    if c.VoteCall? then S.JoinTerm(s, c.vote.term) else S.Recognise(s, c.append)
  }

  predicate Wellformed(sys: System) {
    && |sys.epochs| == |sys.servers|
    && forall k :: 0 <= k < |sys.calls| ==>
         && sys.calls[k].from < |sys.servers| && sys.calls[k].to < |sys.servers|
         && (sys.calls[k].VoteCall? ==> sys.calls[k].cell < |sys.cells|)
  }

  /** When a step can happen. Timeouts, losses and crashes can happen at any time. */
  predicate Enabled(sys: System, step: Step) {
    var n := |sys.servers|;
    match step
    case Timeout(s) => s < n
    case StartVoting(s) => s < n && sys.servers[s].role == Candidate
    case DeliverVote(k) => k < |sys.calls| && sys.calls[k].VoteCall? && sys.calls[k].voteState.Sent?
    case ReturnVote(k) =>
      && k < |sys.calls| && sys.calls[k].VoteCall? && sys.calls[k].voteState.Answered?
      && sys.calls[k].from < |sys.epochs| && sys.calls[k].epoch == sys.epochs[sys.calls[k].from]
    case StartCommand(s, _) => s < n
    case SendAppend(s, p) => s < n && p < n && p != s && sys.servers[s].role == Leader
    case DeliverAppend(k) => k < |sys.calls| && sys.calls[k].AppendCall? && sys.calls[k].appendState.Sent?
    case ReturnAppend(k) =>
      && k < |sys.calls| && sys.calls[k].AppendCall? && sys.calls[k].appendState.Answered?
      && sys.calls[k].from < |sys.epochs| && sys.calls[k].epoch == sys.epochs[sys.calls[k].from]
    case Lose(k) => k < |sys.calls|
    case Crash(s, None) => s < n
    case Crash(s, Some(k)) => s < n && k < |sys.calls| && sys.calls[k].to == s && Stage(sys.calls[k]) == 0
  }

  /** Whether the code of an enabled step stays inside its slices. */
  predicate InBounds(sys: System, step: Step)
    requires Wellformed(sys) && Enabled(sys, step)
  {
    match step
    case SendAppend(s, p) => S.CanSend(sys.servers[s], p)
    case ReturnAppend(k) =>
      var c := sys.calls[k];
      var s := sys.servers[c.from];
      S.BookingDue(s, c.append, c.appendState.reply) ==> S.CanBook(s, |sys.servers|, c.to)
    case _ => true
  }

  function SetServer(sys: System, i: nat, s: Server): System
    requires i < |sys.servers|
  {
    sys.(servers := sys.servers[i := s])
  }

  function SetCall(sys: System, k: nat, c: Call): System
    requires k < |sys.calls|
  {
    sys.(calls := sys.calls[k := c])
  }

  /** A new incarnation of server `i` starts from what the old one, in state `s`, has stored. */
  function Reboot(sys: System, i: nat, s: Server): System
    requires i < |sys.servers| == |sys.epochs|
  {
    SetServer(sys, i, S.Boot(s.disk)).(
      epochs := sys.epochs[i := sys.epochs[i] + 1],
      retired := sys.retired + [Channel(i, s.applied)])
  }

  function Next(sys: System, step: Step): System
    requires Wellformed(sys) && Enabled(sys, step) && InBounds(sys, step)
  {
    var n := |sys.servers|;
    match step
    case Timeout(s) => SetServer(sys, s, S.ConvertToCandidate(sys.servers[s], s))
    case StartVoting(s) =>
      sys.(cells := sys.cells + [1],
           calls := sys.calls
             + Ballots(s, S.Others(s, n, 0), sys.epochs[s], |sys.cells|, S.MakeVoteArgs(sys.servers[s], s)))
    case DeliverVote(k) =>
      var c := sys.calls[k];
      var (s, reply) := S.RequestVote(sys.servers[c.to], c.vote);
      SetCall(SetServer(sys, c.to, s), k, c.(voteState := Answered(reply)))
    case ReturnVote(k) =>
      var c := sys.calls[k];
      var s := sys.servers[c.from];
      var (s1, votes) := S.OnVoteReply(s, c.from, n, c.vote, c.voteState.reply, sys.cells[c.cell]);
      var counted := c.voteState.reply.granted && S.VoteCounts(s, c.vote, c.voteState.reply);
      SetCall(SetServer(sys.(cells := sys.cells[c.cell := votes]), c.from, s1), k, c.(voteState := Finished(counted)))
    case StartCommand(s, command) => SetServer(sys, s, S.Start(sys.servers[s], command).0)
    case SendAppend(s, p) =>
      sys.(calls := sys.calls + [AppendCall(s, p, sys.epochs[s], S.MakeAppendArgs(sys.servers[s], s, p), Sent)])
    case DeliverAppend(k) =>
      var c := sys.calls[k];
      var (s, reply) := S.AppendEntries(sys.servers[c.to], c.append);
      SetCall(SetServer(sys, c.to, s), k, c.(appendState := Answered(reply)))
    case ReturnAppend(k) =>
      var c := sys.calls[k];
      var s1 := S.OnAppendReply(sys.servers[c.from], n, c.to, c.append, c.appendState.reply);
      SetCall(SetServer(sys, c.from, s1), k, c.(appendState := Finished(true)))
    case Lose(k) => SetCall(sys, k, Lost(sys.calls[k]))
    case Crash(s, None) => Reboot(sys, s, sys.servers[s])
    case Crash(s, Some(k)) =>
      var c := sys.calls[k];
      Reboot(SetCall(sys, k, Lost(c)), s, Begun(sys.servers[s], c))
  }

  // ---------- runs ----------

  /** A run is a sequence of steps. It is legal if every step is enabled, and none
      of its code leaves its slices, in the state where it happens. */
  ghost predicate Legal(n: nat, run: seq<Step>)
    decreases |run|, 0
  {
    run == [] ||
    var before := run[..|run| - 1];
    var step := run[|run| - 1];
    && Legal(n, before)
    && Wellformed(After(n, before)) && Enabled(After(n, before), step) && InBounds(After(n, before), step)
  }

  /** The state that a legal run leads to. */
  ghost function After(n: nat, run: seq<Step>): System
    requires Legal(n, run)
    decreases |run|, 1
  {
    if run == [] then Init(n) else Next(After(n, run[..|run| - 1]), run[|run| - 1])
  }

  lemma {:induction false} PrefixLegal(n: nat, run: seq<Step>, i: nat)
    requires Legal(n, run) && i <= |run|
    ensures Legal(n, run[..i])
  {
    if i < |run| {
      PrefixLegal(n, run[..|run| - 1], i);
      assert run[..|run| - 1][..i] == run[..i];
    } else {
      assert run[..i] == run;
    }
  }

  /** The state after the first `i` steps of a run. */
  ghost function At(n: nat, run: seq<Step>, i: nat): System
    requires Legal(n, run) && i <= |run|
  {
    PrefixLegal(n, run, i);
    After(n, run[..i])
  }

  /** Consecutive states of a run are related by its steps. */
  lemma AtStep(n: nat, run: seq<Step>, i: nat)
    requires Legal(n, run) && i < |run|
    ensures Wellformed(At(n, run, i)) && Enabled(At(n, run, i), run[i]) && InBounds(At(n, run, i), run[i])
    ensures At(n, run, i + 1) == Next(At(n, run, i), run[i])
  {
    PrefixLegal(n, run, i + 1);
    var r := run[..i + 1];
    assert r[..|r| - 1] == run[..i] && r[|r| - 1] == run[i];
  }

  // ---------- what the network delivers ----------

  /** The call whose request a step hands to its handler. */
  function Handled(step: Step): Option<nat> {
    match step
    case DeliverVote(k) => Some(k)
    case DeliverAppend(k) => Some(k)
    case Crash(_, during) => during
    case _ => None
  }

  predicate Delivers(step: Step, k: nat) { Handled(step) == Some(k) }

  predicate Crashes(step: Step, s: nat) { step.Crash? && step.server == s }

  /** The step hands the reply of call `k` to its caller. */
  predicate Returns(step: Step, k: nat) { step == ReturnVote(k) || step == ReturnAppend(k) }

  lemma StageStep(sys: System, step: Step, k: nat)
    requires Wellformed(sys) && Enabled(sys, step) && InBounds(sys, step) && k < |sys.calls|
    ensures k < |Next(sys, step).calls| && Stage(sys.calls[k]) <= Stage(Next(sys, step).calls[k])
    ensures Delivers(step, k) ==> Stage(sys.calls[k]) == 0 && Stage(Next(sys, step).calls[k]) >= 1
    ensures Returns(step, k) ==> Stage(sys.calls[k]) == 1 && Stage(Next(sys, step).calls[k]) == 2
  {
  }

  lemma {:induction false} StagesAdvance(n: nat, run: seq<Step>, i: nat, j: nat, k: nat)
    requires Legal(n, run) && i <= j <= |run| && k < |At(n, run, i).calls|
    ensures k < |At(n, run, j).calls| && Stage(At(n, run, i).calls[k]) <= Stage(At(n, run, j).calls[k])
    decreases j
  {
    hide Legal, After, Next;
    if i < j {
      StagesAdvance(n, run, i, j - 1, k);
      AtStep(n, run, j - 1);
      StageStep(At(n, run, j - 1), run[j - 1], k);
    }
  }

  /** At-most-once: of two different steps of a run, at most one hands a given request to its
      handler, and at most one hands a given reply to its caller; a reply is handed over
      only after the request. */
  lemma AtMostOnce(n: nat, run: seq<Step>, i: nat, j: nat, k: nat)
    requires Legal(n, run) && i < j < |run|
    ensures !(Delivers(run[i], k) && Delivers(run[j], k))
    ensures !(Returns(run[i], k) && Returns(run[j], k))
    ensures !(Returns(run[i], k) && Delivers(run[j], k))
  {
    hide Legal, After, Next, Stage;
    AtStep(n, run, i);
    AtStep(n, run, j);
    if k < |At(n, run, i).calls| {
      StageStep(At(n, run, i), run[i], k);
      StagesAdvance(n, run, i + 1, j, k);
      StageStep(At(n, run, j), run[j], k);
    }
  }
}
