/** The Raft server as it is programmed: fields updated in place by the handlers
    and loops that run under its lock. Every method is proved to do to the fields
    and to stable storage what the matching function of ServerSteps says. */
module RaftServer {
  import opened RaftTypes
  import opened Storage
  import S = ServerSteps

  /** The encoder and decoder of stored state. */
  datatype Codec = Codec(encode: Image -> seq<byte>, decode: seq<byte> -> Option<Image>)

  ghost predicate Faithful(c: Codec) {
    forall i: Image :: c.encode(i) != [] && c.decode(c.encode(i)) == Some(i)
  }

  /** What stored bytes stand for; empty storage stands for no state. */
  function Stored(c: Codec, data: seq<byte>): Option<Image> {
    if data == [] then None else c.decode(data)
  }

  /** The vote counter that the reply handlers of one voting round share. */
  class Counter {
    var value: nat
    constructor ()
      ensures value == 1
    {
      value := 1;
    }
  }

  class Raft {
    const me: nat
    const peers: nat
    const persister: Persister
    const codec: Codec

    var currentTerm: nat
    var votedFor: int
    var log: Log
    var commitIndex: nat
    var lastApplied: nat
    var myRole: Role
    var nextIndex: seq<int>
    var matchIndex: seq<int>
    var applyCh: seq<ApplyMsg>

    ghost predicate Valid() {
      me < peers && Faithful(codec)
    }

    ghost function State(): Server
      reads this, persister, persister.raftstate
    {
      Server(currentTerm, votedFor, log, commitIndex, lastApplied, myRole,
             nextIndex, matchIndex, applyCh, Stored(codec, persister.Bytes()))
    }

    /** Make: start from whatever the persister holds. */
    constructor (peers: nat, me: nat, persister: Persister, codec: Codec)
      requires me < peers && Faithful(codec)
      ensures Valid() && this.persister == persister && this.me == me && this.peers == peers
      ensures State() == S.Boot(Stored(codec, persister.Bytes()))
    {
      this.peers, this.me, this.persister, this.codec := peers, me, persister, codec;
      currentTerm, votedFor, log := 0, -1, [];
      commitIndex, lastApplied, myRole := 0, 0, Follower;
      nextIndex, matchIndex, applyCh := [], [], [];
      new;
      var data := persister.ReadRaftState();
      ReadPersist(data);
    }

    method ReadPersist(data: array<byte>)
      modifies this`currentTerm, this`votedFor, this`log
      ensures match Stored(codec, data[..])
              case None => currentTerm == old(currentTerm) && votedFor == old(votedFor) && log == old(log)
              case Some(i) => Image(currentTerm, votedFor, log) == i
    {
      if data.Length < 1 { return; }
      match codec.decode(data[..])
      case None =>
      case Some(i) => currentTerm, votedFor, log := i.currentTerm, i.votedFor, i.log;
    }

    method Persist()
      requires Valid()
      modifies persister
      ensures fresh(persister.raftstate) && State() == S.Persist(old(State()))
    {
      var w := codec.encode(Image(currentTerm, votedFor, log));
      var data := new byte[|w|](i requires 0 <= i < |w| => w[i]);
      assert data[..] == w;
      persister.SaveRaftState(data);
    }

    method ConvertToFollower(term: nat, candidate: int)
      requires Valid()
      modifies this, persister
      ensures State() == S.ConvertToFollower(old(State()), term, candidate)
    {
      myRole := Follower;
      currentTerm := term;
      votedFor := candidate;
      Persist();
    }

    method ConvertToCandidate()
      requires Valid()
      modifies this, persister
      ensures State() == S.ConvertToCandidate(old(State()), me)
    {
      myRole := Candidate;
      currentTerm := currentTerm + 1;
      votedFor := me;
      Persist();
    }

    method ConvertToLeader()
      requires Valid()
      modifies this, persister
      ensures State() == S.ConvertToLeader(old(State()), me, peers)
    {
      myRole := Leader;
      nextIndex, matchIndex := [], [];
      var next := |log| + 1;
      for i := 0 to peers
        invariant |nextIndex| == i && forall k :: 0 <= k < i ==> nextIndex[k] == next
        invariant |matchIndex| == i && forall k :: 0 <= k < i ==> matchIndex[k] == 0
        invariant State().(nextIndex := [], matchIndex := [])
            == old(State()).(role := Leader, nextIndex := [], matchIndex := [])
      {
        nextIndex := nextIndex + [next];
        matchIndex := matchIndex + [0];
      }
      matchIndex := matchIndex[me := |log|];
      Persist();
    }

    method RequestVote(args: VoteArgs) returns (reply: VoteReply)
      requires Valid()
      modifies this, persister
      ensures (State(), reply) == S.RequestVote(old(State()), args)
    {
      if args.term < currentTerm {
        return VoteReply(currentTerm, false);
      }
      if args.term > currentTerm {
        ConvertToFollower(args.term, -1);
      }
      var granted := false;
      if votedFor == -1 || votedFor == args.candidateId {
        var receiverLogTerm: int := -1;
        if |log| > 0 {
          receiverLogTerm := log[|log| - 1].term;
        }
        if args.lastLogTerm != receiverLogTerm {
          granted := args.lastLogTerm > receiverLogTerm;
        } else {
          granted := args.lastLogIndex >= |log|;
        }
      }
      if granted {
        votedFor := args.candidateId;
        Persist();
      }
      reply := VoteReply(currentTerm, granted);
    }

    /** The loop over all peers but the server itself that starts one thread for each. */
    method OtherPeers() returns (others: seq<nat>)
      ensures others == S.Others(me, peers, 0)
    {
      others := [];
      for peer := 0 to peers
        invariant others + S.Others(me, peers, peer) == S.Others(me, peers, 0)
      {
        if peer != me {
          ghost var rest := S.Others(me, peers, peer + 1);
          assert others + ([peer] + rest) == (others + [peer]) + rest;
          others := others + [peer];
        }
      }
      assert S.Others(me, peers, peers) == [];
    }

    /** The locked section of `startVoting`: a candidate asks all others for their votes, with
        one counter for all their answers. Nothing happens if the role has changed. */
    method StartVoting() returns (asked: seq<nat>, args: Option<VoteArgs>, votes: Counter)
      ensures fresh(votes) && votes.value == 1
      ensures State().role == Candidate ==> asked == S.Others(me, peers, 0) && args == Some(S.MakeVoteArgs(State(), me))
      ensures State().role != Candidate ==> asked == [] && args == None
    {
      votes := new Counter();
      if myRole != Candidate { return [], None, votes; }
      var lastLogTerm: int := -1;
      if |log| > 0 {
        lastLogTerm := log[|log| - 1].term;
      }
      args := Some(VoteArgs(currentTerm, me, |log|, lastLogTerm));
      asked := OtherPeers();
    }

    /** The locked section that handles the reply to a vote request. */
    method OnVoteReply(args: VoteArgs, reply: VoteReply, votes: Counter)
      requires Valid()
      modifies this, persister, votes
      ensures (State(), votes.value) == S.OnVoteReply(old(State()), me, peers, args, reply, old(votes.value))
    {
      if reply.term > currentTerm {
        ConvertToFollower(reply.term, -1);
        return;
      }
      if currentTerm != args.term || myRole != Candidate { return; }
      if reply.granted {
        votes.value := votes.value + 1;
      }
      if myRole == Candidate && votes.value * 2 > peers {
        ConvertToLeader();
      }
    }

    /** `served` are the peers to which replication is started. */
    method Start(command: Command) returns (reply: StartReply, served: seq<nat>)
      requires Valid()
      modifies this, persister
      ensures (State(), reply) == S.Start(old(State()), command)
      ensures served == if reply.isLeader then S.Others(me, peers, 0) else []
    {
      if myRole != Leader { return StartReply(-1, -1, false), []; }
      log := log + [Entry(command, currentTerm)];
      Persist();
      served := OtherPeers();
      reply := StartReply(|log|, currentTerm, true);
    }

    /** The locked section that snapshots the arguments of an AppendEntries call. */
    method MakeAppendArgs(peer: nat) returns (args: Option<AppendArgs>)
      requires myRole == Leader ==> S.CanSend(State(), peer)
      ensures args == if State().role == Leader then Some(S.MakeAppendArgs(State(), me, peer)) else None
    {
      if myRole != Leader { return None; }
      var prevLogIndex := nextIndex[peer] - 1;
      var prevLogTerm := 0;
      if prevLogIndex > 0 {
        prevLogTerm := log[prevLogIndex - 1].term;
      }
      args := Some(AppendArgs(currentTerm, me, prevLogIndex, prevLogTerm, log[nextIndex[peer] - 1..], commitIndex));
    }

    method AppendEntries(args: AppendArgs) returns (reply: AppendReply)
      requires Valid()
      modifies this, persister
      ensures (State(), reply) == S.AppendEntries(old(State()), args)
    {
      hide S.Accept;
      if args.term < currentTerm {
        return AppendReply(currentTerm, false, 0, 0);
      }
      if args.term > currentTerm {
        ConvertToFollower(args.term, args.leaderId);
      }
      if myRole == Candidate && args.term >= currentTerm {
        ConvertToFollower(args.term, args.leaderId);
      }
      ghost var s1 := State();
      assert s1 == S.Recognise(old(State()), args);
      if args.prevLogIndex > |log| {
        return AppendReply(currentTerm, false, -1, |log| + 1);
      }
      if args.prevLogIndex > 0 && log[args.prevLogIndex - 1].term != args.prevLogTerm {
        var i := FindFirst(log[args.prevLogIndex - 1].term);
        return AppendReply(currentTerm, false, log[args.prevLogIndex - 1].term, i);
      }
      assert S.HasPrev(s1.log, args);
      TakeEntries(args);
      reply := AppendReply(currentTerm, true, 0, 0);
    }

    /** The rest of the handler, once the message fits: merge, store, commit, apply. */
    method TakeEntries(args: AppendArgs)
      requires Valid() && S.HasPrev(log, args)
      modifies this, persister
      ensures State() == S.Accept(old(State()), args) && currentTerm == old(currentTerm)
    {
      hide S.Merge, S.Messages;
      MergeEntries(args.prevLogIndex, args.entries);
      Persist();
      if args.leaderCommit > commitIndex {
        commitIndex := S.Min(args.leaderCommit, |log|);
        Apply();
      }
    }

    /** The loop that looks for the first entry of the conflicting term. */
    method FindFirst(term: nat) returns (index: nat)
      requires exists k :: 0 <= k < |log| && log[k].term == term
      ensures index == S.FirstOfTerm(log, term)
    {
      var i := 1;
      while i <= |log|
        invariant 1 <= i <= |log| + 1
        invariant forall k :: 0 <= k < i - 1 ==> log[k].term != term
      {
        if log[i - 1].term == term { break; }
        i := i + 1;
      }
      index := i;
    }

    /** Walks the new entries along the log, truncates at a conflict, appends the rest. */
    method MergeEntries(prev: nat, entries: Log)
      requires prev <= |log|
      modifies this`log
      ensures log == S.Merge(old(log), prev, entries)
    {
      var insertIndex, newEntriesIndex := prev, 0;
      while insertIndex < |log| && newEntriesIndex < |entries|
        invariant newEntriesIndex <= |entries| && insertIndex == prev + newEntriesIndex <= |log|
        invariant log == old(log)
        invariant S.Merge(log, insertIndex, entries[newEntriesIndex..]) == S.Merge(log, prev, entries)
      {
        if entries[newEntriesIndex].term != log[insertIndex].term {
          log := log[..insertIndex];
          break;
        }
        assert entries[newEntriesIndex..][1..] == entries[newEntriesIndex + 1..];
        insertIndex := insertIndex + 1;
        newEntriesIndex := newEntriesIndex + 1;
      }
      log := log + entries[newEntriesIndex..];
    }

    /** Applies committed entries in order. */
    method Apply()
      requires commitIndex <= |log|
      modifies this`lastApplied, this`applyCh
      ensures State() == S.CommitTo(old(State()), commitIndex)
    {
      while lastApplied < commitIndex
        invariant old(lastApplied) <= lastApplied
        invariant lastApplied <= old(lastApplied) || lastApplied <= commitIndex
        invariant lastApplied <= |log| ==>
          && old(lastApplied) <= |log|
          && applyCh == old(applyCh) + S.Messages(log, old(lastApplied), lastApplied)
        invariant lastApplied > |log| ==> lastApplied == old(lastApplied) && applyCh == old(applyCh)
      {
        lastApplied := lastApplied + 1;
        applyCh := applyCh + [ApplyMsg(true, log[lastApplied - 1].command, lastApplied)];
      }
    }

    /** The locked section that handles the reply to an AppendEntries call. */
    method OnAppendReply(peer: nat, args: AppendArgs, reply: AppendReply)
      requires Valid()
      requires S.BookingDue(State(), args, reply) ==> S.CanBook(State(), peers, peer)
      modifies this, persister
      ensures State() == S.OnAppendReply(old(State()), peers, peer, args, reply)
    {
      if reply.term > currentTerm {
        ConvertToFollower(reply.term, -1);
        return;
      }
      if currentTerm != args.term || myRole != Leader { return; }
      if reply.success {
        matchIndex := matchIndex[peer := args.prevLogIndex + |args.entries|];
        nextIndex := nextIndex[peer := matchIndex[peer] + 1];
        AdvanceCommit();
        Apply();
      } else if reply.conflictTerm <= 0 {
        nextIndex := nextIndex[peer := reply.conflictIndex];
      } else {
        BacktrackNext(peer, reply.conflictTerm, reply.conflictIndex);
      }
    }

    method CountMatching(k: nat) returns (count: nat)
      requires |matchIndex| == peers
      ensures count == 1 + S.CountAtLeast(matchIndex, k)
    {
      count := 1;
      for i := 0 to peers
        invariant count == 1 + S.CountAtLeast(matchIndex[..i], k)
      {
        assert matchIndex[..i + 1][..i] == matchIndex[..i];
        if matchIndex[i] >= k {
          count := count + 1;
        }
      }
      assert matchIndex[..peers] == matchIndex;
    }

    /** The commit loop. It leaves the commit index alone, or sets it to the greatest
        index that holds an entry of the current term and is counted for a majority. */
    method AdvanceCommit()
      requires commitIndex <= |log| && |matchIndex| == peers
      modifies this`commitIndex
      ensures commitIndex == S.NewCommit(old(State()), peers, |log|)
    {
      ghost var s := State();
      for n := commitIndex + 1 to |log| + 1
        invariant State() == s.(commitIndex := commitIndex) && old(commitIndex) <= commitIndex < n
        invariant commitIndex == old(commitIndex) || S.CanCommit(s, peers, commitIndex)
        invariant forall k :: commitIndex < k < n ==> !S.CanCommit(s, peers, k)
      {
        if log[n - 1].term == currentTerm {
          var count := CountMatching(n);
          if count * 2 > peers {
            commitIndex := n;
          }
        }
      }
    }

    /** The loop that skips back over the entries of a conflicting term. */
    method BacktrackNext(peer: nat, conflictTerm: int, conflictIndex: int)
      requires peer < |nextIndex| && conflictTerm > 0
      modifies this`nextIndex
      ensures nextIndex == old(nextIndex)[peer := S.Backtrack(log, old(nextIndex)[peer], conflictTerm, conflictIndex)]
    {
      var found := false;
      var i := 1;
      while i <= |log|
        invariant 1 <= i <= |log| + 1 && nextIndex == old(nextIndex)
        invariant forall k :: 0 <= k < i - 1 ==> log[k].term <= conflictTerm
        invariant found <==> exists k :: 0 <= k < i - 1 && log[k].term == conflictTerm
      {
        if log[i - 1].term == conflictTerm {
          found := true;
        }
        if log[i - 1].term > conflictTerm {
          nextIndex := nextIndex[peer := if found then i else conflictIndex];
          break;
        }
        i := i + 1;
      }
    }
  }

  /** Crash and restart: the old incarnation's storage is copied, and a new incarnation starts
      from the copy. It knows the old one's term, vote and log and nothing else, and what
      the old one might still store goes elsewhere. */
  method Restart(rf: Raft) returns (rf1: Raft)
    requires rf.Valid()
    ensures fresh(rf1) && fresh(rf1.persister) && rf1.Valid() && rf1.me == rf.me && rf1.peers == rf.peers
    ensures rf1.State() == S.Boot(rf.State().disk)
  {
    var saved := rf.persister.Copy();
    var data := saved.ReadRaftState();
    var stored := new Persister();
    stored.SaveRaftState(data);
    rf1 := new Raft(rf.peers, rf.me, stored, rf.codec);
  }
}
