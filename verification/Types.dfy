/** The values that Raft servers keep, exchange and store. */
module RaftTypes {

  /** A client command. Nothing about a command matters to Raft except equality. */
  type Command(==, !new)

  datatype Option<+T> = None | Some(value: T)

  datatype Entry = Entry(command: Command, term: nat)

  type Log = seq<Entry>

  datatype Role = Leader | Follower | Candidate

  datatype ApplyMsg = ApplyMsg(valid: bool, command: Command, index: nat)

  /** What `persist` writes to stable storage. */
  datatype Image = Image(currentTerm: nat, votedFor: int, log: Log)

  datatype AppendArgs = AppendArgs(
    term: nat, leaderId: int, prevLogIndex: nat, prevLogTerm: nat, entries: Log, leaderCommit: nat)

  datatype AppendReply = AppendReply(term: nat, success: bool, conflictTerm: int, conflictIndex: int)

  datatype VoteArgs = VoteArgs(term: nat, candidateId: int, lastLogIndex: nat, lastLogTerm: int)

  datatype VoteReply = VoteReply(term: nat, granted: bool)

  /** What `Start` returns. */
  datatype StartReply = StartReply(index: int, term: int, isLeader: bool)

  /** One incarnation of a server: its fields, the messages it has put on its
      apply channel, and the content of its stable storage. */
  datatype Server = Server(
    currentTerm: nat, votedFor: int, log: Log,
    commitIndex: nat, lastApplied: nat, role: Role,
    nextIndex: seq<int>, matchIndex: seq<int>,
    applied: seq<ApplyMsg>, disk: Option<Image>)
}
