# Raft and the striped string set, verified

Two programs of the repository are modelled here, and properties of every run are proved.

**Raft** (`lab3/raft`). `RaftServer.dfy` holds the server as it is programmed: a class with the
server's fields, handlers and loops. Each method is proved to do to the fields and to stable storage what
a function of `ServerSteps.dfy` says. `Cluster.dfy` composes these functions into a system of any number
of servers, each with its incarnations, its storage and its apply channel, and a network that may lose,
delay and reorder requests and replies. A run is any sequence of steps: timeouts (also of a server that has
just won), voting rounds, deliveries, returned replies, client commands, sends, losses, and crashes with
restart, also in the middle of a handler. `History.dfy` records what a run has done, as a device for proofs
that no step reads. `Invariant.dfy` states what holds in every reachable state, `CoreSteps.dfy`,
`LeaderSteps.dfy`, `NetSteps.dfy` and `Preservation.dfy` prove it, and `Runs.dfy` carries it over whole runs.
The results are in `Outcomes.dfy` (what every step does, outright: when a request is granted or accepted, what
the answer says, and that nothing else changes), `Safety.dfy` (the safety properties), `Replication.dfy`
(confirmations, candidacies, commands), `MatchIndex.dfy` (when a match index goes down), `Backtracking.dfy` and
`Retry.dfy` (the search for the point where two logs part, on logs and in runs), `Progress.dfy` (what an
undisturbed exchange achieves), `Recovery.dfy` (what an undisturbed majority can always achieve) and
`Tester.dfy` (the check that the repository's own test harness makes on applied commands). Their statements
speak of servers, calls and channels at moments of a run and not of the history.

The model follows the code where the code departs from Figure 2 of the extended Raft paper or from its own
comments. `Departures.dfy` gives runs in which this shows, and the exact conditions are proved:

- A server does not keep its vote for a term. A candidate that is handed a message of its own term's leader
  always replaces its vote for itself, and no other vote of a term ever changes (`VoteOverwritten`; a run is in
  `VoteChanges`). A term still has at most one leader (`ElectionSafety`).
- A match index can go down, against the comment at lab3/raft/raft.go:83, when replies return out of order. It
  does so exactly if the success booked before answers a call that was sent later, when the log had grown, and
  over a leadership it never does so exactly if no two successes are booked in such an order
  (`MatchIndexLowered`, `MatchIndexMonotone`; a run is in `MatchIndexGoesDown`). It is sound all the same
  (`MatchIndexSound`).
- A server's commit index goes up only, as the comment at lab3/raft/raft.go:76 says, within one incarnation.
  Over a server's life it goes down exactly when the server crashes with something committed, and nothing
  committed is lost (`CommittedStays`; a run in which a command is committed and applied before the crash is in
  `CommitIndexGoesDown`).
- The backtracking search need not end. It ends exactly if, where the first probe inside the follower's log
  falls, the logs match or the leader has an entry of a later term than the follower has there; a leader with an
  entry of its own term always has (`CatchesUp`, `OwnTermSearches`). A run in which no number of rounds helps is
  in `ProbeStays` and `SearchNeverEnds`.
- A follower's commit index is bounded by the length of its log and not by the last new entry, and the leader's
  own match index is its log length at election while the commit count starts at one. Both give what Figure 2
  gives (`CommitShortcut`, `CountedIsChosen`).
- Votes are counted only when replies return, so a server without peers never leads. In a cluster of two servers
  or more any majority can serve a new command from every reachable state without the other servers
  (`LoneNeverLeads`, `Recovers`, `ServesIffTwo`).
- A server that has granted a vote need not grant the same candidate's next request of that term: it does exactly
  while it is in the term and its log has not got ahead (`GrantRepeated`; a run is in `GrantNotRepeated`).

Committed entries are protected by one notion: an index of a term is *choosable* while a majority has
confirmed it or may still confirm it. It can only be lost, so a later leader's starting log, a voter's log at
its vote, and every server's log can be required to hold whatever is choosable, from the moment it is written.

**The striped string set** (`lab0`). `StringSets.dfy` has the flat set and the striped set as classes, proved
against one set of keys. `Ordering.dfy` says what a range of strings is and pins down the hash.
`StripedConcurrency.dfy` has the striped set under arbitrary interleaving, by the steps between which other
threads can act: take a stripe's lock, look up and insert, increment the counter, release; take a read lock,
scan, send, release; collect. `Linearizability.dfy` states what callers see: which results calls return and in
which order they take effect between their invocation and their return. PredRange is not atomic: it answers for
each stripe as of the moment of that stripe's scan (`RangeByStripe`). Its answer is the flat set's at a given
moment exactly if no wanted Add takes effect between that moment and the scan of its stripe (`SnapshotAnswer`),
and `TornRange.dfy` has a run in which there is no such moment. `LockUse.dfy` shows that a lock is held exactly
by those inside its stripe, that readers share, and that however threads are scheduled every call finishes.

`dafny verify dfyconfig.toml` checks everything.

## Model

| member | source | states |
|---|---|---|
| RaftServer.Raft.constructor | lab3/raft/raft.go:868-906 | a new server is a follower that knows the stored term, vote and log, or the initial ones if storage is empty, and has committed nothing |
| RaftServer.Raft.ReadPersist | lab3/raft/raft.go:137-169 | stored bytes replace term, vote and log exactly if they are non-empty and decode |
| RaftServer.Raft.Persist | lab3/raft/raft.go:115-134 | storage afterwards decodes to the server's term, vote and log, in a buffer of its own |
| RaftServer.Raft.ConvertToFollower | lab3/raft/raft.go:718-725 | role, term and vote change together and are stored |
| RaftServer.Raft.ConvertToLeader | lab3/raft/raft.go:727-742 | next indices one past the log, match indices zero except the leader's own |
| RaftServer.Raft.ConvertToCandidate | lab3/raft/raft.go:744-759 | a new term with a vote for itself, stored |
| RaftServer.Raft.RequestVote | lab3/raft/raft.go:322-389 | the handler's state change and reply, with the election restriction |
| RaftServer.Raft.StartVoting | lab3/raft/raft.go:684-713 | a candidate asks every other server, with arguments that describe its log and one fresh counter at one; others ask nobody |
| RaftServer.Raft.OtherPeers | lab3/raft/raft.go:628-632 | the loop collects the servers to which it starts a thread |
| NetSteps.OthersAre | lab3/raft/raft.go:708-712 | these are all servers but the server itself, once each and in order |
| RaftServer.Raft.OnVoteReply | lab3/raft/raft.go:650-681 | a stale reply changes nothing, a later term demotes, a counted grant may elect |
| RaftServer.Raft.Start | lab3/raft/raft.go:440-462 | a leader appends and stores the command, starts replication to every other server, and names the command's position and term; others refuse |
| RaftServer.Raft.MakeAppendArgs | lab3/raft/raft.go:501-524 | a leader's message carries the whole suffix of its log from the next index and its commit index |
| RaftServer.Raft.AppendEntries | lab3/raft/raft.go:221-317 | the handler's state change and reply in all its branches |
| RaftServer.Raft.TakeEntries | lab3/raft/raft.go:276-313 | accepting merges, stores, and moves the commit index and the apply channel in step |
| RaftServer.Raft.FindFirst | lab3/raft/raft.go:264-269 | the loop finds the first entry of the conflicting term |
| RaftServer.Raft.MergeEntries | lab3/raft/raft.go:276-291 | the loop, truncation and append together are the merge of the log with the entries |
| RaftServer.Raft.Apply | lab3/raft/raft.go:304-312 | the loop sends exactly the newly committed commands, in order |
| RaftServer.Raft.OnAppendReply | lab3/raft/raft.go:531-623 | the leader's bookkeeping in all its branches |
| RaftServer.Raft.CountMatching | lab3/raft/raft.go:562-567 | one plus the number of match indices that reach the index |
| RaftServer.Raft.AdvanceCommit | lab3/raft/raft.go:560-572 | the loop leaves the commit index alone or sets it to the greatest index that passes the test |
| RaftServer.Raft.BacktrackNext | lab3/raft/raft.go:596-613 | the loop moves the next index behind the leader's last entry of the conflicting term, or to the conflict index, or not at all |
| RaftServer.Restart | lab3/raft/config.go:182-227 | a new incarnation on copied storage knows the old one's term, vote and log and nothing else |
| ServerSteps.NewCommit | lab3/raft/raft.go:560-572 | the result is the old commit index or a greater index that passes the test, and no greater one does |
| ServerSteps.FirstOfTerm | lab3/raft/raft.go:264-269 | the entry found has the term and none before it has |
| Storage.Persister.constructor | lab3/raft/persister.go:20-22 | new storage is empty |
| Storage.Persister.Clone | lab3/raft/persister.go:24-28 | a fresh buffer with the same bytes |
| Storage.Persister.SaveRaftState | lab3/raft/persister.go:39-43 | the saved bytes are in a fresh buffer, and no existing buffer is written |
| Storage.Persister.ReadRaftState | lab3/raft/persister.go:45-49 | the reader gets its own copy of the bytes |
| Storage.Persister.Copy | lab3/raft/persister.go:30-37 | a copy shares the buffer and has the same bytes |
| Storage.Supersede | lab3/raft/config.go:111-117 | what a superseded incarnation saves late does not reach the copy its successor uses |
| Cluster.AtMostOnce | lab3/labrpc/labrpc.go:218-309 | over a run a request reaches its handler at most once, crashes in the handler included, and a reply its caller at most once, after the request |
| Outcomes.TimedOut | lab3/raft/raft.go:744-759 | a timeout makes the server a candidate of the next term with its own vote, and changes nothing else |
| Outcomes.RoundStarted | lab3/raft/raft.go:684-713 | a voting round makes exactly one request to each other server, naming term, log length and last term, and starts with one vote |
| Outcomes.VoteRequested | lab3/raft/raft.go:322-389 | a vote is granted if and only if the request is not of an earlier term, no other candidate of that term has the vote, and the log is not ahead; reply, term, vote and role afterwards |
| Outcomes.GrantRepeated | lab3/raft/raft.go:347-380 | who has granted a request grants the candidate's next one of the term if and only if still in the term and not ahead |
| Departures.GrantNotRepeated | lab3/raft/raft.go:347-380 | a run in which a server grants a candidate's first request of term 1 and refuses the same request of its second round |
| Outcomes.VoteReturned | lab3/raft/raft.go:650-681 | a reply of a later term makes the caller a follower of that term without a vote; a current grant is counted; the caller leads if and only if the count is then a majority |
| Outcomes.CommandStarted | lab3/raft/raft.go:440-462 | Start succeeds if and only if the server leads, and then adds one entry at the named index and term; otherwise it answers (-1, -1, false) and nothing changes |
| Outcomes.MessageSent | lab3/raft/raft.go:507-522 | a message names the entry before the peer's next index and carries everything behind it and the commit index |
| Outcomes.MessageHandled | lab3/raft/raft.go:221-317 | a message is accepted if and only if it is not of an earlier term and the log holds the entry before it; what the log, commit index and applied messages are then, and what a rejection explains |
| Outcomes.MessageReturned | lab3/raft/raft.go:531-623 | a later term demotes the caller; a success is booked and moves the commit index to the greatest index of the current term that a bare majority is counted for; a rejection moves the next index behind the last entry of the conflicting term, to the conflict index, or not at all |
| Outcomes.TestIsMajority | lab3/raft/raft.go:562-569 | the commit test is passed if and only if the leader and the peers whose match index reaches the index are a majority |
| Outcomes.TakenIs | lab3/raft/raft.go:276-291 | the merge cuts and extends a log only where it clashes with the message or falls short of it |
| Outcomes.Crashed | lab3/raft/config.go:111-132 | a crash keeps term, vote and log, forgets everything else and retires the apply channel |
| Outcomes.CallLost | lab3/labrpc/labrpc.go:218-309 | a loss ends one call and changes nothing else |
| Outcomes.OldRepliesLost | lab3/raft/config.go:182-227 | a reply to a call of one incarnation is never handed to a later one |
| Runs.Reachable | lab3/raft/raft.go:54-90 | every reachable state satisfies the invariant with the history of its run |
| Runs.NeverOutOfBounds | lab3/raft/raft.go:507-582 | no enabled step of any run indexes outside its slices, so every enabled step can be taken |
| Facts.QuorumsMeet | lab3/raft/raft.go:673 | two majorities of the servers share one |
| Facts.CountIsSize | lab3/raft/raft.go:562-567 | the count of match indices is the size of the set of peers that reach the index |
| Facts.MergeMatches | lab3/raft/raft.go:276-291 | a merge leaves a log alone if it holds what the message covers and otherwise makes it exactly that prefix of the sender's log |
| Facts.MergeKeeps | lab3/raft/raft.go:276-291 | a merge keeps every prefix that the log and the sender's log share |
| Facts.CommittedReach | lab3/raft/raft.go:560-572 | a committed prefix is a prefix of the log of every later leader |
| Facts.CommittedAgree | lab3/raft/raft.go:298-313 | of two committed prefixes one is a prefix of the other |
| LeaderSteps.FirstWinner | lab3/raft/raft.go:656-680 | a candidate with a majority of granted votes is the first to win its term, double votes notwithstanding |
| LeaderSteps.UpToDateHolds | lab3/raft/raft.go:347-380 | a log at least as up-to-date as one that holds a prefix of an earlier leader holds it, too |
| LeaderSteps.NewReignHolds | lab3/raft/raft.go:672-680 | a new leader's log holds everything earlier terms may still commit |
| LeaderSteps.FreshUnconfirmed | lab3/raft/raft.go:454-455 | a new entry of a term that already has a later leader can no longer be committed |
| LeaderSteps.MergeHolds | lab3/raft/raft.go:276-292 | a merge keeps whatever the server confirmed and may still be committed |
| Preservation.CountedIsChosen | lab3/raft/raft.go:560-572 | an index that passes the commit test is confirmed by a true majority; the leader is not counted twice |
| Preservation.RoundVoters | lab3/raft/raft.go:667-673 | the voters counted in a round, with the candidate, are as many as its counter says, and each granted its vote |
| Preservation.OnAccept | lab3/raft/raft.go:276-313 | accepting keeps the invariant and moves the commit index to exactly the leader's |
| Preservation.OnBegin | lab3/raft/raft.go:239-247 | a server that has stored the sender's term and not yet done anything else satisfies the invariant, so it may crash there |
| Preservation.KeepStep | lab3/raft/raft.go:221-623 | every step stays in bounds and keeps the invariant |
| Safety.ElectionSafety | lab3/raft/raft.go:656-680 | a term has at most one leader over the whole run |
| Safety.LeaderAppendOnly | lab3/raft/raft.go:440-462 | a leader's log only grows while its term lasts |
| Safety.LogMatching | lab3/raft/raft.go:249-292 | any two logs, at any two moments, agree up to every pair of positions where they hold entries of one term |
| Safety.LogTerms | lab3/raft/raft.go:454 | the terms in a log are at least 1, never decrease, and do not exceed the server's term |
| Safety.MessageMatching | lab3/raft/raft.go:507-522 | a log that shares the term of an entry with a message agrees with the message up to that entry |
| Safety.LeaderCompleteness | lab3/raft/raft.go:727-742 | what a server has committed is in the log of every leader of a later term, at all times |
| Safety.StateMachineSafety | lab3/raft/raft.go:573-581 | of the apply channels of any two incarnations, at any moments, one is a prefix of the other |
| Safety.SameIndexSameCommand | lab3/raft/config.go:135-152 | no two applied messages have the same index and different commands, and each channel carries 1, 2, 3, ... |
| Safety.AppliedInLog | lab3/raft/raft.go:304-312 | a server has applied exactly its committed entries, which lie within its log |
| Safety.CommittedStays | lab3/raft/raft.go:276-313 | no step cuts a committed entry, and a commit index goes down if and only if its server crashes with something committed |
| Departures.CommitIndexGoesDown | lab3/raft/config.go:111-132 | a run in which a leader has committed and applied a command at index 1 and, after a crash, knows of nothing committed |
| Safety.CommitShortcut | lab3/raft/raft.go:298-301 | bounding the commit index by the log length gives what Figure 2 of the paper prescribes, because a message's commit index never exceeds what it covers |
| Replication.TermsAdvance | lab3/raft/raft.go:718-759 | a server's term never goes back, not even across crashes |
| Replication.CrashKeeps | lab3/raft/raft.go:115-169 | at every moment storage holds the server's term, vote and log, or is empty while they are initial |
| Replication.AckHeld | lab3/raft/raft.go:290-292 | what a server has confirmed of a term's log it held at some moment of that term |
| Replication.MatchIndexSound | lab3/raft/raft.go:541-551 | a peer holds, or held in the term, as much of the leader's log as its match index says |
| MatchIndex.MatchIndexIs | lab3/raft/raft.go:550 | a match index is what the call booked last covers, or 0 if none was booked in this leadership |
| MatchIndex.SentCovers | lab3/raft/raft.go:514 | a message covers the whole log that its sender had when it sent it |
| MatchIndex.MatchIndexLowered | lab3/raft/raft.go:83 | a step lowers a match index if and only if it books a success, and the success booked before answers a call that was sent later, when the log had grown |
| MatchIndex.MatchIndexMonotone | lab3/raft/raft.go:83 | over a leadership a match index never goes down if and only if no success is booked after one whose call was sent later with more in the log |
| MatchIndex.InOrderNeverLowers | lab3/raft/raft.go:541-551 | replies that return in the order of their calls never lower a match index |
| Departures.MatchIndexGoesDown | lab3/raft/raft.go:541-551 | a run in which a match index goes from 1 to 0 while its server leads |
| Replication.AcceptedStays | lab3/raft/raft.go:273-292 | while a server stays in a term it keeps the leader's log up to the end of every message it accepted, in whatever order |
| Replication.CommitHasMajority | lab3/raft/raft.go:560-572 | a raised commit index holds an entry of the current term that a true majority held, and no higher index passes |
| Replication.NextIndexInRange | lab3/raft/raft.go:589-614 | a leader's next indices stay in range, and a rejection that reaches backtracking names a usable index |
| Replication.NoSecondCandidacy | lab3/raft/raft.go:744-759 | a server that has left its candidacy of a term never stands in that term again, through crashes too |
| Replication.VoteArgsStable | lab3/raft/raft.go:695-705 | every vote request of a term describes the log of its candidate throughout, and the log with which it starts as leader |
| Replication.OneGrantPerTerm | lab3/raft/raft.go:347-388 | a server grants the requests of at most one candidate per term |
| Replication.VoteOverwritten | lab3/raft/raft.go:245-247 | a vote changes within a term if and only if a candidate is handed a message of the term's leader, whose name then replaces its own |
| Departures.VoteChanges | lab3/raft/raft.go:245-247 | a run in which a server's stored vote changes within term 1 |
| Replication.RoundCount | lab3/raft/raft.go:692-693 | a round's counter is one plus the number of distinct peers whose votes it counted |
| Replication.WinnerHasMajority | lab3/raft/raft.go:673-680 | whoever wins has counted the votes of a majority |
| Replication.StartUnique | lab3/raft/raft.go:461 | calls of Start that claim success return distinct positions or terms, over all servers and incarnations |
| Replication.StartedCommand | lab3/raft/raft.go:454-461 | any entry at a position and term that Start returned, in any log at any moment, is that call's command |
| Backtracking.ProbeMoves | lab3/raft/raft.go:589-614 | a rejection moves the probe back, and not past the common prefix, if and only if the follower's log is too short or the leader has an entry of a term later than the conflicting one |
| Backtracking.ProbeBelow | lab3/raft/raft.go:598-610 | if the leader has entries of the conflicting term the next probe is accepted; otherwise the term is skipped |
| Backtracking.RoundMoves | lab3/raft/raft.go:500-624 | a round of sending, answering and booking ends the search exactly if the probe matches, and otherwise leaves both logs alone and moves back |
| Backtracking.RejectionsBound | lab3/raft/raft.go:252-271 | the search ends after at most one rejection more than the follower's log has terms |
| Backtracking.OwnTermOpen | lab3/raft/raft.go:597-613 | what conflicts with a leader's log is older than the leader's own entries |
| Backtracking.RejectedRound | lab3/raft/raft.go:589-614 | a rejected round leaves both logs alone and moves the next index back, not past the common prefix, if and only if the follower's log is too short or the leader has a later term; otherwise the leader stays exactly as it was |
| Retry.ExchangeIsRound | lab3/raft/raft.go:500-624 | three steps of the cluster, send, deliver and return, do to leader and peer what one round of the loop does |
| Retry.RetriesUntil | lab3/raft/raft.go:500-624 | from a reachable state exactly one exchange more than there are rejections brings the peer in step |
| Retry.CatchesUp | lab3/raft/raft.go:589-614 | from every reachable state a leader brings a peer in step, books exactly that and changes no other server, if and only if the search is open, with at most two exchanges more than the peer's log has terms |
| Retry.OwnTermSearches | lab3/raft/raft.go:589-614 | for a leader with an entry of its own term the search is always open |
| Retry.NeverDone | lab3/raft/raft.go:597-613 | if the search is not open, no number of exchanges changes either log or brings the peer in step |
| Departures.ProbeStays | lab3/raft/raft.go:597-613 | a run that reaches a leader whose probe is rejected and leaves the leader's whole state and the follower's log as they were |
| Departures.SearchNeverEnds | lab3/raft/raft.go:597-613 | from that state no number of exchanges brings the follower in step |
| Progress.ExchangeWorks | lab3/raft/raft.go:500-583 | one undisturbed exchange at a matching probe gives the peer the leader's log and commit index, and the leader books exactly that and commits once a majority is counted |
| Progress.VoteWorks | lab3/raft/raft.go:650-681 | a request that reaches a server of an earlier term whose log is not ahead is granted and counted once, and elects at exactly the completing vote |
| Recovery.OneVote | lab3/raft/raft.go:650-681 | a granted vote changes voter and counter only, and makes the candidate leader exactly if it completes a majority |
| Recovery.Elects | lab3/raft/raft.go:684-713 | from every reachable state, of any majority of two servers or more every server with a best log there can come to lead by the steps of that majority alone, with all logs unchanged |
| Recovery.OutsidersStay | lab3/raft/raft.go:684-713 | servers outside the acting set are left exactly as they were |
| Recovery.Spreads | lab3/raft/raft.go:499-634 | a leader with an entry of its own term can bring any peers in step, one after another |
| Recovery.Recovers | lab3/raft/raft.go:440-634 | from every reachable state any majority of two servers or more can, by its own steps alone, elect a server with a best log and have a new command applied by all of its servers at the index behind that server's old log |
| Recovery.LoneNeverLeads | lab3/raft/raft.go:667-680 | a server without peers never leads |
| Recovery.ServesIffTwo | lab3/raft/raft.go:440-713 | a majority can serve a command from a reachable state if and only if there are two servers or more |
| Tester.Config.CheckLogs | lab3/raft/config.go:135-152 | a conflict is reported exactly if some server has recorded another command at the index |
| Tester.Config.Apply | lab3/raft/config.go:156-175 | a message fails exactly on a conflict or a missing predecessor |
| Tester.TesterNeverFails | lab3/raft/config.go:156-175 | however the readers of all incarnations' channels interleave, over any run no check fails |
| Tester.TesterCatches | lab3/raft/config.go:135-175 | once two messages of one index with different commands have been read, in whatever order, a check has failed |
| StringSets.ComputeFnv32 | lab0/striped_string_set.go:27-36 | the loop computes the hash of the whole key |
| Ordering.KnownHashes | lab0/striped_string_set.go:27-36 | the hash has the known 32-bit FNV-1 values for the empty string, single bytes and foobar |
| Ordering.LastByte | lab0/striped_string_set.go:32-33 | keys that differ in their last byte have hashes that differ in exactly the same bits |
| Ordering.StripeIsRemainder | lab0/striped_string_set.go:46 | a stripe is the remainder of the hash by the number of stripes |
| Ordering.LessIsBefore | lab0/string_set.go:70 | one string is less than another if and only if they agree up to where it ends first or has the smaller byte |
| Ordering.OneFirst | lab0/string_set.go:70 | of two strings exactly one comes first, or they are equal |
| Ordering.Transitive | lab0/string_set.go:70 | the order is transitive |
| Ordering.RangeMeans | lab0/string_set.go:61-77 | PredRange lists a key if and only if it matches, is the begin or comes after it, and comes before the end; the end is never listed |
| Ordering.RangesJoin | lab0/striped_string_set.go:96-140 | neighbouring ranges list disjoint keys and together what the whole range lists |
| Ordering.WrapMeans | lab0/striped_string_set.go:69 | a wrapped counter fits 32 bits and differs by a multiple of 2^32 |
| StringSets.LockedStringSet.constructor | lab0/string_set.go:30-32 | a new set is empty |
| StringSets.LockedStringSet.Add | lab0/string_set.go:34-46 | adds the key and tells whether it was new |
| StringSets.LockedStringSet.Count | lab0/string_set.go:48-59 | the number of keys, as a 32-bit integer |
| StringSets.LockedStringSet.PredRange | lab0/string_set.go:61-77 | exactly the matching keys in range, each once |
| StringSets.StripedStringSet.constructor | lab0/striped_string_set.go:39-42 | a new set is empty and has the given number of stripes, whatever the number |
| StringSets.StripedStringSet.Index | lab0/striped_string_set.go:46 | the stripe of a key is its hash modulo the number of stripes |
| StringSets.StripedStringSet.Add | lab0/striped_string_set.go:44-72 | adds the key to the set of all keys and tells whether it was new, as the flat set does |
| StringSets.StripedStringSet.Count | lab0/striped_string_set.go:74-94 | the number of keys in all stripes, as a 32-bit integer |
| StringSets.StripedStringSet.PredRange | lab0/striped_string_set.go:96-140 | exactly the matching keys in range of all stripes, each once, as the flat set lists them |
| StringSets.SizesAddUp | lab0/striped_string_set.go:76-89 | with every key in its stripe the sizes of the stripes add up to the number of keys |
| StringSets.WrapExact | lab0/striped_string_set.go:69 | the 32-bit counter is exact if and only if there are fewer than 2^31 keys |
| StripedConcurrency.FlatStep | lab0/striped_string_set.go:44-72 | a step changes the flat set that the striped set stands for exactly as its event says |
| StripedConcurrency.ScannedCounted | lab0/striped_string_set.go:112-129 | while a stripe is scanned every key in it has been counted, because its writer is kept out |
| StripedConcurrency.KeepStep | lab0/striped_string_set.go:44-140 | every step keeps locks exclusive, keys in their stripes, and the counter equal to the flat set's size |
| Linearizability.EventsSequential | lab0/striped_string_set.go:44-94 | in every interleaving the events, in the order in which they happen, are what one flat set answers |
| Linearizability.AddTakesEffect | lab0/striped_string_set.go:44-72 | a call of Add has exactly one effect, at a step of its own thread between its call and its return, and returns that effect's result |
| Linearizability.EventHasCall | lab0/striped_string_set.go:44-94 | every effect belongs to a call that has been made and has not returned |
| Linearizability.Linearizable | lab0/striped_string_set.go:44-94 | what completed Adds and Counts return stands in one sequential history of a flat set, each at its own place, and an operation that returned before another was called comes first |
| Linearizability.FlatGrows | lab0/striped_string_set.go:64-71 | the flat set never loses a key |
| Linearizability.AddedStays | lab0/striped_string_set.go:64-71 | the key of an Add that has returned, with either result, is in the flat set from then on |
| Linearizability.CounterIsSizes | lab0/striped_string_set.go:67-69 | the counter is the sum of the stripe sizes less the Adds between insertion and increment |
| Linearizability.KeyInItsStripe | lab0/striped_string_set.go:46-49 | at every moment a key is in no stripe but the one its hash chooses |
| Linearizability.InsertedBy | lab0/striped_string_set.go:60-67 | every key in a stripe was put there by a call of Add |
| Linearizability.RangeAnswer | lab0/striped_string_set.go:96-140 | what PredRange returns among concurrent Adds has no duplicates, includes every matching key whose Add returned before the call, and only matching keys whose Add took effect before the return |
| Linearizability.ResultFits | lab0/striped_string_set.go:96-140 | what PredRange returns lies between what the flat set lists at the call and at the return |
| Linearizability.AddedBy | lab0/striped_string_set.go:64-70 | every key of the flat set is there because a successful Add has taken effect |
| Linearizability.ScannedOnce | lab0/striped_string_set.go:108-132 | each stripe is scanned exactly once between the call and the return |
| Linearizability.RangeByStripe | lab0/striped_string_set.go:108-137 | a matching key is returned if and only if the flat set had it at the moment its stripe was scanned |
| Linearizability.SnapshotAnswer | lab0/striped_string_set.go:96-140 | the answer is the flat set's at a given moment if and only if every matching key is there at that moment exactly if it is at the scan of its stripe |
| TornRange.TornAnswer | lab0/striped_string_set.go:96-140 | a run in which PredRange returns a key without one that was added before it, which is the flat set's answer at no moment |
| Linearizability.QuietRangeAnswer | lab0/string_set.go:61-77 | with no concurrent Add what a striped PredRange returns is exactly what the flat set lists |
| LockUse.LocksUsed | lab0/striped_string_set.go:51-53 | in every reachable state a lock is held by nobody but those between taking and releasing it |
| LockUse.WhoWaits | lab0/striped_string_set.go:112-126 | an Add waits if and only if somebody is inside its stripe, and a scan if and only if an Add is: readers share |
| LockUse.NeverStuck | lab0/striped_string_set.go:44-140 | as long as a call is under way some call can be carried on |
| LockUse.LessWork | lab0/striped_string_set.go:44-140 | every step that carries a call on leaves less work |
| LockUse.CallsFinish | lab0/striped_string_set.go:44-140 | without new calls the calls under way finish after a bounded number of steps, however they are scheduled |

## Left out

- Timers, sleeps and channel wake-ups of the role loops (lab3/raft/raft.go:763-857): a timeout, a voting round or a send may happen whenever the server's role allows it. The return with the lock held at lab3/raft/raft.go:787-789 is a server that takes no more steps. Progress is claimed only as what can happen while nothing is disturbed and no server has halted in this way, never as what must happen.
- The goroutine and channel mechanics of labrpc (lab3/labrpc/labrpc.go:218-309) are modelled by the steps they allow, and not as a program. Endpoint names, connection tables and counters are not modelled; a disabled endpoint is a lost message.
- labgob: encoding and decoding are parameters of the server, with decoding assumed to invert encoding.
- Threads of killed incarnations: a crash replaces an incarnation at once, between two critical sections or between the two stores of a handler; a crash behind a handler's last store is that handler's step, with its reply lost, followed by a crash. Outstanding replies are never returned, and requests may still arrive.
- Persister snapshots (lab3/raft/persister.go:57-76), which Raft does not use, and GetState, Kill and killed, which only read or set a flag.
- Integers are unbounded except for the hash and the counter of the string sets.
- RaftServer.Raft.Apply: the apply channel is a sequence; blocking on a full channel is not modelled.
- Tester.Config.CheckLogs: the text of the error message is reduced to the conflicting server, and the log output is left out.
- StringSets.ComputeFnv32: a key is a sequence of bytes; the multiplication and exclusive-or of one round are one operation.
- StringSets.StripedStringSet.constructor: a stripe's uninitialised map is an empty map, and a negative stripe count, for which the source panics, is not a value of the parameter's type.
- StringSets.StripedStringSet.Add: requires a stripe count that is not zero modulo 2^32; with such a count the source panics on division by zero.
- StringSets.StripedStringSet.PredRange: the stripes are scanned one after the other; scans side by side are in StripedConcurrency and Linearizability.
- The regular expression of PredRange is an arbitrary predicate on keys.
- lab1 and lab2 (video services), det_bcrypt and ranker: clients, servers and formatting that would add only easy members.
