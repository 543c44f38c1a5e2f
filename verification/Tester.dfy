/** The tester's own check of what servers apply, and why it never fails. */
module Tester {
  import opened RaftTypes
  import opened Cluster
  import opened Safety

  /** What the tester has recorded per server, by command index. */
  type Logs = seq<map<int, Command>>

  ghost predicate Conflicts(logs: Logs, m: ApplyMsg, j: nat) {
    j < |logs| && m.index in logs[j] && logs[j][m.index] != m.command
  }

  /** Some server's record has another command at the message's index. */
  ghost predicate Recorded(logs: Logs, m: ApplyMsg) {
    exists log :: log in logs && m.index in log && log[m.index] != m.command
  }

  lemma ConflictsRecorded(logs: Logs, m: ApplyMsg)
    ensures Recorded(logs, m) <==> exists j :: Conflicts(logs, m, j)
  {
    if log :| log in logs && m.index in log && log[m.index] != m.command {
      var j :| 0 <= j < |logs| && logs[j] == log;
      assert Conflicts(logs, m, j);
    }
    if j: nat :| Conflicts(logs, m, j) {
      assert logs[j] in logs;
    }
  }

  function Noted(logs: Logs, i: nat, m: ApplyMsg): Logs
    requires i < |logs|
  {
    logs[i := logs[i][m.index := m.command]]
  }

  class Config {
    var logs: Logs
    var maxIndex: nat

    /** Compares a message with everything recorded and records it. The result names a
        conflicting server, if there is one, and says whether the index before the
        message's is on record for this server. */
    method CheckLogs(i: nat, m: ApplyMsg) returns (conflict: Option<nat>, prevok: bool)
      requires i < |logs|
      modifies this
      ensures conflict.None? <==> forall j :: !Conflicts(old(logs), m, j)
      ensures conflict.Some? ==> Conflicts(old(logs), m, conflict.value)
      ensures prevok <==> m.index >= 1 && m.index - 1 in old(logs)[i]
      ensures logs == Noted(old(logs), i, m)
      ensures maxIndex == if m.index > old(maxIndex) then m.index else old(maxIndex)
    {
      conflict := None;
      for j := 0 to |logs|
        invariant logs == old(logs) && maxIndex == old(maxIndex)
        invariant conflict.None? ==> forall k :: 0 <= k < j ==> !Conflicts(logs, m, k)
        invariant conflict.Some? ==> Conflicts(logs, m, conflict.value)
      {
        if m.index in logs[j] && logs[j][m.index] != m.command {
          conflict := Some(j);
        }
      }
      prevok := m.index >= 1 && m.index - 1 in logs[i];
      logs := logs[i := logs[i][m.index := m.command]];
      if m.index > maxIndex {
        maxIndex := m.index;
      }
    }

    /** One round of the loop that reads a server's apply channel. It fails on a conflict
        and on an index whose predecessor the server has not applied. */
    method Apply(i: nat, m: ApplyMsg) returns (failed: bool)
      requires i < |logs|
      modifies this
      ensures failed <==>
                && m.valid
                && (Recorded(old(logs), m) || (m.index > 1 && m.index - 1 !in old(logs)[i]))
      ensures logs == if m.valid then old(logs)[i := old(logs)[i][m.index := m.command]] else old(logs)
      ensures (failed, logs) == (Fails(old(logs), i, m), if m.valid then Noted(old(logs), i, m) else old(logs))
    {
      failed := false;
      ConflictsRecorded(logs, m);
      if m.valid {
        var conflict, prevok := CheckLogs(i, m);
        failed := conflict.Some? || (m.index > 1 && !prevok);
      }
    }
  }

  ghost predicate Fails(logs: Logs, i: nat, m: ApplyMsg)
    requires i < |logs|
  {
    m.valid && ((exists j :: Conflicts(logs, m, j)) || (m.index > 1 && m.index - 1 !in logs[i]))
  }

  /** A reader of one incarnation's channel, on behalf of that incarnation's server. */
  datatype Reader = Reader(server: nat, channel: seq<ApplyMsg>)

  /** The record after the readers took turns as `turns` says, each reading its own channel
      from the front, and whether a check failed on the way. `taken` counts what
      each reader has read. */
  datatype Progress = Progress(logs: Logs, taken: seq<nat>, failed: bool)

  ghost predicate Fits(p: Progress, readers: seq<Reader>, r: nat) {
    r < |readers| == |p.taken| && readers[r].server < |p.logs|
  }

  ghost function Read(p: Progress, readers: seq<Reader>, r: nat): Progress
    requires Fits(p, readers, r)
  {
    if p.taken[r] < |readers[r].channel| then
      var i, m := readers[r].server, readers[r].channel[p.taken[r]];
      var logs := if m.valid then Noted(p.logs, i, m) else p.logs;
      Progress(logs, p.taken[r := p.taken[r] + 1], p.failed || Fails(p.logs, i, m))
    else p
  }

  ghost function ReadAll(n: nat, readers: seq<Reader>, turns: seq<nat>): (p: Progress)
    requires forall r :: 0 <= r < |readers| ==> readers[r].server < n
    requires forall k :: 0 <= k < |turns| ==> turns[k] < |readers|
    ensures |p.logs| == n && |p.taken| == |readers|
  {
    if turns == [] then Progress(seq(n, _ => map[]), seq(|readers|, _ => 0), false)
    else Read(ReadAll(n, readers, turns[..|turns| - 1]), readers, turns[|turns| - 1])
  }

  /** The record agrees with the channel `all`, and holds whatever has been read. */
  ghost predicate Agrees(p: Progress, readers: seq<Reader>, all: seq<ApplyMsg>) {
    && !p.failed && |p.taken| == |readers|
    && (forall j, x :: 0 <= j < |p.logs| && x in p.logs[j] ==> 1 <= x <= |all| && p.logs[j][x] == all[x - 1].command)
    && (forall r :: 0 <= r < |readers| ==> readers[r].server < |p.logs| && p.taken[r] <= |readers[r].channel|)
    && (forall r, x: nat :: 0 <= r < |readers| && 1 <= x <= p.taken[r] ==> x in p.logs[readers[r].server])
  }

  lemma {:induction false} ReadAgrees(n: nat, readers: seq<Reader>, turns: seq<nat>, all: seq<ApplyMsg>)
    requires forall r :: 0 <= r < |readers| ==> readers[r].server < n && readers[r].channel <= all
    requires forall k :: 0 <= k < |turns| ==> turns[k] < |readers|
    requires forall k :: 0 <= k < |all| ==> all[k].index == k + 1 && all[k].valid
    ensures Agrees(ReadAll(n, readers, turns), readers, all)
  {
    if turns != [] {
      var before := turns[..|turns| - 1];
      ReadAgrees(n, readers, before, all);
      ReadStep(ReadAll(n, readers, before), readers, turns[|turns| - 1], all);
    }
  }

  lemma ReadStep(p: Progress, readers: seq<Reader>, r: nat, all: seq<ApplyMsg>)
    requires Agrees(p, readers, all) && r < |readers| && readers[r].channel <= all
    requires forall k :: 0 <= k < |all| ==> all[k].index == k + 1 && all[k].valid
    ensures Fits(p, readers, r) && Agrees(Read(p, readers, r), readers, all)
  {
    if p.taken[r] < |readers[r].channel| {
      assert readers[r].channel[p.taken[r]] == all[p.taken[r]];
      hide Fails;
      NextPasses(p, readers, r, all);
    }
  }

  /** The next message of a reader agrees with the record, which holds its predecessor. */
  lemma NextPasses(p: Progress, readers: seq<Reader>, r: nat, all: seq<ApplyMsg>)
    requires Agrees(p, readers, all) && r < |readers| && p.taken[r] < |all|
    requires forall k :: 0 <= k < |all| ==> all[k].index == k + 1 && all[k].valid
    ensures !Fails(p.logs, readers[r].server, all[p.taken[r]])
  {
    var i, m := readers[r].server, all[p.taken[r]];
    forall j: nat ensures !Conflicts(p.logs, m, j) {}
    if p.taken[r] > 0 {
      assert p.taken[r] in p.logs[i];
    }
  }

  /** The channel was there at some moment of the run. */
  ghost predicate FromRun(n: nat, run: seq<Step>, channel: seq<ApplyMsg>)
    requires Legal(n, run)
  {
    exists i :: 0 <= i <= |run| && IsChannel(At(n, run, i), channel)
  }

  lemma {:induction false} LongestChannel(n: nat, run: seq<Step>, readers: seq<Reader>) returns (all: seq<ApplyMsg>)
    requires Legal(n, run)
    requires forall r :: 0 <= r < |readers| ==> FromRun(n, run, readers[r].channel)
    ensures forall r :: 0 <= r < |readers| ==> readers[r].channel <= all
    ensures all == [] || FromRun(n, run, all)
  {
    hide Legal, At, IsChannel;
    if readers == [] {
      all := [];
    } else {
      var last := readers[|readers| - 1].channel;
      var z := LongestChannel(n, run, readers[..|readers| - 1]);
      all := if |z| < |last| then last else z;
      if z != [] {
        var i :| 0 <= i <= |run| && IsChannel(At(n, run, i), z);
        var j :| 0 <= j <= |run| && IsChannel(At(n, run, j), last);
        StateMachineSafety(n, run, i, j, z, last);
      }
    }
  }

  /** However the tester's readers of all servers and incarnations interleave, over any run
      of the cluster, none of their checks ever fails. */
  lemma TesterNeverFails(n: nat, run: seq<Step>, readers: seq<Reader>, turns: seq<nat>)
    requires Legal(n, run)
    requires forall r :: 0 <= r < |readers| ==> readers[r].server < n && FromRun(n, run, readers[r].channel)
    requires forall k :: 0 <= k < |turns| ==> turns[k] < |readers|
    ensures !ReadAll(n, readers, turns).failed
  {
    hide Legal, At, IsChannel;
    var all := LongestChannel(n, run, readers);
    forall k | 0 <= k < |all| ensures all[k].index == k + 1 && all[k].valid {
      var i :| 0 <= i <= |run| && IsChannel(At(n, run, i), all);
      SameIndexSameCommand(n, run, i, i, all, all, k, k);
    }
    ReadAgrees(n, readers, turns, all);
  }

  // ---------- what the checks catch ----------

  /** Unless a check has failed, everything read is on record, and the records agree. */
  ghost predicate Consistent(p: Progress, readers: seq<Reader>) {
    && |p.taken| == |readers|
    && (forall r :: 0 <= r < |readers| ==> readers[r].server < |p.logs| && p.taken[r] <= |readers[r].channel|)
    && (!p.failed ==>
         && (forall i, j, x :: 0 <= i < |p.logs| && 0 <= j < |p.logs| && x in p.logs[i] && x in p.logs[j] ==>
               p.logs[i][x] == p.logs[j][x])
         && (forall r, k :: 0 <= r < |readers| && 0 <= k < p.taken[r] && readers[r].channel[k].valid ==>
               OnRecord(p.logs, readers[r].server, readers[r].channel[k])))
  }

  ghost predicate OnRecord(logs: Logs, i: nat, m: ApplyMsg) {
    i < |logs| && m.index in logs[i] && logs[i][m.index] == m.command
  }

  lemma {:induction false} ReadConsistent(n: nat, readers: seq<Reader>, turns: seq<nat>)
    requires forall r :: 0 <= r < |readers| ==> readers[r].server < n
    requires forall k :: 0 <= k < |turns| ==> turns[k] < |readers|
    ensures Consistent(ReadAll(n, readers, turns), readers)
  {
    if turns != [] {
      var before := turns[..|turns| - 1];
      ReadConsistent(n, readers, before);
      StepConsistent(ReadAll(n, readers, before), readers, turns[|turns| - 1]);
    }
  }

  lemma StepConsistent(p: Progress, readers: seq<Reader>, r: nat)
    requires Consistent(p, readers) && r < |readers|
    ensures Fits(p, readers, r) && Consistent(Read(p, readers, r), readers)
  {
    var p2 := Read(p, readers, r);
    if p.taken[r] < |readers[r].channel| && !p2.failed {
      var i, m := readers[r].server, readers[r].channel[p.taken[r]];
      assert !Fails(p.logs, i, m);
      if m.valid {
        forall j | 0 <= j < |p.logs| && m.index in p.logs[j] ensures p.logs[j][m.index] == m.command {
          assert !Conflicts(p.logs, m, j);
        }
      }
      forall q, k | 0 <= q < |readers| && 0 <= k < p2.taken[q] && readers[q].channel[k].valid
        ensures OnRecord(p2.logs, readers[q].server, readers[q].channel[k])
      {
        assert q != r || k < p.taken[r] ==> OnRecord(p.logs, readers[q].server, readers[q].channel[k]);
      }
    }
  }

  /** The checks would catch a violation: once two valid messages of one index with different commands
      have been read, from whatever channels and in whatever order, a check has failed. */
  lemma TesterCatches(n: nat, readers: seq<Reader>, turns: seq<nat>, r: nat, k: nat, q: nat, l: nat)
    requires forall r :: 0 <= r < |readers| ==> readers[r].server < n
    requires forall k :: 0 <= k < |turns| ==> turns[k] < |readers|
    requires r < |readers| && k < ReadAll(n, readers, turns).taken[r]
    requires q < |readers| && l < ReadAll(n, readers, turns).taken[q]
    ensures k < |readers[r].channel| && l < |readers[q].channel|
    ensures var a, b := readers[r].channel[k], readers[q].channel[l];
            a.valid && b.valid && a.index == b.index && a.command != b.command ==> ReadAll(n, readers, turns).failed
  {
    ReadConsistent(n, readers, turns);
    var p, a, b := ReadAll(n, readers, turns), readers[r].channel[k], readers[q].channel[l];
    if a.valid && b.valid && !p.failed {
      assert OnRecord(p.logs, readers[r].server, a) && OnRecord(p.logs, readers[q].server, b);
    }
  }
}
