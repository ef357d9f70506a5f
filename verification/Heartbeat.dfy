/** Processes that share a store refresh their rows, and at startup recover what
    others left (src/store/sqlite.rs): over any steps, who is taken for gone. */
module Heartbeat {
  import opened Common
  import opened Approvals

  datatype State = State(now: int, tables: Tables)

  datatype Step =
    | Tick(later: int)
    | Connect(i: Instance)                                             // its row is made
    | Refresh(i: Instance)                                             // its row, if there, says now
    | Recover(prefix: string, me: Instance)
    | Other(runs: map<RunId, RunRow>, approvals: map<Id, Approval>)    // anything done to runs and approvals

  /** A process counts as gone after three missed refreshes. */
  function Stale(now: int, beat: nat): int { now - 3 * beat }

  function Next(beat: nat, s: State, step: Step): State {
    var t := s.tables;
    match step
    case Tick(later) => s.(now := later)
    case Connect(i) => s.(tables := t.(instances := t.instances[i := s.now]))
    case Refresh(i) => if i in t.instances then s.(tables := t.(instances := t.instances[i := s.now])) else s
    case Recover(prefix, me) => s.(tables := Recovered(t, prefix, me, Stale(s.now, beat), s.now))
    case Other(runs, approvals) => s.(tables := t.(runs := runs, approvals := approvals))
  }

  function After(beat: nat, s: State, run: seq<Step>): State {
    if run == [] then s else Next(beat, After(beat, s, run[..|run| - 1]), run[|run| - 1])
  }

  /** When a process last connected or refreshed. */
  function LastBeat(beat: nat, s: State, run: seq<Step>, i: Instance): Option<int> {
    if run == [] then None
    else
      var rest, step := run[..|run| - 1], run[|run| - 1];
      if step == Connect(i) || (step == Refresh(i) && LastBeat(beat, s, rest, i).Some?)
      then Some(After(beat, s, rest).now) else LastBeat(beat, s, rest, i)
  }

  /** Its last refresh is at most three beats old. */
  predicate OnTime(beat: nat, s: State, run: seq<Step>, i: Instance) {
    var last := LastBeat(beat, s, run, i);
    last.Some? ==> After(beat, s, run).now - last.value <= 3 * beat
  }

  /** Whenever another process recovers, and before the end of the run. */
  ghost predicate Beating(beat: nat, s: State, run: seq<Step>, i: Instance) {
    forall n :: 0 <= n < |run| && run[n].Recover? && run[n].me != i ==> OnTime(beat, s, run[..n], i)
  }

  lemma {:induction false} BeatingBefore(beat: nat, s: State, run: seq<Step>, i: Instance, n: nat)
    requires Beating(beat, s, run, i) && n <= |run|
    ensures Beating(beat, s, run[..n], i)
  {
    hide OnTime;
    assert forall k :: 0 <= k < n ==> run[..n][..k] == run[..k];
  }

  /** The row of a process that refreshes in time is there, and says when. */
  lemma {:induction false} SeenAtLastBeat(beat: nat, s: State, run: seq<Step>, i: Instance)
    requires Beating(beat, s, run, i)
    ensures var last, seen := LastBeat(beat, s, run, i), After(beat, s, run).tables.instances;
            last.Some? ==> i in seen && seen[i] == last.value
  {
    if run != [] {
      var n := |run| - 1;
      BeatingBefore(beat, s, run, i, n);
      SeenAtLastBeat(beat, s, run[..n], i);
      if run[n].Recover? && run[n].me != i {
        assert OnTime(beat, s, run[..n], i);
      }
      hide InterruptedIds, FailedIn, ExpiredIn;
    }
  }

  predicate Unfinished(run: RunRow) { run.status in {Queued, Running, WaitingApproval} }

  /** The approval was asked for by a run of this process. */
  predicate AskedBy(t: Tables, a: Id, i: Instance)
    requires a in t.approvals
  {
    t.approvals[a].runId in t.runs && t.runs[t.approvals[a].runId].instance == Some(i)
  }

  /** A process that refreshes in time, however its refreshes and the recoveries
      of others interleave, never has a run closed or one of its approvals
      expired by them. */
  lemma {:induction false} BeatingProcessIsSafe(beat: nat, s: State, run: seq<Step>, i: Instance, prefix: string, me: Instance)
    requires var last := run + [Recover(prefix, me)]; Beating(beat, s, last, i) && LastBeat(beat, s, run, i).Some?
    ensures var before := After(beat, s, run);
            var after := Next(beat, before, Recover(prefix, me));
            && after == After(beat, s, run + [Recover(prefix, me)])
            && (forall r :: r in before.tables.runs && before.tables.runs[r].instance == Some(i) ==>
                  r in after.tables.runs && after.tables.runs[r] == before.tables.runs[r])
            && (forall a :: a in before.tables.approvals && AskedBy(before.tables, a, i) ==>
                  a in after.tables.approvals && after.tables.approvals[a] == before.tables.approvals[a])
  {
    var longer := run + [Recover(prefix, me)];
    assert longer[..|run|] == run;
    BeatingBefore(beat, s, longer, i, |run|);
    SeenAtLastBeat(beat, s, run, i);
    if me != i {
      assert longer[|run|] == Recover(prefix, me);
      assert OnTime(beat, s, longer[..|run|], i);
    }
    RecoveryClosesOnlyTheGone(After(beat, s, run).tables, prefix, me, Stale(After(beat, s, run).now, beat), After(beat, s, run).now);
    hide Recovered, After, LastBeat;
  }

  /** And the other way: at the next recovery of another process, an unfinished
      run of that kind is closed, and the row deleted, exactly when the refresh is
      older. */
  lemma {:induction false} ClosedExactlyWhen(
    beat: nat, s: State, run: seq<Step>, i: Instance, prefix: string, me: Instance, r: RunId)
    requires Beating(beat, s, run, i) && LastBeat(beat, s, run, i).Some? && me != i
    requires var runs := After(beat, s, run).tables.runs;
             r in runs && runs[r].instance == Some(i) && Unfinished(runs[r]) && prefix <= runs[r].source
    ensures var before := After(beat, s, run);
            var after := Next(beat, before, Recover(prefix, me));
            && (after.tables.runs[r].status == Failed <==> !OnTime(beat, s, run, i))
            && (i in after.tables.instances <==> OnTime(beat, s, run, i))
  {
    SeenAtLastBeat(beat, s, run, i);
    hide After, LastBeat;
  }

  /** A row once deleted does not come back by refreshing: until the process
      connects anew, every recovery of another closes what it has unfinished. */
  lemma {:induction false} GoneForGood(beat: nat, s: State, run: seq<Step>, i: Instance)
    requires i !in s.tables.instances && forall n :: 0 <= n < |run| ==> run[n] != Connect(i)
    ensures i !in After(beat, s, run).tables.instances
    ensures forall prefix, me, r :: r in After(beat, s, run).tables.runs && me != i ==>
              var row := After(beat, s, run).tables.runs[r];
              row.instance == Some(i) && Unfinished(row) && prefix <= row.source ==>
                r in InterruptedIds(After(beat, s, run).tables, prefix, me, Stale(After(beat, s, run).now, beat))
  {
    if run != [] {
      GoneForGood(beat, s, run[..|run| - 1], i);
    }
  }
}
