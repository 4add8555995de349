/** A run of two adapters that records a timed-out job as cancelled.

    Adapter 1 maintains the job and finds it running past its deadline. Adapter 0 then
    cancels it, reads the timeout flag as unset, adapter 1 stores the timeout request, and
    adapter 0 writes `cancelled` from its earlier reading. */
module JobRace {
  import opened Common
  import opened JobTable
  import opened JobProtocol

  ghost predicate Reachable(lim: Limits, s: Sys) {
    exists ss, es :: IsRun(lim, ss, es) && ss[|es|] == s
  }

  lemma Reach(lim: Limits, s: Sys, e: Event)
    requires Reachable(lim, s) && Enabled(s, e)
    ensures Reachable(lim, Next(lim, s, e))
  {
    var ss, es :| IsRun(lim, ss, es) && ss[|es|] == s;
    var tt, fs := ss + [Next(lim, s, e)], es + [e];
    forall i | 0 <= i < |fs| ensures Follows(lim, tt[i], fs[i], tt[i + 1]) {
      if i < |es| {
        assert Follows(lim, ss[i], es[i], ss[i + 1]);
      }
    }
    assert IsRun(lim, tt, fs) && tt[|fs|] == Next(lim, s, e);
  }

  /** One operation step, told by what `Run` makes of it. */
  lemma Go(s: Sys, id: OpId, now: Time, reply: Resume) returns (n: Sys)
    requires Reachable(LIM, s) && id in s.ops && LoopFree(s, s.ops[id].adapter, Some(id)) && Fits(s, s.ops[id], reply)
    ensures Reachable(LIM, n) && n.procs == s.procs && n.gate == s.gate && n.frozen == s.frozen
    ensures var o := Run(LIM, s.gate, s.rows, s.ops[id], now, reply);
      && n.rows == o.rows && n.ops == s.ops[id := o.op]
      && n.log == (if o.launch.Some? then s.log + [o.launch.value] else s.log)
      && n.pending == (if o.launch.Some? then s.pending + {|s.log|} else s.pending)
  {
    Reach(LIM, s, StepEvent(id, now, reply));
    n := Next(LIM, s, StepEvent(id, now, reply));
  }

  lemma Arrives(s: Sys, id: OpId, adapter: AdapterId, job: JobId, call: Call) returns (n: Sys)
    requires Reachable(LIM, s) && id !in s.ops
    ensures Reachable(LIM, n) && n == s.(ops := s.ops[id := Op(adapter, job, call, NOTHING_READ, Begin)])
  {
    Reach(LIM, s, CallEvent(id, adapter, job, call));
    n := Next(LIM, s, CallEvent(id, adapter, job, call));
  }

  const LIM := Limits(1, 1, 1, 1, 900)
  const SECRET := Sha256("recovery token")
  const CALLER := Sha256("session")
  const PREPARATION := Preparation(Request("make", ["srv"], 60), None, CALLER, 0.0, 0, SECRET)
  const KILLED := PollReply(Killed, Some(-15), true, true, "")
  const RUNNING := PollReply(StillRunning, None, false, false, "")
  const GO := Proceed(true)

  /** Job 0 runs as process 0, and nothing else stands between two awaits. */
  ghost predicate Started(s: Sys) {
    && s.rows.Keys == {0} && s.rows[0].state.Running? && s.rows[0].native == Some(0)
    && s.rows[0].credential == SECRET && s.rows[0].deadline < 100.0 && !s.rows[0].timeoutRequested
    && s.procs == map[0 := Proc(0, true)] && |s.log| == 1 && s.log[0].job == 0
    && s.ops.Keys == {0} && s.ops[0].adapter == 0 && s.ops[0].pc.Returned?
  }

  lemma Prepared() returns (s: Sys)
    ensures Reachable(LIM, s) && s.rows == map[0 := FreshRow(LIM, PREPARATION)]
    ensures s == EMPTY.(rows := s.rows, frozen := s.frozen, retired := s.retired)
  {
    var none: seq<Event> := [];
    assert IsRun(LIM, [EMPTY], none) && [EMPTY][|none|] == EMPTY;
    assert PreparedRows(map[]) == {} && PreparedOf(map[], CALLER) == {} && Sweep(map[], 0.0) == map[];
    var e := PrepareEvent(0, PREPARATION);
    Reach(LIM, EMPTY, e);
    s := Next(LIM, EMPTY, e);
  }

  lemma Dispatching() returns (s: Sys)
    ensures Reachable(LIM, s) && s.rows.Keys == {0}
    ensures s.rows[0].state.Starting? && s.rows[0].credential == SECRET && s.rows[0].deadline == 61.0
    ensures !s.rows[0].timeoutRequested && s.procs == map[] && s.log == []
    ensures s.ops.Keys == {0} && s.ops[0].adapter == 0 && s.ops[0].job == 0 && s.ops[0].call.Start?
    ensures s.ops[0].pc.Dispatch? && s.ops[0].pc.launch.job == 0 && s.pending == {}
  {
    var a := Prepared();
    var b := Arrives(a, 0, 0, 0, Start(SECRET, CALLER));
    assert Active(b.rows) == {} && ActiveOf(b.rows, CALLER) == {};
    var c := Go(b, 0, 1.0, GO);
    s := Go(c, 0, 1.0, GO);
  }

  /** The dispatch has made process 0, and its acknowledgement arrives. */
  lemma Acknowledged() returns (s: Sys)
    ensures Reachable(LIM, s) && s.rows.Keys == {0}
    ensures s.rows[0].state.Starting? && s.rows[0].credential == SECRET && s.rows[0].deadline == 61.0
    ensures !s.rows[0].timeoutRequested && s.procs == map[0 := Proc(0, true)] && |s.log| == 1 && s.log[0].job == 0
    ensures s.ops.Keys == {0} && s.ops[0].adapter == 0 && s.ops[0].job == 0 && s.ops[0].pc == AckWrite(0)
  {
    var a := Dispatching();
    var b := Go(a, 0, 1.0, GO);
    Reach(LIM, b, SpawnEvent(0, 0));
    var c := Next(LIM, b, SpawnEvent(0, 0));
    s := Go(c, 0, 1.0, Acked(0));
  }

  lemma Bound() returns (s: Sys)
    ensures Reachable(LIM, s) && s.rows.Keys == {0}
    ensures s.rows[0].state.Running? && s.rows[0].native == Some(0)
    ensures s.rows[0].credential == SECRET && s.rows[0].deadline == 61.0
    ensures !s.rows[0].timeoutRequested && s.procs == map[0 := Proc(0, true)] && |s.log| == 1 && s.log[0].job == 0
    ensures s.ops.Keys == {0} && s.ops[0].adapter == 0 && s.ops[0].job == 0 && s.ops[0].pc == ReadBack
  {
    var a := Acknowledged();
    s := Go(a, 0, 1.0, GO);
  }

  lemma Running() returns (s: Sys)
    ensures Reachable(LIM, s) && Started(s)
  {
    var a := Bound();
    s := Go(a, 0, 1.0, GO);
  }

  /** Adapter 1 is about to store the timeout request of a job it saw running. */
  ghost predicate Overdue(s: Sys) {
    && s.rows.Keys == {0} && s.rows[0].state.Running? && s.rows[0].native == Some(0)
    && s.rows[0].credential == SECRET && !s.rows[0].timeoutRequested
    && s.procs == map[0 := Proc(0, true)] && |s.log| == 1 && s.log[0].job == 0
    && s.ops.Keys == {0, 2} && s.ops[0].adapter == 0 && s.ops[0].pc.Returned?
    && s.ops[2].adapter == 1 && s.ops[2].job == 0 && s.ops[2].pc.TimeoutWrite?
  }

  lemma Polling() returns (s: Sys)
    ensures Reachable(LIM, s) && Started(s.(ops := map i | i in s.ops && i != 2 :: s.ops[i]))
    ensures s.ops.Keys == {0, 2} && s.ops[2].adapter == 1 && s.ops[2].job == 0
    ensures s.ops[2].call == Maintain(100.0) && s.ops[2].pc.AwaitPoll?
    ensures s.ops[2].v.native == Some(0) && s.ops[2].v.deadline < 100.0 && !s.ops[2].v.killed
  {
    var a := Running();
    var b := Arrives(a, 2, 1, 0, Maintain(100.0));
    s := Go(b, 2, 100.0, GO);
  }

  lemma FoundRunning() returns (s: Sys)
    ensures Reachable(LIM, s) && Started(s.(ops := map i | i in s.ops && i != 2 :: s.ops[i]))
    ensures s.ops.Keys == {0, 2} && s.ops[2].adapter == 1 && s.ops[2].job == 0
    ensures s.ops[2].call == Maintain(100.0) && s.ops[2].pc == PollWrite(RUNNING, JobState.Running)
    ensures s.ops[2].v.deadline < 100.0 && !s.ops[2].v.killed
  {
    var a := Polling();
    s := Go(a, 2, 100.0, Polled(RUNNING));
  }

  lemma Maintained() returns (s: Sys)
    ensures Reachable(LIM, s) && Overdue(s)
  {
    var a := FoundRunning();
    s := Go(a, 2, 100.0, GO);
  }

  /** Both writes are due: adapter 0's verdict and adapter 1's request. */
  ghost predicate Racing(s: Sys) {
    && s.rows.Keys == {0} && s.rows[0].state.Running?
    && s.ops.Keys == {0, 1, 2}
    && s.ops[0].adapter == 0 && s.ops[0].pc.Returned?
    && s.ops[1].adapter == 0 && s.ops[1].job == 0 && s.ops[1].call.Cancel?
    && s.ops[1].pc == PollWrite(KILLED, Cancelled)
    && s.ops[2].adapter == 1 && s.ops[2].job == 0 && s.ops[2].pc.TimeoutWrite?
  }

  /** Adapter 0 has asked for the kill and awaits the answer; the process has ended. */
  lemma Killing() returns (s: Sys)
    ensures Reachable(LIM, s) && s.rows.Keys == {0} && s.rows[0].state.Running? && !s.rows[0].timeoutRequested
    ensures s.procs == map[0 := Proc(0, false)] && |s.log| == 1 && s.log[0].job == 0
    ensures s.ops.Keys == {0, 1, 2} && s.ops[0].adapter == 0 && s.ops[0].pc.Returned?
    ensures s.ops[1].adapter == 0 && s.ops[1].job == 0 && s.ops[1].call.Cancel?
    ensures s.ops[1].pc.AwaitKill? && s.ops[1].v.native == Some(0)
    ensures s.ops[2].adapter == 1 && s.ops[2].job == 0 && s.ops[2].pc.TimeoutWrite?
  {
    var a := Maintained();
    var b := Arrives(a, 1, 0, 0, Cancel(SECRET));
    var c := Go(b, 1, 100.0, GO);
    Reach(LIM, c, ExitEvent(0));
    s := Next(LIM, c, ExitEvent(0));
  }

  lemma KillAnswered() returns (s: Sys)
    ensures Reachable(LIM, s) && s.rows.Keys == {0} && s.rows[0].state.Running? && !s.rows[0].timeoutRequested
    ensures s.procs == map[0 := Proc(0, false)] && |s.log| == 1 && s.log[0].job == 0
    ensures s.ops.Keys == {0, 1, 2} && s.ops[0].adapter == 0 && s.ops[0].pc.Returned?
    ensures s.ops[1].adapter == 0 && s.ops[1].job == 0 && s.ops[1].call.Cancel?
    ensures s.ops[1].pc.AwaitPoll? && s.ops[1].v.native == Some(0)
    ensures s.ops[2].adapter == 1 && s.ops[2].job == 0 && s.ops[2].pc.TimeoutWrite?
  {
    var a := Killing();
    s := Go(a, 1, 100.0, KillSent);
  }

  lemma Flagging() returns (s: Sys)
    ensures Reachable(LIM, s) && s.rows.Keys == {0} && s.rows[0].state.Running? && !s.rows[0].timeoutRequested
    ensures s.ops.Keys == {0, 1, 2} && s.ops[0].adapter == 0 && s.ops[0].pc.Returned?
    ensures s.ops[1].adapter == 0 && s.ops[1].job == 0 && s.ops[1].call.Cancel? && s.ops[1].pc == PollFlag(KILLED)
    ensures s.ops[2].adapter == 1 && s.ops[2].job == 0 && s.ops[2].pc.TimeoutWrite?
  {
    var a := KillAnswered();
    s := Go(a, 1, 100.0, Polled(KILLED));
  }

  lemma Judging() returns (s: Sys)
    ensures Reachable(LIM, s) && Racing(s)
  {
    var a := Flagging();
    s := Go(a, 1, 100.0, GO);
  }

  /** With two adapters a cancelled job may carry a timeout request. */
  lemma TwoAdaptersMayDisagree() returns (s: Sys)
    ensures Reachable(LIM, s)
    ensures 0 in s.rows && s.rows[0].state.Cancelled? && s.rows[0].timeoutRequested
  {
    var a := Judging();
    var b := Go(a, 2, 101.0, GO);
    s := Go(b, 1, 102.0, GO);
  }
}
