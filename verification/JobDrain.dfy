/** The operator's drain and the job protocol together: quiescence across processes. */
module JobDrain {
  import opened Common
  import opened JobTable
  import opened AdmissionGate
  import opened PythonInt
  import opened JobProtocol
  import opened JobInvariant
  import opened JobEvents
  import opened JobEnvironment
  import opened JobTheorems
  import opened JobGuarantees

  /** What `status` of the script reads in one transaction. */
  datatype StatusReport = StatusReport(draining: bool, activeCount: nat)

  function GateStatus(t: Table, g: Gate): StatusReport {
    StatusReport(ScriptPaused(g.draining), |Active(t)|)
  }

  ghost predicate Idle(t: Table) {
    forall j :: j in t ==> !IsActive(t[j].state)
  }

  ghost predicate Quiet(s: Sys, operator: Hash) {
    GateOk(s.gate) && s.gate.owner == Some(operator) && Idle(s.rows)
  }

  /** No pause, no owner: the gate of a run always satisfies GateOk. */
  lemma NextKeepsGate(lim: Limits, s: Sys, e: Event, n: Sys)
    requires Follows(lim, s, e, n)
    ensures n.gate == if e.GateEvent? then SetDraining(s.gate, e.enabled, e.operator).0 else s.gate
  {
    if e.StepEvent? {
      if IsAdmission(s.ops[e.id], e.reply) {
        AdmissionShape(lim, s, e.id, e.now, e.reply, n);
      } else if !e.reply.Interrupted? && Writes(s.ops[e.id].pc) {
        WritingStepNext(lim, s, e.id, e.now, e.reply);
      } else {
        QuietShape(lim, s, e.id, e.now, e.reply, n);
      }
    }
  }

  lemma {:induction false} RunGate(lim: Limits, ss: seq<Sys>, es: seq<Event>, i: nat)
    requires IsRun(lim, ss, es) && i < |ss|
    ensures GateOk(ss[i].gate)
    decreases i
  {
    if i > 0 {
      RunGate(lim, ss, es, i - 1);
      assert Follows(lim, ss[i - 1], es[i - 1], ss[i - 1 + 1]);
      NextKeepsGate(lim, ss[i - 1], es[i - 1], ss[i]);
    }
  }

  // --------------------------------------------------- a quiet table stays quiet

  lemma WriteKeepsIdle(t: Table, op: Op, now: Time)
    requires Idle(t)
    ensures Idle(Write(t, op, now).0)
  {
  }

  lemma RefusedAdmission(lim: Limits, t: Table, a: Admission)
    requires Idle(t) && a.draining
    ensures Idle(Admit(lim, t, a).0) && !Admit(lim, t, a).1.Admitted?
  {
  }

  lemma StepKeepsIdle(lim: Limits, s: Sys, id: OpId, now: Time, reply: Resume, n: Sys)
    requires id in s.ops && Fits(s, s.ops[id], reply) && n == StepNext(lim, s, id, now, reply)
    requires Idle(s.rows) && GatewayPaused(s.gate.draining)
    ensures Idle(n.rows)
  {
    if IsAdmission(s.ops[id], reply) {
      AdmissionShape(lim, s, id, now, reply, n);
      RefusedAdmission(lim, s.rows, StartAdmission(s, s.ops[id], now, reply));
    } else if !reply.Interrupted? && Writes(s.ops[id].pc) {
      WritingStepNext(lim, s, id, now, reply);
      WriteKeepsIdle(s.rows, s.ops[id], now);
    } else {
      QuietShape(lim, s, id, now, reply, n);
    }
  }

  lemma NextKeepsIdle(lim: Limits, s: Sys, e: Event, n: Sys)
    requires Follows(lim, s, e, n) && Idle(s.rows) && GatewayPaused(s.gate.draining)
    ensures Idle(n.rows)
  {
    match e
    case PrepareEvent(_, p) => PrepareShape(lim, s.rows, p);
    case StepEvent(id, now, reply) => StepKeepsIdle(lim, s, id, now, reply, n);
    case _ =>
  }

  lemma QuietDispatchesNothing(lim: Limits, s: Sys, e: Event, n: Sys)
    requires Inv(lim, s) && Follows(lim, s, e, n) && Idle(s.rows)
    ensures n.log == s.log
  {
    LogGrowth(lim, s, e, n);
    assert e.StepEvent? && PreDispatch(s.ops[e.id].pc) ==> Claim(s, s.ops[e.id]);
  }

  lemma NextKeepsQuiet(lim: Limits, s: Sys, e: Event, n: Sys, operator: Hash)
    requires Inv(lim, s) && Follows(lim, s, e, n) && Quiet(s, operator)
    requires e != GateEvent(false, operator)
    ensures Quiet(n, operator) && n.log == s.log
  {
    ReadsZeroAndOne(PYTHON_3_11);
    NextKeepsGate(lim, s, e, n);
    NextKeepsIdle(lim, s, e, n);
    QuietDispatchesNothing(lim, s, e, n);
  }

  /** Nothing runs, nothing may still start, nothing stands before its dispatch. */
  lemma QuietMeansNothingRuns(lim: Limits, s: Sys, operator: Hash)
    requires Inv(lim, s) && Quiet(s, operator)
    ensures Live(s) == {} && Busy(s) == {} && Active(s.rows) == {}
    ensures forall id :: id in s.ops ==> !PreDispatch(s.ops[id].pc)
  {
    forall d ensures d !in Busy(s) {
      if d in Busy(s) { BusyIsActive(lim, s, d); }
    }
    forall p ensures p !in Live(s) {
      assert p in Live(s) ==> s.procs[p].dispatch in Busy(s);
    }
    forall id | id in s.ops ensures !PreDispatch(s.ops[id].pc) {
      assert PreDispatch(s.ops[id].pc) ==> Claim(s, s.ops[id]);
    }
  }

  lemma QuietOneStep(lim: Limits, ss: seq<Sys>, es: seq<Event>, i: nat, operator: Hash)
    requires IsRun(lim, ss, es) && i < |es| && Quiet(ss[i], operator)
    requires es[i] != GateEvent(false, operator)
    ensures Quiet(ss[i + 1], operator) && ss[i + 1].log == ss[i].log
  {
    RunInv(lim, ss, es, i);
    assert Follows(lim, ss[i], es[i], ss[i + 1]);
    NextKeepsQuiet(lim, ss[i], es[i], ss[i + 1], operator);
  }

  /** No start is admitted, whoever asks and whenever. */
  ghost predicate Refuses(lim: Limits, s: Sys) {
    forall a: Admission :: a.draining == GatewayPaused(s.gate.draining) ==> !Admit(lim, s.rows, a).1.Admitted?
  }

  lemma QuietRefuses(lim: Limits, s: Sys, operator: Hash)
    requires Quiet(s, operator)
    ensures Refuses(lim, s)
  {
    ReadsZeroAndOne(PYTHON_3_11);
    forall a: Admission | a.draining == GatewayPaused(s.gate.draining)
      ensures !Admit(lim, s.rows, a).1.Admitted?
    {
      RefusedAdmission(lim, s.rows, a);
    }
  }

  predicate NoResume(es: seq<Event>, i: nat, k: nat, operator: Hash) {
    forall m :: i <= m < k && m < |es| ==> es[m] != GateEvent(false, operator)
  }

  lemma {:induction false} QuietUntilResume(lim: Limits, ss: seq<Sys>, es: seq<Event>, i: nat, k: nat, operator: Hash)
    requires IsRun(lim, ss, es) && i <= k < |ss| && Quiet(ss[i], operator) && NoResume(es, i, k, operator)
    ensures Quiet(ss[k], operator) && ss[k].log == ss[i].log && Refuses(lim, ss[k])
    decreases k - i
  {
    if i < k {
      QuietOneStep(lim, ss, es, i, operator);
      QuietUntilResume(lim, ss, es, i + 1, k, operator);
    } else {
      QuietRefuses(lim, ss[k], operator);
    }
  }

  /** The gate is as it was in `from`, and paused; no row is active, no process of a gateway
      job lives or can still appear, no start is on its way to its dispatch, none has been
      dispatched since, and none is admitted. */
  ghost predicate AtRest(lim: Limits, s: Sys, from: Sys) {
    && ScriptPaused(s.gate.draining) && s.gate.owner == from.gate.owner
    && Active(s.rows) == {} && Busy(s) == {} && Live(s) == {}
    && s.log == from.log && Refuses(lim, s)
    && forall id :: id in s.ops ==> !PreDispatch(s.ops[id].pc)
  }

  lemma QuietIsAtRest(lim: Limits, ss: seq<Sys>, es: seq<Event>, i: nat, k: nat, operator: Hash)
    requires IsRun(lim, ss, es) && i <= k < |ss| && Quiet(ss[i], operator) && NoResume(es, i, k, operator)
    ensures AtRest(lim, ss[k], ss[i])
  {
    QuietUntilResume(lim, ss, es, i, k, operator);
    RunInv(lim, ss, es, k);
    QuietMeansNothingRuns(lim, ss[k], operator);
  }

  lemma IdleReport(t: Table)
    requires |Active(t)| == 0
    ensures Idle(t)
  {
    forall j | j in t ensures !IsActive(t[j].state) {
      assert j !in Active(t);
    }
  }

  /** Once the script reports a pause and no active job, the gate has a holder, and until
      that holder resumes everything is at rest. An admission that raced the gate was in the
      count, and any later one is refused. */
  lemma DrainSoundness(lim: Limits, ss: seq<Sys>, es: seq<Event>, i: nat)
    requires IsRun(lim, ss, es) && i < |ss|
    requires GateStatus(ss[i].rows, ss[i].gate) == StatusReport(true, 0)
    ensures ss[i].gate.owner.Some?
    ensures forall k :: i <= k < |ss| && NoResume(es, i, k, ss[i].gate.owner.value) ==> AtRest(lim, ss[k], ss[i])
  {
    RunGate(lim, ss, es, i);
    var operator := ss[i].gate.owner.value;
    IdleReport(ss[i].rows);
    forall k | i <= k < |ss| && NoResume(es, i, k, operator) ensures AtRest(lim, ss[k], ss[i]) {
      QuietIsAtRest(lim, ss, es, i, k, operator);
    }
  }

  // ------------------------------------------------------------ the drain command

  /** The gate that a drain leaves stays as it is until its holder resumes: a drain or a
      resume by anybody else is refused. */
  lemma {:induction false} HeldUntilResume(lim: Limits, ss: seq<Sys>, es: seq<Event>, i: nat, k: nat, operator: Hash)
    requires IsRun(lim, ss, es) && i <= k < |ss| && NoResume(es, i, k, operator)
    requires ss[i].gate == Gate(Some("1"), Some(operator))
    ensures ss[k].gate == ss[i].gate
    decreases k - i
  {
    if i < k {
      assert Follows(lim, ss[i], es[i], ss[i + 1]);
      NextKeepsGate(lim, ss[i], es[i], ss[i + 1]);
      assert es[i] != GateEvent(false, operator);
      HeldUntilResume(lim, ss, es, i + 1, k, operator);
    }
  }

  /** What the exit code 0 of `drain` means. The operator's drain was accepted at `d`, its
      n-th status reading was taken in the state `at(n)` after that, nobody resumed with the
      operator's token in between, and the loop ended on that reading with exit code 0, that
      is on a count of 0. Then the gate is the operator's, and everything is at rest until
      that operator resumes, although the loop does not look at `draining`. */
  lemma DrainExitMeansAtRest(
      lim: Limits, ss: seq<Sys>, es: seq<Event>, d: nat, operator: Hash,
      observe: nat -> StatusReport, at: nat -> nat, exitCode: int, n: nat)
    requires IsRun(lim, ss, es) && d < at(n) < |ss|
    requires es[d] == GateEvent(true, operator) && SetDraining(ss[d].gate, true, operator).1 == Done
    requires NoResume(es, d + 1, at(n), operator)
    requires observe(n) == GateStatus(ss[at(n)].rows, ss[at(n)].gate)
    requires exitCode == 0 && (exitCode == 0 <==> observe(n).activeCount == 0)
    ensures ss[at(n)].gate.owner == Some(operator)
    ensures forall k :: at(n) <= k < |ss| && NoResume(es, at(n), k, operator) ==> AtRest(lim, ss[k], ss[at(n)])
  {
    assert Follows(lim, ss[d], es[d], ss[d + 1]);
    NextKeepsGate(lim, ss[d], es[d], ss[d + 1]);
    HeldUntilResume(lim, ss, es, d + 1, at(n), operator);
    DrainSoundness(lim, ss, es, at(n));
  }
}
