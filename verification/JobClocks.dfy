/** What the clock readings decide: a timeout is requested only past the stored deadline, a
    receipt is deleted only past its retention. */
module JobClocks {
  import opened Common
  import opened JobTable
  import opened JobProtocol
  import opened JobInvariant
  import opened JobEnvironment
  import opened JobTheorems
  import opened JobEvents
  import opened JobMoves
  import opened JobAnswers
  import opened JobVerdicts

  // --------------------------------------------------------------- deadlines

  /** A reconciliation knows the deadline of its row, and has found it passed when it goes
      on to request a timeout. */
  ghost predicate DeadlineKnown(s: Sys, op: Op) {
    Reconciling(op) ==>
      && !Elsewhere(op.pc) && op.job in s.frozen
      && (op.job in s.rows ==>
            !s.rows[op.job].state.Prepared? && s.rows[op.job].deadline == op.v.deadline)
      && (op.pc.TimeoutWrite? ==> op.v.deadline < op.call.now)
  }

  lemma KnownStays(s: Sys, n: Sys, op: Op, next: Op)
    requires DeadlineKnown(s, op) && Reconciling(op) && Mono(s, n)
    requires next == op || (next.call == op.call && next.job == op.job && KeepsDeadline(op, next))
    ensures DeadlineKnown(n, next)
  {
  }

  lemma StepKnowsDeadline(lim: Limits, s: Sys, e: Event, n: Sys)
    requires Inv(lim, s) && Follows(lim, s, e, n) && e.StepEvent? && DeadlineKnown(s, s.ops[e.id])
    ensures e.id in n.ops && DeadlineKnown(n, n.ops[e.id])
  {
    var op := s.ops[e.id];
    StepMoves(lim, s, e, n);
    NextMono(lim, s, e, n);
    if Reconciling(op) {
      KnownStays(s, n, op, n.ops[e.id]);
    } else if Reconciling(n.ops[e.id]) {
      assert RowOk(s, op.job, s.rows[op.job]);
    }
  }

  lemma {:induction false} RunKnowsDeadline(lim: Limits, ss: seq<Sys>, es: seq<Event>, i: nat, id: OpId)
    requires IsRun(lim, ss, es) && i < |ss| && id in ss[i].ops
    ensures DeadlineKnown(ss[i], ss[i].ops[id])
    decreases i
  {
    assert i > 0;
    if id in ss[i - 1].ops {
      RunKnowsDeadline(lim, ss, es, i - 1, id);
    }
    EventKnowsDeadline(lim, ss, es, i - 1, id);
  }

  lemma EventKnowsDeadline(lim: Limits, ss: seq<Sys>, es: seq<Event>, i: nat, id: OpId)
    requires IsRun(lim, ss, es) && i < |es| && id in ss[i + 1].ops
    requires id in ss[i].ops ==> DeadlineKnown(ss[i], ss[i].ops[id])
    ensures DeadlineKnown(ss[i + 1], ss[i + 1].ops[id])
  {
    RunInv(lim, ss, es, i);
    assert Follows(lim, ss[i], es[i], ss[i + 1]);
    if es[i].StepEvent? && es[i].id == id {
      StepKnowsDeadline(lim, ss[i], es[i], ss[i + 1]);
    } else {
      OpsMove(lim, ss[i], es[i], ss[i + 1], id);
      if Reconciling(ss[i + 1].ops[id]) {
        NextMono(lim, ss[i], es[i], ss[i + 1]);
        KnownStays(ss[i], ss[i + 1], ss[i].ops[id], ss[i + 1].ops[id]);
      }
    }
  }

  /** In every run: a reconciliation whose poll found the job running goes on to request its
      timeout if and only if it has not done so before and the stored deadline had passed
      when its sweep began. */
  lemma OverdueIsStopped(lim: Limits, ss: seq<Sys>, es: seq<Event>, i: nat, id: OpId)
    requires IsRun(lim, ss, es) && i < |es| && es[i].StepEvent? && es[i].id == id && id in ss[i].ops
    requires ss[i].ops[id].call.Maintain? && ss[i].ops[id].pc.PollWrite? && ss[i].ops[id].pc.verdict.Running?
    requires ss[i].ops[id].job in ss[i].rows && IsActive(ss[i].rows[ss[i].ops[id].job].state)
    ensures var op := ss[i].ops[id];
      && id in ss[i + 1].ops
      && (ss[i + 1].ops[id].pc.TimeoutWrite? <==> !op.v.killed && ss[i].rows[op.job].deadline < op.call.now)
  {
    assert Follows(lim, ss[i], es[i], ss[i + 1]);
    RunKnowsDeadline(lim, ss, es, i, id);
    StepMoves(lim, ss[i], es[i], ss[i + 1]);
    assert !es[i].reply.Interrupted?;
    MaintainTimesOut(lim, ss[i], es[i], ss[i + 1], ss[i].ops[id], ss[i + 1].ops[id]);
  }

  // ------------------------------------------------------ the start of a deadline

  /** The event by which `start` admitted the job: from `prepared` to `starting`. */
  predicate AdmittedAt(s: Sys, e: Event, n: Sys, j: JobId) {
    && e.StepEvent? && e.id in s.ops && s.ops[e.id].job == j
    && s.ops[e.id].call.Start? && s.ops[e.id].pc.Begin?
    && j in s.rows && s.rows[j].state.Prepared? && j in n.rows && n.rows[j].state.Starting?
  }

  predicate IsActiveIn(t: Table, j: JobId) {
    j in t && IsActive(t[j].state)
  }

  lemma WriteActivates(t: Table, op: Op, now: Time, j: JobId)
    requires Writes(op.pc)
    ensures IsActiveIn(Write(t, op, now).0, j) ==> IsActiveIn(t, j)
  {
  }

  lemma AdmitActivates(lim: Limits, t: Table, a: Admission, j: JobId)
    ensures var u := Admit(lim, t, a).0;
      IsActiveIn(u, j) && !IsActiveIn(t, j) ==>
        && j == a.job && j in t && t[j].state.Prepared? && u[j].state.Starting?
        && u[j].deadline == a.now + t[j].maxRuntime as real
  {
  }

  /** A job becomes active only by an admission, and its deadline is set then. */
  lemma EventActivates(lim: Limits, s: Sys, e: Event, n: Sys, j: JobId)
    requires Follows(lim, s, e, n) && IsActiveIn(n.rows, j) && !IsActiveIn(s.rows, j)
    ensures AdmittedAt(s, e, n, j) && n.rows[j].deadline == e.now + s.rows[j].maxRuntime as real
  {
    if e.StepEvent? {
      var op := s.ops[e.id];
      if IsAdmission(op, e.reply) {
        AdmissionShape(lim, s, e.id, e.now, e.reply, n);
        AdmitActivates(lim, s.rows, StartAdmission(s, op, e.now, e.reply), j);
      } else if !e.reply.Interrupted? && Writes(op.pc) {
        WritingStepNext(lim, s, e.id, e.now, e.reply);
        WriteActivates(s.rows, op, e.now, j);
      } else {
        QuietShape(lim, s, e.id, e.now, e.reply, n);
      }
    } else if e.PrepareEvent? {
      PrepareShape(lim, s.rows, e.preparation);
    }
  }

  lemma EventActivatesAt(lim: Limits, ss: seq<Sys>, es: seq<Event>, i: nat, j: JobId)
    requires IsRun(lim, ss, es) && i < |es| && IsActiveIn(ss[i + 1].rows, j) && !IsActiveIn(ss[i].rows, j)
    ensures AdmittedAt(ss[i], es[i], ss[i + 1], j) && j in ss[i + 1].frozen
    ensures ss[i + 1].rows[j].deadline == es[i].now + ss[i + 1].frozen[j].request.duration as real
  {
    assert Follows(lim, ss[i], es[i], ss[i + 1]);
    EventActivates(lim, ss[i], es[i], ss[i + 1], j);
    RunInv(lim, ss, es, i);
    assert RowOk(ss[i], j, ss[i].rows[j]);
    OneStepMono(lim, ss, es, i);
  }

  lemma ActiveKeepsDeadline(lim: Limits, ss: seq<Sys>, es: seq<Event>, i: nat, j: JobId)
    requires IsRun(lim, ss, es) && i < |es| && IsActiveIn(ss[i].rows, j) && IsActiveIn(ss[i + 1].rows, j)
    ensures j in ss[i].frozen && j in ss[i + 1].frozen && ss[i + 1].frozen[j] == ss[i].frozen[j]
    ensures ss[i + 1].rows[j].deadline == ss[i].rows[j].deadline
  {
    RunInv(lim, ss, es, i);
    assert RowOk(ss[i], j, ss[i].rows[j]);
    OneStepMono(lim, ss, es, i);
  }

  /** In every run the deadline of an active job is the clock reading of its admission plus
      the duration that its preparation froze. */
  lemma {:induction false} DeadlineFromAdmission(lim: Limits, ss: seq<Sys>, es: seq<Event>, i: nat, j: JobId)
      returns (a: nat)
    requires IsRun(lim, ss, es) && i < |ss| && IsActiveIn(ss[i].rows, j)
    ensures a < i && AdmittedAt(ss[a], es[a], ss[a + 1], j) && j in ss[i].frozen
    ensures ss[i].rows[j].deadline == es[a].now + ss[i].frozen[j].request.duration as real
    decreases i
  {
    a := i - 1;
    if IsActiveIn(ss[a].rows, j) {
      ActiveKeepsDeadline(lim, ss, es, a, j);
      a := DeadlineFromAdmission(lim, ss, es, a, j);
    } else {
      EventActivatesAt(lim, ss, es, a, j);
    }
  }

  /** The event by which maintenance stored the first timeout request of the job, its sweep
      having read `now`. */
  predicate Overran(s: Sys, e: Event, j: JobId, now: Time) {
    StoresRequest(s, e, j) && s.ops[e.id].call == Maintain(now)
  }

  lemma RequesterMaintains(lim: Limits, s: Sys, e: Event, j: JobId)
    requires Inv(lim, s) && StoresRequest(s, e, j)
    ensures s.ops[e.id].call.Maintain?
  {
    assert OpOk(s, s.ops[e.id]);
  }

  /** A row carries a timeout request only after maintenance had read a clock past the
      deadline that the row still shows, and that was later than the clock reading of the
      job's admission by more than the duration of its preparation. */
  lemma TimeoutOnlyPastDeadline(lim: Limits, ss: seq<Sys>, es: seq<Event>, i: nat, j: JobId)
      returns (a: nat, b: nat, now: Time)
    requires IsRun(lim, ss, es) && i < |ss| && j in ss[i].rows && ss[i].rows[j].timeoutRequested
    ensures a < b < i && AdmittedAt(ss[a], es[a], ss[a + 1], j) && Overran(ss[b], es[b], j, now)
    ensures ss[i].rows[j].deadline < now && j in ss[i].frozen
    ensures now > es[a].now + ss[i].frozen[j].request.duration as real
  {
    b := RequestBetween(lim, ss, es, 0, i, j);
    RunInv(lim, ss, es, b);
    RequesterMaintains(lim, ss[b], es[b], j);
    RunKnowsDeadline(lim, ss, es, b, es[b].id);
    assert RowOk(ss[b], j, ss[b].rows[j]);
    RunMono(lim, ss, es, b, i);
    now := ss[b].ops[es[b].id].call.now;
    a := DeadlineFromAdmission(lim, ss, es, b, j);
  }

  // --------------------------------------------------------------- retention

  /** Only a retention sweep deletes a final row. */
  lemma FinalRowDeleted(lim: Limits, s: Sys, e: Event, n: Sys, j: JobId)
    requires Follows(lim, s, e, n) && j in s.rows && IsFinal(s.rows[j].state) && j !in n.rows
    ensures e.SweepEvent? && e.now > s.rows[j].updated + RESULT_RETENTION
  {
    if e.StepEvent? {
      StepRows(lim, s, e, n);
    } else if e.PrepareEvent? {
      PrepareShape(lim, s.rows, e.preparation);
    }
  }

  lemma FinalRowDeletedAt(lim: Limits, ss: seq<Sys>, es: seq<Event>, i: nat, k: nat, j: JobId)
    requires IsRun(lim, ss, es) && i <= k < |es| && j in ss[i].rows && IsFinal(ss[i].rows[j].state)
    requires j in ss[k].rows && j !in ss[k + 1].rows
    ensures es[k].SweepEvent? && es[k].now > ss[i].rows[j].updated + RESULT_RETENTION
  {
    FinalIsAbsorbing(lim, ss, es, i, k, j);
    assert Follows(lim, ss[k], es[k], ss[k + 1]);
    FinalRowDeleted(lim, ss[k], es[k], ss[k + 1], j);
  }

  /** A final row is gone later only if some sweep in between read a clock more than the
      retention past its last update. */
  lemma {:induction false} ReceiptKeptForRetention(lim: Limits, ss: seq<Sys>, es: seq<Event>, i: nat, k: nat, j: JobId)
      returns (m: nat)
    requires IsRun(lim, ss, es) && i <= k < |ss|
    requires j in ss[i].rows && IsFinal(ss[i].rows[j].state) && j !in ss[k].rows
    ensures i <= m < k && es[m].SweepEvent? && es[m].now > ss[i].rows[j].updated + RESULT_RETENTION
    decreases k
  {
    m := k - 1;
    if j in ss[m].rows {
      FinalRowDeletedAt(lim, ss, es, i, m, j);
    } else {
      m := ReceiptKeptForRetention(lim, ss, es, i, m, j);
    }
  }
}
