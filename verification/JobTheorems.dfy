/** What the job protocol guarantees in every run: any number of adapters, operations,
    crashes, lost acknowledgements, timeouts and cancellations, in any interleaving. */
module JobTheorems {
  import opened Common
  import opened JobTable
  import opened AdmissionGate
  import opened JobProtocol
  import opened JobInvariant
  import opened JobWrites
  import opened JobEvents
  import opened JobEnvironment

  // ---------------------------------------------------- nothing goes backwards

  lemma RowMono(s: Sys, n: Sys, j: JobId)
    requires n.log == s.log && n.procs == s.procs && n.frozen == s.frozen
    requires j in s.rows && j in n.rows && n.rows == s.rows[j := n.rows[j]] && Evolves(s.rows[j], n.rows[j])
    ensures Mono(s, n)
  {
  }

  lemma WriteMono(s: Sys, id: OpId, now: Time, n: Sys)
    requires id in s.ops && Writes(s.ops[id].pc) && OpOk(s, s.ops[id])
    requires s.ops[id].job in s.rows ==> RowOk(s, s.ops[id].job, s.rows[s.ops[id].job])
    requires n.rows == Write(s.rows, s.ops[id], now).0
    requires n.log == s.log && n.procs == s.procs && n.frozen == s.frozen
    ensures Mono(s, n)
  {
    var op := s.ops[id];
    if Write(s.rows, op, now).1 {
      WriteRewrites(s, op, now);
      RowMono(s, n, op.job);
    } else {
      UnchangedWrite(s, op, now);
    }
  }

  lemma AdmitMono(lim: Limits, s: Sys, op: Op, a: Admission, n: Sys)
    requires op.pc.Begin? && op.call.Start? && a.job == op.job && a.caller == op.call.caller
    requires op.job in s.rows ==> RowOk(s, op.job, s.rows[op.job])
    requires n.rows == Admit(lim, s.rows, a).0
    requires n.log == s.log && n.procs == s.procs && n.frozen == s.frozen
    ensures Mono(s, n)
  {
    AdmitRewrites(lim, s, op, a);
    if n.rows != s.rows {
      RowMono(s, n, op.job);
    }
  }

  function StartAdmission(s: Sys, op: Op, now: Time, reply: Resume): Admission
    requires op.call.Start? && reply.Proceed?
  {
    Admission(op.job, op.call.secret, op.call.caller, now, GatewayPaused(s.gate.draining), reply.directoryOk)
  }

  predicate IsAdmission(op: Op, reply: Resume) {
    op.pc.Begin? && op.call.Start? && reply.Proceed?
  }

  lemma AdmissionShape(lim: Limits, s: Sys, id: OpId, now: Time, reply: Resume, n: Sys)
    requires id in s.ops && IsAdmission(s.ops[id], reply) && n == StepNext(lim, s, id, now, reply)
    ensures n == s.(rows := Admit(lim, s.rows, StartAdmission(s, s.ops[id], now, reply)).0, ops := n.ops)
  {
  }

  /** Steps that are neither an admission nor a write leave table and gate alone. */
  lemma QuietShape(lim: Limits, s: Sys, id: OpId, now: Time, reply: Resume, n: Sys)
    requires id in s.ops && n == StepNext(lim, s, id, now, reply)
    requires !IsAdmission(s.ops[id], reply) && (reply.Interrupted? || !Writes(s.ops[id].pc))
    requires s.ops[id].pc.Begin? ==> reply.Proceed? || reply.Interrupted?
    ensures n.rows == s.rows && n.gate == s.gate && n.procs == s.procs && n.frozen == s.frozen
    ensures n.log == s.log || (s.ops[id].pc.Dispatch? && n.log == s.log + [s.ops[id].pc.launch])
  {
    if s.ops[id].pc.Begin? {
      QuietBegin(lim, s, id, now, reply);
    } else {
      QuietRun(lim, s, id, now, reply);
    }
  }

  lemma QuietBegin(lim: Limits, s: Sys, id: OpId, now: Time, reply: Resume)
    requires id in s.ops && s.ops[id].pc.Begin? && !IsAdmission(s.ops[id], reply)
    requires reply.Proceed? || reply.Interrupted?
    ensures var o := Run(lim, s.gate, s.rows, s.ops[id], now, reply); o.rows == s.rows && o.launch.None?
  {
  }

  lemma QuietRun(lim: Limits, s: Sys, id: OpId, now: Time, reply: Resume)
    requires id in s.ops && !s.ops[id].pc.Begin? && (reply.Interrupted? || !Writes(s.ops[id].pc))
    ensures var o := Run(lim, s.gate, s.rows, s.ops[id], now, reply);
      o.rows == s.rows
      && (o.launch.None? || (s.ops[id].pc.Dispatch? && o.launch == Some(s.ops[id].pc.launch)))
  {
  }

  lemma QuietMono(s: Sys, op: Op, n: Sys)
    requires n.rows == s.rows && n.procs == s.procs && n.frozen == s.frozen
    requires n.log == s.log || (op.pc.Dispatch? && n.log == s.log + [op.pc.launch])
    ensures Mono(s, n)
  {
  }

  lemma StepMono(lim: Limits, s: Sys, id: OpId, now: Time, reply: Resume, n: Sys)
    requires id in s.ops && Fits(s, s.ops[id], reply) && n == StepNext(lim, s, id, now, reply)
    requires OpOk(s, s.ops[id])
    requires s.ops[id].job in s.rows ==> RowOk(s, s.ops[id].job, s.rows[s.ops[id].job])
    ensures Mono(s, n)
  {
    if IsAdmission(s.ops[id], reply) {
      AdmissionShape(lim, s, id, now, reply, n);
      AdmitMono(lim, s, s.ops[id], StartAdmission(s, s.ops[id], now, reply), n);
    } else if !reply.Interrupted? && Writes(s.ops[id].pc) {
      WritingStepNext(lim, s, id, now, reply);
      WriteMono(s, id, now, n);
    } else {
      QuietShape(lim, s, id, now, reply, n);
      QuietMono(s, s.ops[id], n);
    }
  }

  lemma PrepareMono(lim: Limits, s: Sys, p: Preparation)
    requires p.job !in s.frozen
    ensures Mono(s, PrepareNext(lim, s, p))
  {
    PrepareShape(lim, s.rows, p);
  }

  lemma StepEventMono(lim: Limits, s: Sys, id: OpId, now: Time, reply: Resume, n: Sys)
    requires Inv(lim, s) && id in s.ops && Fits(s, s.ops[id], reply) && n == StepNext(lim, s, id, now, reply)
    ensures Mono(s, n)
  {
    assert OpOk(s, s.ops[id]);
    assert s.ops[id].job in s.rows ==> RowOk(s, s.ops[id].job, s.rows[s.ops[id].job]);
    StepMono(lim, s, id, now, reply, n);
  }

  lemma NativeMono(lim: Limits, s: Sys, e: Event, n: Sys)
    requires Follows(lim, s, e, n) && !e.PrepareEvent? && !e.StepEvent?
    ensures Mono(s, n)
  {
  }

  lemma NextMono(lim: Limits, s: Sys, e: Event, n: Sys)
    requires Inv(lim, s) && Follows(lim, s, e, n)
    ensures Mono(s, n)
  {
    if e.PrepareEvent? {
      PrepareMono(lim, s, e.preparation);
    } else if e.StepEvent? {
      StepEventMono(lim, s, e.id, e.now, e.reply, n);
    } else {
      NativeMono(lim, s, e, n);
    }
  }

  lemma MonoTransitive(a: Sys, b: Sys, c: Sys)
    requires Mono(a, b) && Mono(b, c)
    ensures Mono(a, c)
  {
    assert a.log == b.log[..|a.log|] && b.log == c.log[..|b.log|];
    forall p | p in a.procs ensures p in c.procs && Ages(a.procs[p], c.procs[p]) {
      assert Ages(a.procs[p], b.procs[p]);
    }
  }

  lemma OneStepMono(lim: Limits, ss: seq<Sys>, es: seq<Event>, i: nat)
    requires IsRun(lim, ss, es) && i < |es|
    ensures Mono(ss[i], ss[i + 1])
  {
    RunInv(lim, ss, es, i);
    assert Follows(lim, ss[i], es[i], ss[i + 1]);
    NextMono(lim, ss[i], es[i], ss[i + 1]);
  }

  lemma {:induction false} RunMono(lim: Limits, ss: seq<Sys>, es: seq<Event>, i: nat, k: nat)
    requires IsRun(lim, ss, es) && i <= k < |ss|
    ensures Mono(ss[i], ss[k])
    decreases k - i
  {
    if i < k {
      OneStepMono(lim, ss, es, k - 1);
      RunMono(lim, ss, es, i, k - 1);
      MonoTransitive(ss[i], ss[k - 1], ss[k]);
    }
  }

  /** A final row is never rewritten: while it exists it is the same row. */
  lemma FinalIsAbsorbing(lim: Limits, ss: seq<Sys>, es: seq<Event>, i: nat, k: nat, j: JobId)
    requires IsRun(lim, ss, es) && i <= k < |ss|
    requires j in ss[i].rows && IsFinal(ss[i].rows[j].state) && j in ss[k].rows
    ensures ss[k].rows[j] == ss[i].rows[j]
  {
    RunInv(lim, ss, es, i);
    assert RowOk(ss[i], j, ss[i].rows[j]);
    RunMono(lim, ss, es, i, k);
  }

  /** A final state that start, status or cancel returned is the stored one from then on,
      with the same exit code and output, for as long as the row exists. */
  lemma ReportsAreDurable(lim: Limits, ss: seq<Sys>, es: seq<Event>, i: nat, k: nat, id: OpId)
    requires IsRun(lim, ss, es) && i <= k < |ss|
    requires id in ss[i].ops && ss[i].ops[id].pc.Returned? && IsFinal(ss[i].ops[id].pc.report.state)
    requires ss[i].ops[id].job in ss[k].rows
    ensures ReportRow(ss[k].rows[ss[i].ops[id].job]) == ss[i].ops[id].pc.report
  {
    RunInv(lim, ss, es, i);
    assert OpOk(ss[i], ss[i].ops[id]);
    RunMono(lim, ss, es, i, k);
    ToldStays(ss[i], ss[k], ss[i].ops[id].job, ss[i].ops[id].pc.report);
  }

  // ------------------------------------------------------------ single launch

  /** Over all repeated and concurrent starts, crashes and recoveries a job is dispatched
      at most once, with the command and directory that its preparation froze. */
  lemma AtMostOnceFrozenLaunch(lim: Limits, ss: seq<Sys>, es: seq<Event>, i: nat, k: nat)
    requires IsRun(lim, ss, es) && i <= k < |ss|
    ensures forall a, b :: 0 <= a < b < |ss[k].log| ==> ss[k].log[a].job != ss[k].log[b].job
    ensures forall a :: 0 <= a < |ss[k].log| && ss[k].log[a].job in ss[i].frozen ==>
      ss[k].log[a].command == ss[i].frozen[ss[k].log[a].job].request.command
      && ss[k].log[a].workdir == ss[i].frozen[ss[k].log[a].job].request.workdir
    ensures forall j :: j in ss[k].rows ==>
      (ss[k].rows[j].command.Some? <==> ss[k].rows[j].state.Prepared?)
  {
    RunInv(lim, ss, es, k);
    RunMono(lim, ss, es, i, k);
    var s := ss[k];
    forall a, b | 0 <= a < b < |s.log| ensures s.log[a].job != s.log[b].job {
      assert LoggedOnce(s, a) && LoggedOnce(s, b);
    }
    forall a | 0 <= a < |s.log| && s.log[a].job in ss[i].frozen
      ensures s.log[a].command == ss[i].frozen[s.log[a].job].request.command
        && s.log[a].workdir == ss[i].frozen[s.log[a].job].request.workdir
    {
      assert LoggedOnce(s, a);
    }
  }

  /** A dispatch is made only for a row that is already committed as active, and the row's
      owner is then the caller on whose behalf it is made. */
  lemma DispatchAfterCommit(lim: Limits, ss: seq<Sys>, es: seq<Event>, i: nat)
    requires IsRun(lim, ss, es) && i < |es| && ss[i + 1].log != ss[i].log
    ensures |ss[i + 1].log| == |ss[i].log| + 1 && ss[i].log <= ss[i + 1].log
    ensures var l := ss[i + 1].log[|ss[i].log|];
      && l.job in ss[i].rows && IsActive(ss[i].rows[l.job].state) && ss[i].rows[l.job].command.None?
      && ss[i].rows[l.job].owner == l.caller
      && (forall a :: 0 <= a < |ss[i].log| ==> ss[i].log[a].job != l.job)
  {
    RunInv(lim, ss, es, i);
    assert Follows(lim, ss[i], es[i], ss[i + 1]);
    LogGrowth(lim, ss[i], es[i], ss[i + 1]);
    var s, id := ss[i], es[i].id;
    assert OpOk(s, s.ops[id]) && Claim(s, s.ops[id]);
    forall a | 0 <= a < |s.log| ensures s.log[a].job != s.ops[id].job {
      assert LoggedOnce(s, a);
    }
  }

  lemma LogGrowth(lim: Limits, s: Sys, e: Event, n: Sys)
    requires Follows(lim, s, e, n)
    ensures n.log == s.log
      || (e.StepEvent? && s.ops[e.id].pc.Dispatch? && n.log == s.log + [s.ops[e.id].pc.launch])
  {
    if e.StepEvent? {
      if IsAdmission(s.ops[e.id], e.reply) {
        AdmissionShape(lim, s, e.id, e.now, e.reply, n);
      } else if !e.reply.Interrupted? && Writes(s.ops[e.id].pc) {
        WritingStepNext(lim, s, e.id, e.now, e.reply);
      } else {
        QuietShape(lim, s, e.id, e.now, e.reply, n);
      }
    }
  }
}
