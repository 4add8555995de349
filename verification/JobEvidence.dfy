/** Where the recorded evidence comes from: a reply to a poll of that job, in the same run. */
module JobEvidence {
  import opened Common
  import opened JobTable
  import opened JobProtocol
  import opened JobInvariant
  import opened JobEnvironment
  import opened JobTheorems
  import opened JobGuarantees
  import opened JobMoves

  /** In this event a poll of job `j` is answered with `r`. */
  predicate PolledAt(s: Sys, e: Event, j: JobId, r: PollReply) {
    && e.StepEvent? && e.id in s.ops && s.ops[e.id].job == j
    && s.ops[e.id].pc.AwaitPoll? && e.reply == Polled(r)
  }

  ghost predicate PolledBefore(ss: seq<Sys>, es: seq<Event>, i: nat, j: JobId, r: PollReply)
    requires i < |ss| == |es| + 1
  {
    exists m :: 0 <= m < i && PolledAt(ss[m], es[m], j, r)
  }

  /** Some poll of the job was answered with a terminal status. */
  ghost predicate EndTold(ss: seq<Sys>, es: seq<Event>, i: nat, j: JobId)
    requires i < |ss| == |es| + 1
  {
    exists r :: Terminal(r) && PolledBefore(ss, es, i, j, r)
  }

  lemma OpsCarry(lim: Limits, s: Sys, e: Event, n: Sys, id: OpId, r: PollReply)
    requires Follows(lim, s, e, n) && id in n.ops && AtWorkOn(n.ops[id].pc) == Some(r)
    ensures (id in s.ops && s.ops[id].job == n.ops[id].job && AtWorkOn(s.ops[id].pc) == Some(r))
            || PolledAt(s, e, n.ops[id].job, r)
  {
    if e.StepEvent? && e.id == id {
      StepMoves(lim, s, e, n);
    } else {
      OpsMove(lim, s, e, n, id);
    }
  }

  lemma EvidenceCarried(lim: Limits, s: Sys, e: Event, n: Sys, j: JobId)
    requires Follows(lim, s, e, n) && j in n.evidence
    ensures (j in s.evidence && s.evidence[j] == n.evidence[j])
            || (e.StepEvent? && s.ops[e.id].job == j && AtWorkOn(s.ops[e.id].pc) == Some(n.evidence[j]))
  {
  }

  // -------------------------------------------------------------------- runs

  lemma {:induction false} CarriedWasPolled(lim: Limits, ss: seq<Sys>, es: seq<Event>, i: nat, id: OpId, r: PollReply)
    requires IsRun(lim, ss, es) && i < |ss| && id in ss[i].ops && AtWorkOn(ss[i].ops[id].pc) == Some(r)
    ensures PolledBefore(ss, es, i, ss[i].ops[id].job, r)
    decreases i
  {
    assert i > 0;
    var s, e, j := ss[i - 1], es[i - 1], ss[i].ops[id].job;
    assert Follows(lim, s, e, ss[i - 1 + 1]);
    OpsCarry(lim, s, e, ss[i], id, r);
    if !PolledAt(s, e, j, r) {
      CarriedWasPolled(lim, ss, es, i - 1, id, r);
      PolledEarlier(ss, es, i - 1, i, j, r);
    }
  }

  lemma PolledEarlier(ss: seq<Sys>, es: seq<Event>, i: nat, k: nat, j: JobId, r: PollReply)
    requires i <= k < |ss| == |es| + 1 && PolledBefore(ss, es, i, j, r)
    ensures PolledBefore(ss, es, k, j, r)
  {
  }

  /** The reply recorded for a job is one that a poll of that job really got. */
  lemma {:induction false} EvidenceWasPolled(lim: Limits, ss: seq<Sys>, es: seq<Event>, i: nat, j: JobId)
    requires IsRun(lim, ss, es) && i < |ss| && j in ss[i].evidence
    ensures PolledBefore(ss, es, i, j, ss[i].evidence[j])
    decreases i
  {
    assert i > 0;
    var s, e, r := ss[i - 1], es[i - 1], ss[i].evidence[j];
    assert Follows(lim, s, e, ss[i - 1 + 1]);
    EvidenceCarried(lim, s, e, ss[i], j);
    if j in s.evidence && s.evidence[j] == r {
      EvidenceWasPolled(lim, ss, es, i - 1, j);
    } else {
      CarriedWasPolled(lim, ss, es, i - 1, e.id, r);
    }
    PolledEarlier(ss, es, i - 1, i, j, r);
  }

  /** Evidence-only finality over whole runs: until a poll of a dispatched job was answered
      with a terminal status its row stays active; and when the row is final or gone, such
      an answer came before, or the job was never dispatched and never will be. */
  lemma EvidenceOnlyFinality(lim: Limits, ss: seq<Sys>, es: seq<Event>, i: nat, k: nat, j: JobId)
    requires IsRun(lim, ss, es) && i <= k < |ss|
    ensures j in ss[i].launched && !EndTold(ss, es, i, j) ==> j in ss[i].rows && IsActive(ss[i].rows[j].state)
    ensures Over(ss[i], j) ==> EndTold(ss, es, i, j) || (j !in ss[i].launched && j !in ss[k].launched)
  {
    Quarantine(lim, ss, es, i, k, j);
    if Seen(ss[i], j) {
      EvidenceWasPolled(lim, ss, es, i, j);
    }
  }

  /** And such an answer is only ever given about a process of that job that has ended. */
  lemma EndToldMeansEnded(lim: Limits, ss: seq<Sys>, es: seq<Event>, i: nat, j: JobId)
    requires IsRun(lim, ss, es) && i < |ss| && EndTold(ss, es, i, j)
    ensures Ended(ss[i], j)
  {
    var r :| Terminal(r) && PolledBefore(ss, es, i, j, r);
    var m :| 0 <= m < i && PolledAt(ss[m], es[m], j, r);
    RunInv(lim, ss, es, m);
    assert Follows(lim, ss[m], es[m], ss[m + 1]);
    TerminalAnswer(ss[m], es[m].id, r);
    RunMono(lim, ss, es, m, i);
    EndedStays(ss[m], ss[i], j);
  }

  lemma TerminalAnswer(s: Sys, id: OpId, r: PollReply)
    requires id in s.ops && s.ops[id].pc.AwaitPoll? && Fits(s, s.ops[id], Polled(r)) && Terminal(r)
    requires OpsOk(s)
    ensures Ended(s, s.ops[id].job)
  {
    assert OpOk(s, s.ops[id]);
    assert OwnedDead(s, s.ops[id].job, s.ops[id].v.native.value);
  }
}
