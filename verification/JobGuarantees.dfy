/** Quotas on live processes, the quarantine of unproven endings, attribution of outcomes
    and the idempotency window, in every run. */
module JobGuarantees {
  import opened Common
  import opened JobTable
  import opened JobProtocol
  import opened JobInvariant
  import opened JobEnvironment
  import opened JobTheorems

  // ----------------------------------------------------------------- quotas

  /** The processes that still run. */
  function Live(s: Sys): set<ProcId> {
    set p | p in s.procs && s.procs[p].alive
  }

  /** The dispatches that may still make a process or have one that runs. */
  function Busy(s: Sys): set<nat> {
    s.pending + set p | p in s.procs && s.procs[p].alive :: s.procs[p].dispatch
  }

  function BusyFor(s: Sys, caller: Hash): set<nat> {
    set d | d in Busy(s) && d < |s.log| && s.log[d].caller == caller
  }

  /** A busy dispatch has its row in the table, active and owned by its caller. */
  lemma BusyIsActive(lim: Limits, s: Sys, d: nat)
    requires Inv(lim, s) && d in Busy(s)
    ensures d < |s.log|
    ensures s.log[d].job in s.rows && IsActive(s.rows[s.log[d].job].state)
    ensures s.rows[s.log[d].job].owner == s.log[d].caller
    ensures s.rows[s.log[d].job].workdir == s.log[d].workdir
    ensures s.log[d].job in s.launched && s.launched[s.log[d].job] == d
  {
    assert LoggedOnce(s, d);
    var j := s.log[d].job;
    assert Covered(s, j);
    if Ended(s, j) {
      BusyIsNotDead(s, d);
    }
    assert RowOk(s, j, s.rows[j]);
  }

  lemma BusyIsNotDead(s: Sys, d: nat)
    requires LogOk(s) && NativeOk(s) && d in Busy(s) && d < |s.log|
    ensures !Ended(s, s.log[d].job)
  {
    forall q | q in s.procs ensures !OwnedDead(s, s.log[d].job, q) {
      if Owned(s, s.log[d].job, q) {
        assert LoggedOnce(s, d) && LoggedOnce(s, s.procs[q].dispatch);
        if p :| p in s.procs && s.procs[p].alive && s.procs[p].dispatch == d {
          assert p == q;
        }
      }
    }
  }

  lemma BusyWithinLimits(lim: Limits, s: Sys, caller: Hash)
    requires Inv(lim, s)
    ensures |Busy(s)| <= lim.maxActive
    ensures |BusyFor(s, caller)| <= lim.maxPerSession
  {
    var jobOf := map d | d in Busy(s) && d < |s.log| :: s.log[d].job;
    forall d | d in Busy(s)
      ensures d in jobOf && jobOf[d] in Active(s.rows)
      ensures jobOf[d] in s.launched && s.launched[jobOf[d]] == d
      ensures d in BusyFor(s, caller) ==> jobOf[d] in ActiveOf(s.rows, caller)
    {
      BusyIsActive(lim, s, d);
    }
    InjectionCardinality(Busy(s), Active(s.rows), jobOf);
    InjectionCardinality(BusyFor(s, caller), ActiveOf(s.rows, caller), jobOf);
  }

  lemma LiveAreDistinctDispatches(s: Sys)
    requires NativeOk(s)
    ensures |Live(s)| <= |Busy(s)|
  {
    var dispatchOf := map p | p in s.procs :: s.procs[p].dispatch;
    InjectionCardinality(Live(s), Busy(s), dispatchOf);
  }

  lemma BusyApart(lim: Limits, s: Sys, a: nat, b: nat)
    requires Inv(lim, s) && a in Busy(s) && b in Busy(s) && a != b
    ensures a < |s.log| && b < |s.log|
    ensures !exists d :: Inside(d, s.log[a].workdir) && Inside(d, s.log[b].workdir)
  {
    BusyIsActive(lim, s, a);
    BusyIsActive(lim, s, b);
    OverlapMeansSharedSubtree(s.log[a].workdir, s.log[b].workdir);
  }

  /** In every run the processes alive or still to come number at most `maxActive`, at most
      `maxPerSession` for one caller, and no two of them share a directory subtree. */
  lemma LiveJobsWithinLimits(lim: Limits, ss: seq<Sys>, es: seq<Event>, i: nat)
    requires IsRun(lim, ss, es) && i < |ss|
    ensures |Live(ss[i])| <= |Busy(ss[i])| <= lim.maxActive
    ensures forall caller :: |BusyFor(ss[i], caller)| <= lim.maxPerSession
    ensures forall a, b :: a in Busy(ss[i]) && b in Busy(ss[i]) && a != b ==>
      a < |ss[i].log| && b < |ss[i].log|
      && !exists d :: Inside(d, ss[i].log[a].workdir) && Inside(d, ss[i].log[b].workdir)
  {
    var s := ss[i];
    RunInv(lim, ss, es, i);
    LiveAreDistinctDispatches(s);
    BusyWithinLimits(lim, s, Sha256(""));
    forall caller ensures |BusyFor(s, caller)| <= lim.maxPerSession {
      BusyWithinLimits(lim, s, caller);
    }
    forall a, b | a in Busy(s) && b in Busy(s) && a != b
      ensures a < |s.log| && b < |s.log|
        && !exists d :: Inside(d, s.log[a].workdir) && Inside(d, s.log[b].workdir)
    {
      BusyApart(lim, s, a, b);
    }
  }

  // ------------------------------------------------------------- quarantine

  /** The row is gone or says the job is over. */
  predicate Over(s: Sys, j: JobId) {
    j in s.frozen && (j in s.rows ==> IsFinal(s.rows[j].state))
  }

  /** A dispatched job whose end no poll has told keeps an active row, hence its capacity
      and its workspace. A job that the table calls over, or has forgotten, was never
      dispatched and never will be, or a terminal reply was recorded for it and its process
      has indeed ended. */
  lemma Quarantine(lim: Limits, ss: seq<Sys>, es: seq<Event>, i: nat, k: nat, j: JobId)
    requires IsRun(lim, ss, es) && i <= k < |ss|
    ensures j in ss[i].launched && !Seen(ss[i], j) ==>
      j in ss[i].rows && IsActive(ss[i].rows[j].state)
    ensures Over(ss[i], j) ==>
      (Seen(ss[i], j) && Ended(ss[i], j)) || (j !in ss[i].launched && j !in ss[k].launched)
  {
    RunInv(lim, ss, es, i);
    if j in ss[i].launched {
      UnseenIsActive(lim, ss[i], j);
      assert Covered(ss[i], j);
    }
    if Over(ss[i], j) && j !in ss[i].launched {
      NeverLaunchedLater(lim, ss, es, i, k, j);
    }
  }

  lemma UnseenIsActive(lim: Limits, s: Sys, j: JobId)
    requires Inv(lim, s) && j in s.launched
    ensures Seen(s, j) || (j in s.rows && IsActive(s.rows[j].state))
  {
    assert LoggedOnce(s, s.launched[j]);
    assert j in s.rows ==> RowOk(s, j, s.rows[j]);
    assert j in s.retired ==> RetiredRow(s, j, s.retired[j]);
  }

  lemma OverStays(s: Sys, n: Sys, j: JobId)
    requires Mono(s, n) && Over(s, j)
    ensures Over(n, j)
  {
  }

  lemma LaunchNeedsActiveRow(lim: Limits, ss: seq<Sys>, es: seq<Event>, i: nat, j: JobId)
    requires IsRun(lim, ss, es) && i < |es| && Over(ss[i], j) && j !in ss[i].launched
    ensures j !in ss[i + 1].launched
  {
    RunInv(lim, ss, es, i);
    RunInv(lim, ss, es, i + 1);
    if ss[i + 1].log == ss[i].log {
      SameLogSameLaunched(ss[i], ss[i + 1], j);
    } else {
      DispatchAfterCommit(lim, ss, es, i);
      OtherLaunch(ss[i], ss[i + 1], j);
    }
  }

  lemma {:induction false} NeverLaunchedLater(lim: Limits, ss: seq<Sys>, es: seq<Event>, i: nat, k: nat, j: JobId)
    requires IsRun(lim, ss, es) && i <= k < |ss| && Over(ss[i], j) && j !in ss[i].launched
    ensures j !in ss[k].launched
    decreases k - i
  {
    if i < k {
      RunMono(lim, ss, es, i, i + 1);
      OverStays(ss[i], ss[i + 1], j);
      LaunchNeedsActiveRow(lim, ss, es, i, j);
      NeverLaunchedLater(lim, ss, es, i + 1, k, j);
    }
  }

  lemma SameLogSameLaunched(s: Sys, n: Sys, j: JobId)
    requires LogOk(s) && LogOk(n) && n.log == s.log && j !in s.launched
    ensures j !in n.launched
  {
    assert j in n.launched ==> LoggedOnce(s, n.launched[j]);
  }

  lemma OtherLaunch(s: Sys, n: Sys, j: JobId)
    requires LogOk(s) && LogOk(n) && |n.log| == |s.log| + 1 && s.log <= n.log
    requires n.log[|s.log|].job != j && j !in s.launched
    ensures j !in n.launched
  {
    assert s.log == n.log[..|s.log|];
    assert j in n.launched && n.launched[j] < |s.log| ==> LoggedOnce(s, n.launched[j]);
  }

  // ------------------------------------------------------------- attribution

  /** Why a row is in the final state it is in. */
  lemma OutcomeAttribution(lim: Limits, ss: seq<Sys>, es: seq<Event>, i: nat, j: JobId)
    requires IsRun(lim, ss, es) && i < |ss| && j in ss[i].rows
    ensures var s, r := ss[i], ss[i].rows[j];
      && (r.state.Succeeded? ==>
            r.exit == Some(0) && Ended(s, j) && EndedBy(s, j, r.exit, false))
      && (r.state.Failed? ==>
            j !in s.launched
            || (r.exit.Some? && r.exit != Some(0) && Ended(s, j) && EndedBy(s, j, r.exit, false)))
      && (r.state.TimedOut? ==>
            r.timeoutRequested && Ended(s, j) && EndedBy(s, j, r.exit, true))
      && (r.state.Cancelled? ==>
            j !in s.launched || (Ended(s, j) && EndedBy(s, j, r.exit, true)))
      && (r.state.Expired? ==> j !in s.launched)
  {
    RunInv(lim, ss, es, i);
    assert RowOk(ss[i], j, ss[i].rows[j]);
    assert j in ss[i].launched ==> Covered(ss[i], j);
  }

  /** Maintenance asks for a kill only after the timeout request is durable, and a timeout
      request is never withdrawn. */
  lemma KillOnlyAfterTimeoutRequest(lim: Limits, ss: seq<Sys>, es: seq<Event>, i: nat, k: nat, id: OpId)
    requires IsRun(lim, ss, es) && i <= k < |ss|
    requires id in ss[i].ops && ss[i].ops[id].call.Maintain? && ss[i].ops[id].pc.AwaitKill?
    ensures ss[i].ops[id].job in ss[k].rows ==> ss[k].rows[ss[i].ops[id].job].timeoutRequested
  {
    RunInv(lim, ss, es, i);
    assert OpOk(ss[i], ss[i].ops[id]);
    RunMono(lim, ss, es, i, k);
  }

  // ------------------------------------------------------- idempotency window

  /** At most one row exists per idempotency key; of two dispatches under one key the first
      job was final and past its retention when its row was deleted. */
  lemma IdempotencyWindow(lim: Limits, ss: seq<Sys>, es: seq<Event>, i: nat, a: nat, b: nat)
    requires IsRun(lim, ss, es) && i < |ss|
    ensures KeysUnique(ss[i].rows)
    ensures a < b < |ss[i].log| && SameKey(ss[i], ss[i].log[a].job, ss[i].log[b].job) ==>
      ss[i].log[a].job in ss[i].retired
      && IsFinal(ss[i].retired[ss[i].log[a].job].row.state)
      && ss[i].retired[ss[i].log[a].job].now
         > ss[i].retired[ss[i].log[a].job].row.updated + RESULT_RETENTION
  {
    RunInv(lim, ss, es, i);
    var s := ss[i];
    if a < b < |s.log| && SameKey(s, s.log[a].job, s.log[b].job) {
      assert LoggedOnce(s, a);
      assert RetiredRow(s, s.log[a].job, s.retired[s.log[a].job]);
    }
  }
}
