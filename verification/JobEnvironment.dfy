/** The events that are not steps of an operation keep the invariant. */
module JobEnvironment {
  import opened Common
  import opened JobTable
  import opened JobProtocol
  import opened JobInvariant
  import opened JobSafety
  import opened JobEvents

  // ---------------------------------------------------------- calls and crashes

  lemma CallKeepsInv(lim: Limits, s: Sys, id: OpId, adapter: AdapterId, job: JobId, call: Call)
    requires Inv(lim, s) && id !in s.ops
    ensures Inv(lim, s.(ops := s.ops[id := Op(adapter, job, call, NOTHING_READ, Begin)]))
  {
    var n := s.(ops := s.ops[id := Op(adapter, job, call, NOTHING_READ, Begin)]);
    SameHistory(s, n);
    SameJobs(s, n);
    CallInFlight(s, id, n);
  }

  lemma CallInFlight(s: Sys, id: OpId, n: Sys)
    requires InFlight(s) && id !in s.ops && id in n.ops
    requires n == s.(ops := s.ops[id := n.ops[id]])
    requires n.ops[id].pc.Begin? && n.ops[id].v == NOTHING_READ
    ensures InFlight(n)
  {
    forall other | other in n.ops ensures OpOk(n, n.ops[other]) {
      if other != id { OpStays(s, n, s.ops[other]); }
    }
    forall a | a in n.ops && PreDispatch(n.ops[a].pc) ensures Claim(n, n.ops[a]) {
      assert Claim(s, s.ops[a]);
    }
    forall a, b | a in n.ops && b in n.ops && Rivals(n.ops[a], n.ops[b]) ensures a == b {
      assert Rivals(s.ops[a], s.ops[b]);
    }
  }

  /** Operations lost in a crash, and any change of the gate. */
  lemma LossKeepsInv(lim: Limits, s: Sys, n: Sys)
    requires Inv(lim, s) && n == s.(ops := n.ops, gate := n.gate)
    requires forall id :: id in n.ops ==> id in s.ops && n.ops[id] == s.ops[id]
    ensures Inv(lim, n)
  {
    SameHistory(s, n);
    SameJobs(s, n);
    LossInFlight(s, n);
  }

  lemma LossInFlight(s: Sys, n: Sys)
    requires InFlight(s) && n == s.(ops := n.ops, gate := n.gate)
    requires forall id :: id in n.ops ==> id in s.ops && n.ops[id] == s.ops[id]
    ensures InFlight(n)
  {
    forall other | other in n.ops ensures OpOk(n, n.ops[other]) {
      OpStays(s, n, s.ops[other]);
    }
    forall a | a in n.ops && PreDispatch(n.ops[a].pc) ensures Claim(n, n.ops[a]) {
      assert Claim(s, s.ops[a]);
    }
    forall a, b | a in n.ops && b in n.ops && Rivals(n.ops[a], n.ops[b]) ensures a == b {
      assert Rivals(s.ops[a], s.ops[b]);
    }
  }

  // ------------------------------------------------------------ native events

  /** `n` is `s` after the native side made, lost or ended a process. */
  ghost predicate NativeMove(s: Sys, n: Sys) {
    && n == s.(pending := n.pending, procs := n.procs)
    && n.pending <= s.pending && NativeOk(n)
    && (forall p :: p in s.procs ==> p in n.procs && Ages(s.procs[p], n.procs[p]))
  }

  lemma NativeJobs(s: Sys, n: Sys)
    requires NativeMove(s, n) && Jobs(s) && LogOk(s)
    ensures Jobs(n)
  {
    forall j | j in n.launched ensures Covered(n, j) {
      assert Covered(s, j);
      if Ended(s, j) { EndedStays(s, n, j); }
    }
    forall j | j in n.rows ensures RowOk(n, j, n.rows[j]) {
      assert RowOk(s, j, s.rows[j]);
      RowStays(s, n, j);
    }
  }

  lemma NativeHistory(s: Sys, n: Sys)
    requires NativeMove(s, n) && History(s)
    ensures History(n)
  {
    forall i: nat | i < |n.log| ensures LoggedOnce(n, i) {
      assert LoggedOnce(s, i);
    }
    forall j | j in n.retired ensures RetiredRow(n, j, n.retired[j]) {
      assert RetiredRow(s, j, s.retired[j]);
    }
    forall a, b | 0 <= a < b < |n.log| && SameKey(n, n.log[a].job, n.log[b].job)
      ensures n.log[a].job in n.retired
    {
      assert SameKey(s, s.log[a].job, s.log[b].job);
    }
  }

  lemma NativeInFlight(s: Sys, n: Sys)
    requires NativeMove(s, n) && InFlight(s)
    ensures InFlight(n)
  {
    forall other | other in n.ops ensures OpOk(n, n.ops[other]) {
      OpStays(s, n, s.ops[other]);
    }
    forall a | a in n.ops && PreDispatch(n.ops[a].pc) ensures Claim(n, n.ops[a]) {
      assert Claim(s, s.ops[a]);
    }
  }

  lemma NativeKeepsInv(lim: Limits, s: Sys, n: Sys)
    requires Inv(lim, s) && NativeMove(s, n)
    ensures Inv(lim, n)
  {
    NativeJobs(s, n);
    NativeHistory(s, n);
    NativeInFlight(s, n);
  }

  // ------------------------------------------------------- deletions and inserts

  /** `after` deletes from `s.rows` only what a sweep or a retirement deletes. */
  ghost predicate Deletes(s: Sys, now: Time, after: Table) {
    && (forall j :: j in after ==> j in s.rows && after[j] == s.rows[j])
    && (forall j :: j in s.rows && j !in after ==> Deletable(s.rows[j], now))
  }

  predicate Deletable(r: Row, now: Time) {
    || (r.state.Prepared? && r.expires <= now)
    || (IsFinal(r.state) && r.updated < now - RESULT_RETENTION)
  }

  predicate Swept(s: Sys, now: Time, after: Table, n: Sys) {
    n == s.(rows := after, retired := RetiredBy(s, after, now))
  }

  lemma SweptMono(s: Sys, now: Time, after: Table, n: Sys)
    requires Deletes(s, now, after) && Swept(s, now, after, n)
    ensures Mono(s, n)
  {
  }

  lemma DeletedRow(s: Sys, now: Time, after: Table, n: Sys, j: JobId)
    requires Deletes(s, now, after) && Swept(s, now, after, n)
    requires j in s.rows && j !in after && RowOk(s, j, s.rows[j])
    ensures j in n.retired && RetiredRow(n, j, n.retired[j])
  {
    assert Deletable(s.rows[j], now);
  }

  lemma SweptHistory(s: Sys, now: Time, after: Table, n: Sys)
    requires Deletes(s, now, after) && Swept(s, now, after, n) && History(s) && RowsOk(s)
    ensures History(n)
  {
    forall i: nat | i < |n.log| ensures LoggedOnce(n, i) {
      assert LoggedOnce(s, i);
    }
    forall j | j in n.retired ensures RetiredRow(n, j, n.retired[j]) {
      if j in s.rows && j !in after {
        DeletedRow(s, now, after, n, j);
      } else {
        assert RetiredRow(s, j, s.retired[j]);
      }
    }
    forall a, b | 0 <= a < b < |n.log| && SameKey(n, n.log[a].job, n.log[b].job)
      ensures n.log[a].job in n.retired
    {
      assert SameKey(s, s.log[a].job, s.log[b].job);
    }
  }

  lemma SweptJobs(s: Sys, now: Time, after: Table, n: Sys)
    requires Deletes(s, now, after) && Swept(s, now, after, n) && Jobs(s) && LogOk(s)
    ensures Jobs(n)
  {
    SweptMono(s, now, after, n);
    forall j | j in n.launched ensures Covered(n, j) {
      assert Covered(s, j);
      if Ended(s, j) {
        EndedStays(s, n, j);
      }
    }
    forall j | j in n.rows ensures RowOk(n, j, n.rows[j]) {
      assert RowOk(s, j, s.rows[j]);
      RowStays(s, n, j);
    }
  }

  lemma SweptInFlight(s: Sys, now: Time, after: Table, n: Sys)
    requires Deletes(s, now, after) && Swept(s, now, after, n) && InFlight(s)
    ensures InFlight(n)
  {
    SweptMono(s, now, after, n);
    forall other | other in n.ops ensures OpOk(n, n.ops[other]) {
      OpStays(s, n, s.ops[other]);
    }
    forall a | a in n.ops && PreDispatch(n.ops[a].pc) ensures Claim(n, n.ops[a]) {
      assert Claim(s, s.ops[a]);
      assert !Deletable(s.rows[s.ops[a].job], now);
    }
  }

  lemma SweptKeepsInv(lim: Limits, s: Sys, now: Time, after: Table, n: Sys)
    requires Inv(lim, s) && Deletes(s, now, after) && Swept(s, now, after, n) && Consistent(lim, after)
    ensures Inv(lim, n)
  {
    SweptHistory(s, now, after, n);
    SweptJobs(s, now, after, n);
    SweptInFlight(s, now, after, n);
  }

  /** `n` is `s` with one more prepared row under a fresh ID. */
  predicate Inserted(lim: Limits, s: Sys, p: Preparation, n: Sys) {
    && p.job !in s.frozen
    && n == s.(rows := s.rows[p.job := FreshRow(lim, p)], frozen := s.frozen[p.job := Frozen(p.request, p.key)])
  }

  lemma InsertedHistory(lim: Limits, s: Sys, p: Preparation, n: Sys)
    requires Inserted(lim, s, p, n) && History(s)
    ensures History(n) && Mono(s, n) && p.job !in s.launched && p.job !in s.retired
  {
    assert p.job in s.launched ==> LoggedOnce(s, s.launched[p.job]);
    assert p.job in s.retired ==> RetiredRow(s, p.job, s.retired[p.job]);
    forall i: nat | i < |n.log| ensures LoggedOnce(n, i) {
      assert LoggedOnce(s, i);
    }
    forall j | j in n.retired ensures RetiredRow(n, j, n.retired[j]) {
      assert RetiredRow(s, j, s.retired[j]);
    }
    forall a, b | 0 <= a < b < |n.log| && SameKey(n, n.log[a].job, n.log[b].job)
      ensures n.log[a].job in n.retired
    {
      assert LoggedOnce(s, a) && LoggedOnce(s, b);
      assert SameKey(s, s.log[a].job, s.log[b].job);
    }
  }

  lemma InsertedJobs(lim: Limits, s: Sys, p: Preparation, n: Sys)
    requires Inserted(lim, s, p, n) && Mono(s, n) && Jobs(s) && LogOk(s)
    requires p.job !in s.launched && p.job !in s.retired
    ensures Jobs(n)
  {
    forall j | j in n.launched ensures Covered(n, j) {
      assert Covered(s, j);
      if Ended(s, j) { EndedStays(s, n, j); }
    }
    forall j | j in n.rows ensures RowOk(n, j, n.rows[j]) {
      if j != p.job {
        assert RowOk(s, j, s.rows[j]);
        RowStays(s, n, j);
      }
    }
  }

  lemma InsertedInFlight(lim: Limits, s: Sys, p: Preparation, n: Sys)
    requires Inserted(lim, s, p, n) && Mono(s, n) && InFlight(s) && RowsOk(s)
    ensures InFlight(n)
  {
    forall other | other in n.ops ensures OpOk(n, n.ops[other]) {
      OpStays(s, n, s.ops[other]);
    }
    forall a | a in n.ops && PreDispatch(n.ops[a].pc) ensures Claim(n, n.ops[a]) {
      assert Claim(s, s.ops[a]);
      assert RowOk(s, s.ops[a].job, s.rows[s.ops[a].job]);
    }
  }

  lemma InsertedKeepsInv(lim: Limits, s: Sys, p: Preparation, n: Sys)
    requires Inv(lim, s) && Inserted(lim, s, p, n) && Consistent(lim, n.rows)
    ensures Inv(lim, n)
  {
    InsertedHistory(lim, s, p, n);
    InsertedJobs(lim, s, p, n);
    InsertedInFlight(lim, s, p, n);
  }

  lemma PrepareShape(lim: Limits, t: Table, p: Preparation)
    ensures var (u, reply) := Prepare(lim, t, p);
      if reply.Issued? then u == Sweep(t, p.now)[p.job := FreshRow(lim, p)] else u == t || u == Sweep(t, p.now)
  {
  }

  lemma SweepDeletes(s: Sys, now: Time)
    ensures Deletes(s, now, s.rows) && Deletes(s, now, Sweep(s.rows, now)) && Deletes(s, now, Retire(s.rows, now))
  {
  }

  lemma PrepareKeepsInv(lim: Limits, s: Sys, p: Preparation)
    requires Inv(lim, s) && p.job !in s.frozen
    ensures Inv(lim, PrepareNext(lim, s, p))
  {
    var (rows, reply) := Prepare(lim, s.rows, p);
    assert p.job in s.rows ==> RowOk(s, p.job, s.rows[p.job]);
    PrepareKeepsConsistent(lim, s.rows, p);
    PrepareShape(lim, s.rows, p);
    var n := PrepareNext(lim, s, p);
    if reply.Issued? {
      IssueKeepsInv(lim, s, p, n);
    } else {
      SweepDeletes(s, p.now);
      SweptKeepsInv(lim, s, p.now, rows, n);
    }
  }

  lemma IssueKeepsInv(lim: Limits, s: Sys, p: Preparation, n: Sys)
    requires Inv(lim, s) && p.job !in s.frozen && p.job !in s.rows && Consistent(lim, n.rows)
    requires n == s.(rows := Sweep(s.rows, p.now)[p.job := FreshRow(lim, p)],
                     frozen := s.frozen[p.job := Frozen(p.request, p.key)],
                     retired := RetiredBy(s, n.rows, p.now))
    ensures Inv(lim, n)
  {
    var after := Sweep(s.rows, p.now);
    var m := s.(rows := after, retired := RetiredBy(s, after, p.now));
    SweptByIssue(lim, s, p, after, m);
    IssuedMap(s, p.job, after, n.rows, p.now);
    InsertedKeepsInv(lim, m, p, n);
  }

  lemma SweptByIssue(lim: Limits, s: Sys, p: Preparation, after: Table, m: Sys)
    requires Inv(lim, s) && after == Sweep(s.rows, p.now) && Swept(s, p.now, after, m)
    ensures Inv(lim, m)
  {
    SweepKeepsConsistent(lim, s.rows, p.now);
    SweepDeletes(s, p.now);
    SweptKeepsInv(lim, s, p.now, after, m);
  }

  lemma IssuedMap(s: Sys, job: JobId, after: Table, rows: Table, now: Time)
    requires job !in s.rows && job in rows && rows == after[job := rows[job]]
    ensures RetiredBy(s, rows, now) == RetiredBy(s, after, now)
  {
  }

  // ---------------------------------------------------------------- all events

  lemma RetireKeepsInv(lim: Limits, s: Sys, now: Time, n: Sys)
    requires Inv(lim, s) && Swept(s, now, Retire(s.rows, now), n)
    ensures Inv(lim, n)
  {
    SweepKeepsConsistent(lim, s.rows, now);
    SweepDeletes(s, now);
    SweptKeepsInv(lim, s, now, Retire(s.rows, now), n);
  }

  lemma NativeEventMoves(lim: Limits, s: Sys, e: Event, n: Sys)
    requires NativeOk(s) && Follows(lim, s, e, n) && (e.SpawnEvent? || e.LoseEvent? || e.ExitEvent?)
    ensures NativeMove(s, n)
  {
  }

  lemma NativeEventKeepsInv(lim: Limits, s: Sys, e: Event)
    requires Inv(lim, s) && Enabled(s, e) && (e.SpawnEvent? || e.LoseEvent? || e.ExitEvent?)
    ensures Inv(lim, Next(lim, s, e))
  {
    NativeEventMoves(lim, s, e, Next(lim, s, e));
    NativeKeepsInv(lim, s, Next(lim, s, e));
  }

  lemma LossEventKeepsInv(lim: Limits, s: Sys, e: Event)
    requires Inv(lim, s) && (e.CrashEvent? || e.GateEvent?)
    ensures Inv(lim, Next(lim, s, e))
  {
    LossKeepsInv(lim, s, Next(lim, s, e));
  }

  lemma NextKeepsInv(lim: Limits, s: Sys, e: Event)
    requires Inv(lim, s) && Enabled(s, e)
    ensures Inv(lim, Next(lim, s, e))
  {
    match e
    case PrepareEvent(_, p) => PrepareKeepsInv(lim, s, p);
    case CallEvent(id, adapter, job, call) => CallKeepsInv(lim, s, id, adapter, job, call);
    case StepEvent(id, now, reply) => StepKeepsInv(lim, s, id, now, reply);
    case SweepEvent(_, now) => RetireKeepsInv(lim, s, now, Next(lim, s, e));
    case CrashEvent(_) => LossEventKeepsInv(lim, s, e);
    case GateEvent(_, _) => LossEventKeepsInv(lim, s, e);
    case SpawnEvent(_, _) => NativeEventKeepsInv(lim, s, e);
    case LoseEvent(_) => NativeEventKeepsInv(lim, s, e);
    case ExitEvent(_) => NativeEventKeepsInv(lim, s, e);
  }

  lemma EmptyInv(lim: Limits)
    ensures Inv(lim, EMPTY)
  {
    assert Active(map[]) == {} && PreparedRows(map[]) == {};
    forall o ensures ActiveOf(map[], o) == {} && PreparedOf(map[], o) == {} {}
  }

  /** The invariant goes over from one state to the next. */
  ghost predicate PassesOn(lim: Limits, s: Sys, n: Sys) {
    Inv(lim, s) ==> Inv(lim, n)
  }

  lemma StepPassesOn(lim: Limits, s: Sys, e: Event, n: Sys)
    requires Follows(lim, s, e, n)
    ensures PassesOn(lim, s, n)
  {
    if Inv(lim, s) {
      NextKeepsInv(lim, s, e);
    }
  }

  lemma {:induction false} ReachesAll(lim: Limits, ss: seq<Sys>, i: nat)
    requires i < |ss| && Inv(lim, ss[0])
    requires forall m :: 0 <= m < |ss| - 1 ==> PassesOn(lim, ss[m], ss[m + 1])
    ensures Inv(lim, ss[i])
    decreases i
  {
    if i > 0 {
      ReachesAll(lim, ss, i - 1);
      assert PassesOn(lim, ss[i - 1], ss[i - 1 + 1]);
    }
  }

  /** The invariant holds in every state of every run. */
  lemma RunInv(lim: Limits, ss: seq<Sys>, es: seq<Event>, i: nat)
    requires IsRun(lim, ss, es) && i < |ss|
    ensures Inv(lim, ss[i])
  {
    EmptyInv(lim);
    forall m | 0 <= m < |ss| - 1 ensures PassesOn(lim, ss[m], ss[m + 1]) {
      assert Follows(lim, ss[m], es[m], ss[m + 1]);
      StepPassesOn(lim, ss[m], es[m], ss[m + 1]);
    }
    ReachesAll(lim, ss, i);
  }
}
