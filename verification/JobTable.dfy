/** The `jobs` table and the transactions that adapters run against it.

    A transaction is a function from the committed table to the next one. Statements
    that raise inside the connection block roll back, so a refused transaction returns
    the table it was given. */
module JobTable {
  import opened Common

  const MAX_OUTPUT := 6000
  const RESULT_RETENTION: Time := 604800.0

  type JobId = nat
  type ProcId = nat

  datatype JobState =
    | Prepared | Starting | Running | Unknown
    | Succeeded | Failed | Cancelled | TimedOut | Expired

  const ACTIVE: set<JobState> := {Starting, Running, Unknown}

  predicate IsActive(state: JobState) {
    state.Starting? || state.Running? || state.Unknown?
  }

  predicate IsFinal(state: JobState) {
    state.Succeeded? || state.Failed? || state.Cancelled? || state.TimedOut? || state.Expired?
  }

  /** What the request digest covers. */
  datatype Request = Request(command: string, workdir: Path, duration: nat)

  datatype Row = Row(
    credential: Hash, request: Request, key: Option<Hash>, native: Option<ProcId>,
    state: JobState, created: Time, deadline: Time, updated: Time,
    exit: Option<int>, output: string, owner: Hash, workdir: Path,
    command: Option<string>, maxRuntime: nat, expires: Time, timeoutRequested: bool)

  type Table = map<JobId, Row>

  datatype Limits = Limits(
    maxActive: nat, maxPerSession: nat,
    maxPrepared: nat, maxPreparedPerOwner: nat, preparedTtl: nat)

  // ---------------------------------------------------------------- row sets

  function Active(t: Table): set<JobId> {
    set j | j in t && IsActive(t[j].state)
  }

  function ActiveOf(t: Table, owner: Hash): set<JobId> {
    set j | j in t && IsActive(t[j].state) && t[j].owner == owner
  }

  function PreparedRows(t: Table): set<JobId> {
    set j | j in t && t[j].state.Prepared?
  }

  function PreparedOf(t: Table, owner: Hash): set<JobId> {
    set j | j in t && t[j].state.Prepared? && t[j].owner == owner
  }

  function Holders(t: Table, key: Hash): set<JobId> {
    set j | j in t && t[j].key == Some(key)
  }

  // ------------------------------------------------------------ transactions

  /** `DELETE ... WHERE state='prepared' AND prepared_expires<=now`. */
  function Sweep(t: Table, now: Time): Table {
    map j | j in t && !(t[j].state.Prepared? && t[j].expires <= now) :: t[j]
  }

  /** The deletions of `maintain`: expired preparations and receipts past retention. */
  function Retire(t: Table, now: Time): Table {
    map j | j in t
      && !(t[j].state.Prepared? && t[j].expires <= now)
      && !(IsFinal(t[j].state) && t[j].updated < now - RESULT_RETENTION) :: t[j]
  }

  datatype Preparation = Preparation(
    request: Request, key: Option<Hash>, owner: Hash, now: Time, job: JobId, secret: Hash)

  datatype PrepareReply =
    | KeyConflict
    | Replayed(job: JobId, state: JobState)
    | PreparedFull
    | OwnerPreparedFull
    | Issued(job: JobId)

  function FreshRow(lim: Limits, p: Preparation): Row {
    Row(p.secret, p.request, p.key, None, Prepared, p.now, p.now + p.request.duration as real,
        p.now, None, "", p.owner, p.request.workdir, Some(p.request.command),
        p.request.duration, p.now + lim.preparedTtl as real, false)
  }

  ghost function Prepare(lim: Limits, t: Table, p: Preparation): (Table, PrepareReply) {
    var swept := Sweep(t, p.now);
    if p.key.Some? && Holders(swept, p.key.value) != {} then
      var previous :| previous in Holders(swept, p.key.value);
      if swept[previous].request != p.request then
        (t, KeyConflict)
      else
        (swept, Replayed(previous, swept[previous].state))
    else if |PreparedRows(swept)| >= lim.maxPrepared then
      (t, PreparedFull)
    else if |PreparedOf(swept, p.owner)| >= lim.maxPreparedPerOwner then
      (t, OwnerPreparedFull)
    else
      (swept[p.job := FreshRow(lim, p)], Issued(p.job))
  }

  datatype Admission = Admission(
    job: JobId, secret: Hash, caller: Hash, now: Time, draining: bool, directoryOk: bool)

  datatype AdmitReply =
    | BadCredential
    | Existing(row: Row)
    | ExpiredNow(row: Row)
    | Draining
    | ActiveFull
    | CallerFull
    | WorkdirChanged
    | WorkspaceBusy
    | PayloadMissing
    | Admitted(command: string, workdir: Path)

  function Admittable(r: Row, a: Admission): Row
    requires r.state.Prepared?
  {
    r.(state := Starting, owner := a.caller, deadline := a.now + r.maxRuntime as real,
       updated := a.now, command := None)
  }

  function ExpiredRow(r: Row, now: Time): Row {
    r.(state := Expired, command := None, updated := now)
  }

  /** The transaction of `start`; `directoryOk` is the answer of `_revalidate_workdir`. */
  function Admit(lim: Limits, t: Table, a: Admission): (Table, AdmitReply) {
    if a.job !in t || t[a.job].credential != a.secret then
      (t, BadCredential)
    else
      var r := t[a.job];
      if !r.state.Prepared? then
        (t, Existing(r))
      else if r.expires <= a.now then
        (t[a.job := ExpiredRow(r, a.now)], ExpiredNow(ExpiredRow(r, a.now)))
      else if a.draining then
        (t, Draining)
      else if |Active(t)| >= lim.maxActive then
        (t, ActiveFull)
      else if |ActiveOf(t, a.caller)| >= lim.maxPerSession then
        (t, CallerFull)
      else if !a.directoryOk then
        (t, WorkdirChanged)
      else if exists j :: j in Active(t) && Overlap(r.workdir, t[j].workdir) then
        (t, WorkspaceBusy)
      else if r.command.None? then
        (t, PayloadMissing)
      else
        (t[a.job := Admittable(r, a)], Admitted(r.command.value, r.workdir))
  }

  /** The columns that one `_update` call sets besides `state` and `updated`. */
  datatype Patch = Patch(
    state: JobState, native: Option<ProcId>, exit: Option<Option<int>>,
    output: Option<string>, clearPrepared: bool)

  function Only(state: JobState): Patch {
    Patch(state, None, None, None, false)
  }

  function Patched(r: Row, p: Patch, now: Time): Row {
    r.(state := p.state, updated := now,
       native := if p.native.Some? then p.native else r.native,
       exit := if p.exit.Some? then p.exit.value else r.exit,
       output := if p.output.Some? then p.output.value else r.output,
       command := if p.clearPrepared then None else r.command)
  }

  /** `_update`: a guarded single-row write; the flag says whether a row changed. */
  function Update(t: Table, job: JobId, p: Patch, expected: set<JobState>, now: Time): (Table, bool) {
    if job in t && t[job].state in expected then
      (t[job := Patched(t[job], p, now)], true)
    else
      (t, false)
  }

  /** `_request_timeout`. */
  function RequestTimeout(t: Table, job: JobId, now: Time): (Table, bool) {
    if job in t && IsActive(t[job].state) then
      (t[job := t[job].(timeoutRequested := true, updated := now)], true)
    else
      (t, false)
  }

  // ---------------------------------------------------------- table invariant

  ghost predicate KeysUnique(t: Table) {
    forall i, j :: i in t && j in t && t[i].key.Some? && t[i].key == t[j].key ==> i == j
  }

  ghost predicate WorkspacesDisjoint(t: Table) {
    forall i, j :: i in t && j in t && i != j && IsActive(t[i].state) && IsActive(t[j].state)
      ==> !Overlap(t[i].workdir, t[j].workdir)
  }

  ghost predicate PayloadOnlyWhilePrepared(t: Table) {
    forall j :: j in t ==> (t[j].command.Some? <==> t[j].state.Prepared?)
  }

  ghost predicate WithinLimits(lim: Limits, t: Table) {
    && |Active(t)| <= lim.maxActive
    && (forall o :: |ActiveOf(t, o)| <= lim.maxPerSession)
    && |PreparedRows(t)| <= lim.maxPrepared
    && (forall o :: |PreparedOf(t, o)| <= lim.maxPreparedPerOwner)
  }

  /** Holds in every committed state of the database. */
  ghost predicate Consistent(lim: Limits, t: Table) {
    && WithinLimits(lim, t)
    && KeysUnique(t)
    && WorkspacesDisjoint(t)
    && PayloadOnlyWhilePrepared(t)
  }

  // ------------------------------------------------------------ preservation

  /** `after` only loses rows and active or prepared standing. */
  ghost predicate Shrinks(before: Table, after: Table) {
    forall j :: j in after ==>
      && j in before
      && after[j].key == before[j].key
      && after[j].workdir == before[j].workdir
      && after[j].owner == before[j].owner
      && (IsActive(after[j].state) ==> IsActive(before[j].state))
      && (after[j].state.Prepared? ==> before[j].state.Prepared?)
      && (after[j].command.Some? <==> after[j].state.Prepared?)
  }

  lemma ShrinkingKeepsConsistent(lim: Limits, t: Table, u: Table)
    requires Consistent(lim, t) && Shrinks(t, u)
    ensures Consistent(lim, u)
  {
    SubsetCardinality(Active(u), Active(t));
    SubsetCardinality(PreparedRows(u), PreparedRows(t));
    forall o ensures |ActiveOf(u, o)| <= lim.maxPerSession {
      SubsetCardinality(ActiveOf(u, o), ActiveOf(t, o));
    }
    forall o ensures |PreparedOf(u, o)| <= lim.maxPreparedPerOwner {
      SubsetCardinality(PreparedOf(u, o), PreparedOf(t, o));
    }
  }

  lemma SweepKeepsConsistent(lim: Limits, t: Table, now: Time)
    requires Consistent(lim, t)
    ensures Consistent(lim, Sweep(t, now)) && Consistent(lim, Retire(t, now))
  {
    ShrinkingKeepsConsistent(lim, t, Sweep(t, now));
    ShrinkingKeepsConsistent(lim, t, Retire(t, now));
  }

  lemma InsertKeepsLimits(lim: Limits, t: Table, j: JobId, r: Row)
    requires WithinLimits(lim, t) && j !in t && r.state.Prepared?
    requires |PreparedRows(t)| < lim.maxPrepared
    requires |PreparedOf(t, r.owner)| < lim.maxPreparedPerOwner
    ensures WithinLimits(lim, t[j := r])
  {
    var u := t[j := r];
    SubsetCardinality(Active(u), Active(t));
    OneMoreCardinality(PreparedRows(u), PreparedRows(t), j);
    forall o ensures |ActiveOf(u, o)| <= lim.maxPerSession {
      SubsetCardinality(ActiveOf(u, o), ActiveOf(t, o));
    }
    forall o ensures |PreparedOf(u, o)| <= lim.maxPreparedPerOwner {
      if o == r.owner {
        OneMoreCardinality(PreparedOf(u, o), PreparedOf(t, o), j);
      } else {
        SubsetCardinality(PreparedOf(u, o), PreparedOf(t, o));
      }
    }
  }

  /** Adding a prepared row under a key that no row holds. */
  lemma InsertKeepsConsistent(lim: Limits, t: Table, j: JobId, r: Row)
    requires Consistent(lim, t) && j !in t && r.state.Prepared? && r.command.Some?
    requires r.key.Some? ==> Holders(t, r.key.value) == {}
    requires |PreparedRows(t)| < lim.maxPrepared
    requires |PreparedOf(t, r.owner)| < lim.maxPreparedPerOwner
    ensures Consistent(lim, t[j := r])
  {
    InsertKeepsLimits(lim, t, j, r);
    forall i | i in t && t[i].key.Some? ensures t[i].key != r.key {
      assert i in Holders(t, t[i].key.value);
    }
  }

  lemma PrepareKeepsConsistent(lim: Limits, t: Table, p: Preparation)
    requires Consistent(lim, t) && p.job !in t
    ensures Consistent(lim, Prepare(lim, t, p).0)
  {
    SweepKeepsConsistent(lim, t, p.now);
    if Prepare(lim, t, p).1.Issued? {
      InsertKeepsConsistent(lim, Sweep(t, p.now), p.job, FreshRow(lim, p));
    }
  }

  /** The counts after a prepared row of any owner becomes an active row of `r.owner`. */
  lemma ActivationKeepsLimits(lim: Limits, t: Table, j: JobId, r: Row)
    requires WithinLimits(lim, t) && j in t && t[j].state.Prepared? && IsActive(r.state)
    requires |Active(t)| < lim.maxActive && |ActiveOf(t, r.owner)| < lim.maxPerSession
    ensures WithinLimits(lim, t[j := r])
  {
    var u := t[j := r];
    OneMoreCardinality(Active(u), Active(t), j);
    SubsetCardinality(PreparedRows(u), PreparedRows(t));
    forall o ensures |ActiveOf(u, o)| <= lim.maxPerSession {
      if o == r.owner {
        OneMoreCardinality(ActiveOf(u, o), ActiveOf(t, o), j);
      } else {
        SubsetCardinality(ActiveOf(u, o), ActiveOf(t, o));
      }
    }
    forall o ensures |PreparedOf(u, o)| <= lim.maxPreparedPerOwner {
      SubsetCardinality(PreparedOf(u, o), PreparedOf(t, o));
    }
  }

  lemma ActivationKeepsConsistent(lim: Limits, t: Table, j: JobId, r: Row)
    requires Consistent(lim, t) && j in t && t[j].state.Prepared?
    requires IsActive(r.state) && r.command.None? && r.key == t[j].key && r.workdir == t[j].workdir
    requires |Active(t)| < lim.maxActive && |ActiveOf(t, r.owner)| < lim.maxPerSession
    requires forall i :: i in t && IsActive(t[i].state) ==> !Overlap(r.workdir, t[i].workdir)
    ensures Consistent(lim, t[j := r])
  {
    ActivationKeepsLimits(lim, t, j, r);
    assert KeysUnique(t[j := r]);
    assert WorkspacesDisjoint(t[j := r]);
  }

  lemma AdmitKeepsConsistent(lim: Limits, t: Table, a: Admission)
    requires Consistent(lim, t)
    ensures Consistent(lim, Admit(lim, t, a).0)
  {
    var reply := Admit(lim, t, a).1;
    if reply.ExpiredNow? {
      ShrinkingKeepsConsistent(lim, t, Admit(lim, t, a).0);
    } else if reply.Admitted? {
      forall i | i in t && IsActive(t[i].state) ensures !Overlap(t[a.job].workdir, t[i].workdir) {
        assert i in Active(t);
      }
      ActivationKeepsConsistent(lim, t, a.job, Admittable(t[a.job], a));
    }
  }

  /** The guarded writes the protocol makes: between active states, out of an active
      state, or out of `prepared` with the payload cleared. */
  predicate GuardedWrite(p: Patch, expected: set<JobState>) {
    && !p.state.Prepared?
    && (expected <= ACTIVE || (expected == {Prepared} && IsFinal(p.state) && p.clearPrepared))
  }

  lemma UpdateKeepsConsistent(lim: Limits, t: Table, job: JobId, p: Patch, expected: set<JobState>, now: Time)
    requires Consistent(lim, t) && GuardedWrite(p, expected)
    ensures Consistent(lim, Update(t, job, p, expected, now).0)
  {
    if job in t && t[job].state in expected {
      assert IsActive(t[job].state) || (t[job].state.Prepared? && IsFinal(p.state) && p.clearPrepared);
      var u := t[job := Patched(t[job], p, now)];
      assert Shrinks(t, u);
      ShrinkingKeepsConsistent(lim, t, u);
    }
  }

  lemma RequestTimeoutKeepsConsistent(lim: Limits, t: Table, job: JobId, now: Time)
    requires Consistent(lim, t)
    ensures Consistent(lim, RequestTimeout(t, job, now).0)
  {
    ShrinkingKeepsConsistent(lim, t, RequestTimeout(t, job, now).0);
  }

  // -------------------------------------------------------------- admissions

  /** What an admission was entitled to: it is granted exactly when the credential fits a
      prepared row that has not expired, the gate is open, both quotas have room, the
      directory still resolves, no active job shares a subtree and the payload is there. */
  lemma AdmittedExactly(lim: Limits, t: Table, a: Admission)
    requires Consistent(lim, t)
    ensures Admit(lim, t, a).1.Admitted? <==>
      && a.job in t && t[a.job].credential == a.secret
      && t[a.job].state.Prepared? && a.now < t[a.job].expires
      && !a.draining && a.directoryOk
      && |Active(t)| < lim.maxActive && |ActiveOf(t, a.caller)| < lim.maxPerSession
      && (forall j, d :: j in t && IsActive(t[j].state)
            ==> !(Inside(d, t[a.job].workdir) && Inside(d, t[j].workdir)))
  {
    if a.job in t {
      forall j | j in t ensures Overlap(t[a.job].workdir, t[j].workdir) <==>
        exists d :: Inside(d, t[a.job].workdir) && Inside(d, t[j].workdir)
      {
        OverlapMeansSharedSubtree(t[a.job].workdir, t[j].workdir);
      }
      forall j ensures j in Active(t) <==> j in t && IsActive(t[j].state) {}
    }
  }

  /** While a row is kept under a key, the same request replays that job and any other
      request is refused; neither changes another row, and no second row appears. */
  lemma RepeatedKey(lim: Limits, t: Table, p: Preparation, holder: JobId)
    requires KeysUnique(t) && holder in t && p.key.Some? && t[holder].key == p.key
    requires !(t[holder].state.Prepared? && t[holder].expires <= p.now)
    ensures Prepare(lim, t, p).1 ==
      if t[holder].request == p.request then Replayed(holder, t[holder].state) else KeyConflict
    ensures Prepare(lim, t, p).0.Keys <= t.Keys
    ensures holder in Prepare(lim, t, p).0 && Prepare(lim, t, p).0[holder] == t[holder]
  {
    var swept := Sweep(t, p.now);
    assert holder in Holders(swept, p.key.value);
    assert forall j :: j in Holders(swept, p.key.value) ==> j == holder;
  }

  // ------------------------------------------------------------ preparations

  /** The row outlives the deletion of expired preparations at `now`. */
  predicate Outlives(t: Table, j: JobId, now: Time) {
    j in t && (t[j].state.Prepared? ==> now < t[j].expires)
  }

  /** `p` finds room: its key is not held, and neither prepared quota is full. */
  ghost predicate FindsRoom(lim: Limits, t: Table, p: Preparation) {
    && (p.key.Some? ==> forall j :: Outlives(t, j, p.now) ==> t[j].key != p.key)
    && |set j | j in t && Outlives(t, j, p.now) && t[j].state.Prepared?| < lim.maxPrepared
    && |set j | j in t && Outlives(t, j, p.now) && t[j].state.Prepared? && t[j].owner == p.owner|
       < lim.maxPreparedPerOwner
  }

  lemma SweptCounts(t: Table, now: Time, owner: Hash)
    ensures PreparedRows(Sweep(t, now)) == set j | j in t && Outlives(t, j, now) && t[j].state.Prepared?
    ensures PreparedOf(Sweep(t, now), owner)
            == set j | j in t && Outlives(t, j, now) && t[j].state.Prepared? && t[j].owner == owner
  {
  }

  /** A preparation is issued if and only if it finds room. Then the expired preparations go,
      every other row stays, and the new row holds the request, its key and credential, the
      caller, and an expiry one preparation lifetime ahead, and nothing of a run. */
  lemma PreparedExactly(lim: Limits, t: Table, p: Preparation)
    requires p.job !in t
    ensures var (u, reply) := Prepare(lim, t, p);
      && (reply.Issued? <==> FindsRoom(lim, t, p))
      && (reply.Issued? ==>
            && reply.job == p.job
            && (forall j :: j in u <==> j == p.job || Outlives(t, j, p.now))
            && (forall j :: Outlives(t, j, p.now) ==> u[j] == t[j])
            && u[p.job] == Row(p.secret, p.request, p.key, None, Prepared, p.now,
                               p.now + p.request.duration as real, p.now, None, "",
                               p.owner, p.request.workdir, Some(p.request.command), p.request.duration,
                               p.now + lim.preparedTtl as real, false))
      && (reply.Replayed? ==> forall j :: (j in u <==> Outlives(t, j, p.now)) && (j in u ==> u[j] == t[j]))
      && (!reply.Issued? && !reply.Replayed? ==> u == t)
  {
    SweptCounts(t, p.now, p.owner);
    var swept := Sweep(t, p.now);
    assert forall j :: j in swept <==> Outlives(t, j, p.now);
    if p.key.Some? {
      assert Holders(swept, p.key.value) == {} <==> forall j :: Outlives(t, j, p.now) ==> t[j].key != p.key by {
        forall j | Outlives(t, j, p.now) ensures t[j].key == p.key <==> j in Holders(swept, p.key.value) {}
      }
    }
  }
}
