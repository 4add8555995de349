/** The resumable-job protocol as a state machine.

    Every SQL transaction is one atomic step. A native call is a request step, after
    which the operation waits, and a reply step; the waiter may time out, see an error
    or be cancelled while the native side goes on. Any number of adapters and of
    operations interleave. Between two awaits an operation keeps its adapter's event
    loop, so other operations of the same adapter do not run there. */
module JobProtocol {
  import opened Common
  import opened JobTable
  import opened AdmissionGate

  type OpId = nat
  type AdapterId = nat

  // ------------------------------------------------------------- native side

  datatype RawStatus =
    | StillRunning | StillStarting
    | Exited | Completed | Killed | CancelledByHost
    | OtherStatus

  /** A reply to `poll`; an empty `output` stands for a missing one, and `exit` is None
      unless the reply holds an integer. */
  datatype PollReply = PollReply(
    status: RawStatus, exit: Option<int>, killReason: bool, killSource: bool, output: string)

  predicate Terminal(r: PollReply) {
    r.status.Exited? || r.status.Completed? || r.status.Killed? || r.status.CancelledByHost?
  }

  predicate KillMarked(r: PollReply) {
    r.status.Killed? || r.status.CancelledByHost? || r.killReason || r.killSource
  }

  /** The state that `_poll` derives from a reply and the stored timeout flag. */
  function Verdict(r: PollReply, timeoutRequested: bool): JobState {
    if r.status.StillRunning? || r.status.StillStarting? then Running
    else if Terminal(r) then
      if KillMarked(r) then (if timeoutRequested then TimedOut else Cancelled)
      else if r.exit.Some? then (if r.exit.value == 0 then Succeeded else Failed)
      else Unknown
    else Unknown
  }

  /** One `terminal` request handed to the native side. */
  datatype Launch = Launch(job: JobId, command: string, workdir: Path, caller: Hash)

  /** A native process: the dispatch that created it, and whether it still runs. */
  datatype Proc = Proc(dispatch: nat, alive: bool)

  // -------------------------------------------------------------- operations

  datatype Call =
    | Start(secret: Hash, caller: Hash)
    | Status(secret: Hash)
    | Cancel(secret: Hash)
    | Maintain(now: Time)

  datatype Locals = Locals(
    native: Option<ProcId>, state: JobState, exit: Option<int>, output: string,
    lastOutput: string, updated: Time, deadline: Time, killed: bool)

  datatype Report = Report(state: JobState, exit: Option<int>, output: string)

  /** Where an operation stands. `AwaitX` is an await on the native side. */
  datatype Pc =
    | Begin
    | Revalidate(launch: Launch)
    | FailWrite
    | Dispatch(launch: Launch)
    | AwaitAck
    | AckWrite(handle: ProcId)
    | AckError
    | AckCancelled
    | ReadBack
    | ExpireWrite
    | ExpireRead
    | CancelWrite
    | CancelRead
    | AwaitList
    | AdoptLoop(found: seq<ProcId>)
    | AfterAdopt(adopted: Option<ProcId>)
    | AwaitPoll
    | PollFlag(reply: PollReply)
    | PollWrite(reply: PollReply, verdict: JobState)
    | PollRead(reply: PollReply, verdict: JobState)
    | AwaitKill
    | TimeoutWrite
    | StaleWrite
    | ErrorWrite
    | ErrorRead
    | Returned(report: Report)
    | Raised
    | Finished

  datatype Op = Op(adapter: AdapterId, job: JobId, call: Call, v: Locals, pc: Pc)

  const NOTHING_READ := Locals(None, Unknown, None, "", "", 0.0, 0.0, false)

  predicate AtAwait(pc: Pc) {
    pc.Begin? || pc.AwaitAck? || pc.AwaitList? || pc.AwaitPoll? || pc.AwaitKill?
      || pc.Returned? || pc.Raised? || pc.Finished?
  }

  /** What an operation is resumed with. `Fails` is an error reply or the timeout of the
      waiter; `Interrupted` is a cancellation delivered at an await. */
  datatype Resume =
    | Proceed(directoryOk: bool)
    | Acked(handle: ProcId)
    | Listed(handles: seq<ProcId>)
    | Polled(reply: PollReply)
    | KillSent
    | Fails
    | Interrupted

  // ----------------------------------------------------------- local control

  function ReadRow(r: Row): Locals {
    Locals(r.native, r.state, r.exit, r.output, r.output, r.updated, r.deadline, false)
  }

  function ReportOf(v: Locals): Report {
    Report(v.state, v.exit, Tail(v.output, MAX_OUTPUT))
  }

  function ReportRow(r: Row): Report {
    ReportOf(ReadRow(r))
  }

  function UnknownReport(v: Locals): Report {
    Report(Unknown, v.exit, Tail(v.output, MAX_OUTPUT))
  }

  /** `status` once a state is at hand: adopt, poll or answer. */
  function StatusFrom(op: Op): Op {
    if (op.v.state.Starting? || op.v.state.Unknown?) && op.v.native.None? then
      op.(pc := AwaitList)
    else
      StatusPoll(op)
  }

  function StatusPoll(op: Op): Op {
    if (op.v.state.Running? || op.v.state.Unknown?) && op.v.native.Some? then
      op.(pc := AwaitPoll)
    else
      op.(pc := Returned(ReportOf(op.v)))
  }

  /** `cancel` once a state other than `prepared` is at hand. */
  function CancelFrom(op: Op): Op {
    if IsFinal(op.v.state) then
      op.(pc := Returned(ReportOf(op.v)))
    else if (op.v.state.Starting? || op.v.state.Unknown?) && op.v.native.None? then
      op.(pc := AwaitList)
    else
      CancelKill(op)
  }

  function CancelKill(op: Op): Op {
    if IsFinal(op.v.state) then
      op.(pc := Returned(ReportOf(op.v)))
    else if op.v.native.None? then
      op.(pc := ErrorWrite)
    else
      op.(pc := AwaitKill)
  }

  function MaintainFrom(op: Op, now: Time): Op {
    if op.v.native.None? then
      if op.v.state.Starting? && now - op.v.updated < 60.0 then
        op.(pc := Finished)
      else
        op.(pc := AwaitList)
    else
      op.(pc := AwaitPoll)
  }

  /** What a caller of `_poll` does with its result. */
  function PollDone(op: Op, r: Report): Op {
    match op.call
    case Start(_, _) => op.(pc := Raised)
    case Status(_) => op.(pc := Returned(r.(output := Tail(r.output, MAX_OUTPUT))))
    case Cancel(_) => op.(pc := Returned(r.(output := Tail(r.output, MAX_OUTPUT))))
    case Maintain(now) =>
      if op.v.killed || !r.state.Running? || op.v.deadline >= now then
        op.(pc := Finished)
      else
        op.(pc := TimeoutWrite)
  }

  /** After `_adopt`: `status` and `cancel` read the row again, `maintain` does not. */
  function Adopted(op: Op, t: Table, adopted: Option<ProcId>): Op {
    var seen :=
      if op.job in t then
        op.(v := ReadRow(t[op.job]).(
              native := if t[op.job].native.Some? then t[op.job].native else adopted,
              lastOutput := if op.call.Status? then t[op.job].output else op.v.lastOutput))
      else
        op.(v := op.v.(native := adopted));
    match op.call
    case Start(_, _) => op.(pc := Raised)
    case Status(_) => StatusPoll(seen)
    case Cancel(_) => CancelKill(seen)
    case Maintain(now) =>
      if adopted.Some? then
        op.(v := op.v.(native := adopted), pc := AwaitPoll)
      else if op.v.state.Starting? && now - op.v.updated >= 60.0 then
        op.(pc := StaleWrite)
      else
        op.(pc := Finished)
  }

  function PollOutput(op: Op, reply: PollReply): string {
    if reply.output != "" then Tail(reply.output, MAX_OUTPUT) else op.v.lastOutput
  }

  // --------------------------------------------------- one step of one operation

  datatype Outcome = Outcome(rows: Table, op: Op, launch: Option<Launch>)

  function Local(t: Table, op: Op): Outcome {
    Outcome(t, op, None)
  }

  function Authorized(t: Table, job: JobId, secret: Hash): bool {
    job in t && t[job].credential == secret
  }

  function AfterAdmit(op: Op, caller: Hash, reply: AdmitReply): Op {
    match reply
    case Existing(r) => op.(pc := Returned(ReportRow(r)))
    case ExpiredNow(r) => op.(pc := Returned(ReportRow(r)))
    case Admitted(command, workdir) =>
      op.(pc := Revalidate(Launch(op.job, command, workdir, caller)))
    case _ => op.(pc := Raised)
  }

  function BeginStatus(t: Table, op: Op, secret: Hash, now: Time): Op {
    if !Authorized(t, op.job, secret) then op.(pc := Raised)
    else
      var r := t[op.job];
      var seen := op.(v := ReadRow(r));
      if !r.state.Prepared? then StatusFrom(seen)
      else if r.expires <= now then seen.(pc := ExpireWrite)
      else seen.(pc := Returned(ReportRow(r)))
  }

  function BeginCancel(t: Table, op: Op, secret: Hash): Op {
    if !Authorized(t, op.job, secret) then op.(pc := Raised)
    else
      var seen := op.(v := ReadRow(t[op.job]));
      if t[op.job].state.Prepared? then seen.(pc := CancelWrite) else CancelFrom(seen)
  }

  function BeginStep(lim: Limits, gate: Gate, t: Table, op: Op, now: Time, directoryOk: bool): Outcome {
    match op.call
    case Start(secret, caller) =>
      var (u, reply) := Admit(lim, t,
        Admission(op.job, secret, caller, now, GatewayPaused(gate.draining), directoryOk));
      Local(u, AfterAdmit(op, caller, reply))
    case Status(secret) => Local(t, BeginStatus(t, op, secret, now))
    case Cancel(secret) => Local(t, BeginCancel(t, op, secret))
    case Maintain(sweep) =>
      if op.job !in t || !IsActive(t[op.job].state) then Local(t, op.(pc := Finished))
      else Local(t, MaintainFrom(op.(v := ReadRow(t[op.job])), sweep))
  }

  /** The guarded write that an operation performs at its program counter. */
  function Write(t: Table, op: Op, now: Time): (Table, bool) {
    match op.pc
    case FailWrite => Update(t, op.job, Only(Failed).(clearPrepared := true), {Starting}, now)
    case AckWrite(handle) =>
      Update(t, op.job, Only(Running).(native := Some(handle)), {Starting}, now)
    case AckError => Update(t, op.job, Only(Unknown), {Starting}, now)
    case AckCancelled => Update(t, op.job, Only(Unknown), {Starting}, now)
    case ExpireWrite => Update(t, op.job, Only(Expired).(clearPrepared := true), {Prepared}, now)
    case CancelWrite => Update(t, op.job, Only(Cancelled).(clearPrepared := true), {Prepared}, now)
    case AdoptLoop(found) =>
      if found == [] then (t, false)
      else Update(t, op.job, Only(Running).(native := Some(found[0])), ACTIVE, now)
    case PollWrite(reply, verdict) =>
      Update(t, op.job,
             Patch(verdict, None, Some(reply.exit), Some(PollOutput(op, reply)), false), ACTIVE, now)
    case TimeoutWrite => RequestTimeout(t, op.job, now)
    case StaleWrite => Update(t, op.job, Only(Unknown), {Starting}, now)
    case ErrorWrite => Update(t, op.job, Only(Unknown), ACTIVE, now)
    case _ => (t, false)
  }

  /** Where the operation goes after its write; `changed` is the row count. */
  function AfterWrite(op: Op, changed: bool): Op {
    match op.pc
    case FailWrite => op.(pc := Raised)
    case AckWrite(_) => op.(pc := ReadBack)
    case AckError => op.(pc := ReadBack)
    case AckCancelled => op.(pc := Raised)
    case ExpireWrite =>
      if changed then StatusFrom(op.(v := op.v.(state := Expired))) else op.(pc := ExpireRead)
    case CancelWrite =>
      if changed then op.(pc := Returned(ReportOf(op.v.(state := Cancelled))))
      else op.(pc := CancelRead)
    case AdoptLoop(found) =>
      if found == [] then op.(pc := AfterAdopt(None))
      else if changed then op.(pc := AfterAdopt(Some(found[0])))
      else op.(pc := AdoptLoop(found[1..]))
    case PollWrite(reply, verdict) =>
      if changed then PollDone(op, Report(verdict, reply.exit, PollOutput(op, reply)))
      else op.(pc := PollRead(reply, verdict))
    case TimeoutWrite =>
      if changed then op.(v := op.v.(killed := true), pc := AwaitKill) else op.(pc := Finished)
    case StaleWrite => op.(pc := Finished)
    case ErrorWrite =>
      if op.call.Maintain? then op.(pc := Finished)
      else if changed then op.(pc := Returned(UnknownReport(op.v)))
      else op.(pc := ErrorRead)
    case _ => op
  }

  predicate Writes(pc: Pc) {
    pc.FailWrite? || pc.AckWrite? || pc.AckError? || pc.AckCancelled? || pc.ExpireWrite?
      || pc.CancelWrite? || pc.AdoptLoop? || pc.PollWrite? || pc.TimeoutWrite?
      || pc.StaleWrite? || pc.ErrorWrite?
  }

  /** A step that reads the row of the job once. */
  function ReadStep(t: Table, op: Op): Op {
    match op.pc
    case ReadBack =>
      op.(pc := Returned(if op.job in t then ReportRow(t[op.job]) else UnknownReport(op.v)))
    case ExpireRead =>
      StatusFrom(if op.job in t then op.(v := ReadRow(t[op.job]))
                 else op.(v := op.v.(state := Unknown)))
    case CancelRead =>
      if op.job in t then CancelFrom(op.(v := ReadRow(t[op.job]).(lastOutput := op.v.lastOutput)))
      else op.(pc := Returned(UnknownReport(op.v)))
    case AfterAdopt(adopted) => Adopted(op, t, adopted)
    case PollFlag(reply) =>
      op.(pc := PollWrite(reply, Verdict(reply, op.job in t && t[op.job].timeoutRequested)))
    case PollRead(reply, verdict) =>
      if op.job in t && IsFinal(t[op.job].state) then
        PollDone(op, Report(t[op.job].state, t[op.job].exit, t[op.job].output))
      else
        PollDone(op, Report(verdict, reply.exit, PollOutput(op, reply)))
    case ErrorRead =>
      if op.job in t && (op.call.Cancel? || IsFinal(t[op.job].state)) then
        op.(pc := Returned(ReportRow(t[op.job])))
      else
        op.(pc := Returned(UnknownReport(op.v)))
    case _ => op
  }

  /** A step that takes a reply of the native side. */
  function ReplyStep(op: Op, reply: Resume): Op {
    match op.pc
    case AwaitAck => op.(pc := if reply.Acked? then AckWrite(reply.handle) else AckError)
    case AwaitList =>
      op.(pc := if reply.Listed? then AdoptLoop(reply.handles) else AfterAdopt(None))
    case AwaitPoll =>
      if reply.Polled? then
        op.(pc := if Terminal(reply.reply) && KillMarked(reply.reply) then PollFlag(reply.reply)
                  else PollWrite(reply.reply, Verdict(reply.reply, false)))
      else op.(pc := ErrorWrite)
    case AwaitKill => op.(pc := if reply.KillSent? then AwaitPoll else ErrorWrite)
    case _ => op
  }

  function Run(lim: Limits, gate: Gate, t: Table, op: Op, now: Time, reply: Resume): Outcome {
    if reply.Interrupted? then
      Local(t, op.(pc := if op.pc.AwaitAck? then AckCancelled else Raised))
    else if op.pc.Begin? then
      BeginStep(lim, gate, t, op, now, reply.Proceed? && reply.directoryOk)
    else if op.pc.Revalidate? then
      Local(t, op.(pc := if reply.Proceed? && reply.directoryOk then Dispatch(op.pc.launch) else FailWrite))
    else if op.pc.Dispatch? then
      Outcome(t, op.(pc := AwaitAck), Some(op.pc.launch))
    else if Writes(op.pc) then
      Local(Write(t, op, now).0, AfterWrite(op, Write(t, op, now).1))
    else if AtAwait(op.pc) then
      Local(t, ReplyStep(op, reply))
    else
      Local(t, ReadStep(t, op))
  }

  // ------------------------------------------------------------ whole system

  datatype Frozen = Frozen(request: Request, key: Option<Hash>)

  /** A deleted row and the clock reading of its deletion. */
  datatype Retired = Retired(row: Row, now: Time)

  /** `rows` and `gate` are the database. The rest is the native side (`pending`, `procs`),
      the operations in flight, and history: the payload each preparation froze, the
      dispatches in order, the reply that ended each polled job, and the deleted rows. */
  datatype Sys = Sys(
    rows: Table, gate: Gate, ops: map<OpId, Op>,
    pending: set<nat>, procs: map<ProcId, Proc>,
    frozen: map<JobId, Frozen>, log: seq<Launch>, launched: map<JobId, nat>,
    evidence: map<JobId, PollReply>, retired: map<JobId, Retired>)

  const EMPTY := Sys(map[], OPEN, map[], {}, map[], map[], [], map[], map[], map[])

  datatype Event =
    | PrepareEvent(adapter: AdapterId, preparation: Preparation)
    | CallEvent(id: OpId, adapter: AdapterId, job: JobId, call: Call)
    | StepEvent(id: OpId, now: Time, reply: Resume)
    | SweepEvent(adapter: AdapterId, now: Time)
    | CrashEvent(adapter: AdapterId)
    | SpawnEvent(dispatch: nat, handle: ProcId)
    | LoseEvent(dispatch: nat)
    | ExitEvent(handle: ProcId)
    | GateEvent(enabled: bool, operator: Hash)

  /** `p` is a process that a dispatch of job `j` created. */
  predicate Owned(s: Sys, j: JobId, p: ProcId) {
    p in s.procs && s.procs[p].dispatch < |s.log| && s.log[s.procs[p].dispatch].job == j
  }

  predicate OwnedDead(s: Sys, j: JobId, p: ProcId) {
    Owned(s, j, p) && !s.procs[p].alive
  }

  /** No other operation of the adapter stands between two awaits. */
  predicate LoopFree(s: Sys, adapter: AdapterId, id: Option<OpId>) {
    forall other :: other in s.ops && Some(other) != id && s.ops[other].adapter == adapter
      ==> AtAwait(s.ops[other].pc)
  }

  /** The environment contract on replies: a handle or a listing names processes of the
      asking owner, and a terminal status is told only of a process that has ended. */
  predicate Fits(s: Sys, op: Op, reply: Resume) {
    if op.pc.Returned? || op.pc.Raised? || op.pc.Finished? then false
    else if op.pc.Begin? then reply.Proceed? || reply.Interrupted?
    else if !AtAwait(op.pc) then reply.Proceed?
    else if reply.Fails? || reply.Interrupted? then true
    else
      match op.pc
      case AwaitAck => reply.Acked? && Owned(s, op.job, reply.handle)
      case AwaitList =>
        reply.Listed? && forall i :: 0 <= i < |reply.handles| ==> Owned(s, op.job, reply.handles[i])
      case AwaitPoll =>
        reply.Polled? && (Terminal(reply.reply) ==>
          op.v.native.Some? && op.v.native.value in s.procs && !s.procs[op.v.native.value].alive)
      case AwaitKill => reply.KillSent?
      case _ => false
  }

  ghost predicate Enabled(s: Sys, e: Event) {
    match e
    case PrepareEvent(adapter, p) => LoopFree(s, adapter, None) && p.job !in s.frozen
    case CallEvent(id, _, _, _) => id !in s.ops
    case StepEvent(id, _, reply) =>
      id in s.ops && LoopFree(s, s.ops[id].adapter, Some(id)) && Fits(s, s.ops[id], reply)
    case SweepEvent(adapter, _) => LoopFree(s, adapter, None)
    case CrashEvent(_) => true
    case SpawnEvent(dispatch, handle) => dispatch in s.pending && handle !in s.procs
    case LoseEvent(dispatch) => dispatch in s.pending
    case ExitEvent(handle) => handle in s.procs
    case GateEvent(_, _) => true
  }

  function RetiredBy(s: Sys, after: Table, now: Time): map<JobId, Retired> {
    s.retired + map j | j in s.rows && j !in after :: Retired(s.rows[j], now)
  }

  ghost function PrepareNext(lim: Limits, s: Sys, p: Preparation): Sys {
    var (rows, reply) := Prepare(lim, s.rows, p);
    s.(rows := rows,
       frozen := if reply.Issued? then s.frozen[p.job := Frozen(p.request, p.key)] else s.frozen,
       retired := RetiredBy(s, rows, p.now))
  }

  /** The reply that a final verdict was written from. */
  function EvidenceNext(s: Sys, op: Op): map<JobId, PollReply> {
    if op.pc.PollWrite? && IsFinal(op.pc.verdict)
      && op.job in s.rows && IsActive(s.rows[op.job].state) then
      s.evidence[op.job := op.pc.reply]
    else
      s.evidence
  }

  function StepNext(lim: Limits, s: Sys, id: OpId, now: Time, reply: Resume): Sys
    requires id in s.ops
  {
    var op := s.ops[id];
    var o := Run(lim, s.gate, s.rows, op, now, reply);
    var n := s.(rows := o.rows, ops := s.ops[id := o.op]);
    if o.launch.Some? then
      n.(log := s.log + [o.launch.value],
         launched := s.launched[o.launch.value.job := |s.log|],
         pending := s.pending + {|s.log|})
    else
      n.(evidence := EvidenceNext(s, op))
  }

  ghost function Next(lim: Limits, s: Sys, e: Event): Sys
    requires Enabled(s, e)
  {
    match e
    case PrepareEvent(_, p) => PrepareNext(lim, s, p)
    case CallEvent(id, adapter, job, call) =>
      s.(ops := s.ops[id := Op(adapter, job, call, NOTHING_READ, Begin)])
    case StepEvent(id, now, reply) => StepNext(lim, s, id, now, reply)
    case SweepEvent(_, now) =>
      s.(rows := Retire(s.rows, now), retired := RetiredBy(s, Retire(s.rows, now), now))
    case CrashEvent(adapter) =>
      s.(ops := map id | id in s.ops && s.ops[id].adapter != adapter :: s.ops[id])
    case SpawnEvent(dispatch, handle) =>
      s.(pending := s.pending - {dispatch}, procs := s.procs[handle := Proc(dispatch, true)])
    case LoseEvent(dispatch) => s.(pending := s.pending - {dispatch})
    case ExitEvent(handle) => s.(procs := s.procs[handle := s.procs[handle].(alive := false)])
    case GateEvent(enabled, operator) => s.(gate := SetDraining(s.gate, enabled, operator).0)
  }

  /** A run from the empty database: `ss[i]` is the state before event `es[i]`. */
  ghost predicate IsRun(lim: Limits, ss: seq<Sys>, es: seq<Event>) {
    && |ss| == |es| + 1
    && ss[0] == EMPTY
    && forall i :: 0 <= i < |es| ==> Follows(lim, ss[i], es[i], ss[i + 1])
  }

  ghost predicate Follows(lim: Limits, s: Sys, e: Event, n: Sys) {
    Enabled(s, e) && n == Next(lim, s, e)
  }
}
