/** Runs of one graph session: requests, an owner that may be cut at any point, waiters that
    leave, close and abort. */
module QueueRuns {
  import opened OperationQueue

  /** Who holds the lifecycle lock across a wait. */
  datatype Lock = Free | Starter(op: OpId) | Closer(closer: OpId) | AwaitsTask | Aborter

  /** The session with its history: the operations queued on a live owner, in order; those
      queued on an owner that had already ended; those thrown away with their queue; and
      every count-down. */
  datatype QueueSys = QueueSys(
    s: Session,
    lock: Lock,
    accepted: seq<OpId>,
    orphans: seq<OpId>,
    lost: seq<OpId>,
    log: seq<Finish>)

  datatype QueueEvent =
    | Request(op: OpId)
    | StarterResumes
    | StarterLeaves
    | OwnerReady
    | OwnerServes
    | UpstreamAnswers(ok: bool)
    | OwnerInterrupted
    | OwnerEnds
    | WaiterLeaves(op: OpId)
    | BeginClose(closer: OpId)
    | CloseAnswered
    | CloserLeaves
    | TaskAwaited(clean: bool)
    | BeginAbort
    | AbortReturns(inTime: bool)

  const FIRST := QueueSys(IDLE, Free, [], [], [], [])

  predicate QueueEnabled(y: QueueSys, e: QueueEvent) {
    match e
    case Request(op) => y.lock == Free && op !in y.s.responses
    case StarterResumes => y.lock.Starter? && y.s.ready != NotReady
    case StarterLeaves => y.lock.Starter?
    case OwnerReady => y.s.owner == Starting
    case OwnerServes => y.s.owner == Waiting
    case UpstreamAnswers(_) => y.s.owner.InHand?
    case OwnerInterrupted => Live(y.s)
    case OwnerEnds => y.s.owner == Unwinding
    case WaiterLeaves(op) => op in y.s.responses && y.s.responses[op] == Pending
    case BeginClose(c) => y.lock == Free && c !in y.s.closers
    case CloseAnswered => y.lock.Closer? && y.lock.closer in y.s.closers && y.s.closers[y.lock.closer] in {Value, Raised}
    case CloserLeaves => y.lock.Closer? || y.lock == AwaitsTask
    case TaskAwaited(_) => y.lock == AwaitsTask && y.s.owner == Ended
    case BeginAbort => y.lock == Free
    case AbortReturns(inTime) => y.lock == Aborter && (inTime ==> y.s.owner == Ended)
  }

  /** The session moved and counted these operations down. */
  function Moved(y: QueueSys, r: (Session, seq<Finish>)): QueueSys {
    y.(s := r.0, log := y.log + r.1)
  }

  /** The operation is put on the current queue, whether or not its owner still lives. */
  function Accept(y: QueueSys, op: OpId): QueueSys {
    if Live(y.s) then y.(s := Enqueue(y.s, op), accepted := y.accepted + [op])
    else y.(s := Enqueue(y.s, op), orphans := y.orphans + [op])
  }

  /** The queue is replaced or dropped with whatever it still holds. */
  function Discard(y: QueueSys, s: Session): QueueSys {
    y.(s := s, lost := y.lost + Ops(y.s.queue))
  }

  function QueueStep(y: QueueSys, e: QueueEvent): QueueSys
    requires QueueEnabled(y, e)
  {
    match e
    case Request(op) =>
      if y.s.closed then y
      else if Live(y.s) then Accept(y, op)
      else Discard(y, Restart(y.s)).(lock := Starter(op))
    case StarterResumes =>
      if y.s.ready == ReadyOk then Accept(y, y.lock.op).(lock := Free) else y.(lock := Free)
    case StarterLeaves => y.(lock := Free)
    case OwnerReady => y.(s := y.s.(owner := Waiting, ready := ReadyOk))
    case OwnerServes => Moved(y, Serve(y.s))
    case UpstreamAnswers(ok) => Moved(y, Answered(y.s, ok))
    case OwnerInterrupted => Moved(y, Interrupted(y.s))
    case OwnerEnds => Moved(y, Finale(y.s))
    case WaiterLeaves(op) => y.(s := y.s.(responses := y.s.responses[op := Cancelled]))
    case BeginClose(c) =>
      var s := y.s.(closed := true);
      if s.owner == NoTask then y.(s := s)
      else if Live(s) then
        y.(s := s.(queue := s.queue + [Close(c)], closers := s.closers[c := Pending]), lock := Closer(c))
      else y.(s := s, lock := AwaitsTask)
    case CloseAnswered => y.(lock := if y.s.closers[y.lock.closer] == Value then AwaitsTask else Free)
    case CloserLeaves =>
      y.(lock := Free,
         s := if y.lock.Closer? then y.s.(closers := Settle(y.s.closers, y.lock.closer, Cancelled)) else y.s)
    case TaskAwaited(clean) => (if clean then Discard(y, Forget(y.s)) else y).(lock := Free)
    case BeginAbort =>
      var s := y.s.(closed := true);
      y.(s := s, lock := if s.owner == NoTask then Free else Aborter)
    case AbortReturns(inTime) => (if inTime then Discard(y, Forget(y.s)) else y).(lock := Free)
  }

  // --------------------------------------------------------------- invariant

  function Ids(log: seq<Finish>): (ids: seq<OpId>)
    ensures |ids| == |log|
    ensures forall i :: 0 <= i < |log| ==> ids[i] == log[i].op
  {
    seq(|log|, i requires 0 <= i < |log| => log[i].op)
  }

  predicate Distinct(ids: seq<OpId>) {
    forall i, j :: 0 <= i < j < |ids| ==> ids[i] != ids[j]
  }

  predicate Known(ids: seq<OpId>, responses: map<OpId, Response>) {
    forall i :: 0 <= i < |ids| ==> ids[i] in responses
  }

  /** Operations leave the queue in the order they entered it, each counted down once; what
      entered after the owner's end never leaves. */
  predicate InOrder(y: QueueSys) {
    if Live(y.s) then
      Ids(y.log) + Outstanding(y.s) == y.accepted && y.orphans == y.lost
    else
      Ids(y.log) == y.accepted && y.orphans == y.lost + Ops(y.s.queue)
  }

  predicate Counted(y: QueueSys) {
    y.s.pending == |Outstanding(y.s)| + |y.lost|
  }

  predicate Fresh(y: QueueSys) {
    && Distinct(y.accepted + y.orphans)
    && Known(y.accepted, y.s.responses) && Known(y.orphans, y.s.responses)
    && (y.lock.Starter? ==> y.lock.op !in y.s.responses && y.s.owner != NoTask)
  }

  /** Nothing has resolved the response; its waiter may have left. */
  predicate Unresolved(responses: map<OpId, Response>, op: OpId) {
    op in responses ==> responses[op] == Pending || responses[op] == Cancelled
  }

  predicate AllUnresolved(responses: map<OpId, Response>, ops: seq<OpId>) {
    forall i :: 0 <= i < |ops| ==> Unresolved(responses, ops[i])
  }

  /** The response of a counted-down operation: never resolved if the owner was cut while it
      was in hand, otherwise no longer waited for. */
  predicate AnsweredAs(responses: map<OpId, Response>, f: Finish) {
    f.op in responses ==>
      if f.cause == OwnerCut then Unresolved(responses, f.op) else responses[f.op] != Pending
  }

  /** Outstanding operations and orphans are never resolved, counted-down ones as their
      cause says. */
  predicate Answers(y: QueueSys) {
    && (forall i :: 0 <= i < |y.log| ==> AnsweredAs(y.s.responses, y.log[i]))
    && AllUnresolved(y.s.responses, Outstanding(y.s)) && AllUnresolved(y.s.responses, y.orphans)
  }

  predicate QueueInv(y: QueueSys) {
    InOrder(y) && Counted(y) && Fresh(y) && Answers(y)
  }

  // ------------------------------------------------------------ preservation

  lemma {:induction false} OpsConcat(a: seq<Entry>, b: seq<Entry>)
    ensures Ops(a + b) == Ops(a) + Ops(b)
  {
    if a == [] {
      assert a + b == b;
    } else {
      assert (a + b)[1..] == a[1..] + b;
      OpsConcat(a[1..], b);
      assert Ops(a + b) == OpOf(a[0]) + (Ops(a[1..]) + Ops(b));
    }
  }

  /** The first outstanding operation `op` is counted down: what the invariant needs of it. */
  lemma CountDown(y: QueueSys, s: Session, op: OpId, cause: Cause)
    requires QueueInv(y) && Live(y.s) && Live(s)
    requires Outstanding(y.s) == [op] + Outstanding(s) && s.pending == y.s.pending - 1
    requires Settles(y.s.responses, s.responses, op, cause)
    ensures QueueInv(Moved(y, (s, [Finish(op, cause)])))
  {
    var z := Moved(y, (s, [Finish(op, cause)]));
    assert Ids(z.log) == Ids(y.log) + [op];
    assert y.accepted == Ids(y.log) + [op] + Outstanding(s);
    Apart(Ids(y.log), op, Outstanding(s), y.orphans);
    SettledAnswers(y, z, op, cause);
  }

  /** At most the response of `op` changes: not at all if the owner was cut. */
  predicate Settles(before: map<OpId, Response>, after: map<OpId, Response>, op: OpId, cause: Cause) {
    && before.Keys == after.Keys
    && (forall o :: o in before && o != op ==> after[o] == before[o])
    && (op in before ==> if cause == OwnerCut then after[op] == before[op] else after[op] != Pending)
  }

  lemma Apart(before: seq<OpId>, op: OpId, after: seq<OpId>, orphans: seq<OpId>)
    requires Distinct(before + [op] + after + orphans)
    ensures op !in before && op !in after && op !in orphans
  {
    var all := before + [op] + after + orphans;
    var k := |before|;
    assert all[k] == op;
    forall i | 0 <= i < |before| ensures before[i] != op {
      assert all[i] == before[i];
    }
    forall i | 0 <= i < |after| ensures after[i] != op {
      assert all[k + 1 + i] == after[i];
    }
    forall i | 0 <= i < |orphans| ensures orphans[i] != op {
      assert all[k + 1 + |after| + i] == orphans[i];
    }
  }

  lemma SettledAnswers(y: QueueSys, z: QueueSys, op: OpId, cause: Cause)
    requires Answers(y) && Outstanding(y.s) == [op] + Outstanding(z.s)
    requires op !in Ids(y.log) && op !in Outstanding(z.s) && op !in y.orphans
    requires z.log == y.log + [Finish(op, cause)] && z.orphans == y.orphans
    requires Settles(y.s.responses, z.s.responses, op, cause)
    ensures Answers(z)
  {
    assert Outstanding(y.s)[0] == op;
    forall i | 0 <= i < |y.log| ensures AnsweredAs(z.s.responses, y.log[i]) {
      assert Ids(y.log)[i] == y.log[i].op;
    }
    forall i | 0 <= i < |Outstanding(z.s)| ensures Unresolved(z.s.responses, Outstanding(z.s)[i]) {
      assert Outstanding(y.s)[i + 1] == Outstanding(z.s)[i];
    }
  }

  /** A step that counts nothing down and keeps the outstanding operations. */
  lemma Unchanged(y: QueueSys, s: Session)
    requires QueueInv(y) && Live(y.s) && Live(s)
    requires Outstanding(s) == Outstanding(y.s) && s.pending == y.s.pending && s.responses == y.s.responses
    ensures QueueInv(Moved(y, (s, [])))
  {
    assert y.log + [] == y.log;
  }

  lemma TakeOneKeepsInv(y: QueueSys)
    requires QueueInv(y) && y.s.owner == Waiting && y.s.queue != []
    ensures QueueInv(Moved(y, TakeOne(y.s)))
  {
    var s := TakeOne(y.s).0;
    match y.s.queue[0]
    case Close(_) =>
      assert Outstanding(s) == Outstanding(y.s);
      Unchanged(y, s);
    case Operation(op) =>
      if op in y.s.responses && y.s.responses[op] == Cancelled {
        SkippedHead(y.s, op);
        CountDown(y, s, op, WaiterGone);
      } else {
        assert Outstanding(s) == Outstanding(y.s);
        Unchanged(y, s);
      }
  }

  lemma SkippedHead(s: Session, op: OpId)
    requires s.owner == Waiting && s.queue != [] && s.queue[0] == Operation(op)
    requires op in s.responses && s.responses[op] == Cancelled
    ensures Outstanding(s) == [op] + Outstanding(TakeOne(s).0)
    ensures Settles(s.responses, TakeOne(s).0.responses, op, WaiterGone)
  {
  }

  lemma MovedTwice(y: QueueSys, a: (Session, seq<Finish>), b: (Session, seq<Finish>))
    ensures Moved(Moved(y, a), b) == Moved(y, (b.0, a.1 + b.1))
  {
    assert y.log + a.1 + b.1 == y.log + (a.1 + b.1);
  }

  lemma {:induction false} ServeKeepsInv(y: QueueSys)
    requires QueueInv(y)
    ensures QueueInv(Moved(y, Serve(y.s)))
    decreases |y.s.queue|
  {
    if y.s.owner != Waiting || y.s.queue == [] {
      assert Moved(y, (y.s, [])) == y;
    } else {
      TakeOneKeepsInv(y);
      ServeKeepsInv(Moved(y, TakeOne(y.s)));
      MovedTwice(y, TakeOne(y.s), Serve(TakeOne(y.s).0));
    }
  }

  lemma DrainOneKeepsInv(y: QueueSys)
    requires QueueInv(y) && y.s.owner == Unwinding && y.s.queue != []
    ensures QueueInv(Moved(y, DrainOne(y.s)))
  {
    var s := DrainOne(y.s).0;
    match y.s.queue[0]
    case Close(_) =>
      assert Outstanding(s) == Outstanding(y.s);
      Unchanged(y, s);
    case Operation(op) =>
      DrainedHead(y.s, op);
      CountDown(y, s, op, Drained);
  }

  lemma DrainedHead(s: Session, op: OpId)
    requires s.owner == Unwinding && s.queue != [] && s.queue[0] == Operation(op)
    ensures Outstanding(s) == [op] + Outstanding(DrainOne(s).0)
    ensures Settles(s.responses, DrainOne(s).0.responses, op, Drained)
  {
  }

  lemma {:induction false} DrainKeepsInv(y: QueueSys)
    requires QueueInv(y) && y.s.owner == Unwinding
    ensures QueueInv(Moved(y, Drain(y.s)))
    ensures Drain(y.s).0.queue == [] && Drain(y.s).0.owner == Unwinding
    decreases |y.s.queue|
  {
    if y.s.queue == [] {
      assert Moved(y, (y.s, [])) == y;
    } else {
      DrainOneKeepsInv(y);
      DrainKeepsInv(Moved(y, DrainOne(y.s)));
      MovedTwice(y, DrainOne(y.s), Drain(DrainOne(y.s).0));
    }
  }

  lemma EndKeepsInv(y: QueueSys)
    requires QueueInv(y) && y.s.owner == Unwinding
    ensures QueueInv(Moved(y, Finale(y.s)))
  {
    DrainKeepsInv(y);
    EmptyEnds(Moved(y, Drain(y.s)), if y.s.ready == NotReady then ReadyFailed else y.s.ready);
  }

  lemma EmptyEnds(y: QueueSys, ready: Ready)
    requires QueueInv(y) && y.s.owner == Unwinding && y.s.queue == []
    ensures QueueInv(y.(s := y.s.(owner := Ended, ready := ready)))
  {
    assert Outstanding(y.s) == [];
  }

  lemma AnsweredKeepsInv(y: QueueSys, ok: bool)
    requires QueueInv(y) && y.s.owner.InHand?
    ensures QueueInv(Moved(y, Answered(y.s, ok)))
  {
    var s := Answered(y.s, ok).0;
    assert Outstanding(y.s) == [y.s.owner.op] + Outstanding(s);
    CountDown(y, s, y.s.owner.op, if ok then Succeeded else UpstreamFailed);
  }

  lemma InterruptedKeepsInv(y: QueueSys)
    requires QueueInv(y) && Live(y.s)
    ensures QueueInv(Moved(y, Interrupted(y.s)))
  {
    var s := Interrupted(y.s).0;
    if y.s.owner.InHand? {
      assert Outstanding(y.s) == [y.s.owner.op] + Outstanding(s);
      CountDown(y, s, y.s.owner.op, OwnerCut);
    } else {
      assert Outstanding(s) == Outstanding(y.s);
      Unchanged(y, s);
    }
  }

  lemma DistinctInsert(a: seq<OpId>, b: seq<OpId>, op: OpId)
    requires Distinct(a + b) && op !in a && op !in b
    ensures Distinct(a + [op] + b) && Distinct(a + (b + [op]))
  {
    assert forall i :: 0 <= i < |a| ==> (a + b)[i] == a[i];
    assert forall i :: 0 <= i < |b| ==> (a + b)[|a| + i] == b[i];
  }

  lemma EnqueueOutstanding(s: Session, op: OpId)
    ensures Ops(Enqueue(s, op).queue) == Ops(s.queue) + [op]
    ensures Outstanding(Enqueue(s, op)) == Outstanding(s) + [op]
  {
    OpsConcat(s.queue, [Operation(op)]);
    assert Ops([Operation(op)]) == [op];
  }

  lemma AcceptInOrder(y: QueueSys, op: OpId)
    requires InOrder(y) && Counted(y)
    ensures InOrder(Accept(y, op)) && Counted(Accept(y, op))
  {
    EnqueueOutstanding(y.s, op);
  }

  lemma AcceptFresh(y: QueueSys, op: OpId)
    requires Fresh(y) && op !in y.s.responses
    ensures Fresh(Accept(y, op).(lock := Free))
  {
    assert op !in y.accepted && op !in y.orphans;
    DistinctInsert(y.accepted, y.orphans, op);
  }

  lemma AcceptKeepsInv(y: QueueSys, op: OpId)
    requires QueueInv(y) && op !in y.s.responses && y.s.owner != NoTask
    ensures QueueInv(Accept(y, op).(lock := Free))
  {
    AcceptInOrder(y, op);
    AcceptFresh(y, op);
    EnqueueOutstanding(y.s, op);
    AcceptAnswers(y, Accept(y, op), op);
  }

  lemma AcceptAnswers(y: QueueSys, z: QueueSys, op: OpId)
    requires Answers(y) && op !in y.s.responses && z.s.responses == y.s.responses[op := Pending]
    requires Ids(y.log) <= y.accepted && Known(y.accepted, y.s.responses)
    requires Outstanding(z.s) == Outstanding(y.s) + [op]
    requires z.log == y.log && (z.orphans == y.orphans || z.orphans == y.orphans + [op])
    ensures Answers(z)
  {
    forall i | 0 <= i < |y.log| ensures y.log[i].op in y.s.responses {
      assert Ids(y.log)[i] == y.log[i].op;
    }
  }

  lemma DiscardKeepsInv(y: QueueSys, s: Session)
    requires QueueInv(y) && !Live(y.s)
    requires s.queue == [] && !s.owner.InHand? && s.responses == y.s.responses && s.pending == y.s.pending
    ensures QueueInv(Discard(y, s).(lock := Free))
  {
  }

  lemma WaiterLeavesKeepsInv(y: QueueSys, op: OpId)
    requires QueueInv(y) && op in y.s.responses
    ensures QueueInv(y.(s := y.s.(responses := y.s.responses[op := Cancelled])))
  {
  }

  lemma CloseKeepsInv(y: QueueSys, c: OpId)
    requires QueueInv(y) && !y.lock.Starter?
    ensures QueueInv(y.(s := y.s.(closed := true, queue := y.s.queue + [Close(c)], closers := y.s.closers[c := Pending]),
                        lock := Closer(c)))
  {
    OpsConcat(y.s.queue, [Close(c)]);
    assert Ops([Close(c)]) == [];
    assert Ops(y.s.queue) + [] == Ops(y.s.queue);
  }

  lemma QueueStepKeepsInv(y: QueueSys, e: QueueEvent)
    requires QueueInv(y) && QueueEnabled(y, e)
    ensures QueueInv(QueueStep(y, e))
  {
    match e
    case Request(op) =>
      if !y.s.closed {
        if Live(y.s) {
          AcceptKeepsInv(y, op);
        } else {
          DiscardKeepsInv(y, Restart(y.s));
        }
      }
    case StarterResumes =>
      if y.s.ready == ReadyOk {
        AcceptKeepsInv(y, y.lock.op);
      }
    case OwnerServes => ServeKeepsInv(y);
    case UpstreamAnswers(ok) => AnsweredKeepsInv(y, ok);
    case OwnerInterrupted => InterruptedKeepsInv(y);
    case OwnerEnds => EndKeepsInv(y);
    case WaiterLeaves(op) => WaiterLeavesKeepsInv(y, op);
    case BeginClose(c) =>
      if Live(y.s) {
        CloseKeepsInv(y, c);
      }
    case TaskAwaited(_) => DiscardKeepsInv(y, Forget(y.s));
    case AbortReturns(inTime) =>
      if inTime {
        DiscardKeepsInv(y, Forget(y.s));
      }
    case _ =>
  }

  // -------------------------------------------------------------------- runs

  ghost predicate QueueRun(ys: seq<QueueSys>, es: seq<QueueEvent>) {
    && |ys| == |es| + 1 && ys[0] == FIRST
    && forall i :: 0 <= i < |es| ==> QueueEnabled(ys[i], es[i]) && ys[i + 1] == QueueStep(ys[i], es[i])
  }

  lemma {:induction false} QueueRunInv(ys: seq<QueueSys>, es: seq<QueueEvent>, i: nat)
    requires QueueRun(ys, es) && i < |ys|
    ensures QueueInv(ys[i])
    decreases i
  {
    if i > 0 {
      QueueRunInv(ys, es, i - 1);
      QueueStepKeepsInv(ys[i - 1], es[i - 1]);
    }
  }

  function InHandCount(s: Session): nat {
    if s.owner.InHand? then 1 else 0
  }

  /** The counter: queued operations, the one in hand, and those lost with a dead owner's
      queue; so it is never negative, and it is exact as long as nothing was lost. */
  lemma PendingIsExact(ys: seq<QueueSys>, es: seq<QueueEvent>, i: nat)
    requires QueueRun(ys, es) && i < |ys|
    ensures ys[i].s.pending == |Ops(ys[i].s.queue)| + InHandCount(ys[i].s) + |ys[i].lost| >= 0
    ensures ys[i].s.pending == |Ops(ys[i].s.queue)| + InHandCount(ys[i].s) <==> ys[i].lost == []
  {
    QueueRunInv(ys, es, i);
  }

  /** Operations queued on a live owner are counted down in the order they were queued, each
      exactly once, all of them by the time the owner has ended; and all of those still to
      come are queued or in hand while it lives. */
  lemma FinishedOnceInOrder(ys: seq<QueueSys>, es: seq<QueueEvent>, i: nat)
    requires QueueRun(ys, es) && i < |ys|
    ensures Distinct(ys[i].accepted) && Ids(ys[i].log) <= ys[i].accepted
    ensures Live(ys[i].s) ==> ys[i].accepted == Ids(ys[i].log) + Outstanding(ys[i].s)
    ensures !Live(ys[i].s) ==> Ids(ys[i].log) == ys[i].accepted
  {
    QueueRunInv(ys, es, i);
    var y := ys[i];
    assert forall k :: 0 <= k < |y.accepted| ==> (y.accepted + y.orphans)[k] == y.accepted[k];
  }

  lemma {:induction false} LogStays(ys: seq<QueueSys>, es: seq<QueueEvent>, i: nat, k: nat)
    requires QueueRun(ys, es) && i <= k < |ys|
    ensures ys[i].log <= ys[k].log
    decreases k
  {
    if i < k {
      LogStays(ys, es, i, k - 1);
      assert ys[k] == QueueStep(ys[k - 1], es[k - 1]);
      LogGrows(ys[k - 1], es[k - 1]);
    }
  }

  lemma LogGrows(y: QueueSys, e: QueueEvent)
    requires QueueEnabled(y, e)
    ensures y.log <= QueueStep(y, e).log
  {
  }

  /** From the count-down on: an operation that was in hand when its owner was cut is never
      answered, however the run goes on; every other one was answered, or its waiter left.
      So as long as its waiter stays, it waits in vain if and only if the owner was cut. */
  lemma FinishedIsAnswered(ys: seq<QueueSys>, es: seq<QueueEvent>, i: nat, k: nat, n: nat)
    requires QueueRun(ys, es) && i <= k < |ys| && n < |ys[i].log|
    ensures n < |ys[k].log| && ys[k].log[n] == ys[i].log[n]
    ensures var f, responses := ys[i].log[n], ys[k].s.responses;
      && f.op in responses
      && (f.cause == OwnerCut ==> responses[f.op] == Pending || responses[f.op] == Cancelled)
      && (f.cause != OwnerCut ==> responses[f.op] != Pending)
      && (responses[f.op] != Cancelled ==> (responses[f.op] == Pending <==> f.cause == OwnerCut))
  {
    LogStays(ys, es, i, k);
    QueueRunInv(ys, es, k);
    FinishedOnceInOrder(ys, es, k);
    var y := ys[k];
    assert y.log[n] == ys[i].log[n];
    assert Ids(y.log)[n] == y.log[n].op && y.accepted[n] == y.log[n].op;
    assert AnsweredAs(y.s.responses, y.log[n]);
  }

  // ------------------------------------------------------------- cut in hand

  /** The owner is cut while it waits for the answer to `op`. */
  predicate CutInHand(y: QueueSys, e: QueueEvent, op: OpId) {
    e == OwnerInterrupted && y.s.owner == InHand(op)
  }

  predicate NoCut(fs: seq<Finish>) {
    forall i :: 0 <= i < |fs| ==> fs[i].cause != OwnerCut
  }

  lemma {:induction false} ServeNeverCuts(s: Session)
    ensures NoCut(Serve(s).1)
    decreases |s.queue|
  {
    if s.owner == Waiting && s.queue != [] {
      ServeNeverCuts(TakeOne(s).0);
    }
  }

  lemma {:induction false} DrainNeverCuts(s: Session)
    ensures NoCut(Drain(s).1)
    decreases |s.queue|
  {
    if s.queue != [] {
      DrainNeverCuts(DrainOne(s).0);
    }
  }

  lemma StepCuts(y: QueueSys, e: QueueEvent, op: OpId)
    requires QueueEnabled(y, e)
    ensures Finish(op, OwnerCut) in QueueStep(y, e).log <==> Finish(op, OwnerCut) in y.log || CutInHand(y, e, op)
  {
    match e
    case OwnerServes => ServeNeverCuts(y.s);
    case OwnerEnds => DrainNeverCuts(y.s);
    case _ =>
  }

  ghost predicate CutBefore(ys: seq<QueueSys>, es: seq<QueueEvent>, i: nat, op: OpId)
    requires i < |ys| == |es| + 1
  {
    exists m :: 0 <= m < i && CutInHand(ys[m], es[m], op)
  }

  /** The cause is what it says: an operation is counted down as cut if and only if its owner
      was interrupted while the operation was in hand. */
  lemma {:induction false} CutMeansInHand(ys: seq<QueueSys>, es: seq<QueueEvent>, i: nat, op: OpId)
    requires QueueRun(ys, es) && i < |ys|
    ensures Finish(op, OwnerCut) in ys[i].log <==> CutBefore(ys, es, i, op)
    decreases i
  {
    if i > 0 {
      CutMeansInHand(ys, es, i - 1, op);
      assert ys[i] == QueueStep(ys[i - 1], es[i - 1]);
      StepCuts(ys[i - 1], es[i - 1], op);
      CutOneMore(ys, es, i, op);
    }
  }

  lemma CutOneMore(ys: seq<QueueSys>, es: seq<QueueEvent>, i: nat, op: OpId)
    requires 0 < i < |ys| == |es| + 1
    ensures CutBefore(ys, es, i, op) <==> CutBefore(ys, es, i - 1, op) || CutInHand(ys[i - 1], es[i - 1], op)
  {
  }

  /** The start of a new owner is awaited without looking again whether it still lives: the
      only way for an operation to be queued on an owner that has ended. */
  predicate OrphanStep(y: QueueSys, e: QueueEvent) {
    e == StarterResumes && y.s.ready == ReadyOk && !Live(y.s)
  }

  lemma {:induction false} OrphansComeFromLateStarters(ys: seq<QueueSys>, es: seq<QueueEvent>, i: nat)
    requires QueueRun(ys, es) && i < |ys|
    ensures ys[i].orphans == [] <==> forall k :: 0 <= k < i ==> !OrphanStep(ys[k], es[k])
    decreases i
  {
    if i > 0 {
      OrphansComeFromLateStarters(ys, es, i - 1);
      OrphansGrow(ys[i - 1], es[i - 1]);
    }
  }

  lemma OrphansGrow(y: QueueSys, e: QueueEvent)
    requires QueueEnabled(y, e)
    ensures y.orphans <= QueueStep(y, e).orphans
    ensures QueueStep(y, e).orphans != y.orphans <==> OrphanStep(y, e)
  {
  }

  lemma {:induction false} OrphansStay(ys: seq<QueueSys>, es: seq<QueueEvent>, i: nat, k: nat)
    requires QueueRun(ys, es) && i <= k < |ys|
    ensures ys[i].orphans <= ys[k].orphans
    decreases k
  {
    if i < k {
      OrphansStay(ys, es, i, k - 1);
      OrphansGrow(ys[k - 1], es[k - 1]);
    }
  }

  /** An orphan is never counted down and never answered, however the run goes on. */
  lemma OrphansNeverFinish(ys: seq<QueueSys>, es: seq<QueueEvent>, i: nat, k: nat, op: OpId)
    requires QueueRun(ys, es) && i <= k < |ys| && op in ys[i].orphans
    ensures op !in Ids(ys[k].log) && op in ys[k].s.responses && ys[k].s.responses[op] in {Pending, Cancelled}
    ensures ys[k].s.pending > 0
  {
    OrphansStay(ys, es, i, k);
    QueueRunInv(ys, es, k);
    FinishedOnceInOrder(ys, es, k);
    var y := ys[k];
    var j :| 0 <= j < |y.orphans| && y.orphans[j] == op;
    assert (y.accepted + y.orphans)[|y.accepted| + j] == op;
    forall n | 0 <= n < |y.log| ensures Ids(y.log)[n] != op {
      assert Ids(y.log)[n] == (y.accepted + y.orphans)[n];
    }
  }

  /** If no request resumed on an ended owner, the counter is exact throughout, and the
      session counts as idle exactly when nothing is queued or in hand. */
  lemma ExactWithoutLateStarters(ys: seq<QueueSys>, es: seq<QueueEvent>, i: nat)
    requires QueueRun(ys, es) && i < |ys|
    requires forall k :: 0 <= k < i ==> !OrphanStep(ys[k], es[k])
    ensures ys[i].s.pending == |Ops(ys[i].s.queue)| + InHandCount(ys[i].s)
    ensures !Live(ys[i].s) ==> ys[i].s.pending == 0 && Ops(ys[i].s.queue) == []
  {
    OrphansComeFromLateStarters(ys, es, i);
    QueueRunInv(ys, es, i);
  }

  // ----------------------------------------------------------- the counter

  /** The counter says what is there. */
  predicate CounterExact(s: Session) {
    s.pending == |Ops(s.queue)| + InHandCount(s)
  }

  /** The event replaces the queue of an owner that has ended, or drops it. */
  predicate DropsQueue(y: QueueSys, e: QueueEvent) {
    match e
    case Request(_) => !y.s.closed && !Live(y.s)
    case TaskAwaited(clean) => clean
    case AbortReturns(inTime) => inTime
    case _ => false
  }

  ghost predicate LateStarterThenDrop(ys: seq<QueueSys>, es: seq<QueueEvent>, i: nat)
    requires i < |ys| == |es| + 1
  {
    exists m, d :: 0 <= m < d < i && OrphanStep(ys[m], es[m]) && DropsQueue(ys[d], es[d])
  }

  lemma LostGrows(y: QueueSys, e: QueueEvent)
    requires QueueEnabled(y, e) && QueueInv(y)
    ensures QueueStep(y, e).lost == if DropsQueue(y, e) then y.orphans else y.lost
    ensures y.orphans == [] ==> y.lost == []
    ensures y.lost != [] ==> QueueStep(y, e).lost != []
  {
  }

  lemma DropOneMore(ys: seq<QueueSys>, es: seq<QueueEvent>, i: nat)
    requires QueueRun(ys, es) && 0 < i < |ys|
    ensures LateStarterThenDrop(ys, es, i) <==>
      LateStarterThenDrop(ys, es, i - 1) || (DropsQueue(ys[i - 1], es[i - 1]) && ys[i - 1].orphans != [])
  {
    OrphansComeFromLateStarters(ys, es, i - 1);
    if DropsQueue(ys[i - 1], es[i - 1]) && ys[i - 1].orphans != [] {
      var m :| 0 <= m < i - 1 && OrphanStep(ys[m], es[m]);
      assert OrphanStep(ys[m], es[m]) && DropsQueue(ys[i - 1], es[i - 1]);
    }
  }

  /** The counter is wrong, namely too high, if and only if some request resumed on an ended
      owner and that owner's queue was dropped afterwards; and then it stays so. */
  lemma CounterDriftsExactly(ys: seq<QueueSys>, es: seq<QueueEvent>, i: nat)
    requires QueueRun(ys, es) && i < |ys|
    ensures CounterExact(ys[i].s) <==> !LateStarterThenDrop(ys, es, i)
  {
    PendingIsExact(ys, es, i);
    LostExactly(ys, es, i);
  }

  lemma LostStep(ys: seq<QueueSys>, es: seq<QueueEvent>, i: nat)
    requires QueueRun(ys, es) && i < |es|
    ensures ys[i + 1].lost != [] <==> ys[i].lost != [] || (DropsQueue(ys[i], es[i]) && ys[i].orphans != [])
  {
    QueueRunInv(ys, es, i);
    assert ys[i + 1] == QueueStep(ys[i], es[i]);
    LostGrows(ys[i], es[i]);
  }

  lemma {:induction false} LostExactly(ys: seq<QueueSys>, es: seq<QueueEvent>, i: nat)
    requires QueueRun(ys, es) && i < |ys|
    ensures ys[i].lost != [] <==> LateStarterThenDrop(ys, es, i)
    decreases i
  {
    if i > 0 {
      LostExactly(ys, es, i - 1);
      DropOneMore(ys, es, i);
      LostStep(ys, es, i - 1);
    }
  }
}
