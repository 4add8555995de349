/** Which answer a waiter gets: what each future of a graph session was resolved with, and by
    which event of the run. */
module QueueAnswers {
  import opened OperationQueue
  import opened QueueRuns

  predicate Waits(futures: map<OpId, Response>, f: OpId) {
    f in futures && futures[f] == Pending
  }

  // ------------------------------------------------------------ the two loops

  /** An entry that the server loop skips: its waiter has left. */
  predicate Abandoned(s: Session, e: Entry) {
    e.Operation? && e.op in s.responses && s.responses[e.op] == Cancelled
  }

  /** The server loop skips the entries in front of position `k` and stops there. */
  predicate ServedUpTo(s: Session, k: nat) {
    && s.owner == Waiting && k <= |s.queue|
    && (forall i :: 0 <= i < k ==> Abandoned(s, s.queue[i]))
    && (k < |s.queue| ==> !Abandoned(s, s.queue[k]))
  }

  /** The loop counts down the leading abandoned operations and takes the first entry that
      is none: an operation is then in hand, unanswered; a close is answered and ends the
      loop. Everything behind it stays queued. */
  lemma {:induction false} ServeTakesFirst(s: Session, k: nat)
    requires ServedUpTo(s, k)
    ensures var t := Serve(s).0;
      && t.responses == s.responses && t.ready == s.ready && t.closed == s.closed
      && t.pending == s.pending - k
      && t.queue == (if k < |s.queue| then s.queue[k + 1..] else [])
      && (k == |s.queue| ==> t.owner == Waiting && t.closers == s.closers)
      && (k < |s.queue| && s.queue[k].Operation? ==> t.owner == InHand(s.queue[k].op) && t.closers == s.closers)
      && (k < |s.queue| && s.queue[k].Close? ==>
            t.owner == Unwinding && t.closers == Resolved(s.closers, s.queue[k].closer, Value))
    ensures Serve(s).1 == seq(k, i requires 0 <= i < k => Finish(s.queue[i].op, WaiterGone))
    decreases k
  {
    if k > 0 {
      var t := TakeOne(s).0;
      assert s.queue[1..] == t.queue && Abandoned(s, s.queue[0]);
      forall i | 0 <= i < k - 1 ensures Abandoned(t, t.queue[i]) {
        assert Abandoned(s, s.queue[i + 1]);
      }
      ServeTakesFirst(t, k - 1);
    }
  }

  /** The future `f` with its answer, unless it already had one. */
  function Resolved(futures: map<OpId, Response>, f: OpId, r: Response): map<OpId, Response> {
    map g | g in futures :: if g == f && futures[g] == Pending then r else futures[g]
  }

  /** Where the server loop stops. */
  lemma {:induction false} ServeStops(s: Session) returns (k: nat)
    requires s.owner == Waiting
    ensures ServedUpTo(s, k)
  {
    k := 0;
    while k < |s.queue| && Abandoned(s, s.queue[k])
      invariant k <= |s.queue|
      invariant forall i :: 0 <= i < k ==> Abandoned(s, s.queue[i])
    {
      k := k + 1;
    }
  }

  /** Of these futures exactly those that are waited for and whose entry is queued have
      failed. */
  predicate QueuedFail(before: map<OpId, Response>, after: map<OpId, Response>, queued: set<OpId>) {
    && after.Keys == before.Keys
    && forall f :: f in before ==> after[f] == if Waits(before, f) && f in queued then Raised else before[f]
  }

  function QueuedOps(queue: seq<Entry>): set<OpId> {
    set e | e in queue && e.Operation? :: e.op
  }

  function QueuedClosers(queue: seq<Entry>): set<OpId> {
    set e | e in queue && e.Close? :: e.closer
  }

  /** The loop of the `finally` fails everything that is still waited for in the queue, and
      nothing else. */
  lemma {:induction false} DrainFailsAll(s: Session)
    ensures QueuedFail(s.responses, Drain(s).0.responses, QueuedOps(s.queue))
    ensures QueuedFail(s.closers, Drain(s).0.closers, QueuedClosers(s.queue))
    decreases |s.queue|
  {
    if s.queue != [] {
      var t := DrainOne(s).0;
      DrainFailsAll(t);
      HeadFails(s);
      FailBoth(s.responses, t.responses, Drain(t).0.responses, QueuedOps(s.queue[..1]), QueuedOps(t.queue));
      FailBoth(s.closers, t.closers, Drain(t).0.closers, QueuedClosers(s.queue[..1]), QueuedClosers(t.queue));
    }
  }

  lemma HeadFails(s: Session)
    requires s.queue != []
    ensures QueuedFail(s.responses, DrainOne(s).0.responses, QueuedOps(s.queue[..1]))
    ensures QueuedFail(s.closers, DrainOne(s).0.closers, QueuedClosers(s.queue[..1]))
    ensures QueuedOps(s.queue) == QueuedOps(s.queue[..1]) + QueuedOps(s.queue[1..])
    ensures QueuedClosers(s.queue) == QueuedClosers(s.queue[..1]) + QueuedClosers(s.queue[1..])
  {
    assert forall e :: e in s.queue <==> e in s.queue[..1] || e in s.queue[1..];
    assert s.queue[..1] == [s.queue[0]];
  }

  lemma FailBoth(before: map<OpId, Response>, mid: map<OpId, Response>, after: map<OpId, Response>,
                 first: set<OpId>, rest: set<OpId>)
    requires QueuedFail(before, mid, first) && QueuedFail(mid, after, rest)
    ensures QueuedFail(before, after, first + rest)
  {
  }

  // ---------------------------------------------------------------- operations

  /** The event answers the waiter of `op` with the server's result. */
  predicate GivesValue(y: QueueSys, e: QueueEvent, op: OpId) {
    Waits(y.s.responses, op) && e == UpstreamAnswers(true) && y.s.owner == InHand(op)
  }

  /** The event fails the waiter of `op`: the server call raised, or the owner ended. */
  predicate GivesException(y: QueueSys, e: QueueEvent, op: OpId) {
    && Waits(y.s.responses, op)
    && ((e == UpstreamAnswers(false) && y.s.owner == InHand(op)) || (e == OwnerEnds && Operation(op) in y.s.queue))
  }

  predicate GivesUp(y: QueueSys, e: QueueEvent, op: OpId) {
    Waits(y.s.responses, op) && e == WaiterLeaves(op)
  }

  /** What the event makes of a response. */
  function ResponseAfter(y: QueueSys, e: QueueEvent, op: OpId): Response
    requires op in y.s.responses
  {
    if GivesValue(y, e, op) then Value
    else if GivesException(y, e, op) then Raised
    else if GivesUp(y, e, op) then Cancelled
    else y.s.responses[op]
  }

  /** A future is made unresolved, and from then on changes as `after` says. */
  predicate FutureStep(before: map<OpId, Response>, after: map<OpId, Response>, f: OpId, r: Response) {
    if f in before then f in after && after[f] == r
    else f in after ==> after[f] == Pending
  }

  predicate ResponseStep(y: QueueSys, e: QueueEvent, z: QueueSys, op: OpId) {
    FutureStep(y.s.responses, z.s.responses, op, if op in y.s.responses then ResponseAfter(y, e, op) else Pending)
  }

  lemma {:induction false} ServeAnswersNothing(s: Session)
    ensures Serve(s).0.responses == s.responses
    decreases |s.queue|
  {
    if s.owner == Waiting && s.queue != [] {
      ServeAnswersNothing(TakeOne(s).0);
    }
  }

  lemma EventAnswers(y: QueueSys, e: QueueEvent, op: OpId)
    requires QueueEnabled(y, e) && (y.lock.Starter? ==> y.lock.op !in y.s.responses)
    ensures ResponseStep(y, e, QueueStep(y, e), op)
  {
    match e
    case OwnerServes => ServeAnswersNothing(y.s);
    case OwnerEnds => DrainFailsAll(y.s);
    case _ =>
  }

  // ------------------------------------------------------------------- closers

  /** The event lets the closer go on: its entry is the first that the server loop takes. */
  ghost predicate ClosesInTurn(y: QueueSys, e: QueueEvent, c: OpId) {
    && Waits(y.s.closers, c) && e == OwnerServes
    && exists k: nat :: ServedUpTo(y.s, k) && k < |y.s.queue| && y.s.queue[k] == Close(c)
  }

  predicate ClosesTooLate(y: QueueSys, e: QueueEvent, c: OpId) {
    Waits(y.s.closers, c) && e == OwnerEnds && Close(c) in y.s.queue
  }

  predicate CloserGone(y: QueueSys, e: QueueEvent, c: OpId) {
    Waits(y.s.closers, c) && e == CloserLeaves && y.lock == Closer(c)
  }

  ghost function CloserAfter(y: QueueSys, e: QueueEvent, c: OpId): Response
    requires c in y.s.closers
  {
    if ClosesInTurn(y, e, c) then Value
    else if ClosesTooLate(y, e, c) then Raised
    else if CloserGone(y, e, c) then Cancelled
    else y.s.closers[c]
  }

  ghost predicate CloserStep(y: QueueSys, e: QueueEvent, z: QueueSys, c: OpId) {
    FutureStep(y.s.closers, z.s.closers, c, if c in y.s.closers then CloserAfter(y, e, c) else Pending)
  }

  lemma EventAnswersCloser(y: QueueSys, e: QueueEvent, c: OpId)
    requires QueueEnabled(y, e)
    ensures CloserStep(y, e, QueueStep(y, e), c)
  {
    match e
    case OwnerServes =>
      if y.s.owner == Waiting {
        var k := ServeStops(y.s);
        ServeTakesFirst(y.s, k);
        assert forall j: nat :: ServedUpTo(y.s, j) ==> j == k;
      }
    case OwnerEnds => DrainFailsAll(y.s);
    case _ =>
  }

  // --------------------------------------------------------------------- runs


  /** The response of an operation that was queued, at any time of any run. It is a result
      if and only if the server returned one while the operation was in hand and waited
      for; an exception if and only if the server call raised then, or the owner ended with
      the operation queued and waited for; cancelled if and only if its waiter left before
      that. */
  lemma AnswerIsExact(ys: seq<QueueSys>, es: seq<QueueEvent>, i: nat, op: OpId)
    requires QueueRun(ys, es) && i < |ys| && op in ys[i].s.responses
    ensures ys[i].s.responses[op] == Value <==>
      exists m :: 0 <= m < i && GivesValue(ys[m], es[m], op)
    ensures ys[i].s.responses[op] == Raised <==>
      exists m :: 0 <= m < i && GivesException(ys[m], es[m], op)
    ensures ys[i].s.responses[op] == Cancelled <==>
      exists m :: 0 <= m < i && GivesUp(ys[m], es[m], op)
  {
    forall k | 0 <= k < |es| ensures ResponseStep(ys[k], es[k], ys[k + 1], op) {
      QueueRunInv(ys, es, k);
      EventAnswers(ys[k], es[k], op);
    }
    AnsweredSoFar(ys, es, i, op);
  }

  lemma {:induction false} AnsweredSoFar(ys: seq<QueueSys>, es: seq<QueueEvent>, i: nat, op: OpId)
    requires |ys| == |es| + 1 && i < |ys| && op !in ys[0].s.responses
    requires forall k :: 0 <= k < |es| ==> ResponseStep(ys[k], es[k], ys[k + 1], op)
    ensures ResponseIs(ys, es, i, op)
    decreases i
  {
    if i > 0 {
      AnsweredSoFar(ys, es, i - 1, op);
      assert ResponseStep(ys[i - 1], es[i - 1], ys[i - 1 + 1], op);
      ResponseOneMore(ys, es, i, op);
    }
  }

  ghost predicate ResponseIs(ys: seq<QueueSys>, es: seq<QueueEvent>, i: nat, op: OpId)
    requires i < |ys| == |es| + 1
  {
    var value := exists m :: 0 <= m < i && GivesValue(ys[m], es[m], op);
    var raised := exists m :: 0 <= m < i && GivesException(ys[m], es[m], op);
    var left := exists m :: 0 <= m < i && GivesUp(ys[m], es[m], op);
    if op in ys[i].s.responses then
      var r := ys[i].s.responses[op];
      (r == Value <==> value) && (r == Raised <==> raised) && (r == Cancelled <==> left)
    else
      !value && !raised && !left
  }

  lemma ResponseOneMore(ys: seq<QueueSys>, es: seq<QueueEvent>, i: nat, op: OpId)
    requires 0 < i < |ys| == |es| + 1
    requires ResponseIs(ys, es, i - 1, op) && ResponseStep(ys[i - 1], es[i - 1], ys[i], op)
    ensures ResponseIs(ys, es, i, op)
  {
  }

  /** The same for a close: its waiter goes on to await the owner if and only if the server
      loop took its entry while it waited, fails if and only if the owner ended with the
      entry still queued, and was cancelled if and only if it left before either. */
  lemma CloseIsExact(ys: seq<QueueSys>, es: seq<QueueEvent>, i: nat, c: OpId)
    requires QueueRun(ys, es) && i < |ys| && c in ys[i].s.closers
    ensures ys[i].s.closers[c] == Value <==>
      exists m :: 0 <= m < i && ClosesInTurn(ys[m], es[m], c)
    ensures ys[i].s.closers[c] == Raised <==>
      exists m :: 0 <= m < i && ClosesTooLate(ys[m], es[m], c)
    ensures ys[i].s.closers[c] == Cancelled <==>
      exists m :: 0 <= m < i && CloserGone(ys[m], es[m], c)
  {
    forall k | 0 <= k < |es| ensures CloserStep(ys[k], es[k], ys[k + 1], c) {
      EventAnswersCloser(ys[k], es[k], c);
    }
    ClosedSoFar(ys, es, i, c);
  }

  lemma {:induction false} ClosedSoFar(ys: seq<QueueSys>, es: seq<QueueEvent>, i: nat, c: OpId)
    requires |ys| == |es| + 1 && i < |ys| && c !in ys[0].s.closers
    requires forall k :: 0 <= k < |es| ==> CloserStep(ys[k], es[k], ys[k + 1], c)
    ensures CloserIs(ys, es, i, c)
    decreases i
  {
    if i > 0 {
      ClosedSoFar(ys, es, i - 1, c);
      assert CloserStep(ys[i - 1], es[i - 1], ys[i - 1 + 1], c);
      CloserOneMore(ys, es, i, c);
    }
  }

  ghost predicate CloserIs(ys: seq<QueueSys>, es: seq<QueueEvent>, i: nat, c: OpId)
    requires i < |ys| == |es| + 1
  {
    var value := exists m :: 0 <= m < i && ClosesInTurn(ys[m], es[m], c);
    var raised := exists m :: 0 <= m < i && ClosesTooLate(ys[m], es[m], c);
    var left := exists m :: 0 <= m < i && CloserGone(ys[m], es[m], c);
    if c in ys[i].s.closers then
      var r := ys[i].s.closers[c];
      (r == Value <==> value) && (r == Raised <==> raised) && (r == Cancelled <==> left)
    else
      !value && !raised && !left
  }

  lemma CloserOneMore(ys: seq<QueueSys>, es: seq<QueueEvent>, i: nat, c: OpId)
    requires 0 < i < |ys| == |es| + 1
    requires CloserIs(ys, es, i - 1, c) && CloserStep(ys[i - 1], es[i - 1], ys[i], c)
    ensures CloserIs(ys, es, i, c)
  {
  }

  // ------------------------------------------------------------ what comes in

  /** The event puts `op` on the queue: a request that finds a live owner, or the one that
      started the owner, once it is ready. */
  predicate Queues(y: QueueSys, e: QueueEvent, op: OpId) {
    match e
    case Request(o) => o == op && !y.s.closed && Live(y.s)
    case StarterResumes => y.lock == Starter(op) && y.s.ready == ReadyOk
    case _ => false
  }

  predicate Shuts(e: QueueEvent) {
    e.BeginClose? || e == BeginAbort
  }

  /** After a close or an abort has begun the session is closed and no start is under way. */
  predicate Shut(y: QueueSys) {
    y.s.closed && !y.lock.Starter?
  }

  lemma EventShuts(y: QueueSys, e: QueueEvent)
    requires QueueEnabled(y, e) && (Shut(y) || Shuts(e))
    ensures Shut(QueueStep(y, e))
  {
    match e
    case OwnerServes =>
      if y.s.owner == Waiting {
        var k := ServeStops(y.s);
        ServeTakesFirst(y.s, k);
      }
    case OwnerEnds => DrainStaysShut(y.s);
    case _ =>
  }

  lemma {:induction false} DrainStaysShut(s: Session)
    ensures Drain(s).0.closed == s.closed
    decreases |s.queue|
  {
    if s.queue != [] {
      DrainStaysShut(DrainOne(s).0);
    }
  }

  /** An operation appears only by being queued, at the end of the queue and unanswered. */
  lemma QueuedAtTheEnd(ys: seq<QueueSys>, es: seq<QueueEvent>, i: nat, op: OpId)
    requires QueueRun(ys, es) && i < |es|
    ensures op !in ys[i].s.responses ==> (op in ys[i + 1].s.responses <==> Queues(ys[i], es[i], op))
    ensures Queues(ys[i], es[i], op) ==>
      && ys[i + 1].s.queue == ys[i].s.queue + [Operation(op)]
      && op in ys[i + 1].s.responses && ys[i + 1].s.responses[op] == Pending
      && ys[i + 1].s.pending == ys[i].s.pending + 1
  {
    var y, e := ys[i], es[i];
    assert QueueEnabled(y, e) && ys[i + 1] == QueueStep(y, e);
    if e == OwnerServes && y.s.owner == Waiting {
      var k := ServeStops(y.s);
      ServeTakesFirst(y.s, k);
    } else if e == OwnerEnds {
      DrainFailsAll(y.s);
    }
  }

  /** Once a close or an abort has begun, no operation is queued any more. */
  lemma NothingQueuedAfterClose(ys: seq<QueueSys>, es: seq<QueueEvent>, m: nat, i: nat, op: OpId)
    requires QueueRun(ys, es) && m < i < |es| && Shuts(es[m])
    ensures ys[i].s.closed && !Queues(ys[i], es[i], op)
  {
    ShutForGood(ys, es, m, i);
  }

  lemma {:induction false} ShutForGood(ys: seq<QueueSys>, es: seq<QueueEvent>, m: nat, i: nat)
    requires QueueRun(ys, es) && m < i < |ys| && Shuts(es[m])
    ensures Shut(ys[i])
    decreases i
  {
    assert QueueEnabled(ys[i - 1], es[i - 1]) && ys[i - 1 + 1] == QueueStep(ys[i - 1], es[i - 1]);
    if m < i - 1 {
      ShutForGood(ys, es, m, i - 1);
    }
    EventShuts(ys[i - 1], es[i - 1]);
  }

  // ------------------------------------------------------------ start and end

  /** What a starter finds: nothing yet while the owner starts, success once it has served,
      and some outcome when it has ended. */
  predicate ReadyFits(s: Session) {
    match s.owner
    case Starting => s.ready == NotReady
    case Waiting => s.ready == ReadyOk
    case InHand(_) => s.ready == ReadyOk
    case Ended => s.ready != NotReady
    case _ => true
  }

  lemma EventKeepsReady(y: QueueSys, e: QueueEvent)
    requires QueueEnabled(y, e) && ReadyFits(y.s)
    ensures ReadyFits(QueueStep(y, e).s)
  {
    if e == OwnerServes {
      var k := ServeStops(y.s);
      ServeTakesFirst(y.s, k);
    }
  }

  /** In every run: a request that awaits the start of an owner can go on as soon as that
      owner is ready or has ended, and not before. */
  lemma {:induction false} StarterIsWoken(ys: seq<QueueSys>, es: seq<QueueEvent>, i: nat)
    requires QueueRun(ys, es) && i < |ys|
    ensures ReadyFits(ys[i].s)
    ensures ys[i].lock.Starter? && (ys[i].s.owner == Ended || ys[i].s.owner == Waiting) ==>
              QueueEnabled(ys[i], StarterResumes)
    ensures ys[i].s.owner == Starting ==> !QueueEnabled(ys[i], StarterResumes)
    decreases i
  {
    if i > 0 {
      StarterIsWoken(ys, es, i - 1);
      assert QueueEnabled(ys[i - 1], es[i - 1]) && ys[i - 1 + 1] == QueueStep(ys[i - 1], es[i - 1]);
      EventKeepsReady(ys[i - 1], es[i - 1]);
    }
  }

  /** The event ends a close or an abort after its owner is done. */
  predicate Finishes(e: QueueEvent) {
    e == TaskAwaited(true) || e == AbortReturns(true)
  }

  /** Closed for good: no owner, nothing queued, nobody in the way of the next close. */
  predicate Down(y: QueueSys) {
    y.s.closed && y.s.owner == NoTask && y.s.queue == [] && y.lock == Free
  }

  /** Whoever waits on a close or an abort has closed the session. */
  predicate ClosersClose(y: QueueSys) {
    y.lock.Closer? || y.lock == AwaitsTask || y.lock == Aborter ==> y.s.closed
  }

  lemma EventCloses(y: QueueSys, e: QueueEvent)
    requires QueueEnabled(y, e) && ClosersClose(y)
    ensures ClosersClose(QueueStep(y, e))
    ensures Down(y) || Finishes(e) ==> Down(QueueStep(y, e))
  {
    if e == OwnerServes {
      var k := ServeStops(y.s);
      ServeTakesFirst(y.s, k);
    } else if e == OwnerEnds {
      DrainStaysShut(y.s);
    }
  }

  lemma {:induction false} RunCloses(ys: seq<QueueSys>, es: seq<QueueEvent>, i: nat)
    requires QueueRun(ys, es) && i < |ys|
    ensures ClosersClose(ys[i])
    decreases i
  {
    if i > 0 {
      RunCloses(ys, es, i - 1);
      assert QueueEnabled(ys[i - 1], es[i - 1]) && ys[i - 1 + 1] == QueueStep(ys[i - 1], es[i - 1]);
      EventCloses(ys[i - 1], es[i - 1]);
    }
  }

  /** In every run: a session whose close or abort came to its end has no owner and an empty
      queue from then on, and the next close or abort returns at once. */
  lemma {:induction false} ClosedSessionStaysDown(ys: seq<QueueSys>, es: seq<QueueEvent>, m: nat, i: nat)
    requires QueueRun(ys, es) && m < i < |ys| && Finishes(es[m])
    ensures Down(ys[i])
    decreases i
  {
    RunCloses(ys, es, i - 1);
    assert QueueEnabled(ys[i - 1], es[i - 1]) && ys[i - 1 + 1] == QueueStep(ys[i - 1], es[i - 1]);
    if m < i - 1 {
      ClosedSessionStaysDown(ys, es, m, i - 1);
    }
    EventCloses(ys[i - 1], es[i - 1]);
  }

  /** A close that was let in goes on to await the owner; one that failed returns the lock. */
  lemma AnsweredCloseAwaits(ys: seq<QueueSys>, es: seq<QueueEvent>, i: nat, c: OpId)
    requires QueueRun(ys, es) && i < |es| && es[i] == CloseAnswered && ys[i].lock == Closer(c)
    ensures c in ys[i].s.closers && ys[i + 1].s == ys[i].s
    ensures ys[i].s.closers[c] == Value ==> ys[i + 1].lock == AwaitsTask
    ensures ys[i].s.closers[c] == Raised ==> ys[i + 1].lock == Free
  {
    assert QueueEnabled(ys[i], es[i]) && ys[i + 1] == QueueStep(ys[i], es[i]);
  }
}
