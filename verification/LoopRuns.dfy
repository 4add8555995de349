/** The same runs on an event loop, which carries out callbacks in the order in which they
    were scheduled: when a request can resume on an owner that has ended. */
module LoopRuns {
  import opened OperationQueue
  import opened QueueRuns

  /** Callbacks in the ready queue of the loop that concern the owner and the request that
      started it: the owner's next turn; the `ready` future is done, so the shield around it
      becomes done; the shield is done, so the starter gets its turn. */
  datatype Callback = OwnerTurn | StartDone | StarterTurn

  /** The owner waits for something, has just been resumed, or is at work. */
  datatype Turn = Suspended | Resumed | Working

  /** `left` is how many more times the teardown of the two context managers suspends. */
  datatype LoopSys = LoopSys(q: QueueSys, loop: seq<Callback>, turn: Turn, left: nat)

  datatype LoopEvent =
    | Elsewhere(e: QueueEvent)
    | WakeOwner
    | OwnerBegins
    | OwnerActs(e: QueueEvent)
    | OwnerSuspends
    | StartDoneRuns
    | StarterRuns

  const AT_REST := LoopSys(FIRST, [], Suspended, 0)

  predicate OfOwner(e: QueueEvent) {
    e.OwnerReady? || e.OwnerServes? || e.UpstreamAnswers? || e.OwnerInterrupted? || e.OwnerEnds?
  }

  predicate AtHead(loop: seq<Callback>, c: Callback) {
    loop != [] && loop[0] == c
  }

  /** A cancellation or a broken connection reaches the owner only where it resumes. */
  predicate LoopEnabled(x: LoopSys, e: LoopEvent) {
    match e
    case Elsewhere(qe) => x.turn == Suspended && !OfOwner(qe) && qe != StarterResumes && QueueEnabled(x.q, qe)
    case WakeOwner => x.turn == Suspended && Live(x.q.s) && OwnerTurn !in x.loop
    case OwnerBegins => x.turn == Suspended && AtHead(x.loop, OwnerTurn)
    case OwnerActs(qe) =>
      && x.turn != Suspended && OfOwner(qe) && QueueEnabled(x.q, qe)
      && (qe == OwnerInterrupted && x.q.s.owner == Waiting ==> x.turn == Resumed)
      && (qe == OwnerEnds ==> x.left == 0)
    case OwnerSuspends => x.turn != Suspended
    case StartDoneRuns => x.turn == Suspended && AtHead(x.loop, StartDone)
    case StarterRuns => x.turn == Suspended && AtHead(x.loop, StarterTurn) && QueueEnabled(x.q, StarterResumes)
  }

  function OnlyOwner(loop: seq<Callback>): seq<Callback> {
    if OwnerTurn in loop then [OwnerTurn] else []
  }

  /** Resolving `ready` schedules the shield's callback if the starter still waits. */
  function ReadyCallback(y: QueueSys, z: QueueSys): seq<Callback> {
    if y.s.ready == NotReady && z.s.ready != NotReady && y.lock.Starter? then [StartDone] else []
  }

  function LoopStep(x: LoopSys, e: LoopEvent, teardown: nat): LoopSys
    requires LoopEnabled(x, e)
  {
    match e
    case Elsewhere(qe) =>
      x.(q := QueueStep(x.q, qe), loop := if qe == StarterLeaves then OnlyOwner(x.loop) else x.loop)
    case WakeOwner => x.(loop := x.loop + [OwnerTurn])
    case OwnerBegins => x.(loop := x.loop[1..], turn := Resumed)
    case OwnerActs(qe) =>
      var z := QueueStep(x.q, qe);
      LoopSys(z, x.loop + ReadyCallback(x.q, z),
              if qe == OwnerEnds then Suspended else Working,
              if x.q.s.owner != Unwinding && z.s.owner == Unwinding then teardown else x.left)
    case OwnerSuspends =>
      x.(turn := Suspended, left := if x.q.s.owner == Unwinding && x.left > 0 then x.left - 1 else x.left)
    case StartDoneRuns => x.(loop := x.loop[1..] + [StarterTurn])
    case StarterRuns => x.(loop := x.loop[1..], q := QueueStep(x.q, StarterResumes))
  }

  // ---------------------------------------------------------------- invariant

  predicate AwaitsStarter(loop: seq<Callback>) {
    StartDone in loop || StarterTurn in loop
  }

  /** At most one turn of the owner and at most one callback on behalf of the starter. */
  predicate LoopShape(loop: seq<Callback>) {
    |loop| <= 2 && (|loop| == 2 ==> (loop[0] == OwnerTurn) != (loop[1] == OwnerTurn))
  }

  predicate Scheduled(x: LoopSys) {
    && LoopShape(x.loop)
    && (OwnerTurn in x.loop ==> x.turn == Suspended && Live(x.q.s))
    && (x.turn != Suspended ==> Live(x.q.s))
    && (AwaitsStarter(x.loop) ==> x.q.lock.Starter? && x.q.s.ready != NotReady)
    && (x.q.lock.Starter? ==> x.q.s.queue == [] && !x.q.s.owner.InHand?)
    && (x.q.s.owner == Waiting || x.q.s.owner.InHand? ==> x.q.s.ready == ReadyOk)
    && (x.q.s.owner == Starting ==> x.q.s.ready == NotReady)
  }

  /** Where the owner can be while its starter is about to resume, if its teardown suspends
      at least once. */
  predicate StarterInTime(x: LoopSys) {
    x.q.lock.Starter? && x.q.s.ready == ReadyOk ==>
      && AwaitsStarter(x.loop)
      && (StartDone in x.loop ==> x.q.s.owner == Waiting && x.turn != Resumed && x.loop[0] == StartDone)
      && (StarterTurn in x.loop && x.q.s.owner != Waiting ==>
            && x.q.s.owner == Unwinding && x.turn != Resumed
            && (x.turn == Working ==> x.left > 0) && (x.turn == Suspended ==> x.loop[0] == StarterTurn))
  }

  ghost predicate LoopInv(x: LoopSys) {
    QueueInv(x.q) && Scheduled(x) && StarterInTime(x) && x.q.orphans == []
  }

  lemma ElsewhereKeeps(x: LoopSys, e: QueueEvent, teardown: nat)
    requires Scheduled(x) && StarterInTime(x) && QueueInv(x.q) && LoopEnabled(x, Elsewhere(e))
    ensures Scheduled(LoopStep(x, Elsewhere(e), teardown)) && StarterInTime(LoopStep(x, Elsewhere(e), teardown))
  {
  }

  lemma TurnsKeep(x: LoopSys, e: LoopEvent, teardown: nat)
    requires Scheduled(x) && StarterInTime(x) && LoopEnabled(x, e)
    requires e.WakeOwner? || e.OwnerBegins? || e.OwnerSuspends? || e.StartDoneRuns?
    ensures Scheduled(LoopStep(x, e, teardown)) && StarterInTime(LoopStep(x, e, teardown))
  {
  }

  lemma StarterKeeps(x: LoopSys, teardown: nat)
    requires Scheduled(x) && StarterInTime(x) && LoopEnabled(x, StarterRuns)
    ensures Scheduled(LoopStep(x, StarterRuns, teardown)) && StarterInTime(LoopStep(x, StarterRuns, teardown))
    ensures !OrphanStep(x.q, StarterResumes)
  {
  }

  lemma {:induction false} ServeShape(s: Session)
    requires s.owner == Waiting
    ensures var u := Serve(s).0;
      && u.ready == s.ready && Live(u) && u.owner != Starting
      && (s.queue == [] ==> u == s)
    decreases |s.queue|
  {
    if s.queue != [] && TakeOne(s).0.owner == Waiting {
      ServeShape(TakeOne(s).0);
    }
  }

  lemma {:induction false} DrainShape(s: Session)
    ensures Drain(s).0.queue == [] && Drain(s).0.owner == s.owner
    decreases |s.queue|
  {
    if s.queue != [] {
      DrainShape(DrainOne(s).0);
    }
  }

  lemma OwnerServesKeeps(x: LoopSys, teardown: nat)
    requires Scheduled(x) && StarterInTime(x) && LoopEnabled(x, OwnerActs(OwnerServes))
    ensures Scheduled(LoopStep(x, OwnerActs(OwnerServes), teardown))
    ensures StarterInTime(LoopStep(x, OwnerActs(OwnerServes), teardown))
  {
    ServeShape(x.q.s);
    assert x.loop + [] == x.loop;
  }

  lemma OwnerEndsKeeps(x: LoopSys, teardown: nat)
    requires Scheduled(x) && StarterInTime(x) && LoopEnabled(x, OwnerActs(OwnerEnds))
    ensures Scheduled(LoopStep(x, OwnerActs(OwnerEnds), teardown))
    ensures StarterInTime(LoopStep(x, OwnerActs(OwnerEnds), teardown))
  {
    DrainShape(x.q.s);
  }

  lemma OwnerKeeps(x: LoopSys, e: QueueEvent, teardown: nat)
    requires Scheduled(x) && StarterInTime(x) && LoopEnabled(x, OwnerActs(e)) && teardown > 0
    ensures Scheduled(LoopStep(x, OwnerActs(e), teardown)) && StarterInTime(LoopStep(x, OwnerActs(e), teardown))
  {
    assert x.loop + [] == x.loop;
    if e.OwnerServes? {
      OwnerServesKeeps(x, teardown);
    } else if e.OwnerEnds? {
      OwnerEndsKeeps(x, teardown);
    }
  }

  lemma LoopStepKeepsInv(x: LoopSys, e: LoopEvent, teardown: nat)
    requires LoopInv(x) && LoopEnabled(x, e) && teardown > 0
    ensures LoopInv(LoopStep(x, e, teardown))
  {
    match e
    case Elsewhere(qe) =>
      ElsewhereKeeps(x, qe, teardown);
      QueueStepKeepsInv(x.q, qe);
      OrphansGrow(x.q, qe);
    case OwnerActs(qe) =>
      OwnerKeeps(x, qe, teardown);
      QueueStepKeepsInv(x.q, qe);
      OrphansGrow(x.q, qe);
    case StarterRuns =>
      StarterKeeps(x, teardown);
      QueueStepKeepsInv(x.q, StarterResumes);
      OrphansGrow(x.q, StarterResumes);
    case _ => TurnsKeep(x, e, teardown);
  }

  // -------------------------------------------------------------------- runs

  ghost predicate LoopRun(teardown: nat, xs: seq<LoopSys>, es: seq<LoopEvent>) {
    && |xs| == |es| + 1 && xs[0] == AT_REST
    && forall i :: 0 <= i < |es| ==> LoopEnabled(xs[i], es[i]) && xs[i + 1] == LoopStep(xs[i], es[i], teardown)
  }

  lemma {:induction false} LoopRunInv(teardown: nat, xs: seq<LoopSys>, es: seq<LoopEvent>, i: nat)
    requires LoopRun(teardown, xs, es) && i < |xs| && teardown > 0
    ensures LoopInv(xs[i])
    decreases i
  {
    if i > 0 {
      LoopRunInv(teardown, xs, es, i - 1);
      LoopStepKeepsInv(xs[i - 1], es[i - 1], teardown);
    }
  }

  /** If the teardown suspends at all, no request ever resumes on an ended owner, and the
      counter is exact in every state: the starter's turn is scheduled before any turn that
      could follow a suspension of the teardown. */
  lemma StarterIsInTime(teardown: nat, xs: seq<LoopSys>, es: seq<LoopEvent>, i: nat)
    requires LoopRun(teardown, xs, es) && i < |xs| && teardown > 0
    ensures CounterExact(xs[i].q.s) && xs[i].q.orphans == []
    ensures i < |es| && es[i] == StarterRuns ==> !OrphanStep(xs[i].q, StarterResumes)
  {
    LoopRunInv(teardown, xs, es, i);
    var y := xs[i].q;
    assert y.lost == [];
    if i < |es| && es[i] == StarterRuns {
      StarterKeeps(xs[i], teardown);
    }
  }

  ghost predicate Reached(teardown: nat, x: LoopSys) {
    exists xs, es :: LoopRun(teardown, xs, es) && xs[|es|] == x
  }

  lemma Then(teardown: nat, x: LoopSys, e: LoopEvent, next: LoopSys)
    requires Reached(teardown, x) && LoopEnabled(x, e) && next == LoopStep(x, e, teardown)
    ensures Reached(teardown, next)
  {
    var xs, es :| LoopRun(teardown, xs, es) && xs[|es|] == x;
    var more, events := xs + [next], es + [e];
    assert LoopRun(teardown, more, events) && more[|events|] == next;
  }

  lemma Starts(teardown: nat)
    ensures Reached(teardown, AT_REST)
  {
    var none: seq<LoopEvent> := [];
    assert LoopRun(teardown, [AT_REST], none) && [AT_REST][|none|] == AT_REST;
  }

  /** A request has started an owner, which is ready and waits; its starter is to resume. */
  const STARTED := QueueSys(Restart(IDLE).(owner := Waiting, ready := ReadyOk), Starter(1), [], [], [], [])

  lemma OwnerGetsTurn(teardown: nat, x: LoopSys)
    requires Reached(teardown, x) && x.loop == [] && x.turn == Suspended && Live(x.q.s)
    ensures Reached(teardown, x.(turn := Resumed))
  {
    Then(teardown, x, WakeOwner, x.(loop := [OwnerTurn]));
    Then(teardown, x.(loop := [OwnerTurn]), OwnerBegins, x.(turn := Resumed));
  }

  lemma OwnerIsStarted(teardown: nat) returns (x: LoopSys)
    ensures x == LoopSys(QueueSys(Restart(IDLE), Starter(1), [], [], [], []), [], Resumed, 0)
    ensures Reached(teardown, x)
  {
    x := LoopSys(QueueSys(Restart(IDLE), Starter(1), [], [], [], []), [], Suspended, 0);
    Starts(teardown);
    assert Ops(IDLE.queue) == [];
    Then(teardown, AT_REST, Elsewhere(Request(1)), x);
    OwnerGetsTurn(teardown, x);
    x := x.(turn := Resumed);
  }

  lemma OwnerIsReady(teardown: nat)
    ensures Reached(teardown, LoopSys(STARTED, [StartDone], Suspended, 0))
  {
    var x := OwnerIsStarted(teardown);
    Then(teardown, x, OwnerActs(OwnerReady), LoopSys(STARTED, [StartDone], Working, 0));
    Then(teardown, LoopSys(STARTED, [StartDone], Working, 0), OwnerSuspends,
         LoopSys(STARTED, [StartDone], Suspended, 0));
  }

  /** The owner is woken before the starter's turn is scheduled. */
  lemma OwnerIsFirst(teardown: nat)
    ensures Reached(teardown, LoopSys(STARTED, [StarterTurn], Resumed, 0))
  {
    var x := LoopSys(STARTED, [StartDone], Suspended, 0);
    OwnerIsReady(teardown);
    Then(teardown, x, WakeOwner, x.(loop := [StartDone, OwnerTurn]));
    Then(teardown, x.(loop := [StartDone, OwnerTurn]), StartDoneRuns, x.(loop := [OwnerTurn, StarterTurn]));
    Then(teardown, x.(loop := [OwnerTurn, StarterTurn]), OwnerBegins, x.(loop := [StarterTurn], turn := Resumed));
  }

  const ENDED := STARTED.s.(owner := Ended)

  lemma OwnerEndsAtOnce()
    ensures Reached(0, LoopSys(STARTED.(s := ENDED), [StarterTurn], Suspended, 0))
  {
    var x := LoopSys(STARTED, [StarterTurn], Resumed, 0);
    var y := LoopSys(STARTED.(s := STARTED.s.(owner := Unwinding)), [StarterTurn], Working, 0);
    OwnerIsFirst(0);
    Then(0, x, OwnerActs(OwnerInterrupted), y);
    Then(0, y, OwnerActs(OwnerEnds), LoopSys(STARTED.(s := ENDED), [StarterTurn], Suspended, 0));
  }

  /** With a teardown that never suspends, a starter's operation can be left behind: the next
      request throws its queue away, and the counter stays one too high. */
  lemma LateStarterLosesItsOperation() returns (x: LoopSys)
    ensures Reached(0, x) && x.q.orphans == [1] && x.q.lost == [1]
    ensures x.q.s.queue == [] && x.q.s.pending == 1 && !CounterExact(x.q.s)
  {
    var late := LoopSys(QueueSys(Enqueue(ENDED, 1), Free, [], [1], [], []), [], Suspended, 0);
    OwnerEndsAtOnce();
    Then(0, LoopSys(STARTED.(s := ENDED), [StarterTurn], Suspended, 0), StarterRuns, late);
    LastStep(late.q);
    x := late.(q := late.q.(s := Restart(late.q.s), lock := Starter(2), lost := [1]));
    Then(0, late, Elsewhere(Request(2)), x);
  }

  lemma LastStep(y: QueueSys)
    requires y.lock == Free && !y.s.closed && y.s.owner == Ended && y.s.queue == [Operation(1)]
    requires 2 !in y.s.responses
    ensures QueueStep(y, Request(2)) == y.(s := Restart(y.s), lock := Starter(2), lost := y.lost + [1])
  {
    assert Ops([Operation(1)]) == [1];
  }

  /** So the counter is exact in every run on the loop if and only if the teardown of the
      owner's context managers suspends at least once. */
  lemma CounterExactIfTeardownSuspends(teardown: nat)
    ensures teardown > 0 <==> forall x :: Reached(teardown, x) ==> CounterExact(x.q.s)
  {
    if teardown > 0 {
      forall x | Reached(teardown, x) ensures CounterExact(x.q.s) {
        var xs, es :| LoopRun(teardown, xs, es) && xs[|es|] == x;
        StarterIsInTime(teardown, xs, es, |es|);
      }
    } else {
      var x := LateStarterLosesItsOperation();
    }
  }

  // ---------------------------------------------------------- cut in hand

  /** The session with operation 1 queued, or in the owner's hand. */
  const QUEUED := QueueSys(Enqueue(STARTED.s, 1), Free, [1], [], [], [])
  const HELD := QUEUED.(s := QUEUED.s.(owner := InHand(1), queue := []))
  const CUT := HELD.(s := HELD.s.(owner := Unwinding, pending := 0), log := [Finish(1, OwnerCut)])

  lemma OperationIsQueued(teardown: nat)
    ensures Reached(teardown, LoopSys(QUEUED, [], Resumed, 0))
  {
    var x := LoopSys(STARTED, [StartDone], Suspended, 0);
    OwnerIsReady(teardown);
    Then(teardown, x, StartDoneRuns, x.(loop := [StarterTurn]));
    Then(teardown, x.(loop := [StarterTurn]), StarterRuns, LoopSys(QUEUED, [], Suspended, 0));
    OwnerGetsTurn(teardown, LoopSys(QUEUED, [], Suspended, 0));
  }

  lemma ServesOne(s: Session, op: OpId)
    requires s.owner == Waiting && s.queue == [Operation(op)]
    requires op in s.responses && s.responses[op] == Pending
    ensures Serve(s).0 == s.(owner := InHand(op), queue := []) && Serve(s).1 == []
  {
    var t := s.(owner := InHand(op), queue := []);
    var none: seq<Finish> := [];
    assert TakeOne(s).0 == t && TakeOne(s).1 == none;
    assert Serve(t).0 == t && Serve(t).1 == none;
    assert Serve(s).1 == none + none;
  }

  lemma OperationIsHeld(teardown: nat)
    ensures Reached(teardown, LoopSys(HELD, [], Resumed, 0))
  {
    OperationIsQueued(teardown);
    assert QUEUED.s.queue == [Operation(1)];
    ServesOne(QUEUED.s, 1);
    Then(teardown, LoopSys(QUEUED, [], Resumed, 0), OwnerActs(OwnerServes), LoopSys(HELD, [], Working, 0));
    Then(teardown, LoopSys(HELD, [], Working, 0), OwnerSuspends, LoopSys(HELD, [], Suspended, 0));
    OwnerGetsTurn(teardown, LoopSys(HELD, [], Suspended, 0));
  }

  lemma {:induction false} TeardownPasses(teardown: nat, left: nat, turn: Turn)
    requires turn != Suspended && Reached(teardown, LoopSys(CUT, [], turn, left))
    ensures Reached(teardown, LoopSys(CUT.(s := CUT.s.(owner := Ended)), [], Suspended, 0))
    decreases left
  {
    if left == 0 {
      Then(teardown, LoopSys(CUT, [], turn, 0), OwnerActs(OwnerEnds),
           LoopSys(CUT.(s := CUT.s.(owner := Ended)), [], Suspended, 0));
    } else {
      Then(teardown, LoopSys(CUT, [], turn, left), OwnerSuspends, LoopSys(CUT, [], Suspended, left - 1));
      OwnerGetsTurn(teardown, LoopSys(CUT, [], Suspended, left - 1));
      TeardownPasses(teardown, left - 1, Resumed);
    }
  }

  /** However its teardown suspends, an owner that is cut while it holds an operation ends
      with nothing pending and the waiter of that operation still waiting. */
  lemma CutLeavesWaiter(teardown: nat) returns (x: LoopSys)
    ensures Reached(teardown, x) && x.q.s.owner == Ended && x.q.s.pending == 0
    ensures x.q.log == [Finish(1, OwnerCut)] && x.q.s.responses == map[1 := Pending]
  {
    OperationIsHeld(teardown);
    Then(teardown, LoopSys(HELD, [], Resumed, 0), OwnerActs(OwnerInterrupted), LoopSys(CUT, [], Working, teardown));
    TeardownPasses(teardown, teardown, Working);
    x := LoopSys(CUT.(s := CUT.s.(owner := Ended)), [], Suspended, 0);
  }
}
