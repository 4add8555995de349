/** `_SamchonGraphSession`: one owner task serves the operations of a resident session from
    a queue, and a counter keeps the session busy while any of them is pending. */
module OperationQueue {

  type OpId = nat

  datatype Entry = Close(closer: OpId) | Operation(op: OpId)

  /** A response future: waited for, given up by its waiter, or resolved. */
  datatype Response = Pending | Cancelled | Value | Raised

  /** The owner task: absent, starting the server, waiting for the queue, waiting for the
      server's answer to one operation, tearing down, or done. */
  datatype Owner = NoTask | Starting | Waiting | InHand(op: OpId) | Unwinding | Ended

  /** The `ready` future of the current owner. */
  datatype Ready = NotReady | ReadyOk | ReadyFailed

  datatype Session = Session(
    closed: bool,
    pending: int,
    owner: Owner,
    ready: Ready,
    queue: seq<Entry>,
    responses: map<OpId, Response>,
    closers: map<OpId, Response>)

  const IDLE := Session(false, 0, NoTask, NotReady, [], map[], map[])

  /** Why an operation was counted down. */
  datatype Cause = Succeeded | UpstreamFailed | WaiterGone | Drained | OwnerCut

  /** One call of `_finish_operation`. */
  datatype Finish = Finish(op: OpId, cause: Cause)

  /** `self._task is not None and not self._task.done()`. */
  predicate Live(s: Session) {
    s.owner != NoTask && s.owner != Ended
  }

  /** Resolving a future that is already done changes nothing. */
  function Settle(responses: map<OpId, Response>, op: OpId, r: Response): map<OpId, Response> {
    if op in responses && responses[op] == Pending then responses[op := r] else responses
  }

  function OpOf(e: Entry): seq<OpId> {
    if e.Operation? then [e.op] else []
  }

  function Ops(queue: seq<Entry>): seq<OpId> {
    if queue == [] then [] else OpOf(queue[0]) + Ops(queue[1..])
  }

  /** The operation in hand, then the queued ones. */
  function Outstanding(s: Session): seq<OpId> {
    (if s.owner.InHand? then [s.owner.op] else []) + Ops(s.queue)
  }

  // ------------------------------------------------------------- transitions

  function Enqueue(s: Session, op: OpId): Session {
    s.(pending := s.pending + 1, queue := s.queue + [Operation(op)], responses := s.responses[op := Pending])
  }

  /** A new owner gets a new queue. */
  function Restart(s: Session): Session {
    s.(owner := Starting, ready := NotReady, queue := [])
  }

  /** One turn of the server loop with an entry at the head of the queue. */
  function TakeOne(s: Session): (Session, seq<Finish>)
    requires s.queue != []
  {
    var rest := s.(queue := s.queue[1..]);
    match s.queue[0]
    case Close(c) => (rest.(owner := Unwinding, closers := Settle(s.closers, c, Value)), [])
    case Operation(op) =>
      if op in s.responses && s.responses[op] == Cancelled then
        (rest.(pending := s.pending - 1), [Finish(op, WaiterGone)])
      else
        (rest.(owner := InHand(op)), [])
  }

  /** The server loop up to its next suspension. */
  function Serve(s: Session): (Session, seq<Finish>)
    decreases |s.queue|
  {
    if s.owner != Waiting || s.queue == [] then (s, [])
    else
      var (t, done) := TakeOne(s);
      var (u, more) := Serve(t);
      (u, done + more)
  }

  /** The server answered, or the call raised an exception. */
  function Answered(s: Session, ok: bool): (Session, seq<Finish>)
    requires s.owner.InHand?
  {
    (s.(owner := Waiting, pending := s.pending - 1,
        responses := Settle(s.responses, s.owner.op, if ok then Value else Raised)),
     [Finish(s.owner.op, if ok then Succeeded else UpstreamFailed)])
  }

  /** The owner is cancelled, or its connection breaks; an operation in hand is counted down
      but nothing resolves its response. */
  function Interrupted(s: Session): (Session, seq<Finish>)
    requires Live(s)
  {
    if s.owner.InHand? then
      (s.(owner := Unwinding, pending := s.pending - 1), [Finish(s.owner.op, OwnerCut)])
    else
      (s.(owner := Unwinding), [])
  }

  function DrainOne(s: Session): (Session, seq<Finish>)
    requires s.queue != []
  {
    var rest := s.(queue := s.queue[1..]);
    match s.queue[0]
    case Close(c) => (rest.(closers := Settle(s.closers, c, Raised)), [])
    case Operation(op) =>
      (rest.(pending := s.pending - 1, responses := Settle(s.responses, op, Raised)), [Finish(op, Drained)])
  }

  /** The loop of the owner's `finally`. */
  function Drain(s: Session): (Session, seq<Finish>)
    decreases |s.queue|
  {
    if s.queue == [] then (s, [])
    else
      var (t, done) := DrainOne(s);
      var (u, more) := Drain(t);
      (u, done + more)
  }

  function Finale(s: Session): (Session, seq<Finish>) {
    var (t, done) := Drain(s);
    (t.(owner := Ended, ready := if s.ready == NotReady then ReadyFailed else s.ready), done)
  }

  /** `close` and `abort` after the task is done. */
  function Forget(s: Session): Session {
    s.(owner := NoTask, queue := [])
  }

  class GraphSession {
    var closed: bool
    var pending: int
    var owner: Owner
    var ready: Ready
    var queue: seq<Entry>
    var responses: map<OpId, Response>
    var closers: map<OpId, Response>

    constructor ()
      ensures State() == IDLE
    {
      closed, pending, owner, ready := false, 0, NoTask, NotReady;
      queue, responses, closers := [], map[], map[];
    }

    function State(): Session
      reads this
    {
      Session(closed, pending, owner, ready, queue, responses, closers)
    }

    /** `_request` and `_start_unlocked` up to the first wait: the operation is queued at
        once on a live owner, or a new owner is started first. */
    method Request(op: OpId) returns (queued: bool)
      modifies this
      ensures queued <==> !old(closed) && Live(old(State()))
      ensures State() == if old(closed) then old(State())
                         else if queued then Enqueue(old(State()), op)
                         else Restart(old(State()))
    {
      queued := false;
      if closed {
        return;
      }
      if Live(State()) {
        PutOperation(op);
        return true;
      }
      owner, ready, queue := Starting, NotReady, [];
    }

    method PutOperation(op: OpId)
      modifies this
      ensures State() == Enqueue(old(State()), op)
    {
      pending := pending + 1;
      responses := responses[op := Pending];
      queue := queue + [Operation(op)];
    }

    /** `_serve`'s loop over entries that are already there. */
    method ServeQueued() returns (finished: seq<Finish>)
      modifies this
      ensures State() == Serve(old(State())).0 && finished == Serve(old(State())).1
    {
      finished := [];
      while owner == Waiting && queue != []
        invariant Serve(old(State())).0 == Serve(State()).0
        invariant Serve(old(State())).1 == finished + Serve(State()).1
        decreases |queue|
      {
        ghost var before := State();
        var one := TakeEntry();
        ServeUnfold(before, finished);
        finished := finished + one;
      }
    }

    method TakeEntry() returns (finished: seq<Finish>)
      requires queue != []
      modifies this
      ensures State() == TakeOne(old(State())).0 && finished == TakeOne(old(State())).1
    {
      finished := [];
      var entry := queue[0];
      queue := queue[1..];
      match entry {
        case Close(c) =>
          closers := Settle(closers, c, Value);
          owner := Unwinding;
        case Operation(op) =>
          if op in responses && responses[op] == Cancelled {
            pending := pending - 1;
            finished := [Finish(op, WaiterGone)];
          } else {
            owner := InHand(op);
          }
      }
    }

    method UpstreamAnswered(ok: bool) returns (finished: seq<Finish>)
      requires owner.InHand?
      modifies this
      ensures (State(), finished) == Answered(old(State()), ok)
      ensures responses.Keys == old(responses.Keys)
      ensures forall o :: o in responses && o != old(owner.op) ==> responses[o] == old(responses)[o]
      ensures old(owner.op in responses && responses[owner.op] == Pending) ==>
                responses[old(owner.op)] == if ok then Value else Raised
      ensures old(owner.op in responses && responses[owner.op] != Pending) ==> responses == old(responses)
      ensures owner == Waiting && pending == old(pending) - 1 && queue == old(queue)
    {
      responses := Settle(responses, owner.op, if ok then Value else Raised);
      pending := pending - 1;
      finished := [Finish(owner.op, if ok then Succeeded else UpstreamFailed)];
      owner := Waiting;
    }

    method Interrupt() returns (finished: seq<Finish>)
      requires Live(State())
      modifies this
      ensures (State(), finished) == Interrupted(old(State()))
    {
      finished := [];
      if owner.InHand? {
        pending := pending - 1;
        finished := [Finish(owner.op, OwnerCut)];
      }
      owner := Unwinding;
    }

    /** The `finally` of the owner: whatever is still queued is counted down and answered
        with the failure. */
    method DrainAndEnd() returns (finished: seq<Finish>)
      modifies this
      ensures State() == Finale(old(State())).0 && finished == Finale(old(State())).1
    {
      finished := [];
      while queue != []
        invariant Drain(old(State())).0 == Drain(State()).0
        invariant Drain(old(State())).1 == finished + Drain(State()).1
        invariant ready == old(ready)
        decreases |queue|
      {
        ghost var before := State();
        var one := DrainEntry();
        DrainUnfold(before, finished);
        finished := finished + one;
      }
      if ready == NotReady {
        ready := ReadyFailed;
      }
      owner := Ended;
    }

    method DrainEntry() returns (finished: seq<Finish>)
      requires queue != []
      modifies this
      ensures State() == DrainOne(old(State())).0 && finished == DrainOne(old(State())).1
      ensures ready == old(ready)
    {
      finished := [];
      var entry := queue[0];
      queue := queue[1..];
      match entry {
        case Close(c) => closers := Settle(closers, c, Raised);
        case Operation(op) =>
          pending := pending - 1;
          finished := [Finish(op, Drained)];
          responses := Settle(responses, op, Raised);
      }
    }
  }

  lemma ServeUnfold(s: Session, sofar: seq<Finish>)
    requires s.owner == Waiting && s.queue != []
    ensures Serve(s).0 == Serve(TakeOne(s).0).0
    ensures sofar + Serve(s).1 == sofar + TakeOne(s).1 + Serve(TakeOne(s).0).1
  {
    var one, rest := TakeOne(s).1, Serve(TakeOne(s).0).1;
    assert Serve(s).1 == one + rest;
    assert sofar + (one + rest) == sofar + one + rest;
  }

  lemma DrainUnfold(s: Session, sofar: seq<Finish>)
    requires s.queue != []
    ensures Drain(s).0 == Drain(DrainOne(s).0).0
    ensures sofar + Drain(s).1 == sofar + DrainOne(s).1 + Drain(DrainOne(s).0).1
  {
    var one, rest := DrainOne(s).1, Drain(DrainOne(s).0).1;
    assert Drain(s).1 == one + rest;
    assert sofar + (one + rest) == sofar + one + rest;
  }
}
