/** The graph client together with the queues of its sessions: what is pinned by a call or
    has an operation pending is never closed to make room. */
module ClientRuns {
  import opened Common
  import opened SessionPool
  import opened PoolRuns
  import OperationQueue
  import QueueRuns

  /** The client, and the queue of every session object ever made. */
  datatype ClientSys = ClientSys(p: PoolSys, queues: map<SessionId, QueueRuns.QueueSys>)

  /** A session object is made; a locked section of the client runs; a session moves on. */
  datatype ClientEvent =
    | Makes(session: SessionId)
    | InPool(e: PoolEvent)
    | InQueue(session: SessionId, q: QueueRuns.QueueEvent)

  const NOBODY := ClientSys(PoolRuns.FIRST, map[])

  /** `has_active_work` apart from `active_calls`: operations pending in the queue. */
  function Working(queues: map<SessionId, QueueRuns.QueueSys>): set<SessionId> {
    set s | s in queues && queues[s].s.pending > 0
  }

  predicate ClientEnabled(c: ClientSys, e: ClientEvent) {
    match e
    case Makes(s) => s !in c.queues
    case InPool(pe) =>
      && PoolEnabled(c.p, pe)
      && (!pe.ClientCloses? ==> pe.working == Working(c.queues))
      && (pe.CallBegins? || pe.Describes? ==> pe.newId in c.queues)
    case InQueue(s, qe) => s in c.queues && QueueRuns.QueueEnabled(c.queues[s], qe)
  }

  function ClientStep(c: ClientSys, e: ClientEvent, limit: nat): ClientSys
    requires ClientEnabled(c, e)
  {
    match e
    case Makes(s) => c.(queues := c.queues[s := QueueRuns.FIRST])
    case InPool(pe) => c.(p := PoolStep(c.p, pe, limit))
    case InQueue(s, qe) => c.(queues := c.queues[s := QueueRuns.QueueStep(c.queues[s], qe)])
  }

  // --------------------------------------------------------------- invariant

  predicate Resident(slots: seq<Slot>, queues: map<SessionId, QueueRuns.QueueSys>) {
    forall x :: x in slots ==> x.session in queues
  }

  ghost predicate ClientInv(c: ClientSys) {
    && PoolInv(c.p)
    && (forall s :: s in c.queues ==> QueueRuns.QueueInv(c.queues[s]))
    && Resident(c.p.pool.slots, c.queues)
  }

  lemma FirstQueueInv()
    ensures QueueRuns.QueueInv(QueueRuns.FIRST)
  {
  }

  lemma TouchedSlots(slots: seq<Slot>, cwd: string, newId: SessionId)
    ensures forall x :: x in Touched(slots, cwd, newId) ==> x in slots || x == Slot(cwd, newId)
  {
  }

  lemma {:induction false} DroppedSlots(slots: seq<Slot>, n: nat, protected: Option<string>, busy: set<SessionId>)
    ensures forall x :: x in DropIdle(slots, n, protected, busy) ==> x in slots
  {
    if n > 0 && slots != [] {
      DroppedSlots(slots[1..], if Evictable(slots[0], protected, busy) then n - 1 else n, protected, busy);
    }
  }

  /** A trim only takes slots away. */
  lemma TrimmedSlots(p: Pool, limit: nat, protected: Option<string>, working: set<SessionId>)
    ensures forall x :: x in TrimPool(p, limit, protected, working).slots ==> x in p.slots
  {
    var busy := Busy(p.pins, working);
    DroppedSlots(p.slots, Evictions(p.slots, limit, protected, busy), protected, busy);
  }

  /** Where a locked section trims: the pool it trims, and the directory it protects. */
  function BeforeTrim(p: Pool, calls: Calls, e: PoolEvent): Pool
    requires e.CallEnds? ==> e.call in calls
  {
    match e
    case CallBegins(_, cwd, newId, started, _) => if Refused(p, cwd, started) then p else PinnedPool(p, cwd, newId)
    case CallEnds(call, unpinned, _) => if unpinned then UnpinnedPool(p, calls[call].session) else p
    case Describes(cwd, newId, started, _, _) => if Refused(p, cwd, started) then p else TouchedPool(p, cwd, newId)
    case _ => p
  }

  predicate Trims(p: Pool, e: PoolEvent) {
    match e
    case CallBegins(_, cwd, _, started, _) => !Refused(p, cwd, started)
    case CallEnds(_, unpinned, _) => unpinned
    case Describes(cwd, _, started, discovered, _) => !Refused(p, cwd, started) && discovered
    case ActivityTrim(_) => true
    case ClientCloses => false
  }

  function Protected(e: PoolEvent): Option<string> {
    match e
    case CallBegins(_, cwd, _, _, _) => Some(cwd)
    case Describes(cwd, _, _, _, _) => Some(cwd)
    case _ => None
  }

  /** Every locked section but the close is a touch or pin, then at most one trim. */
  lemma SectionShape(y: PoolSys, e: PoolEvent, limit: nat)
    requires PoolEnabled(y, e) && !e.ClientCloses?
    ensures var b := BeforeTrim(y.pool, y.calls, e);
      PoolStep(y, e, limit).pool == if Trims(y.pool, e) then TrimPool(b, limit, Protected(e), e.working) else b
    ensures forall x :: x in y.pool.slots ==> x in BeforeTrim(y.pool, y.calls, e).slots
    ensures forall x :: x in BeforeTrim(y.pool, y.calls, e).slots ==>
              x in y.pool.slots || ((e.CallBegins? || e.Describes?) && x == Slot(e.cwd, e.newId))
  {
    if e.CallBegins? || e.Describes? {
      TouchedKeeps(y.pool.slots, e.cwd, e.newId);
      TouchedSlots(y.pool.slots, e.cwd, e.newId);
    }
  }

  lemma PoolKeepsResident(c: ClientSys, e: PoolEvent, limit: nat)
    requires Resident(c.p.pool.slots, c.queues) && ClientEnabled(c, InPool(e))
    ensures Resident(PoolStep(c.p, e, limit).pool.slots, c.queues)
  {
    if !e.ClientCloses? {
      SectionShape(c.p, e, limit);
      TrimmedSlots(BeforeTrim(c.p.pool, c.p.calls, e), limit, Protected(e), e.working);
    }
  }

  lemma ClientStepKeepsInv(c: ClientSys, e: ClientEvent, limit: nat)
    requires ClientInv(c) && ClientEnabled(c, e)
    ensures ClientInv(ClientStep(c, e, limit))
  {
    match e
    case Makes(_) => FirstQueueInv();
    case InPool(pe) =>
      PoolStepKeepsInv(c.p, pe, limit);
      PoolKeepsResident(c, pe, limit);
    case InQueue(s, qe) => QueueRuns.QueueStepKeepsInv(c.queues[s], qe);
  }

  ghost predicate ClientRun(limit: nat, cs: seq<ClientSys>, es: seq<ClientEvent>) {
    && |cs| == |es| + 1 && cs[0] == NOBODY
    && forall i :: 0 <= i < |es| ==> ClientEnabled(cs[i], es[i]) && cs[i + 1] == ClientStep(cs[i], es[i], limit)
  }

  lemma NobodyInv()
    ensures ClientInv(NOBODY)
  {
    forall s ensures PinnedOn(map[], map[], s) {
      assert CallsOn(map[], s) == {};
    }
  }

  lemma {:induction false} ClientRunInv(limit: nat, cs: seq<ClientSys>, es: seq<ClientEvent>, i: nat)
    requires ClientRun(limit, cs, es) && i < |cs|
    ensures ClientInv(cs[i])
    decreases i
  {
    if i == 0 {
      NobodyInv();
    } else {
      ClientRunInv(limit, cs, es, i - 1);
      ClientStepKeepsInv(cs[i - 1], es[i - 1], limit);
    }
  }

  // ------------------------------------------------------------------------ pins

  /** The events before `i` at which a call on the session ended without its unpin: a second
      cancellation hit the wait for the lock in its `finally`. */
  function SkippedEnds(cs: seq<ClientSys>, es: seq<ClientEvent>, i: nat, s: SessionId): set<nat>
    requires i < |cs| == |es| + 1
  {
    set m: nat | m < i && SkipsIn(cs[m], es[m], s)
  }

  predicate SkipsIn(c: ClientSys, e: ClientEvent, s: SessionId) {
    e.InPool? && Skips(c.p, e.e, s)
  }

  lemma SkippedOneMore(cs: seq<ClientSys>, es: seq<ClientEvent>, i: nat, s: SessionId)
    requires 0 < i < |cs| == |es| + 1
    ensures |SkippedEnds(cs, es, i, s)|
            == |SkippedEnds(cs, es, i - 1, s)| + if SkipsIn(cs[i - 1], es[i - 1], s) then 1 else 0
  {
    var now := if SkipsIn(cs[i - 1], es[i - 1], s) then {i - 1} else {};
    assert SkippedEnds(cs, es, i, s) == SkippedEnds(cs, es, i - 1, s) + now;
  }

  /** The event changes the pins of the session as it changes its outstanding calls, and a
      skipped unpin leaves one more. */
  predicate PinStep(c: ClientSys, e: ClientEvent, d: ClientSys, s: SessionId) {
    Surplus(d.p.pool.pins, d.p.calls, s)
    == Surplus(c.p.pool.pins, c.p.calls, s) + if SkipsIn(c, e, s) then 1 else 0
  }

  lemma EventPinsInClient(c: ClientSys, e: ClientEvent, limit: nat, s: SessionId)
    requires Pinned(c.p.pool.pins, c.p.calls) && ClientEnabled(c, e)
    ensures PinStep(c, e, ClientStep(c, e, limit), s)
  {
    if e.InPool? {
      EventPins(c.p, e.e, limit, s);
    }
  }

  /** In every run the pins of a session are its outstanding calls and the ends that skipped
      their unpin, nothing else; without such ends, exactly its outstanding calls. */
  lemma PinsAreOutstandingCalls(limit: nat, cs: seq<ClientSys>, es: seq<ClientEvent>, i: nat, s: SessionId)
    requires ClientRun(limit, cs, es) && i < |cs|
    ensures PinCount(cs[i].p.pool.pins, s) == |CallsOn(cs[i].p.calls, s)| + |SkippedEnds(cs, es, i, s)|
    ensures (forall m :: 0 <= m < i && es[m].InPool? && es[m].e.CallEnds? ==> es[m].e.unpinned) ==>
              PinCount(cs[i].p.pool.pins, s) == |CallsOn(cs[i].p.calls, s)|
  {
    forall m | 0 <= m < |es| ensures PinStep(cs[m], es[m], cs[m + 1], s) {
      ClientRunInv(limit, cs, es, m);
      EventPinsInClient(cs[m], es[m], limit, s);
    }
    assert CallsOn(map[], s) == {};
    PinsSoFar(cs, es, i, s);
    if forall m :: 0 <= m < i && es[m].InPool? && es[m].e.CallEnds? ==> es[m].e.unpinned {
      assert SkippedEnds(cs, es, i, s) == {};
    }
  }

  lemma {:induction false} PinsSoFar(cs: seq<ClientSys>, es: seq<ClientEvent>, i: nat, s: SessionId)
    requires |cs| == |es| + 1 && i < |cs| && Surplus(cs[0].p.pool.pins, cs[0].p.calls, s) == 0
    requires forall m :: 0 <= m < |es| ==> PinStep(cs[m], es[m], cs[m + 1], s)
    ensures Surplus(cs[i].p.pool.pins, cs[i].p.calls, s) == |SkippedEnds(cs, es, i, s)|
    decreases i
  {
    if i == 0 {
      assert SkippedEnds(cs, es, 0, s) == {};
    } else {
      PinsSoFar(cs, es, i - 1, s);
      SkippedOneMore(cs, es, i, s);
      assert PinStep(cs[i - 1], es[i - 1], cs[i - 1 + 1], s);
    }
  }

  // ------------------------------------------------------------------- evictions

  /** No operation of the session is queued or in hand, and none was lost with a dropped
      queue. */
  predicate NothingPending(c: ClientSys, s: SessionId) {
    s in c.queues ==> OperationQueue.Outstanding(c.queues[s].s) == [] && c.queues[s].lost == []
  }

  /** A session may be closed to make room exactly if it is not protected, no call pins it
      and nothing of it is pending. */
  lemma EvictableExactly(c: ClientSys, pins: Pins, x: Slot, protected: Option<string>)
    requires ClientInv(c)
    ensures Evictable(x, protected, Busy(pins, Working(c.queues))) <==>
      protected != Some(x.cwd) && PinCount(pins, x.session) == 0 && NothingPending(c, x.session)
  {
    if x.session in c.queues {
      assert QueueRuns.QueueInv(c.queues[x.session]);
    }
  }

  lemma EvictedByTrim(p: Pool, limit: nat, protected: Option<string>, working: set<SessionId>, x: Slot)
    requires x in p.slots && x !in TrimPool(p, limit, protected, working).slots
    ensures Evictable(x, protected, Busy(p.pins, working))
  {
    var busy := Busy(p.pins, working);
    if !Evictable(x, protected, busy) {
      DropKeepsBusy(p.slots, Evictions(p.slots, limit, protected, busy), protected, busy, x);
    }
  }

  lemma StepEvicts(c: ClientSys, e: PoolEvent, limit: nat, x: Slot)
    requires ClientInv(c) && ClientEnabled(c, InPool(e)) && !e.ClientCloses?
    requires x in c.p.pool.slots && x !in PoolStep(c.p, e, limit).pool.slots
    ensures PinCount(PoolStep(c.p, e, limit).pool.pins, x.session) == 0 && NothingPending(c, x.session)
  {
    SectionShape(c.p, e, limit);
    var b := BeforeTrim(c.p.pool, c.p.calls, e);
    EvictedByTrim(b, limit, Protected(e), e.working, x);
    EvictableExactly(c, b.pins, x, Protected(e));
  }

  /** In every run of the client with its sessions: a session that leaves the map otherwise
      than by the client's close has no outstanding call, and no operation queued or in
      hand. */
  lemma EvictedHasNoWork(limit: nat, cs: seq<ClientSys>, es: seq<ClientEvent>, i: nat, x: Slot)
    requires ClientRun(limit, cs, es) && i < |es| && es[i] != InPool(ClientCloses)
    requires x in cs[i].p.pool.slots && x !in cs[i + 1].p.pool.slots
    ensures CallsOn(cs[i + 1].p.calls, x.session) == {}
    ensures x.session in cs[i + 1].queues
    ensures OperationQueue.Outstanding(cs[i + 1].queues[x.session].s) == []
  {
    ClientRunInv(limit, cs, es, i);
    ClientRunInv(limit, cs, es, i + 1);
    assert cs[i + 1] == ClientStep(cs[i], es[i], limit);
    StepEvicts(cs[i], es[i].e, limit, x);
    assert PinnedOn(cs[i + 1].p.pool.pins, cs[i + 1].p.calls, x.session);
  }

  /** And the other way round: after a trim the pool is within its limit, or every session in
      it but the protected one has an outstanding call, or an operation queued, in hand or
      lost, or a call of it has ended without its unpin. */
  lemma SparedHasWork(limit: nat, cs: seq<ClientSys>, es: seq<ClientEvent>, i: nat)
    requires ClientRun(limit, cs, es) && i < |es| && es[i].InPool? && Trims(cs[i].p.pool, es[i].e)
    ensures var after := cs[i + 1];
      |after.p.pool.slots| <= limit
      || forall x :: x in after.p.pool.slots && Protected(es[i].e) != Some(x.cwd) ==>
           || CallsOn(after.p.calls, x.session) != {}
           || !NothingPending(after, x.session)
           || SkippedEnds(cs, es, i + 1, x.session) != {}
  {
    SparedIsBusy(limit, cs, es, i);
    forall x {:trigger PinCount(cs[i + 1].p.pool.pins, x.session)} | x in cs[i + 1].p.pool.slots
      ensures PinCount(cs[i + 1].p.pool.pins, x.session)
              == |CallsOn(cs[i + 1].p.calls, x.session)| + |SkippedEnds(cs, es, i + 1, x.session)|
    {
      PinsAreOutstandingCalls(limit, cs, es, i + 1, x.session);
    }
  }

  lemma SparedIsBusy(limit: nat, cs: seq<ClientSys>, es: seq<ClientEvent>, i: nat)
    requires ClientRun(limit, cs, es) && i < |es| && es[i].InPool? && Trims(cs[i].p.pool, es[i].e)
    ensures var after := cs[i + 1];
      |after.p.pool.slots| <= limit
      || forall x :: x in after.p.pool.slots && Protected(es[i].e) != Some(x.cwd) ==>
           PinCount(after.p.pool.pins, x.session) > 0 || !NothingPending(after, x.session)
  {
    ClientRunInv(limit, cs, es, i);
    var c, e := cs[i], es[i].e;
    assert cs[i + 1] == ClientStep(c, es[i], limit);
    SectionShape(c.p, e, limit);
    var b := BeforeTrim(c.p.pool, c.p.calls, e);
    TrimReachesLimit(b.slots, limit, Protected(e), Busy(b.pins, e.working));
    forall x ensures Evictable(x, Protected(e), Busy(b.pins, e.working)) <==>
      Protected(e) != Some(x.cwd) && PinCount(b.pins, x.session) == 0 && NothingPending(c, x.session)
    {
      EvictableExactly(c, b.pins, x, Protected(e));
    }
  }
}
