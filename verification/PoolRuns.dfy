/** Runs of the graph client: calls that pin sessions, trims at any time, one close. */
module PoolRuns {
  import opened Common
  import opened SessionPool

  type CallId = nat

  /** A call inside its `try`, with the slot it found. */
  type Calls = map<CallId, Slot>

  /** The client with its outstanding calls; `used` is when each directory was last asked for. */
  datatype PoolSys = PoolSys(pool: Pool, calls: Calls, used: map<string, nat>, clock: nat)

  datatype PoolEvent =
    | CallBegins(call: CallId, cwd: string, newId: SessionId, started: bool, working: set<SessionId>)
    | CallEnds(call: CallId, unpinned: bool, working: set<SessionId>)
    | Describes(cwd: string, newId: SessionId, started: bool, discovered: bool, working: set<SessionId>)
    | ActivityTrim(working: set<SessionId>)
    | ClientCloses

  const FIRST := PoolSys(Pool([], map[], false), map[], map[], 0)

  predicate NewSession(p: Pool, s: SessionId) {
    s !in p.pins && forall i :: 0 <= i < |p.slots| ==> p.slots[i].session != s
  }

  predicate PoolEnabled(y: PoolSys, e: PoolEvent) {
    match e
    case CallBegins(call, _, newId, _, _) => call !in y.calls && NewSession(y.pool, newId)
    case CallEnds(call, _, _) => call in y.calls
    case Describes(_, newId, _, _, _) => NewSession(y.pool, newId)
    case ActivityTrim(_) => !y.pool.closed
    case ClientCloses => true
  }

  /** `_get_session_unlocked` raises. */
  predicate Refused(p: Pool, cwd: string, started: bool) {
    p.closed || (!started && IndexOf(p.slots, cwd) == |p.slots|)
  }

  /** A cancellation that hits the lock in the `finally` leaves the pin behind. */
  function PoolStep(y: PoolSys, e: PoolEvent, limit: nat): PoolSys
    requires PoolEnabled(y, e)
  {
    match e
    case CallBegins(call, cwd, newId, started, working) =>
      if Refused(y.pool, cwd, started) then y
      else PoolSys(BeginCall(y.pool, cwd, newId, limit, working),
                   y.calls[call := Slot(cwd, Chosen(y.pool, cwd, newId))], y.used[cwd := y.clock], y.clock + 1)
    case CallEnds(call, unpinned, working) =>
      y.(calls := y.calls - {call},
         pool := if unpinned then EndCall(y.pool, y.calls[call].session, limit, working) else y.pool)
    case Describes(cwd, newId, started, discovered, working) =>
      if Refused(y.pool, cwd, started) then y
      else y.(pool := Described(y.pool, cwd, newId, discovered, limit, working), used := y.used[cwd := y.clock],
              clock := y.clock + 1)
    case ActivityTrim(working) => y.(pool := TrimPool(y.pool, limit, None, working))
    case ClientCloses => y.(pool := Pool([], y.pool.pins, true))
  }

  // --------------------------------------------------------------- invariant

  function CallsOn(calls: Calls, s: SessionId): set<CallId> {
    set c | c in calls && calls[c].session == s
  }

  predicate InUse(slots: seq<Slot>, used: map<string, nat>, clock: nat) {
    forall i :: 0 <= i < |slots| ==> slots[i].cwd in used && used[slots[i].cwd] < clock
  }

  /** Least recently used first; in particular no directory has two sessions. */
  predicate ByRecency(slots: seq<Slot>, used: map<string, nat>, clock: nat) {
    && InUse(slots, used, clock)
    && forall i, j :: 0 <= i < j < |slots| ==> used[slots[i].cwd] < used[slots[j].cwd]
  }

  /** Every outstanding call is counted in the pins of its session. */
  ghost predicate Pinned(pins: Pins, calls: Calls) {
    forall s :: PinnedOn(pins, calls, s)
  }

  ghost predicate PinnedOn(pins: Pins, calls: Calls, s: SessionId) {
    PinCount(pins, s) >= |CallsOn(calls, s)|
  }

  predicate CallsResident(slots: seq<Slot>, calls: Calls) {
    forall c :: c in calls ==> calls[c] in slots
  }

  ghost predicate PoolInv(y: PoolSys) {
    && ByRecency(y.pool.slots, y.used, y.clock)
    && Pinned(y.pool.pins, y.calls)
    && (if y.pool.closed then y.pool.slots == [] else CallsResident(y.pool.slots, y.calls))
  }

  // -------------------------------------------------------------- the pieces

  lemma ConsByRecency(slots: seq<Slot>, rest: seq<Slot>, used: map<string, nat>, clock: nat)
    requires slots != [] && ByRecency(slots, used, clock) && ByRecency(rest, used, clock)
    requires forall x :: x in rest ==> x in slots[1..]
    ensures ByRecency([slots[0]] + rest, used, clock)
  {
    forall j | 0 <= j < |rest| ensures used[slots[0].cwd] < used[rest[j].cwd] {
      assert rest[j] in slots[1..];
    }
  }

  lemma {:induction false} DropByRecency(slots: seq<Slot>, n: nat, protected: Option<string>, busy: set<SessionId>,
                                         used: map<string, nat>, clock: nat)
    requires ByRecency(slots, used, clock)
    ensures ByRecency(DropIdle(slots, n, protected, busy), used, clock)
    ensures forall x :: x in DropIdle(slots, n, protected, busy) ==> x in slots
  {
    if n > 0 && slots != [] {
      if Evictable(slots[0], protected, busy) {
        DropByRecency(slots[1..], n - 1, protected, busy, used, clock);
      } else {
        DropByRecency(slots[1..], n, protected, busy, used, clock);
        ConsByRecency(slots, DropIdle(slots[1..], n, protected, busy), used, clock);
      }
    }
  }

  lemma {:induction false} IdleByRecency(slots: seq<Slot>, protected: Option<string>, busy: set<SessionId>,
                                         used: map<string, nat>, clock: nat)
    requires ByRecency(slots, used, clock)
    ensures ByRecency(Idle(slots, protected, busy), used, clock)
    ensures forall x :: x in Idle(slots, protected, busy) <==> x in slots && Evictable(x, protected, busy)
  {
    if slots != [] {
      IdleByRecency(slots[1..], protected, busy, used, clock);
      if Evictable(slots[0], protected, busy) {
        ConsByRecency(slots, Idle(slots[1..], protected, busy), used, clock);
      }
    }
  }

  /** What a trim closes was used before every idle session that it keeps. */
  lemma EvictsLeastRecentlyUsed(slots: seq<Slot>, limit: nat, protected: Option<string>, busy: set<SessionId>,
                                used: map<string, nat>, clock: nat, gone: Slot, kept: Slot)
    requires ByRecency(slots, used, clock)
    requires gone in slots && gone !in Trimmed(slots, limit, protected, busy)
    requires kept in Trimmed(slots, limit, protected, busy) && Evictable(kept, protected, busy)
    ensures gone.cwd in used && kept.cwd in used && used[gone.cwd] < used[kept.cwd]
  {
    var n := Evictions(slots, limit, protected, busy);
    var idle := Idle(slots, protected, busy);
    IdleByRecency(slots, protected, busy, used, clock);
    DropPartitions(slots, n, protected, busy);
    assert gone in multiset(slots) && gone in idle[..n];
    DropCounts(slots, n, protected, busy);
    DropByRecency(slots, n, protected, busy, used, clock);
    IdleByRecency(Trimmed(slots, limit, protected, busy), protected, busy, used, clock);
    assert kept in idle[n..];
    var i :| 0 <= i < n && idle[i] == gone;
    var j :| n <= j < |idle| && idle[j] == kept;
  }

  /** One slot moved to the end and marked as the newest. */
  lemma MovedByRecency(slots: seq<Slot>, i: nat, used: map<string, nat>, clock: nat)
    requires ByRecency(slots, used, clock) && i < |slots|
    ensures ByRecency(slots[..i] + slots[i + 1..] + [slots[i]], used[slots[i].cwd := clock], clock + 1)
  {
    var rest := slots[..i] + slots[i + 1..];
    forall k | 0 <= k < |slots| && k != i ensures slots[k].cwd != slots[i].cwd {
      assert used[slots[k].cwd] != used[slots[i].cwd];
    }
    forall k | 0 <= k < |rest| ensures rest[k] == slots[if k < i then k else k + 1] {}
    AppendedByRecency(rest, slots[i], used, clock);
  }

  lemma AppendedByRecency(slots: seq<Slot>, x: Slot, used: map<string, nat>, clock: nat)
    requires ByRecency(slots, used, clock)
    requires forall k :: 0 <= k < |slots| ==> slots[k].cwd != x.cwd
    ensures ByRecency(slots + [x], used[x.cwd := clock], clock + 1)
  {
  }

  lemma TouchedByRecency(slots: seq<Slot>, cwd: string, newId: SessionId, used: map<string, nat>, clock: nat)
    requires ByRecency(slots, used, clock)
    ensures ByRecency(Touched(slots, cwd, newId), used[cwd := clock], clock + 1)
  {
    var i := IndexOf(slots, cwd);
    if i < |slots| {
      MovedByRecency(slots, i, used, clock);
    } else {
      AppendedByRecency(slots, Slot(cwd, newId), used, clock);
    }
  }

  /** Touching a directory loses no slot, and the chosen session is the last one. */
  lemma TouchedKeeps(slots: seq<Slot>, cwd: string, newId: SessionId)
    ensures forall x :: x in slots ==> x in Touched(slots, cwd, newId)
  {
    var i := IndexOf(slots, cwd);
    if i < |slots| {
      assert slots == slots[..i] + [slots[i]] + slots[i + 1..];
    }
  }

  lemma BusyStays(slots: seq<Slot>, pins: Pins, calls: Calls, protected: Option<string>, working: set<SessionId>, n: nat)
    requires Pinned(pins, calls) && CallsResident(slots, calls)
    ensures CallsResident(DropIdle(slots, n, protected, Busy(pins, working)), calls)
  {
    forall c | c in calls ensures calls[c] in DropIdle(slots, n, protected, Busy(pins, working)) {
      var s := calls[c].session;
      assert c in CallsOn(calls, s);
      assert PinnedOn(pins, calls, s) && PinCount(pins, s) > 0;
      DropKeepsBusy(slots, n, protected, Busy(pins, working), calls[c]);
    }
  }

  lemma PinnedBegins(pins: Pins, calls: Calls, call: CallId, slot: Slot)
    requires Pinned(pins, calls) && call !in calls
    ensures Pinned(pins[slot.session := PinCount(pins, slot.session) + 1], calls[call := slot])
  {
    var more := calls[call := slot];
    var after := pins[slot.session := PinCount(pins, slot.session) + 1];
    forall s ensures PinnedOn(after, more, s) {
      assert PinnedOn(pins, calls, s);
      assert CallsOn(more, s) == if s == slot.session then CallsOn(calls, s) + {call} else CallsOn(calls, s);
    }
  }

  lemma PinnedEnds(pins: Pins, calls: Calls, call: CallId, unpinned: bool)
    requires Pinned(pins, calls) && call in calls
    ensures PinCount(pins, calls[call].session) > 0
    ensures Pinned(if unpinned then pins[calls[call].session := PinCount(pins, calls[call].session) - 1] else pins,
                   calls - {call})
  {
    var here := calls[call].session;
    assert call in CallsOn(calls, here) && PinnedOn(pins, calls, here);
    var after := if unpinned then pins[here := PinCount(pins, here) - 1] else pins;
    var fewer := calls - {call};
    forall s ensures PinnedOn(after, fewer, s) {
      assert PinnedOn(pins, calls, s);
      assert CallsOn(calls - {call}, s) == if s == here then CallsOn(calls, s) - {call} else CallsOn(calls, s);
    }
  }

  /** Any trim keeps the invariant. */
  lemma TrimKeepsInv(y: PoolSys, limit: nat, protected: Option<string>, working: set<SessionId>)
    requires PoolInv(y)
    ensures PoolInv(y.(pool := TrimPool(y.pool, limit, protected, working)))
  {
    var busy := Busy(y.pool.pins, working);
    var n := Evictions(y.pool.slots, limit, protected, busy);
    DropByRecency(y.pool.slots, n, protected, busy, y.used, y.clock);
    if !y.pool.closed {
      BusyStays(y.pool.slots, y.pool.pins, y.calls, protected, working, n);
    }
  }

  lemma TouchKeepsInv(y: PoolSys, cwd: string, newId: SessionId)
    requires PoolInv(y) && !y.pool.closed
    ensures PoolInv(y.(pool := y.pool.(slots := Touched(y.pool.slots, cwd, newId)),
                       used := y.used[cwd := y.clock], clock := y.clock + 1))
  {
    TouchedByRecency(y.pool.slots, cwd, newId, y.used, y.clock);
    TouchedKeeps(y.pool.slots, cwd, newId);
  }

  /** A call that found or started its session and pinned it, before it trims. */
  function Pinning(y: PoolSys, call: CallId, cwd: string, newId: SessionId): PoolSys {
    var s := Chosen(y.pool, cwd, newId);
    PoolSys(Pool(Touched(y.pool.slots, cwd, newId), y.pool.pins[s := PinCount(y.pool.pins, s) + 1], y.pool.closed),
            y.calls[call := Slot(cwd, s)], y.used[cwd := y.clock], y.clock + 1)
  }

  lemma PinningKeepsInv(y: PoolSys, call: CallId, cwd: string, newId: SessionId)
    requires PoolInv(y) && !y.pool.closed && call !in y.calls
    ensures PoolInv(Pinning(y, call, cwd, newId))
  {
    var r := Touched(y.pool.slots, cwd, newId);
    TouchedByRecency(y.pool.slots, cwd, newId, y.used, y.clock);
    TouchedKeeps(y.pool.slots, cwd, newId);
    PinnedBegins(y.pool.pins, y.calls, call, r[|r| - 1]);
  }

  lemma BeginKeepsInv(y: PoolSys, e: PoolEvent, limit: nat)
    requires PoolInv(y) && e.CallBegins? && e.call !in y.calls && !y.pool.closed
    ensures PoolInv(y.(pool := BeginCall(y.pool, e.cwd, e.newId, limit, e.working),
                       calls := y.calls[e.call := Slot(e.cwd, Chosen(y.pool, e.cwd, e.newId))],
                       used := y.used[e.cwd := y.clock], clock := y.clock + 1))
  {
    PinningKeepsInv(y, e.call, e.cwd, e.newId);
    TrimKeepsInv(Pinning(y, e.call, e.cwd, e.newId), limit, Some(e.cwd), e.working);
    PinnedAndTrimmed(y, e, limit);
  }

  lemma PinnedAndTrimmed(y: PoolSys, e: PoolEvent, limit: nat)
    requires e.CallBegins?
    ensures var p := Pinning(y, e.call, e.cwd, e.newId);
      p.(pool := TrimPool(p.pool, limit, Some(e.cwd), e.working))
      == y.(pool := BeginCall(y.pool, e.cwd, e.newId, limit, e.working),
            calls := y.calls[e.call := Slot(e.cwd, Chosen(y.pool, e.cwd, e.newId))],
            used := y.used[e.cwd := y.clock], clock := y.clock + 1)
  {
  }

  lemma UnpinKeepsInv(y: PoolSys, call: CallId, unpinned: bool)
    requires PoolInv(y) && call in y.calls
    ensures PinCount(y.pool.pins, y.calls[call].session) > 0
    ensures var s := y.calls[call].session;
      PoolInv(y.(calls := y.calls - {call},
                 pool := if unpinned then y.pool.(pins := y.pool.pins[s := PinCount(y.pool.pins, s) - 1]) else y.pool))
  {
    PinnedEnds(y.pool.pins, y.calls, call, unpinned);
  }

  lemma EndKeepsInv(y: PoolSys, e: PoolEvent, limit: nat)
    requires PoolInv(y) && PoolEnabled(y, e) && e.CallEnds?
    ensures PoolInv(PoolStep(y, e, limit))
  {
    var s := y.calls[e.call].session;
    UnpinKeepsInv(y, e.call, e.unpinned);
    if e.unpinned {
      var one := y.(calls := y.calls - {e.call},
                    pool := y.pool.(pins := y.pool.pins[s := PinCount(y.pool.pins, s) - 1]));
      TrimKeepsInv(one, limit, None, e.working);
    }
  }

  lemma DescribeKeepsInv(y: PoolSys, e: PoolEvent, limit: nat)
    requires PoolInv(y) && PoolEnabled(y, e) && e.Describes? && !Refused(y.pool, e.cwd, e.started)
    ensures PoolInv(PoolStep(y, e, limit))
  {
    TouchKeepsInv(y, e.cwd, e.newId);
    if !e.discovered {
      return;
    }
    TrimKeepsInv(y.(pool := y.pool.(slots := Touched(y.pool.slots, e.cwd, e.newId)),
                    used := y.used[e.cwd := y.clock], clock := y.clock + 1), limit, Some(e.cwd), e.working);
  }

  lemma PoolStepKeepsInv(y: PoolSys, e: PoolEvent, limit: nat)
    requires PoolInv(y) && PoolEnabled(y, e)
    ensures PoolInv(PoolStep(y, e, limit))
  {
    match e
    case CallBegins(_, cwd, _, started, _) =>
      if !Refused(y.pool, cwd, started) {
        BeginKeepsInv(y, e, limit);
      }
    case CallEnds(_, _, _) => EndKeepsInv(y, e, limit);
    case Describes(cwd, _, started, _, _) =>
      if !Refused(y.pool, cwd, started) {
        DescribeKeepsInv(y, e, limit);
      }
    case ActivityTrim(working) => TrimKeepsInv(y, limit, None, working);
    case ClientCloses =>
  }

  // --------------------------------------------------------- outstanding calls

  /** The call gets its session: the client is open and the directory has one or gets one. */
  predicate CallOpens(y: PoolSys, e: PoolEvent, c: CallId) {
    && e.CallBegins? && e.call == c && !y.pool.closed
    && (e.started || exists x :: x in y.pool.slots && x.cwd == e.cwd)
  }

  /** The end of a call on this session skips its unpin. */
  predicate Skips(y: PoolSys, e: PoolEvent, s: SessionId) {
    e.CallEnds? && !e.unpinned && e.call in y.calls && y.calls[e.call].session == s
  }

  /** A call is outstanding from the event that gives it a session, the one its directory has
      or else the new one, until its end. */
  lemma EventCalls(y: PoolSys, e: PoolEvent, limit: nat, c: CallId)
    requires PoolEnabled(y, e)
    ensures var z := PoolStep(y, e, limit);
      && (c in z.calls <==> CallOpens(y, e, c) || (c in y.calls && !(e.CallEnds? && e.call == c)))
      && (c in z.calls && c in y.calls ==> z.calls[c] == y.calls[c])
      && (CallOpens(y, e, c) ==>
            && z.calls[c].cwd == e.cwd
            && (z.calls[c] in y.pool.slots || z.calls[c].session == e.newId)
            && (z.calls[c].session == e.newId ==> forall x :: x in y.pool.slots ==> x.cwd != e.cwd))
  {
    if e.CallBegins? && e.call == c {
      ChosenSlot(y.pool.slots, e.cwd, e.newId);
    }
  }

  lemma ChosenSlot(slots: seq<Slot>, cwd: string, newId: SessionId)
    ensures var x := Slot(cwd, Chosen(Pool(slots, map[], false), cwd, newId));
      if exists y :: y in slots && y.cwd == cwd then x in slots else x.session == newId
    ensures IndexOf(slots, cwd) == |slots| <==> forall y :: y in slots ==> y.cwd != cwd
  {
    var i := IndexOf(slots, cwd);
    if i < |slots| {
      assert slots[i] in slots;
    }
  }

  /** A directory that was asked for with success has a session in the map afterwards: the
      one it had, or the new one. Neither its own trim nor anything else takes it away. */
  lemma AskedForStays(y: PoolSys, e: PoolEvent, limit: nat) returns (x: Slot)
    requires PoolEnabled(y, e) && (e.CallBegins? || e.Describes?) && !y.pool.closed
    requires e.started || exists x :: x in y.pool.slots && x.cwd == e.cwd
    ensures x in PoolStep(y, e, limit).pool.slots && x.cwd == e.cwd
    ensures x in y.pool.slots || (x.session == e.newId && forall o :: o in y.pool.slots ==> o.cwd != e.cwd)
  {
    ChosenSlot(y.pool.slots, e.cwd, e.newId);
    var slots := Touched(y.pool.slots, e.cwd, e.newId);
    x := slots[|slots| - 1];
    var p := if e.CallBegins? then PinnedPool(y.pool, e.cwd, e.newId) else TouchedPool(y.pool, e.cwd, e.newId);
    var busy := Busy(p.pins, e.working);
    DropKeepsBusy(slots, Evictions(slots, limit, Some(e.cwd), busy), Some(e.cwd), busy, x);
  }

  /** Pins that no outstanding call accounts for. */
  function Surplus(pins: Pins, calls: Calls, s: SessionId): int {
    PinCount(pins, s) - |CallsOn(calls, s)|
  }

  lemma CallAdded(calls: Calls, c: CallId, x: Slot, s: SessionId)
    requires c !in calls
    ensures |CallsOn(calls[c := x], s)| == |CallsOn(calls, s)| + if x.session == s then 1 else 0
  {
    assert CallsOn(calls[c := x], s) == CallsOn(calls, s) + if x.session == s then {c} else {};
  }

  lemma CallRemoved(calls: Calls, c: CallId, s: SessionId)
    requires c in calls
    ensures |CallsOn(calls - {c}, s)| == |CallsOn(calls, s)| - if calls[c].session == s then 1 else 0
  {
    assert CallsOn(calls, s) == CallsOn(calls - {c}, s) + if calls[c].session == s then {c} else {};
  }

  /** A call takes one pin and its end gives it back, unless the end skips that; no other
      event touches a pin. */
  lemma EventPins(y: PoolSys, e: PoolEvent, limit: nat, s: SessionId)
    requires Pinned(y.pool.pins, y.calls) && PoolEnabled(y, e)
    ensures var z := PoolStep(y, e, limit);
      Surplus(z.pool.pins, z.calls, s) == Surplus(y.pool.pins, y.calls, s) + if Skips(y, e, s) then 1 else 0
  {
    match e
    case CallBegins(call, cwd, newId, started, _) =>
      if !Refused(y.pool, cwd, started) {
        CallAdded(y.calls, call, Slot(cwd, Chosen(y.pool, cwd, newId)), s);
      }
    case CallEnds(call, _, _) =>
      var here := y.calls[call].session;
      assert call in CallsOn(y.calls, here) && PinnedOn(y.pool.pins, y.calls, here);
      CallRemoved(y.calls, call, s);
    case _ =>
  }

  // --------------------------------------------------------------------- runs

  ghost predicate PoolRun(limit: nat, ys: seq<PoolSys>, es: seq<PoolEvent>) {
    && |ys| == |es| + 1 && ys[0] == FIRST
    && forall i :: 0 <= i < |es| ==> PoolEnabled(ys[i], es[i]) && ys[i + 1] == PoolStep(ys[i], es[i], limit)
  }

  lemma {:induction false} PoolRunInv(limit: nat, ys: seq<PoolSys>, es: seq<PoolEvent>, i: nat)
    requires PoolRun(limit, ys, es) && i < |ys|
    ensures PoolInv(ys[i])
    decreases i
  {
    if i == 0 {
      assert forall s :: CallsOn(map[], s) == {};
    } else {
      PoolRunInv(limit, ys, es, i - 1);
      PoolStepKeepsInv(ys[i - 1], es[i - 1], limit);
    }
  }

  lemma {:induction false} ClosedForever(limit: nat, ys: seq<PoolSys>, es: seq<PoolEvent>, i: nat, k: nat)
    requires PoolRun(limit, ys, es) && i <= k < |ys| && ys[i].pool.closed
    ensures ys[k].pool.closed && ys[k].pool.slots == []
    decreases k
  {
    PoolRunInv(limit, ys, es, k);
    if i < k {
      ClosedForever(limit, ys, es, i, k - 1);
      var e := es[k - 1];
      assert PoolStep(ys[k - 1], e, limit).pool.closed;
    }
  }

  /** In every run a session with an outstanding call stays in the map, under the directory
      it was asked for, unless the client was closed; and a closed client's map stays empty. */
  lemma PinnedUntilClose(limit: nat, ys: seq<PoolSys>, es: seq<PoolEvent>, i: nat, c: CallId)
    requires PoolRun(limit, ys, es) && i < |ys| && c in ys[i].calls
    ensures ys[i].calls[c] in ys[i].pool.slots
            || (exists k :: 0 <= k < i && es[k] == ClientCloses)
    ensures forall k :: 0 <= k < i && es[k] == ClientCloses ==> ys[i].pool.slots == []
  {
    PoolRunInv(limit, ys, es, i);
    if ys[i].pool.closed {
      CloseHappened(limit, ys, es, i);
    }
    forall k | 0 <= k < i && es[k] == ClientCloses ensures ys[i].pool.slots == [] {
      ClosedForever(limit, ys, es, k + 1, i);
    }
  }

  lemma {:induction false} CloseHappened(limit: nat, ys: seq<PoolSys>, es: seq<PoolEvent>, i: nat)
    requires PoolRun(limit, ys, es) && i < |ys| && ys[i].pool.closed
    ensures exists k :: 0 <= k < i && es[k] == ClientCloses
    decreases i
  {
    if es[i - 1] != ClientCloses {
      assert ys[i] == PoolStep(ys[i - 1], es[i - 1], limit);
      CloseHappened(limit, ys, es, i - 1);
    }
  }
}
