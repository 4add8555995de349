/** `SamchonGraphClient`: resident graph sessions in least-recently-used order, of which only
    idle ones may be closed to stay within the limit. */
module SessionPool {
  import opened Common

  /** A session object's identity. */
  type SessionId = nat

  datatype Slot = Slot(cwd: string, session: SessionId)

  // -------------------------------------------------------------------- trim

  /** `key != protected and not _session_has_active_work(session)`. */
  predicate Evictable(slot: Slot, protected: Option<string>, busy: set<SessionId>) {
    protected != Some(slot.cwd) && slot.session !in busy
  }

  /** The evictable slots, in order. */
  function Idle(slots: seq<Slot>, protected: Option<string>, busy: set<SessionId>): seq<Slot> {
    if slots == [] then []
    else if Evictable(slots[0], protected, busy) then [slots[0]] + Idle(slots[1..], protected, busy)
    else Idle(slots[1..], protected, busy)
  }

  /** `slots` without its first `n` evictable ones. */
  function DropIdle(slots: seq<Slot>, n: nat, protected: Option<string>, busy: set<SessionId>): seq<Slot> {
    if n == 0 || slots == [] then slots
    else if Evictable(slots[0], protected, busy) then DropIdle(slots[1..], n - 1, protected, busy)
    else [slots[0]] + DropIdle(slots[1..], n, protected, busy)
  }

  function Min(a: int, b: int): int {
    if a <= b then a else b
  }

  /** How many sessions a trim closes: the excess, as far as there are idle ones. */
  function Evictions(slots: seq<Slot>, limit: nat, protected: Option<string>, busy: set<SessionId>): nat {
    if |slots| <= limit then 0 else Min(|slots| - limit, |Idle(slots, protected, busy)|)
  }

  function Trimmed(slots: seq<Slot>, limit: nat, protected: Option<string>, busy: set<SessionId>): seq<Slot> {
    DropIdle(slots, Evictions(slots, limit, protected, busy), protected, busy)
  }

  lemma {:induction false} DropCounts(slots: seq<Slot>, n: nat, protected: Option<string>, busy: set<SessionId>)
    requires n <= |Idle(slots, protected, busy)|
    ensures |DropIdle(slots, n, protected, busy)| == |slots| - n
    ensures Idle(DropIdle(slots, n, protected, busy), protected, busy) == Idle(slots, protected, busy)[n..]
  {
    if n > 0 {
      if Evictable(slots[0], protected, busy) {
        DropCounts(slots[1..], n - 1, protected, busy);
      } else {
        DropCounts(slots[1..], n, protected, busy);
        var rest := DropIdle(slots[1..], n, protected, busy);
        assert ([slots[0]] + rest)[1..] == rest;
      }
    }
  }

  /** Dropping one more evictable slot removes the first that is left. */
  lemma {:induction false} DropOneMore(slots: seq<Slot>, n: nat, protected: Option<string>, busy: set<SessionId>, k: nat)
    requires k < |DropIdle(slots, n, protected, busy)|
    requires Evictable(DropIdle(slots, n, protected, busy)[k], protected, busy)
    requires forall i :: 0 <= i < k ==> !Evictable(DropIdle(slots, n, protected, busy)[i], protected, busy)
    ensures DropIdle(slots, n + 1, protected, busy)
            == DropIdle(slots, n, protected, busy)[..k] + DropIdle(slots, n, protected, busy)[k + 1..]
  {
    if Evictable(slots[0], protected, busy) {
      DropTakesHead(slots, n, protected, busy);
      if n > 0 {
        DropTakesHead(slots, n - 1, protected, busy);
        DropOneMore(slots[1..], n - 1, protected, busy, k);
      }
    } else {
      var rest := DropIdle(slots[1..], n, protected, busy);
      DropKeepsHead(slots, n, protected, busy);
      DropKeepsHead(slots, n + 1, protected, busy);
      VictimInRest(slots[0], rest, protected, busy, k);
      DropOneMore(slots[1..], n, protected, busy, k - 1);
    }
  }

  lemma DropTakesHead(slots: seq<Slot>, n: nat, protected: Option<string>, busy: set<SessionId>)
    requires slots != [] && Evictable(slots[0], protected, busy)
    ensures DropIdle(slots, n + 1, protected, busy) == DropIdle(slots[1..], n, protected, busy)
    ensures DropIdle(slots, 0, protected, busy) == slots && DropIdle(slots[1..], 0, protected, busy) == slots[1..]
  {
  }

  lemma DropKeepsHead(slots: seq<Slot>, n: nat, protected: Option<string>, busy: set<SessionId>)
    requires slots != [] && !Evictable(slots[0], protected, busy)
    ensures DropIdle(slots, n, protected, busy) == [slots[0]] + DropIdle(slots[1..], n, protected, busy)
  {
    assert slots == [slots[0]] + slots[1..];
  }

  lemma VictimInRest(head: Slot, rest: seq<Slot>, protected: Option<string>, busy: set<SessionId>, k: nat)
    requires !Evictable(head, protected, busy)
    requires k <= |rest| && Evictable(([head] + rest)[k], protected, busy)
    requires forall i :: 0 <= i < k ==> !Evictable(([head] + rest)[i], protected, busy)
    ensures k > 0 && Evictable(rest[k - 1], protected, busy)
    ensures forall i :: 0 <= i < k - 1 ==> !Evictable(rest[i], protected, busy)
    ensures ([head] + rest)[..k] + ([head] + rest)[k + 1..] == [head] + (rest[..k - 1] + rest[k..])
  {
    forall i | 0 <= i < k - 1 ensures !Evictable(rest[i], protected, busy) {
      assert rest[i] == ([head] + rest)[i + 1];
    }
    assert ([head] + rest)[..k] == [head] + rest[..k - 1] && ([head] + rest)[k + 1..] == rest[k..];
  }

  /** The first evictable slot by position is the head of the evictable ones. */
  lemma {:induction false} FirstIdle(slots: seq<Slot>, protected: Option<string>, busy: set<SessionId>, k: nat)
    requires k <= |slots|
    requires forall i :: 0 <= i < k ==> !Evictable(slots[i], protected, busy)
    ensures k == |slots| ==> Idle(slots, protected, busy) == []
    ensures k < |slots| && Evictable(slots[k], protected, busy) ==>
              Idle(slots, protected, busy) != [] && Idle(slots, protected, busy)[0] == slots[k]
  {
    if k > 0 {
      FirstIdle(slots[1..], protected, busy, k - 1);
    }
  }

  // ------------------------------------------------------------- what it means

  /** `part` is `whole` with some elements left out. */
  predicate Subsequence(part: seq<Slot>, whole: seq<Slot>) {
    if part == [] then true
    else if whole == [] then false
    else if part[0] == whole[0] && Subsequence(part[1..], whole[1..]) then true
    else Subsequence(part, whole[1..])
  }

  lemma {:induction false} SubsequenceSelf(slots: seq<Slot>)
    ensures Subsequence(slots, slots)
  {
    if slots != [] {
      SubsequenceSelf(slots[1..]);
    }
  }

  /** Dropping keeps the order of the rest. */
  lemma {:induction false} DropKeepsOrder(slots: seq<Slot>, n: nat, protected: Option<string>, busy: set<SessionId>)
    ensures Subsequence(DropIdle(slots, n, protected, busy), slots)
  {
    if n == 0 || slots == [] {
      SubsequenceSelf(slots);
    } else if Evictable(slots[0], protected, busy) {
      DropKeepsOrder(slots[1..], n - 1, protected, busy);
      SubsequenceLonger(DropIdle(slots, n, protected, busy), slots);
    } else {
      DropKeepsOrder(slots[1..], n, protected, busy);
      var rest := DropIdle(slots[1..], n, protected, busy);
      assert ([slots[0]] + rest)[1..] == rest;
    }
  }

  lemma SubsequenceLonger(part: seq<Slot>, whole: seq<Slot>)
    requires whole != [] && Subsequence(part, whole[1..])
    ensures Subsequence(part, whole)
  {
  }

  /** The evictable slots that `DropIdle` drops. */
  function Taken(slots: seq<Slot>, n: nat, protected: Option<string>, busy: set<SessionId>): seq<Slot> {
    if n == 0 || slots == [] then []
    else if Evictable(slots[0], protected, busy) then [slots[0]] + Taken(slots[1..], n - 1, protected, busy)
    else Taken(slots[1..], n, protected, busy)
  }

  lemma {:induction false} TakenAreFirstIdle(slots: seq<Slot>, n: nat, protected: Option<string>, busy: set<SessionId>)
    requires n <= |Idle(slots, protected, busy)|
    ensures Taken(slots, n, protected, busy) == Idle(slots, protected, busy)[..n]
  {
    if n > 0 {
      if Evictable(slots[0], protected, busy) {
        TakenAreFirstIdle(slots[1..], n - 1, protected, busy);
      } else {
        TakenAreFirstIdle(slots[1..], n, protected, busy);
      }
    }
  }

  lemma {:induction false} TakenAndKept(slots: seq<Slot>, n: nat, protected: Option<string>, busy: set<SessionId>)
    ensures multiset(slots)
            == multiset(DropIdle(slots, n, protected, busy)) + multiset(Taken(slots, n, protected, busy))
  {
    if n > 0 && slots != [] {
      var head, rest := slots[0], slots[1..];
      var m := if Evictable(head, protected, busy) then n - 1 else n;
      assert slots == [head] + rest;
      TakenAndKept(rest, m, protected, busy);
      ConsPartition(head, rest, DropIdle(rest, m, protected, busy), Taken(rest, m, protected, busy));
    }
  }

  /** Every slot is either kept or among the first `n` evictable ones, never both. */
  lemma DropPartitions(slots: seq<Slot>, n: nat, protected: Option<string>, busy: set<SessionId>)
    requires n <= |Idle(slots, protected, busy)|
    ensures multiset(slots) == multiset(DropIdle(slots, n, protected, busy)) + multiset(Idle(slots, protected, busy)[..n])
  {
    TakenAreFirstIdle(slots, n, protected, busy);
    TakenAndKept(slots, n, protected, busy);
  }

  lemma ConsPartition(head: Slot, rest: seq<Slot>, kept: seq<Slot>, gone: seq<Slot>)
    requires multiset(rest) == multiset(kept) + multiset(gone)
    ensures multiset([head] + rest) == multiset([head] + kept) + multiset(gone)
    ensures multiset([head] + rest) == multiset(kept) + multiset([head] + gone)
  {
  }

  /** A session that is busy or protected is never dropped. */
  lemma {:induction false} DropKeepsBusy(slots: seq<Slot>, n: nat, protected: Option<string>, busy: set<SessionId>,
                                         x: Slot)
    requires x in slots && !Evictable(x, protected, busy)
    ensures x in DropIdle(slots, n, protected, busy)
  {
    if n > 0 && x != slots[0] {
      DropKeepsBusy(slots[1..], if Evictable(slots[0], protected, busy) then n - 1 else n, protected, busy, x);
    }
  }

  /** After a trim the pool is within its limit, or every unprotected session is busy; and
      it never goes below the limit to get there. */
  lemma TrimReachesLimit(slots: seq<Slot>, limit: nat, protected: Option<string>, busy: set<SessionId>)
    ensures var kept := Trimmed(slots, limit, protected, busy);
      && (|kept| <= limit || forall x :: x in kept ==> !Evictable(x, protected, busy))
      && (|slots| > limit ==> |kept| >= limit)
  {
    DropCounts(slots, Evictions(slots, limit, protected, busy), protected, busy);
    NoIdle(Trimmed(slots, limit, protected, busy), protected, busy);
  }

  lemma {:induction false} NoIdle(slots: seq<Slot>, protected: Option<string>, busy: set<SessionId>)
    ensures Idle(slots, protected, busy) == [] <==> forall x :: x in slots ==> !Evictable(x, protected, busy)
  {
    if slots != [] {
      NoIdle(slots[1..], protected, busy);
      assert forall x :: x in slots <==> x == slots[0] || x in slots[1..];
    }
  }

  // ------------------------------------------------------------------- client

  /** The calls that pin each session; a session that is not listed has none. */
  type Pins = map<SessionId, nat>

  function PinCount(pins: Pins, s: SessionId): nat {
    if s in pins then pins[s] else 0
  }

  /** `has_active_work`: pinned by a call, or with an operation pending in its queue. */
  function Busy(pins: Pins, working: set<SessionId>): set<SessionId> {
    (set s | s in pins && pins[s] > 0) + working
  }

  function IndexOf(slots: seq<Slot>, cwd: string): (i: nat)
    ensures i <= |slots|
    ensures i < |slots| ==> slots[i].cwd == cwd
    ensures forall j :: 0 <= j < i ==> slots[j].cwd != cwd
  {
    if slots == [] || slots[0].cwd == cwd then 0 else 1 + IndexOf(slots[1..], cwd)
  }

  /** The session of `cwd` becomes the most recent one; a new one is appended. */
  function Touched(slots: seq<Slot>, cwd: string, newId: SessionId): (r: seq<Slot>)
    ensures r != [] && r[|r| - 1].cwd == cwd
  {
    var i := IndexOf(slots, cwd);
    if i < |slots| then slots[..i] + slots[i + 1..] + [slots[i]]
    else slots + [Slot(cwd, newId)]
  }

  datatype Pool = Pool(slots: seq<Slot>, pins: Pins, closed: bool)

  /** The session that `_get_session_unlocked` returns. */
  function Chosen(p: Pool, cwd: string, newId: SessionId): SessionId {
    var r := Touched(p.slots, cwd, newId);
    r[|r| - 1].session
  }

  function TrimPool(p: Pool, limit: nat, protected: Option<string>, working: set<SessionId>): Pool {
    p.(slots := Trimmed(p.slots, limit, protected, Busy(p.pins, working)))
  }

  /** What a trim of the pool hands over to be closed. */
  function Evicted(p: Pool, limit: nat, protected: Option<string>, working: set<SessionId>): seq<Slot> {
    var busy := Busy(p.pins, working);
    Idle(p.slots, protected, busy)[..Evictions(p.slots, limit, protected, busy)]
  }

  /** A call has found or started its session and pinned it. */
  function PinnedPool(p: Pool, cwd: string, newId: SessionId): Pool {
    var s := Chosen(p, cwd, newId);
    Pool(Touched(p.slots, cwd, newId), p.pins[s := PinCount(p.pins, s) + 1], p.closed)
  }

  function UnpinnedPool(p: Pool, s: SessionId): Pool {
    p.(pins := p.pins[s := if PinCount(p.pins, s) > 0 then PinCount(p.pins, s) - 1 else 0])
  }

  function TouchedPool(p: Pool, cwd: string, newId: SessionId): Pool {
    p.(slots := Touched(p.slots, cwd, newId))
  }

  /** The first locked section of `call`: find or start the session, pin it, trim. */
  function BeginCall(p: Pool, cwd: string, newId: SessionId, limit: nat, working: set<SessionId>): Pool {
    TrimPool(PinnedPool(p, cwd, newId), limit, Some(cwd), working)
  }

  /** The locked section of its `finally`: unpin, trim. */
  function EndCall(p: Pool, s: SessionId, limit: nat, working: set<SessionId>): Pool {
    TrimPool(UnpinnedPool(p, s), limit, None, working)
  }

  /** The locked section of `describe`; its own discovery may raise after the session was
      found or started, and then nothing is trimmed. */
  function Described(p: Pool, cwd: string, newId: SessionId, discovered: bool, limit: nat, working: set<SessionId>): Pool {
    var touched := TouchedPool(p, cwd, newId);
    if discovered then TrimPool(touched, limit, Some(cwd), working) else touched
  }

  /** What a trim hands over and what it keeps make up the pool, and everything it hands over
      was evictable. */
  lemma EvictedAndKept(p: Pool, limit: nat, protected: Option<string>, working: set<SessionId>)
    ensures multiset(p.slots)
            == multiset(TrimPool(p, limit, protected, working).slots) + multiset(Evicted(p, limit, protected, working))
    ensures forall x :: x in Evicted(p, limit, protected, working) ==>
              Evictable(x, protected, Busy(p.pins, working))
  {
    var busy := Busy(p.pins, working);
    DropPartitions(p.slots, Evictions(p.slots, limit, protected, busy), protected, busy);
    IdleAreEvictable(p.slots, protected, busy);
  }

  lemma {:induction false} IdleAreEvictable(slots: seq<Slot>, protected: Option<string>, busy: set<SessionId>)
    ensures forall x :: x in Idle(slots, protected, busy) ==> Evictable(x, protected, busy)
  {
    if slots != [] {
      IdleAreEvictable(slots[1..], protected, busy);
    }
  }

  class GraphClient {
    const maxSessions: nat
    var slots: seq<Slot>
    var pins: Pins
    var closed: bool

    constructor (maxSessions: nat)
      ensures this.maxSessions == maxSessions && State() == Pool([], map[], false)
    {
      this.maxSessions := maxSessions;
      slots, pins, closed := [], map[], false;
    }

    function State(): Pool
      reads this
    {
      Pool(slots, pins, closed)
    }

    /** `_trim_sessions_unlocked`. */
    method TrimSessions(protected: Option<string>, working: set<SessionId>) returns (evicted: seq<Slot>)
      modifies this`slots
      ensures State() == TrimPool(old(State()), maxSessions, protected, working)
      ensures evicted == Evicted(old(State()), maxSessions, protected, working)
    {
      ghost var before, busy := slots, Busy(pins, working);
      ghost var idle := Idle(before, protected, busy);
      evicted := [];
      while |slots| > maxSessions
        invariant pins == old(pins) && closed == old(closed)
        invariant |evicted| <= |idle| && evicted == idle[..|evicted|]
        invariant slots == DropIdle(before, |evicted|, protected, busy)
        invariant |evicted| <= if |before| > maxSessions then |before| - maxSessions else 0
        decreases |slots|
      {
        DropCounts(before, |evicted|, protected, busy);
        var k := FindVictim(protected, working);
        FirstIdle(slots, protected, busy, k);
        if k == |slots| {
          return;
        }
        DropOneMore(before, |evicted|, protected, busy, k);
        evicted := evicted + [slots[k]];
        slots := slots[..k] + slots[k + 1..];
      }
      DropCounts(before, |evicted|, protected, busy);
    }

    /** The position of the first evictable session, or the number of sessions. */
    method FindVictim(protected: Option<string>, working: set<SessionId>) returns (k: nat)
      ensures k <= |slots|
      ensures forall i :: 0 <= i < k ==> !Evictable(slots[i], protected, Busy(pins, working))
      ensures k < |slots| ==> Evictable(slots[k], protected, Busy(pins, working))
    {
      k := 0;
      while k < |slots|
        invariant k <= |slots|
        invariant forall i :: 0 <= i < k ==> !Evictable(slots[i], protected, Busy(pins, working))
      {
        if Evictable(slots[k], protected, Busy(pins, working)) {
          return;
        }
        k := k + 1;
      }
    }

    /** `_get_session_unlocked`; `started` is the outcome of discovery on a new session. */
    method GetSession(cwd: string, newId: SessionId, started: bool) returns (session: Option<SessionId>)
      modifies this`slots
      ensures session.None? <==> closed || (!started && IndexOf(old(slots), cwd) == |old(slots)|)
      ensures session.None? ==> slots == old(slots)
      ensures session.Some? ==>
        slots == Touched(old(slots), cwd, newId) && session.value == Chosen(old(State()), cwd, newId)
    {
      if closed {
        return None;
      }
      var i := IndexOf(slots, cwd);
      if i < |slots| {
        var slot := slots[i];
        slots := slots[..i] + slots[i + 1..] + [slot];
        return Some(slot.session);
      }
      if !started {
        return None;
      }
      slots := slots + [Slot(cwd, newId)];
      return Some(newId);
    }

    method Call(cwd: string, newId: SessionId, started: bool, working: set<SessionId>)
      returns (session: Option<SessionId>, evicted: seq<Slot>)
      modifies this
      ensures session.None? <==> old(closed) || (!started && IndexOf(old(slots), cwd) == |old(slots)|)
      ensures session.Some? ==> session.value == Chosen(old(State()), cwd, newId)
      ensures State() == if session.None? then old(State())
                         else BeginCall(old(State()), cwd, newId, maxSessions, working)
      ensures evicted == if session.None? then []
                         else Evicted(PinnedPool(old(State()), cwd, newId), maxSessions, Some(cwd), working)
      ensures forall s: SessionId :: PinCount(pins, s) == PinCount(old(pins), s) + if session == Some(s) then 1 else 0
    {
      evicted := [];
      session := GetSession(cwd, newId, started);
      if session.Some? {
        pins := pins[session.value := PinCount(pins, session.value) + 1];
        evicted := TrimSessions(Some(cwd), working);
      }
    }

    method CallFinished(session: SessionId, working: set<SessionId>) returns (evicted: seq<Slot>)
      requires PinCount(pins, session) > 0
      modifies this
      ensures State() == EndCall(old(State()), session, maxSessions, working)
      ensures evicted == Evicted(UnpinnedPool(old(State()), session), maxSessions, None, working)
      ensures forall s: SessionId :: PinCount(pins, s) == PinCount(old(pins), s) - if s == session then 1 else 0
    {
      pins := pins[session := PinCount(pins, session) - 1];
      evicted := TrimSessions(None, working);
    }

    /** `describe`; `discovered` is the outcome of its own discovery. */
    method Describe(cwd: string, newId: SessionId, started: bool, discovered: bool, working: set<SessionId>)
      returns (session: Option<SessionId>, evicted: seq<Slot>)
      modifies this`slots
      ensures session.None? <==> closed || (!started && IndexOf(old(slots), cwd) == |old(slots)|)
      ensures State() == if session.None? then old(State())
                         else Described(old(State()), cwd, newId, discovered, maxSessions, working)
      ensures evicted == if session.None? || !discovered then []
                         else Evicted(TouchedPool(old(State()), cwd, newId), maxSessions, Some(cwd), working)
    {
      evicted := [];
      session := GetSession(cwd, newId, started);
      if session.Some? && discovered {
        evicted := TrimSessions(Some(cwd), working);
      }
    }

    method Close() returns (retired: seq<Slot>)
      modifies this
      ensures State() == Pool([], old(pins), true) && retired == old(slots)
    {
      closed := true;
      retired := slots;
      slots := [];
    }
  }
}
