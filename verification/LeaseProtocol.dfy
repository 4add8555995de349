/** Session leases and native work as a state machine.

    Requests take a lease when they acquire a token and give it back when they end, however
    they end. Native calls started under a lease take a further reference that
    is given back when their worker task is done, which may be long after the request was
    cancelled. Between two awaits the event loop runs one segment; each event below is one
    such segment. */
module LeaseProtocol {
  import opened Common
  import opened SessionStore

  type RequestId = nat
  type CallId = nat

  datatype Grant = Grant(owner: OwnerId, expires: Time)

  /** The store, the leases of requests, the unfinished native calls with their owners and
      the cleanup tasks; then history: how often a cleanup was started for each owner, the
      tokens issued, the owners ever known and those ever revoked. */
  datatype LeaseSys = LeaseSys(
    store: Store, requests: map<RequestId, OwnerId>, natives: map<CallId, OwnerId>,
    cleaning: set<OwnerId>, started: multiset<OwnerId>,
    issued: map<Hash, Grant>, known: set<OwnerId>, revoked: set<OwnerId>)

  const NO_SESSIONS := LeaseSys(EMPTY_STORE, map[], map[], {}, multiset{}, map[], {}, {})

  datatype LeaseEvent =
    | Reap(now: Time)
    | OpenSession(now: Time, owner: OwnerId, digest: Hash)
    | AcquireLease(request: RequestId, digest: Hash, now: Time)
    | EndRequest(request: RequestId)
    | CloseSession(request: RequestId)
    | StartNative(call: CallId, owner: OwnerId)
    | AbortNative(owner: OwnerId)
    | EndNative(call: CallId)
    | Shutdown
    | EndCleanup(owner: OwnerId)

  /** Fresh IDs only; an end needs a beginning. A native call may be attempted for any owner
      at any time, because a context copied from a request can outlive the request. */
  predicate Possible(s: LeaseSys, e: LeaseEvent) {
    match e
    case OpenSession(_, owner, digest) => owner !in s.known && digest !in s.issued
    case AcquireLease(request, _, _) => request !in s.requests
    case EndRequest(request) => request in s.requests
    case CloseSession(request) => request in s.requests
    case StartNative(call, _) => call !in s.natives
    case EndNative(call) => call in s.natives
    case EndCleanup(owner) => owner in s.cleaning
    case _ => true
  }

  /** Cleanup tasks are started for every record that was handed out. */
  function StartCleanups(s: LeaseSys, owners: set<OwnerId>): LeaseSys {
    s.(cleaning := s.cleaning + owners, started := s.started + multiset(owners))
  }

  function RevokeAndClean(s: LeaseSys, owners: set<OwnerId>): LeaseSys {
    StartCleanups(s.(store := RevokeOwners(s.store, owners), revoked := s.revoked + owners),
                  HandedOut(s.store, owners))
  }

  function ReleaseAndClean(s: LeaseSys, o: OwnerId): LeaseSys {
    StartCleanups(s.(store := Release(s.store, o)), if LastRelease(s.store, o) then {o} else {})
  }

  /** A new session, when a slot is free. */
  function Opening(s: LeaseSys, o: OwnerId, digest: Hash, expires: Time): LeaseSys {
    s.(store := Issue(s.store, o, digest, expires),
       issued := s.issued[digest := Grant(o, expires)], known := s.known + {o})
  }

  function NextLease(ttl: nat, maxActive: nat, s: LeaseSys, e: LeaseEvent): LeaseSys
    requires Possible(s, e)
  {
    match e
    case Reap(now) => RevokeAndClean(s, Due(s.store, now))
    case OpenSession(now, owner, digest) =>
      if |s.store.records| >= maxActive then s
      else Opening(s, owner, digest, now + ttl as real)
    case AcquireLease(request, digest, now) =>
      (match Lookup(s.store, digest, now)
       case None => s
       case Some(o) => s.(store := AddReference(s.store, o), requests := s.requests[request := o]))
    case EndRequest(request) =>
      ReleaseAndClean(s, s.requests[request]).(requests := s.requests - {request})
    case CloseSession(request) =>
      s.(store := Revoke(s.store, s.requests[request]), revoked := s.revoked + {s.requests[request]})
    case StartNative(call, owner) =>
      if CanRetain(s.store, owner) then
        s.(store := AddReference(s.store, owner), natives := s.natives[call := owner])
      else s
    case AbortNative(owner) =>
      if CanRetain(s.store, owner) then
        ReleaseAndClean(s.(store := AddReference(s.store, owner)), owner)
      else s
    case EndNative(call) =>
      ReleaseAndClean(s, s.natives[call]).(natives := s.natives - {call})
    case Shutdown => RevokeAndClean(s, s.store.records.Keys)
    case EndCleanup(owner) =>
      s.(store := CleanupComplete(s.store, owner), cleaning := s.cleaning - {owner})
  }

  // ------------------------------------------------------------- references

  function Of(m: map<nat, OwnerId>, o: OwnerId): set<nat> {
    set q | q in m && m[q] == o
  }

  function References(s: LeaseSys, o: OwnerId): nat {
    |Of(s.requests, o)| + |Of(s.natives, o)|
  }

  lemma CountAdded(m: map<nat, OwnerId>, q: nat, o: OwnerId)
    requires q !in m
    ensures forall i :: |Of(m[q := o], i)| == |Of(m, i)| + (if i == o then 1 else 0)
  {
    forall i ensures |Of(m[q := o], i)| == |Of(m, i)| + (if i == o then 1 else 0) {
      assert Of(m[q := o], i) == Of(m, i) + (if i == o then {q} else {});
    }
  }

  lemma CountRemoved(m: map<nat, OwnerId>, q: nat)
    requires q in m
    ensures forall i :: |Of(m - {q}, i)| == |Of(m, i)| - (if i == m[q] then 1 else 0)
  {
    forall i ensures |Of(m - {q}, i)| == |Of(m, i)| - (if i == m[q] then 1 else 0) {
      assert Of(m, i) == Of(m - {q}, i) + (if i == m[q] then {q} else {});
    }
  }

  // ---------------------------------------------------------------- invariant

  ghost predicate Balanced(s: LeaseSys) {
    && (forall o :: o in s.store.records ==> s.store.records[o].calls == References(s, o))
    && (forall q :: q in s.requests ==> s.requests[q] in s.store.records)
    && (forall c :: c in s.natives ==> s.natives[c] in s.store.records)
  }

  ghost predicate CleanupsOk(s: LeaseSys) {
    && (forall o :: o in s.cleaning <==> o in s.store.records && s.store.records[o].cleanup)
    && (forall o :: s.started[o] == CleanupCount(s, o))
  }

  function CleanupCount(s: LeaseSys, o: OwnerId): nat {
    if o in s.known && (o in s.store.records ==> s.store.records[o].cleanup) then 1 else 0
  }

  ghost predicate Granted(s: LeaseSys, o: OwnerId)
    requires o in s.store.records
  {
    var r := s.store.records[o];
    && o in s.known && r.digest in s.issued && s.issued[r.digest] == Grant(o, r.expires)
    && (r.revoked <==> o in s.revoked)
  }

  ghost predicate GrantsOk(s: LeaseSys) {
    && (forall o :: o in s.store.records ==> Granted(s, o))
    && (forall d :: d in s.issued ==> Accounted(s, d))
    && (forall o :: o in s.known <==> o in s.store.records || o in s.revoked)
  }

  ghost predicate Accounted(s: LeaseSys, d: Hash)
    requires d in s.issued
  {
    var o := s.issued[d].owner;
    o in s.known && if o in s.store.records then s.store.records[o].digest == d else o in s.revoked
  }

  ghost predicate LeaseInv(maxActive: nat, s: LeaseSys) {
    && StoreOk(s.store) && |s.store.records| <= maxActive
    && Balanced(s) && CleanupsOk(s) && GrantsOk(s)
  }

  // ------------------------------------------------------------- preservation

  lemma RevokeStep(maxActive: nat, s: LeaseSys, owners: set<OwnerId>)
    requires LeaseInv(maxActive, s) && owners <= s.store.records.Keys
    ensures LeaseInv(maxActive, RevokeAndClean(s, owners))
  {
    var n := RevokeAndClean(s, owners);
    RevokeKeepsOk(s.store, owners);
    assert n.store.records.Keys == s.store.records.Keys;
    RevokeBooks(s, owners, n);
    RevokeCleanups(s, owners, n);
  }

  lemma RevokeBooks(s: LeaseSys, owners: set<OwnerId>, n: LeaseSys)
    requires Balanced(s) && GrantsOk(s) && owners <= s.store.records.Keys
    requires n.store == RevokeOwners(s.store, owners) && n.revoked == s.revoked + owners
    requires n.requests == s.requests && n.natives == s.natives && n.issued == s.issued && n.known == s.known
    ensures Balanced(n) && GrantsOk(n)
  {
    forall o | o in n.store.records ensures Granted(n, o) {
      assert Granted(s, o);
    }
    forall o | o in n.revoked ensures o in n.known {
      assert o in owners ==> Granted(s, o);
    }
    forall d | d in n.issued ensures Accounted(n, d) {
      assert Accounted(s, d);
    }
  }

  lemma RevokeCleanupAt(s: LeaseSys, owners: set<OwnerId>, n: LeaseSys, o: OwnerId)
    requires StoreOk(s.store) && CleanupsOk(s) && GrantsOk(s) && owners <= s.store.records.Keys
    requires n == RevokeAndClean(s, owners)
    ensures o in n.cleaning <==> o in n.store.records && n.store.records[o].cleanup
    ensures n.started[o] == CleanupCount(n, o)
  {
    assert s.started[o] == CleanupCount(s, o);
    if o in s.store.records {
      assert RecordOk(s.store, o) && Granted(s, o);
    }
  }

  lemma RevokeCleanups(s: LeaseSys, owners: set<OwnerId>, n: LeaseSys)
    requires StoreOk(s.store) && CleanupsOk(s) && GrantsOk(s) && owners <= s.store.records.Keys
    requires n == RevokeAndClean(s, owners)
    ensures CleanupsOk(n)
  {
    forall o
      ensures o in n.cleaning <==> o in n.store.records && n.store.records[o].cleanup
      ensures n.started[o] == CleanupCount(n, o)
    {
      RevokeCleanupAt(s, owners, n, o);
    }
  }

  /** A change of reference counts leaves tokens and revocations as they are. */
  lemma SameGrants(s: LeaseSys, n: LeaseSys)
    requires GrantsOk(s) && n.store.records.Keys == s.store.records.Keys
    requires n.issued == s.issued && n.known == s.known && n.revoked == s.revoked
    requires forall o :: o in s.store.records ==> SameIdentity(s.store.records[o], n.store.records[o])
    ensures GrantsOk(n)
  {
    forall i | i in n.store.records ensures Granted(n, i) {
      assert Granted(s, i);
    }
    forall d | d in n.issued ensures Accounted(n, d) {
      assert Accounted(s, d);
    }
  }

  predicate SameIdentity(r: Record, q: Record) {
    q == r.(calls := q.calls, cleanup := q.cleanup)
  }

  lemma ReferenceCleanups(s: LeaseSys, o: OwnerId, n: LeaseSys)
    requires CleanupsOk(s) && o in s.store.records
    requires n.store == AddReference(s.store, o)
    requires n.cleaning == s.cleaning && n.started == s.started && n.known == s.known
    ensures CleanupsOk(n)
  {
    forall i ensures n.started[i] == CleanupCount(n, i) {
      assert s.started[i] == CleanupCount(s, i);
    }
  }

  lemma SameSize(s: LeaseSys, n: LeaseSys)
    requires n.store.records.Keys == s.store.records.Keys
    ensures |n.store.records| == |s.store.records|
  {
    assert |n.store.records| == |n.store.records.Keys| && |s.store.records| == |s.store.records.Keys|;
  }

  /** Requests and calls of `n` name known owners and hold `change` more references to `o`. */
  ghost predicate Holders(s: LeaseSys, n: LeaseSys, o: OwnerId, change: int) {
    && (forall i :: References(n, i) == References(s, i) + (if i == o then change else 0))
    && (forall q :: q in n.requests ==> n.requests[q] in s.store.records)
    && (forall c :: c in n.natives ==> n.natives[c] in s.store.records)
  }

  lemma ReferenceBalance(s: LeaseSys, o: OwnerId, n: LeaseSys)
    requires Balanced(s) && o in s.store.records && n.store == AddReference(s.store, o) && Holders(s, n, o, 1)
    ensures Balanced(n) && n.store.records.Keys == s.store.records.Keys
  {
  }

  /** A reference added together with the request or call that holds it. */
  lemma ReferenceStep(maxActive: nat, s: LeaseSys, o: OwnerId, n: LeaseSys)
    requires LeaseInv(maxActive, s) && o in s.store.records && !s.store.records[o].cleanup
    requires n == s.(store := AddReference(s.store, o), requests := n.requests, natives := n.natives)
    requires Holders(s, n, o, 1)
    ensures LeaseInv(maxActive, n)
  {
    ReferencesKeepOk(s.store, o);
    ReferenceBalance(s, o, n);
    SameSize(s, n);
    ReferenceCleanups(s, o, n);
    ReferenceGrants(s, o, n);
  }

  lemma ReferenceGrants(s: LeaseSys, o: OwnerId, n: LeaseSys)
    requires GrantsOk(s) && o in s.store.records && n.store == AddReference(s.store, o)
    requires n.issued == s.issued && n.known == s.known && n.revoked == s.revoked
    ensures GrantsOk(n)
  {
    SameGrants(s, n);
  }

  lemma ReleaseCleanups(s: LeaseSys, o: OwnerId, n: LeaseSys)
    requires StoreOk(s.store) && CleanupsOk(s) && GrantsOk(s) && o in s.store.records
    requires s.store.records[o].calls > 0
    requires n.store == Release(s.store, o) && n.known == s.known
    requires n.cleaning == s.cleaning + (if LastRelease(s.store, o) then {o} else {})
    requires n.started == s.started + multiset(if LastRelease(s.store, o) then {o} else {})
    ensures CleanupsOk(n)
  {
    assert RecordOk(s.store, o) && Granted(s, o);
    forall i ensures n.started[i] == CleanupCount(n, i) {
      assert s.started[i] == CleanupCount(s, i);
    }
  }

  lemma ReleaseBalance(s: LeaseSys, o: OwnerId, n: LeaseSys)
    requires Balanced(s) && o in s.store.records && s.store.records[o].calls > 0
    requires n.store == Release(s.store, o) && Holders(s, n, o, -1)
    ensures Balanced(n) && n.store.records.Keys == s.store.records.Keys
  {
  }

  lemma ReleaseGrants(s: LeaseSys, o: OwnerId, n: LeaseSys)
    requires GrantsOk(s) && n.store == Release(s.store, o)
    requires n.issued == s.issued && n.known == s.known && n.revoked == s.revoked
    ensures GrantsOk(n)
  {
    SameGrants(s, n);
  }

  /** A reference given back together with the request or call that held it. */
  lemma ReleaseStep(maxActive: nat, s: LeaseSys, o: OwnerId, n: LeaseSys)
    requires LeaseInv(maxActive, s) && o in s.store.records && s.store.records[o].calls > 0
    requires n == ReleaseAndClean(s, o).(requests := n.requests, natives := n.natives)
    requires Holders(s, n, o, -1)
    ensures LeaseInv(maxActive, n)
  {
    ReferencesKeepOk(s.store, o);
    ReleaseBalance(s, o, n);
    SameSize(s, n);
    ReleaseCleanups(s, o, n);
    ReleaseGrants(s, o, n);
  }

  lemma IndexedIsIssued(s: LeaseSys, digest: Hash)
    requires StoreOk(s.store) && GrantsOk(s)
    ensures digest in s.store.index ==> digest in s.issued
  {
    if digest in s.store.index {
      assert Indexed(s.store, digest) && Granted(s, s.store.index[digest]);
    }
  }

  lemma OpenShape(ttl: nat, maxActive: nat, s: LeaseSys, now: Time, o: OwnerId, digest: Hash)
    requires Possible(s, OpenSession(now, o, digest))
    ensures NextLease(ttl, maxActive, s, OpenSession(now, o, digest))
            == if |s.store.records| < maxActive then Opening(s, o, digest, now + ttl as real) else s
  {
  }

  lemma NewOwner(s: LeaseSys, o: OwnerId)
    requires GrantsOk(s) && o !in s.known
    ensures o !in s.store.records
  {
  }

  lemma OpenStep(maxActive: nat, s: LeaseSys, o: OwnerId, digest: Hash, expires: Time, n: LeaseSys)
    requires LeaseInv(maxActive, s) && |s.store.records| < maxActive
    requires o !in s.known && digest !in s.issued && n == Opening(s, o, digest, expires)
    ensures LeaseInv(maxActive, n)
  {
    IndexedIsIssued(s, digest);
    NewOwner(s, o);
    IssueKeepsOk(s.store, o, digest, expires);
    OpenBooks(s, o, digest, expires, n);
  }

  lemma OpenEventStep(ttl: nat, maxActive: nat, s: LeaseSys, now: Time, o: OwnerId, digest: Hash)
    requires LeaseInv(maxActive, s) && Possible(s, OpenSession(now, o, digest))
    ensures LeaseInv(maxActive, NextLease(ttl, maxActive, s, OpenSession(now, o, digest)))
  {
    OpenShape(ttl, maxActive, s, now, o, digest);
    if |s.store.records| < maxActive {
      OpenStep(maxActive, s, o, digest, now + ttl as real, NextLease(ttl, maxActive, s, OpenSession(now, o, digest)));
    }
  }

  lemma OpenBooks(s: LeaseSys, o: OwnerId, digest: Hash, expires: Time, n: LeaseSys)
    requires Balanced(s) && CleanupsOk(s) && GrantsOk(s)
    requires o !in s.known && digest !in s.issued && o !in s.store.records
    requires n == Opening(s, o, digest, expires)
    ensures Balanced(n) && CleanupsOk(n) && GrantsOk(n)
  {
    assert Of(s.requests, o) == {} && Of(s.natives, o) == {};
    forall i | i in n.store.records ensures Granted(n, i) {
      if i != o { assert Granted(s, i); }
    }
    forall d | d in n.issued ensures Accounted(n, d) {
      if d != digest { assert Accounted(s, d); }
    }
    forall i ensures n.started[i] == CleanupCount(n, i) {
      assert s.started[i] == CleanupCount(s, i);
    }
  }

  lemma EndCleanupStep(maxActive: nat, s: LeaseSys, o: OwnerId, n: LeaseSys)
    requires LeaseInv(maxActive, s) && o in s.cleaning
    requires n == s.(store := CleanupComplete(s.store, o), cleaning := s.cleaning - {o})
    ensures LeaseInv(maxActive, n)
    ensures n.store.records == s.store.records - {o}
  {
    assert RecordOk(s.store, o) && Granted(s, o);
    CleanupKeepsOk(s.store, o);
    SubsetCardinality(n.store.records.Keys, s.store.records.Keys);
    EndCleanupBooks(s, o, n);
  }

  lemma EndCleanupBooks(s: LeaseSys, o: OwnerId, n: LeaseSys)
    requires Balanced(s) && CleanupsOk(s) && GrantsOk(s) && o in s.store.records
    requires s.store.records[o].calls == 0 && s.store.records[o].revoked && s.store.records[o].cleanup
    requires n == s.(store := s.store.(records := s.store.records - {o}), cleaning := s.cleaning - {o})
    ensures Balanced(n) && CleanupsOk(n) && GrantsOk(n)
  {
    forall q | q in n.requests ensures n.requests[q] != o {
      assert n.requests[q] == o ==> q in Of(s.requests, o);
    }
    forall c | c in n.natives ensures n.natives[c] != o {
      assert n.natives[c] == o ==> c in Of(s.natives, o);
    }
    assert Granted(s, o);
    forall i | i in n.store.records ensures Granted(n, i) {
      assert Granted(s, i);
    }
    forall d | d in n.issued ensures Accounted(n, d) {
      assert Accounted(s, d);
    }
    forall i ensures n.started[i] == CleanupCount(n, i) {
      assert s.started[i] == CleanupCount(s, i);
    }
  }

  /** `session_close` runs under the caller's lease, so its revocation hands out nothing:
      the value it discards is None. */
  lemma CloseDiscardsNothing(maxActive: nat, s: LeaseSys, request: RequestId)
    requires LeaseInv(maxActive, s) && request in s.requests
    ensures s.requests[request] in s.store.records && s.store.records[s.requests[request]].calls > 0
    ensures HandedOut(s.store, {s.requests[request]}) == {}
  {
    HeldByRequest(maxActive, s, request);
  }

  lemma NoCleanups(s: LeaseSys)
    ensures StartCleanups(s, {}) == s
  {
    assert s.started + multiset({}) == s.started;
  }

  lemma HeldByRequest(maxActive: nat, s: LeaseSys, request: RequestId)
    requires LeaseInv(maxActive, s) && request in s.requests
    ensures s.requests[request] in s.store.records && s.store.records[s.requests[request]].calls > 0
  {
    assert request in Of(s.requests, s.requests[request]);
  }

  lemma HeldByNative(maxActive: nat, s: LeaseSys, call: CallId)
    requires LeaseInv(maxActive, s) && call in s.natives
    ensures s.natives[call] in s.store.records && s.store.records[s.natives[call]].calls > 0
  {
    assert call in Of(s.natives, s.natives[call]);
  }

  lemma AcquireStep(ttl: nat, maxActive: nat, s: LeaseSys, request: RequestId, digest: Hash, now: Time)
    requires LeaseInv(maxActive, s) && request !in s.requests
    ensures LeaseInv(maxActive, NextLease(ttl, maxActive, s, AcquireLease(request, digest, now)))
  {
    match Lookup(s.store, digest, now)
    case None =>
    case Some(o) =>
      assert RecordOk(s.store, o);
      CountAdded(s.requests, request, o);
      ReferenceStep(maxActive, s, o, NextLease(ttl, maxActive, s, AcquireLease(request, digest, now)));
  }

  lemma AbortNativeStep(ttl: nat, maxActive: nat, s: LeaseSys, o: OwnerId)
    requires CanRetain(s.store, o)
    ensures NextLease(ttl, maxActive, s, AbortNative(o)) == s
  {
    var m := s.(store := AddReference(s.store, o));
    assert m.store.records[o := s.store.records[o]] == s.store.records;
    assert Release(m.store, o) == s.store && !LastRelease(m.store, o);
    NoCleanups(s);
  }

  lemma NextKeepsLeases(ttl: nat, maxActive: nat, s: LeaseSys, e: LeaseEvent)
    requires LeaseInv(maxActive, s) && Possible(s, e)
    ensures LeaseInv(maxActive, NextLease(ttl, maxActive, s, e))
  {
    match e
    case Reap(now) => RevokeStep(maxActive, s, Due(s.store, now));
    case Shutdown => RevokeStep(maxActive, s, s.store.records.Keys);
    case OpenSession(now, o, digest) => OpenEventStep(ttl, maxActive, s, now, o, digest);
    case AcquireLease(request, digest, now) => AcquireStep(ttl, maxActive, s, request, digest, now);
    case EndRequest(request) => EndRequestStep(ttl, maxActive, s, request);
    case CloseSession(request) => CloseStep(ttl, maxActive, s, request);
    case StartNative(call, o) => StartNativeStep(ttl, maxActive, s, call, o);
    case AbortNative(o) => if CanRetain(s.store, o) { AbortNativeStep(ttl, maxActive, s, o); }
    case EndNative(call) => EndNativeStep(ttl, maxActive, s, call);
    case EndCleanup(o) => EndCleanupStep(maxActive, s, o, NextLease(ttl, maxActive, s, e));
  }

  lemma EndRequestStep(ttl: nat, maxActive: nat, s: LeaseSys, request: RequestId)
    requires LeaseInv(maxActive, s) && request in s.requests
    ensures LeaseInv(maxActive, NextLease(ttl, maxActive, s, EndRequest(request)))
  {
    HeldByRequest(maxActive, s, request);
    CountRemoved(s.requests, request);
    ReleaseStep(maxActive, s, s.requests[request], NextLease(ttl, maxActive, s, EndRequest(request)));
  }

  lemma CloseIsRevocation(ttl: nat, maxActive: nat, s: LeaseSys, request: RequestId)
    requires request in s.requests && HandedOut(s.store, {s.requests[request]}) == {}
    ensures NextLease(ttl, maxActive, s, CloseSession(request)) == RevokeAndClean(s, {s.requests[request]})
  {
    NoCleanups(s.(store := Revoke(s.store, s.requests[request]), revoked := s.revoked + {s.requests[request]}));
  }

  lemma CloseStep(ttl: nat, maxActive: nat, s: LeaseSys, request: RequestId)
    requires LeaseInv(maxActive, s) && request in s.requests
    ensures LeaseInv(maxActive, NextLease(ttl, maxActive, s, CloseSession(request)))
  {
    CloseDiscardsNothing(maxActive, s, request);
    CloseIsRevocation(ttl, maxActive, s, request);
    RevokeStep(maxActive, s, {s.requests[request]});
  }

  lemma StartNativeStep(ttl: nat, maxActive: nat, s: LeaseSys, call: CallId, o: OwnerId)
    requires LeaseInv(maxActive, s) && call !in s.natives
    ensures LeaseInv(maxActive, NextLease(ttl, maxActive, s, StartNative(call, o)))
  {
    if CanRetain(s.store, o) {
      CountAdded(s.natives, call, o);
      ReferenceStep(maxActive, s, o, NextLease(ttl, maxActive, s, StartNative(call, o)));
    }
  }

  lemma EndNativeStep(ttl: nat, maxActive: nat, s: LeaseSys, call: CallId)
    requires LeaseInv(maxActive, s) && call in s.natives
    ensures LeaseInv(maxActive, NextLease(ttl, maxActive, s, EndNative(call)))
  {
    HeldByNative(maxActive, s, call);
    CountRemoved(s.natives, call);
    ReleaseStep(maxActive, s, s.natives[call], NextLease(ttl, maxActive, s, EndNative(call)));
  }

  // -------------------------------------------------------------------- runs

  ghost predicate LeaseStep(ttl: nat, maxActive: nat, s: LeaseSys, e: LeaseEvent, n: LeaseSys) {
    Possible(s, e) && n == NextLease(ttl, maxActive, s, e)
  }

  ghost predicate LeaseRun(ttl: nat, maxActive: nat, ss: seq<LeaseSys>, es: seq<LeaseEvent>) {
    && |ss| == |es| + 1 && ss[0] == NO_SESSIONS
    && forall i :: 0 <= i < |es| ==> LeaseStep(ttl, maxActive, ss[i], es[i], ss[i + 1])
  }

  lemma NoSessionsInv(maxActive: nat)
    ensures LeaseInv(maxActive, NO_SESSIONS)
  {
  }

  lemma LeaseStepInv(ttl: nat, maxActive: nat, s: LeaseSys, e: LeaseEvent, n: LeaseSys)
    requires LeaseInv(maxActive, s) && LeaseStep(ttl, maxActive, s, e, n)
    ensures LeaseInv(maxActive, n)
  {
    NextKeepsLeases(ttl, maxActive, s, e);
  }

  lemma {:induction false} LeaseRunInv(ttl: nat, maxActive: nat, ss: seq<LeaseSys>, es: seq<LeaseEvent>, i: nat)
    requires LeaseRun(ttl, maxActive, ss, es) && i < |ss|
    ensures LeaseInv(maxActive, ss[i])
    decreases i
  {
    if i == 0 {
      NoSessionsInv(maxActive);
    } else {
      LeaseRunInv(ttl, maxActive, ss, es, i - 1);
      assert LeaseStep(ttl, maxActive, ss[i - 1], es[i - 1], ss[i - 1 + 1]);
      LeaseStepInv(ttl, maxActive, ss[i - 1], es[i - 1], ss[i]);
    }
  }

  /** Reference conservation: in every run the counter of each capability is the number of
      request leases outstanding plus the native calls that have not finished, and a lease
      or a call never outlives its record. */
  lemma ReferenceConservation(ttl: nat, maxActive: nat, ss: seq<LeaseSys>, es: seq<LeaseEvent>, i: nat)
    requires LeaseRun(ttl, maxActive, ss, es) && i < |ss|
    ensures forall o :: o in ss[i].store.records ==>
      ss[i].store.records[o].calls == |Of(ss[i].requests, o)| + |Of(ss[i].natives, o)|
    ensures forall o :: o !in ss[i].store.records ==> Of(ss[i].requests, o) == {} && Of(ss[i].natives, o) == {}
  {
    LeaseRunInv(ttl, maxActive, ss, es, i);
  }

  /** An owner whose cleanup has started has no request and no native call, and no later
      event gives it one. */
  lemma CleanupNeverMeetsWork(ttl: nat, maxActive: nat, ss: seq<LeaseSys>, es: seq<LeaseEvent>, i: nat, k: nat, o: OwnerId)
    requires LeaseRun(ttl, maxActive, ss, es) && i <= k < |ss| && o in ss[i].started
    ensures o in ss[k].started && Of(ss[k].requests, o) == {} && Of(ss[k].natives, o) == {}
  {
    StartedStays(ttl, maxActive, ss, es, i, k, o);
    LeaseRunInv(ttl, maxActive, ss, es, k);
    CleaningHasNoWork(maxActive, ss[k], o);
  }

  lemma CleaningHasNoWork(maxActive: nat, s: LeaseSys, o: OwnerId)
    requires LeaseInv(maxActive, s) && o in s.started
    ensures Of(s.requests, o) == {} && Of(s.natives, o) == {}
  {
    assert s.started[o] == CleanupCount(s, o);
    if o in s.store.records {
      assert RecordOk(s.store, o);
      assert s.store.records[o].calls == References(s, o);
    }
  }

  lemma {:induction false} StartedStays(ttl: nat, maxActive: nat, ss: seq<LeaseSys>, es: seq<LeaseEvent>, i: nat, k: nat, o: OwnerId)
    requires LeaseRun(ttl, maxActive, ss, es) && i <= k < |ss| && o in ss[i].started
    ensures o in ss[k].started
    decreases k - i
  {
    if i < k {
      assert LeaseStep(ttl, maxActive, ss[i], es[i], ss[i + 1]);
      StartedStays(ttl, maxActive, ss, es, i + 1, k, o);
    }
  }

  /** Exactly-once cleanup: a cleanup is started once for an owner that is revoked and has no
      reference left, and never for another; so none is lost and none is repeated. */
  lemma ExactlyOnceCleanup(ttl: nat, maxActive: nat, ss: seq<LeaseSys>, es: seq<LeaseEvent>, i: nat, o: OwnerId)
    requires LeaseRun(ttl, maxActive, ss, es) && i < |ss|
    ensures ss[i].started[o] <= 1
    ensures o in ss[i].started <==> o in ss[i].revoked && Of(ss[i].requests, o) == {} && Of(ss[i].natives, o) == {}
    ensures o in ss[i].cleaning <==> o in ss[i].started && o in ss[i].store.records
  {
    LeaseRunInv(ttl, maxActive, ss, es, i);
    var s := ss[i];
    assert s.started[o] == CleanupCount(s, o);
    if o in s.store.records {
      assert RecordOk(s.store, o) && Granted(s, o);
      assert s.store.records[o].calls == References(s, o);
    }
  }

  /** A token opens its session exactly while it was issued, its owner was not revoked and it
      has not expired; the digest index holds exactly the records that are not revoked. */
  lemma TokenAgreement(ttl: nat, maxActive: nat, ss: seq<LeaseSys>, es: seq<LeaseEvent>, i: nat, digest: Hash, now: Time)
    requires LeaseRun(ttl, maxActive, ss, es) && i < |ss|
    ensures Lookup(ss[i].store, digest, now).Some? <==>
      digest in ss[i].issued && ss[i].issued[digest].owner !in ss[i].revoked && now < ss[i].issued[digest].expires
    ensures Lookup(ss[i].store, digest, now).Some? ==>
      Lookup(ss[i].store, digest, now).value == ss[i].issued[digest].owner
    ensures digest in ss[i].store.index <==>
      exists o :: o in ss[i].store.records && !ss[i].store.records[o].revoked && ss[i].store.records[o].digest == digest
  {
    LeaseRunInv(ttl, maxActive, ss, es, i);
    TokenIndex(ss[i], digest);
    TokenGrant(ss[i], digest);
  }

  lemma TokenIndex(s: LeaseSys, digest: Hash)
    requires StoreOk(s.store)
    ensures digest in s.store.index <==>
      exists o :: o in s.store.records && !s.store.records[o].revoked && s.store.records[o].digest == digest
  {
    if digest in s.store.index {
      assert Indexed(s.store, digest);
    }
    if o :| o in s.store.records && !s.store.records[o].revoked && s.store.records[o].digest == digest {
      assert RecordOk(s.store, o);
    }
  }

  lemma TokenGrant(s: LeaseSys, digest: Hash)
    requires StoreOk(s.store) && GrantsOk(s)
    ensures digest in s.store.index <==> digest in s.issued && s.issued[digest].owner !in s.revoked
    ensures digest in s.store.index ==>
      Indexed(s.store, digest) && s.issued[digest] == Grant(s.store.index[digest], s.store.records[s.store.index[digest]].expires)
  {
    if digest in s.store.index {
      assert Indexed(s.store, digest) && Granted(s, s.store.index[digest]);
    }
    if digest in s.issued && s.issued[digest].owner !in s.revoked {
      assert Accounted(s, digest) && Granted(s, s.issued[digest].owner);
      assert RecordOk(s.store, s.issued[digest].owner);
    }
  }

  /** The owner index never exceeds its capacity, and a slot is freed only by a cleanup that
      was started for its owner and has completed. */
  lemma SlotFreedByCleanup(ttl: nat, maxActive: nat, ss: seq<LeaseSys>, es: seq<LeaseEvent>, i: nat, o: OwnerId)
    requires LeaseRun(ttl, maxActive, ss, es) && i < |es|
    ensures |ss[i].store.records| <= maxActive
    ensures o in ss[i].store.records && o !in ss[i + 1].store.records ==>
      es[i] == EndCleanup(o) && o in ss[i].cleaning && o in ss[i].started
  {
    LeaseRunInv(ttl, maxActive, ss, es, i);
    assert LeaseStep(ttl, maxActive, ss[i], es[i], ss[i + 1]);
    if o in ss[i].store.records && o !in ss[i + 1].store.records {
      RecordLeaves(ttl, maxActive, ss[i], es[i], ss[i + 1], o);
      ExactlyOnceCleanup(ttl, maxActive, ss, es, i, o);
    }
  }

  lemma RecordLeaves(ttl: nat, maxActive: nat, s: LeaseSys, e: LeaseEvent, n: LeaseSys, o: OwnerId)
    requires LeaseStep(ttl, maxActive, s, e, n) && o in s.store.records && o !in n.store.records
    ensures e == EndCleanup(o) && o in s.cleaning
  {
  }
}
