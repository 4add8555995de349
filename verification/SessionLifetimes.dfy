/** How long a session lasts: from its issue until its time has run out, or an expiry pass,
    a close or the shutdown has ended it. And what each event does to the leases. */
module SessionLifetimes {
  import opened Common
  import opened SessionStore
  import opened LeaseProtocol

  // -------------------------------------------------------------- revocations

  /** The event ends the session of a known record that expires at `expires`. */
  predicate Ends(s: LeaseSys, e: LeaseEvent, o: OwnerId, expires: Time) {
    match e
    case Reap(now) => expires <= now
    case Shutdown => true
    case CloseSession(request) => request in s.requests && s.requests[request] == o
    case _ => false
  }

  /** The record is in the store, unrevoked, and the event revokes it. */
  predicate Revokes(s: LeaseSys, e: LeaseEvent, o: OwnerId) {
    o in s.store.records && o !in s.revoked && Ends(s, e, o, s.store.records[o].expires)
  }

  lemma EventRevokes(ttl: nat, maxActive: nat, s: LeaseSys, e: LeaseEvent, n: LeaseSys, o: OwnerId)
    requires LeaseInv(maxActive, s) && LeaseStep(ttl, maxActive, s, e, n)
    ensures o in n.revoked <==> o in s.revoked || Revokes(s, e, o)
  {
    assert o in s.store.records ==> Granted(s, o);
    assert e.CloseSession? ==> s.requests[e.request] in s.store.records;
    KnownRevokes(ttl, maxActive, s, e, n, o);
  }

  lemma KnownRevokes(ttl: nat, maxActive: nat, s: LeaseSys, e: LeaseEvent, n: LeaseSys, o: OwnerId)
    requires Possible(s, e) && n == NextLease(ttl, maxActive, s, e)
    requires o in s.store.records ==> (s.store.records[o].revoked <==> o in s.revoked)
    requires e.CloseSession? ==> s.requests[e.request] in s.store.records
    ensures o in n.revoked <==> o in s.revoked || Revokes(s, e, o)
  {
  }

  /** A record keeps its expiry as long as it exists, and only a revoked one goes. */
  predicate SameExpiry(st: Store, nt: Store, o: OwnerId) {
    if o in nt.records then
      o in st.records && nt.records[o].expires == st.records[o].expires
    else
      o in st.records ==> st.records[o].revoked
  }

  lemma RevokeKeepsExpiry(st: Store, owners: set<OwnerId>, o: OwnerId)
    ensures SameExpiry(st, RevokeOwners(st, owners), o)
  {
  }

  lemma ReleaseKeepsExpiry(st: Store, x: OwnerId, o: OwnerId)
    ensures SameExpiry(st, Release(st, x), o)
  {
  }

  lemma BorrowKeepsExpiry(st: Store, x: OwnerId, o: OwnerId)
    requires x in st.records
    ensures SameExpiry(st, AddReference(st, x), o) && SameExpiry(st, Release(AddReference(st, x), x), o)
  {
  }

  lemma CleanupKeepsExpiry(st: Store, x: OwnerId, o: OwnerId)
    requires o in st.records ==> RecordOk(st, o)
    ensures SameExpiry(st, CleanupComplete(st, x), o)
  {
  }

  lemma RevokingKeepsExpiry(ttl: nat, maxActive: nat, s: LeaseSys, e: LeaseEvent, o: OwnerId)
    requires Possible(s, e) && (e.Reap? || e.CloseSession? || e.Shutdown?)
    ensures SameExpiry(s.store, NextLease(ttl, maxActive, s, e).store, o)
  {
    match e
    case Reap(now) => RevokeKeepsExpiry(s.store, Due(s.store, now), o);
    case CloseSession(q) => RevokeKeepsExpiry(s.store, {s.requests[q]}, o);
    case Shutdown => RevokeKeepsExpiry(s.store, s.store.records.Keys, o);
  }

  lemma ReleasingKeepsExpiry(ttl: nat, maxActive: nat, s: LeaseSys, e: LeaseEvent, o: OwnerId)
    requires Possible(s, e) && (e.EndRequest? || e.AbortNative? || e.EndNative?)
    ensures SameExpiry(s.store, NextLease(ttl, maxActive, s, e).store, o)
  {
    match e
    case EndRequest(q) => ReleaseKeepsExpiry(s.store, s.requests[q], o);
    case AbortNative(x) =>
      if CanRetain(s.store, x) {
        BorrowKeepsExpiry(s.store, x, o);
      }
    case EndNative(c) => ReleaseKeepsExpiry(s.store, s.natives[c], o);
  }

  lemma EventKeepsExpiry(ttl: nat, maxActive: nat, s: LeaseSys, e: LeaseEvent, n: LeaseSys, o: OwnerId)
    requires Possible(s, e) && n == NextLease(ttl, maxActive, s, e) && o in s.known
    requires o in s.store.records ==> RecordOk(s.store, o)
    ensures SameExpiry(s.store, n.store, o)
  {
    if e.Reap? || e.CloseSession? || e.Shutdown? {
      RevokingKeepsExpiry(ttl, maxActive, s, e, o);
    } else if e.EndRequest? || e.AbortNative? || e.EndNative? {
      ReleasingKeepsExpiry(ttl, maxActive, s, e, o);
    } else if e.EndCleanup? {
      CleanupKeepsExpiry(s.store, e.owner, o);
    }
  }

  lemma KnownStays(ttl: nat, maxActive: nat, s: LeaseSys, e: LeaseEvent, n: LeaseSys)
    requires LeaseStep(ttl, maxActive, s, e, n)
    ensures s.known <= n.known
  {
  }

  /** After an expiry pass no session that is due is left open, and no other is touched. */
  lemma ReapEndsExactlyTheDue(ttl: nat, maxActive: nat, ss: seq<LeaseSys>, es: seq<LeaseEvent>, i: nat, now: Time)
    requires LeaseRun(ttl, maxActive, ss, es) && i < |es| && es[i] == Reap(now)
    ensures forall o :: o in ss[i + 1].store.records <==> o in ss[i].store.records
    ensures forall o :: o in ss[i].store.records ==>
      var r, q := ss[i].store.records[o], ss[i + 1].store.records[o];
      (q.revoked <==> r.revoked || r.expires <= now) && (r.expires > now ==> q == r)
  {
    assert LeaseStep(ttl, maxActive, ss[i], es[i], ss[i + 1]);
  }

  // ----------------------------------------------------------------- lifetimes

  /** The event opens the session of `o` with this token at `now`. */
  predicate Opens(maxActive: nat, s: LeaseSys, e: LeaseEvent, o: OwnerId, digest: Hash, now: Time) {
    e == OpenSession(now, o, digest) && |s.store.records| < maxActive
  }

  ghost predicate EndedBetween(ss: seq<LeaseSys>, es: seq<LeaseEvent>, a: nat, i: nat, o: OwnerId, expires: Time)
    requires i < |ss| == |es| + 1
  {
    exists m :: a < m < i && Ends(ss[m], es[m], o, expires)
  }

  /** What is known of a session after its opening. */
  ghost predicate Lives(s: LeaseSys, o: OwnerId, digest: Hash, expires: Time, ended: bool) {
    && o in s.known && digest in s.issued && s.issued[digest] == Grant(o, expires)
    && (o in s.revoked <==> ended)
    && (!ended ==> o in s.store.records && s.store.records[o].expires == expires)
    && (o in s.store.records ==> s.store.records[o].expires == expires)
  }

  lemma OpeningLives(ttl: nat, maxActive: nat, s: LeaseSys, e: LeaseEvent, n: LeaseSys, o: OwnerId, digest: Hash, now: Time)
    requires LeaseInv(maxActive, s) && LeaseStep(ttl, maxActive, s, e, n) && Opens(maxActive, s, e, o, digest, now)
    ensures Lives(n, o, digest, now + ttl as real, false)
  {
    EventRevokes(ttl, maxActive, s, e, n, o);
  }

  lemma EventKeepsLife(ttl: nat, maxActive: nat, s: LeaseSys, e: LeaseEvent, n: LeaseSys, o: OwnerId, digest: Hash,
                       expires: Time, ended: bool)
    requires LeaseInv(maxActive, s) && LeaseStep(ttl, maxActive, s, e, n) && Lives(s, o, digest, expires, ended)
    ensures Lives(n, o, digest, expires, ended || Ends(s, e, o, expires))
  {
    EventRevokes(ttl, maxActive, s, e, n, o);
    assert o in s.store.records ==> Granted(s, o) && RecordOk(s.store, o);
    EventKeepsExpiry(ttl, maxActive, s, e, n, o);
    KnownStays(ttl, maxActive, s, e, n);
    GrantStays(ttl, maxActive, s, e, n, digest);
  }

  lemma GrantStays(ttl: nat, maxActive: nat, s: LeaseSys, e: LeaseEvent, n: LeaseSys, digest: Hash)
    requires LeaseStep(ttl, maxActive, s, e, n) && digest in s.issued
    ensures digest in n.issued && n.issued[digest] == s.issued[digest]
  {
  }

  /** The event keeps what is known of the session, and ends it if it is one that does. */
  ghost predicate LifeGoesOn(s: LeaseSys, e: LeaseEvent, n: LeaseSys, o: OwnerId, digest: Hash, expires: Time) {
    && (Lives(s, o, digest, expires, false) ==> Lives(n, o, digest, expires, Ends(s, e, o, expires)))
    && (Lives(s, o, digest, expires, true) ==> Lives(n, o, digest, expires, true))
  }

  lemma RunLifeGoesOn(ttl: nat, maxActive: nat, ss: seq<LeaseSys>, es: seq<LeaseEvent>,
                      o: OwnerId, digest: Hash, expires: Time)
    requires LeaseRun(ttl, maxActive, ss, es)
    ensures forall i :: 0 <= i < |es| ==> LifeGoesOn(ss[i], es[i], ss[i + 1], o, digest, expires)
  {
    forall i | 0 <= i < |es| ensures LifeGoesOn(ss[i], es[i], ss[i + 1], o, digest, expires) {
      LeaseRunInv(ttl, maxActive, ss, es, i);
      if ended :| Lives(ss[i], o, digest, expires, ended) {
        EventKeepsLife(ttl, maxActive, ss[i], es[i], ss[i + 1], o, digest, expires, ended);
      }
    }
  }

  lemma EndedOneMore(ss: seq<LeaseSys>, es: seq<LeaseEvent>, a: nat, i: nat, o: OwnerId, expires: Time)
    requires a + 1 < i < |ss| == |es| + 1
    ensures EndedBetween(ss, es, a, i, o, expires) <==>
      EndedBetween(ss, es, a, i - 1, o, expires) || Ends(ss[i - 1], es[i - 1], o, expires)
  {
  }

  lemma {:induction false} LivesOn(ss: seq<LeaseSys>, es: seq<LeaseEvent>, a: nat, i: nat,
                                   o: OwnerId, digest: Hash, expires: Time)
    requires |ss| == |es| + 1 && a < i < |ss| && Lives(ss[a + 1], o, digest, expires, false)
    requires forall k :: 0 <= k < |es| ==> LifeGoesOn(ss[k], es[k], ss[k + 1], o, digest, expires)
    ensures Lives(ss[i], o, digest, expires, EndedBetween(ss, es, a, i, o, expires))
    decreases i
  {
    if i > a + 1 {
      LivesOn(ss, es, a, i - 1, o, digest, expires);
      EndedOneMore(ss, es, a, i, o, expires);
      assert LifeGoesOn(ss[i - 1], es[i - 1], ss[i - 1 + 1], o, digest, expires);
    }
  }

  lemma OpenedInRun(ttl: nat, maxActive: nat, ss: seq<LeaseSys>, es: seq<LeaseEvent>, a: nat,
                    o: OwnerId, digest: Hash, now: Time)
    requires LeaseRun(ttl, maxActive, ss, es) && a < |es| && Opens(maxActive, ss[a], es[a], o, digest, now)
    ensures Lives(ss[a + 1], o, digest, now + ttl as real, false)
  {
    LeaseRunInv(ttl, maxActive, ss, es, a);
    OpeningLives(ttl, maxActive, ss[a], es[a], ss[a + 1], o, digest, now);
  }

  lemma LivesUntilEnded(ttl: nat, maxActive: nat, ss: seq<LeaseSys>, es: seq<LeaseEvent>,
                        a: nat, i: nat, o: OwnerId, digest: Hash, now: Time)
    requires LeaseRun(ttl, maxActive, ss, es) && a < i < |ss| && Opens(maxActive, ss[a], es[a], o, digest, now)
    ensures Lives(ss[i], o, digest, now + ttl as real, EndedBetween(ss, es, a, i, o, now + ttl as real))
  {
    OpenedInRun(ttl, maxActive, ss, es, a, o, digest, now);
    RunLifeGoesOn(ttl, maxActive, ss, es, o, digest, now + ttl as real);
    LivesOn(ss, es, a, i, o, digest, now + ttl as real);
  }

  /** In every run: a request that presents a token gets a lease on its session if and only
      if the lifetime since the issue has not run out, and no expiry pass at or after its
      end, no close by a request of that session and no shutdown has come in between. So an
      expiry pass before the end of the lifetime changes nothing. */
  lemma TokenOpensForItsLifetime(
      ttl: nat, maxActive: nat, ss: seq<LeaseSys>, es: seq<LeaseEvent>, a: nat, i: nat,
      o: OwnerId, digest: Hash, issuedAt: Time, request: RequestId, now: Time)
    requires LeaseRun(ttl, maxActive, ss, es) && a < i < |es|
    requires Opens(maxActive, ss[a], es[a], o, digest, issuedAt) && es[i] == AcquireLease(request, digest, now)
    ensures request in ss[i + 1].requests <==>
      now < issuedAt + ttl as real && !EndedBetween(ss, es, a, i, o, issuedAt + ttl as real)
    ensures request in ss[i + 1].requests ==> ss[i + 1].requests[request] == o
  {
    LivesUntilEnded(ttl, maxActive, ss, es, a, i, o, digest, issuedAt);
    TokenAgreement(ttl, maxActive, ss, es, i, digest, now);
    assert LeaseStep(ttl, maxActive, ss[i], es[i], ss[i + 1]);
  }

  /** A session that no event has ended is still there, whatever else happens. */
  lemma OpenSessionIsKept(ttl: nat, maxActive: nat, ss: seq<LeaseSys>, es: seq<LeaseEvent>, a: nat, i: nat,
                          o: OwnerId, digest: Hash, issuedAt: Time)
    requires LeaseRun(ttl, maxActive, ss, es) && a < i < |ss|
    requires Opens(maxActive, ss[a], es[a], o, digest, issuedAt)
    ensures o in ss[i].revoked <==> EndedBetween(ss, es, a, i, o, issuedAt + ttl as real)
    ensures o !in ss[i].revoked ==> o in ss[i].store.records && !ss[i].store.records[o].revoked
  {
    LivesUntilEnded(ttl, maxActive, ss, es, a, i, o, digest, issuedAt);
    LeaseRunInv(ttl, maxActive, ss, es, i);
    if o in ss[i].store.records {
      assert Granted(ss[i], o);
    }
  }

  // -------------------------------------------------------------------- leases

  /** Native work may start for an owner if and only if a request of that owner or other
      native work of it is still under way; so a request with a lease can always start it. */
  lemma NativeStartsUnderALease(
      ttl: nat, maxActive: nat, ss: seq<LeaseSys>, es: seq<LeaseEvent>, i: nat, call: CallId, o: OwnerId)
    requires LeaseRun(ttl, maxActive, ss, es) && i < |es| && es[i] == StartNative(call, o)
    ensures call in ss[i + 1].natives <==>
      (exists q :: q in ss[i].requests && ss[i].requests[q] == o)
      || (exists c :: c in ss[i].natives && ss[i].natives[c] == o)
    ensures call in ss[i + 1].natives ==> ss[i + 1].natives[call] == o
  {
    var s := ss[i];
    LeaseRunInv(ttl, maxActive, ss, es, i);
    assert LeaseStep(ttl, maxActive, s, es[i], ss[i + 1]);
    if q :| q in s.requests && s.requests[q] == o {
      assert q in Of(s.requests, o);
    }
    if c :| c in s.natives && s.natives[c] == o {
      assert c in Of(s.natives, o);
    }
    if o in s.store.records {
      assert RecordOk(s.store, o) && s.store.records[o].calls == References(s, o);
      if References(s, o) > 0 {
        SomeReference(s, o);
      }
    }
  }

  lemma SomeReference(s: LeaseSys, o: OwnerId)
    requires References(s, o) > 0
    ensures (exists q :: q in s.requests && s.requests[q] == o) || (exists c :: c in s.natives && s.natives[c] == o)
  {
    if Of(s.requests, o) != {} {
      var q :| q in Of(s.requests, o);
    } else {
      var c :| c in Of(s.natives, o);
    }
  }

  lemma ReferenceGoesOn(ttl: nat, maxActive: nat, s: LeaseSys, e: LeaseEvent, n: LeaseSys)
    requires LeaseStep(ttl, maxActive, s, e, n)
    ensures forall q :: q in s.requests ==>
      if e == EndRequest(q) then q !in n.requests else q in n.requests && n.requests[q] == s.requests[q]
    ensures forall c :: c in s.natives ==>
      if e == EndNative(c) then c !in n.natives else c in n.natives && n.natives[c] == s.natives[c]
  {
  }

  lemma CleaningTaskGoesOn(ttl: nat, maxActive: nat, s: LeaseSys, e: LeaseEvent, n: LeaseSys, o: OwnerId)
    requires LeaseStep(ttl, maxActive, s, e, n) && o in s.cleaning
    ensures o in n.cleaning <==> e != EndCleanup(o)
  {
  }

  lemma CleanedRecordGoes(ttl: nat, maxActive: nat, s: LeaseSys, e: LeaseEvent, n: LeaseSys, o: OwnerId)
    requires LeaseStep(ttl, maxActive, s, e, n) && o in s.store.records
    requires s.store.records[o].cleanup && s.store.records[o].calls == 0
    ensures o in n.store.records <==> e != EndCleanup(o)
  {
  }

  /** The end of a request, of a native call and of a cleanup is recorded as such, and
      nothing else ends them; a completed cleanup takes the record away. */
  lemma EndsAreRecorded(ttl: nat, maxActive: nat, ss: seq<LeaseSys>, es: seq<LeaseEvent>, i: nat)
    requires LeaseRun(ttl, maxActive, ss, es) && i < |es|
    ensures forall q :: q in ss[i].requests ==>
      if es[i] == EndRequest(q) then q !in ss[i + 1].requests
      else q in ss[i + 1].requests && ss[i + 1].requests[q] == ss[i].requests[q]
    ensures forall c :: c in ss[i].natives ==>
      if es[i] == EndNative(c) then c !in ss[i + 1].natives
      else c in ss[i + 1].natives && ss[i + 1].natives[c] == ss[i].natives[c]
    ensures forall o :: o in ss[i].cleaning ==>
      if es[i] == EndCleanup(o) then o !in ss[i + 1].cleaning && o !in ss[i + 1].store.records
      else o in ss[i + 1].cleaning && o in ss[i + 1].store.records
  {
    LeaseRunInv(ttl, maxActive, ss, es, i);
    assert LeaseStep(ttl, maxActive, ss[i], es[i], ss[i + 1]);
    ReferenceGoesOn(ttl, maxActive, ss[i], es[i], ss[i + 1]);
    CleaningsGoOn(ttl, maxActive, ss[i], es[i], ss[i + 1]);
  }

  lemma CleaningsGoOn(ttl: nat, maxActive: nat, s: LeaseSys, e: LeaseEvent, n: LeaseSys)
    requires LeaseInv(maxActive, s) && LeaseStep(ttl, maxActive, s, e, n)
    ensures forall o :: o in s.cleaning ==>
      if e == EndCleanup(o) then o !in n.cleaning && o !in n.store.records
      else o in n.cleaning && o in n.store.records
  {
    forall o | o in s.cleaning
      ensures o in n.cleaning <==> e != EndCleanup(o)
      ensures o in n.store.records <==> e != EndCleanup(o)
    {
      CleaningIdle(maxActive, s, o);
      CleaningTaskGoesOn(ttl, maxActive, s, e, n, o);
      CleanedRecordGoes(ttl, maxActive, s, e, n, o);
    }
  }

  lemma CleaningIdle(maxActive: nat, s: LeaseSys, o: OwnerId)
    requires LeaseInv(maxActive, s) && o in s.cleaning
    ensures o in s.store.records && s.store.records[o].cleanup && s.store.records[o].calls == 0
  {
    assert o in s.store.records && RecordOk(s.store, o);
  }
}
