/** `SessionCapability` and `SessionCapabilityStore` as the program has them: shared records
    whose fields change in place, reached through two dictionaries. */
module SessionCapabilities {
  import opened Common
  import opened SessionStore

  class SessionCapability {
    const taskId: OwnerId
    const tokenDigest: Hash
    const expiresAt: Time
    var activeCalls: int
    var revoked: bool
    var cleanupStarted: bool

    constructor (taskId: OwnerId, tokenDigest: Hash, expiresAt: Time)
      ensures Value() == Record(taskId, tokenDigest, expiresAt, 0, false, false)
    {
      this.taskId, this.tokenDigest, this.expiresAt := taskId, tokenDigest, expiresAt;
      activeCalls, revoked, cleanupStarted := 0, false, false;
    }

    function Value(): Record
      reads this
    {
      Record(taskId, tokenDigest, expiresAt, activeCalls, revoked, cleanupStarted)
    }
  }

  /** What an expiry at `now` makes of one record: it is revoked if it was or is due, and due
      for cleanup if it was or has just been revoked without a reference. */
  predicate ExpiredAsOf(r: Record, q: Record, now: Time) {
    && q == r.(revoked := q.revoked, cleanup := q.cleanup)
    && (q.revoked <==> r.revoked || r.expires <= now)
    && (q.cleanup <==> r.cleanup || (!r.revoked && r.expires <= now && r.calls == 0))
  }

  /** A list with one record for each of `owners` and no other. */
  ghost predicate ListsOwners(list: seq<SessionCapability>, owners: set<OwnerId>) {
    && (forall i :: 0 <= i < |list| ==> list[i].taskId in owners)
    && (forall o :: o in owners ==> exists i :: 0 <= i < |list| && list[i].taskId == o)
    && (forall i, j :: 0 <= i < j < |list| ==> list[i].taskId != list[j].taskId)
  }

  lemma ListOneMore(list: seq<SessionCapability>, owners: set<OwnerId>, record: SessionCapability)
    requires ListsOwners(list, owners) && record.taskId !in owners
    ensures ListsOwners(list + [record], owners + {record.taskId})
  {
    var longer := list + [record];
    forall o | o in owners + {record.taskId} ensures exists i :: 0 <= i < |longer| && longer[i].taskId == o {
      if o in owners {
        var i :| 0 <= i < |list| && list[i].taskId == o;
        assert longer[i].taskId == o;
      } else {
        assert longer[|list|].taskId == o;
      }
    }
  }

  class SessionCapabilityStore {
    const ttl: nat
    const maxActive: nat
    var byDigest: map<Hash, SessionCapability>
    var byOwner: map<OwnerId, SessionCapability>

    constructor (ttl: nat, maxActive: nat)
      ensures this.ttl == ttl && this.maxActive == maxActive
      ensures Valid() && Contents() == EMPTY_STORE && byOwner == map[]
    {
      this.ttl, this.maxActive := ttl, maxActive;
      byDigest, byOwner := map[], map[];
    }

    ghost function Contents(): Store
      reads this, byOwner.Values, byDigest.Values
    {
      Store(map o | o in byOwner :: byOwner[o].Value(), map d | d in byDigest :: byDigest[d].taskId)
    }

    /** Both dictionaries hold the same objects under their own keys. */
    ghost predicate Shaped()
      reads this
    {
      && (forall o :: o in byOwner ==> byOwner[o].taskId == o)
      && (forall d :: d in byDigest ==>
            byDigest[d].taskId in byOwner && byOwner[byDigest[d].taskId] == byDigest[d])
    }

    ghost predicate Valid()
      reads this, byOwner.Values, byDigest.Values
    {
      Shaped() && StoreOk(Contents()) && |byOwner| <= maxActive
    }

    /** The record is the one the store knows under its task ID. */
    predicate Holds(record: SessionCapability)
      reads this
    {
      record.taskId in byOwner && byOwner[record.taskId] == record
    }

    /** What the store holds after the fields of one record were assigned. */
    twostate lemma OneRecordChanged(record: SessionCapability)
      requires old(Shaped()) && byOwner == old(byOwner) && Holds(record)
      requires forall o :: o in byOwner && o != record.taskId ==> unchanged(byOwner[o])
      ensures Contents().records == old(Contents()).records[record.taskId := record.Value()]
    {
    }

    twostate lemma SameDigests()
      requires byDigest == old(byDigest)
      ensures Contents().index == old(Contents()).index
    {
    }

    /** Dropping the digest of one record drops exactly the index entries of its owner. */
    twostate lemma DigestDropped(record: SessionCapability)
      requires old(Shaped()) && old(StoreOk(Contents())) && old(Holds(record)) && !old(record.revoked)
      requires byDigest == old(byDigest) - {record.tokenDigest}
      ensures Contents().index == WithoutDigests(old(Contents()).index, {record.taskId})
    {
      ghost var before := old(Contents());
      assert RecordOk(before, record.taskId);
      forall d | d in before.index ensures before.index[d] == record.taskId <==> d == record.tokenDigest {
        assert Indexed(before, d);
      }
    }

    twostate lemma DigestAbsent(record: SessionCapability)
      requires old(Shaped()) && old(StoreOk(Contents())) && old(Holds(record)) && old(record.revoked)
      requires byDigest == old(byDigest)
      ensures Contents().index == WithoutDigests(old(Contents()).index, {record.taskId})
    {
      ghost var before := old(Contents());
      assert forall d :: d in before.index ==> Indexed(before, d);
    }

    ghost predicate AllHeld(list: seq<SessionCapability>)
      reads this
    {
      forall i :: 0 <= i < |list| ==> Holds(list[i])
    }

    /** `_revoke`, of a record that the store holds or that has already left it. As digests
        are never shared, an unrevoked record that is not held has no entry to lose. */
    method RevokeRecord(record: SessionCapability) returns (cleanup: Option<SessionCapability>)
      requires Valid()
      modifies this, record
      ensures byOwner == old(byOwner)
      ensures byDigest == if old(record.revoked) then old(byDigest) else old(byDigest) - {record.tokenDigest}
      ensures record.Value() == RevokedRecord(old(record.Value()))
      ensures cleanup == if HandedOutByRevoke(old(record.Value())) then Some(record) else None
      ensures old(Holds(record)) ==> Valid() && Contents() == Revoke(old(Contents()), record.taskId)
      ensures old(!Holds(record) && (record.revoked || record.tokenDigest !in byDigest)) ==>
                Valid() && Contents() == old(Contents())
    {
      ghost var held := Holds(record);
      ghost var stranger := !held && (record.revoked || record.tokenDigest !in byDigest);
      label start:
      if !record.revoked {
        record.revoked := true;
        byDigest := byDigest - {record.tokenDigest};
      }
      cleanup := None;
      if record.activeCalls == 0 && !record.cleanupStarted {
        record.cleanupStarted := true;
        cleanup := Some(record);
      }
      if held {
        HeldRevoked@start(record);
      } else if stranger {
        assert byDigest == old(byDigest);
        assert forall o :: o in byOwner ==> byOwner[o] != record;
        StrangerChanged@start(record);
      }
    }

    twostate lemma HeldRevoked(record: SessionCapability)
      requires old(Valid()) && old(Holds(record)) && byOwner == old(byOwner)
      requires forall o :: o in byOwner && o != record.taskId ==> unchanged(byOwner[o])
      requires record.Value() == RevokedRecord(old(record.Value()))
      requires byDigest == if old(record.revoked) then old(byDigest) else old(byDigest) - {record.tokenDigest}
      ensures Valid() && Contents() == Revoke(old(Contents()), record.taskId)
    {
      var before := old(Contents());
      RevokeKeepsOk(before, {record.taskId});
      if old(record.revoked) {
        DigestAbsent(record);
      } else {
        DigestDropped(record);
      }
      OneRecordChanged(record);
      RevokeOne(before, record.taskId);
    }

    /** The records of `done` are revoked, and `list` has those to be cleaned up. */
    ghost predicate RevokedSoFar(before: Store, done: set<OwnerId>, list: seq<SessionCapability>)
      reads this, byOwner.Values, byDigest.Values, list
    {
      && Valid() && Contents() == RevokeOwners(before, done)
      && ListsOwners(list, HandedOut(before, done)) && AllHeld(list)
    }

    /** One round of a revocation loop that has dealt with `done`. */
    method RevokeNext(o: OwnerId, list: seq<SessionCapability>, ghost before: Store, ghost done: set<OwnerId>)
      returns (longer: seq<SessionCapability>)
      requires RevokedSoFar(before, done, list) && o in byOwner && o !in done
      modifies this, byOwner[o]
      ensures RevokedSoFar(before, done + {o}, longer) && byOwner == old(byOwner)
    {
      RevokeCompose(before, done, o);
      HandedOutOneMore(before, done, o);
      assert byOwner[o].Value() == before.records[o];
      var candidate := RevokeRecord(byOwner[o]);
      assert candidate.Some? <==> HandedOutByRevoke(before.records[o]);
      longer := list;
      if candidate.Some? {
        ListOneMore(list, HandedOut(before, done), byOwner[o]);
        longer := list + [byOwner[o]];
      }
    }

    lemma NothingRevokedYet()
      requires Valid()
      ensures RevokedSoFar(Contents(), {}, [])
    {
      RevokeCompose(Contents(), {}, 0);
      assert HandedOut(Contents(), {}) == {};
    }

    /** Revocation of the records of `owners`, one after another. */
    method RevokeEach(owners: set<OwnerId>) returns (cleanup: seq<SessionCapability>)
      requires Valid() && owners <= byOwner.Keys
      modifies this, byOwner.Values
      ensures RevokedSoFar(old(Contents()), owners, cleanup) && byOwner == old(byOwner)
    {
      var todo, done := owners, {};
      cleanup := [];
      ghost var before := Contents();
      NothingRevokedYet();
      while todo != {}
        invariant todo <= owners && done == owners - todo
        invariant RevokedSoFar(before, done, cleanup) && byOwner == old(byOwner)
        decreases |todo|
      {
        var o :| o in todo;
        cleanup := RevokeNext(o, cleanup, before, done);
        todo, done := todo - {o}, done + {o};
      }
      assert done == owners;
    }

    /** `expire_due`; `now` is the clock reading. */
    method ExpireDue(now: Time) returns (cleanup: seq<SessionCapability>)
      requires Valid()
      modifies this, byOwner.Values
      ensures Valid() && byOwner == old(byOwner)
      ensures Contents() == RevokeOwners(old(Contents()), Due(old(Contents()), now))
      ensures ListsOwners(cleanup, HandedOut(old(Contents()), Due(old(Contents()), now)))
      ensures AllHeld(cleanup)
      ensures forall o :: o in byOwner ==>
        ExpiredAsOf(old(byOwner[o].Value()), byOwner[o].Value(), now)
      ensures forall r :: r in cleanup ==>
        old(r in byOwner.Values && !r.revoked && r.expiresAt <= now && r.activeCalls == 0 && !r.cleanupStarted)
    {
      var due := set o | o in byOwner && !byOwner[o].revoked && byOwner[o].expiresAt <= now;
      assert due == Due(Contents(), now);
      ghost var before := Contents();
      cleanup := RevokeEach(due);
      forall o | o in byOwner ensures ExpiredAsOf(old(byOwner[o].Value()), byOwner[o].Value(), now) {
        assert Contents().records[o] == byOwner[o].Value();
        assert before.records[o] == old(byOwner[o].Value());
      }
      forall r | r in cleanup
        ensures old(r in byOwner.Values && !r.revoked && r.expiresAt <= now && r.activeCalls == 0 && !r.cleanupStarted)
      {
        assert Holds(r) && r.taskId in HandedOut(before, due);
        assert before.records[r.taskId] == old(byOwner[r.taskId].Value());
      }
    }

    /** `revoke_all`. */
    method RevokeAll() returns (cleanup: seq<SessionCapability>)
      requires Valid()
      modifies this, byOwner.Values
      ensures Valid() && byOwner == old(byOwner) && byDigest == map[]
      ensures Contents() == RevokeOwners(old(Contents()), byOwner.Keys)
      ensures ListsOwners(cleanup, HandedOut(old(Contents()), byOwner.Keys))
      ensures AllHeld(cleanup)
      ensures forall o :: o in byOwner ==> byOwner[o].revoked
    {
      AllDigestsDropped(Contents(), byOwner.Keys);
      cleanup := RevokeEach(byOwner.Keys);
      assert byDigest.Keys == Contents().index.Keys;
      ClearDigests();
      forall o | o in byOwner ensures byOwner[o].revoked {
        assert Contents().records[o] == byOwner[o].Value();
      }
    }

    /** `_by_digest.clear()`, which finds nothing left to clear. */
    method ClearDigests()
      requires Valid() && byDigest.Keys == {}
      modifies this`byDigest
      ensures byDigest == map[] && Valid() && Contents() == old(Contents())
    {
      byDigest := map[];
    }

    twostate lemma RecordAdded(new record: SessionCapability)
      requires old(Shaped()) && record.taskId !in old(byOwner) && record.tokenDigest !in old(byDigest)
      requires byOwner == old(byOwner)[record.taskId := record]
      requires byDigest == old(byDigest)[record.tokenDigest := record]
      requires forall o :: o in old(byOwner) ==> unchanged(old(byOwner)[o])
      requires record.Value() == Record(record.taskId, record.tokenDigest, record.expiresAt, 0, false, false)
      ensures Contents() == Issue(old(Contents()), record.taskId, record.tokenDigest, record.expiresAt)
      ensures Shaped()
    {
      RecordsAdded(record);
      DigestsAdded(record);
    }

    twostate lemma RecordsAdded(new record: SessionCapability)
      requires byOwner == old(byOwner)[record.taskId := record]
      requires forall o :: o in old(byOwner) ==> unchanged(old(byOwner)[o])
      ensures Contents().records == old(Contents()).records[record.taskId := record.Value()]
    {
    }

    twostate lemma DigestsAdded(new record: SessionCapability)
      requires byDigest == old(byDigest)[record.tokenDigest := record]
      ensures Contents().index == old(Contents()).index[record.tokenDigest := record.taskId]
    {
    }

    method Insert(record: SessionCapability)
      requires Valid() && |byOwner| < maxActive
      requires record.taskId !in byOwner && record.tokenDigest !in byDigest
      requires record.Value() == Record(record.taskId, record.tokenDigest, record.expiresAt, 0, false, false)
      modifies this
      ensures Valid() && byOwner == old(byOwner)[record.taskId := record]
      ensures Contents() == Issue(old(Contents()), record.taskId, record.tokenDigest, record.expiresAt)
    {
      IssueKeepsOk(Contents(), record.taskId, record.tokenDigest, record.expiresAt);
      byDigest := byDigest[record.tokenDigest := record];
      byOwner := byOwner[record.taskId := record];
      RecordAdded(record);
    }

    /** `issue`, with the random task ID and token digest as arguments. */
    method IssueToken(o: OwnerId, digest: Hash, now: Time) returns (record: Option<SessionCapability>)
      requires Valid() && o !in byOwner && digest !in byDigest
      modifies this
      ensures Valid()
      ensures record.None? <==> old(|byOwner|) >= maxActive
      ensures record.None? ==> byOwner == old(byOwner) && Contents() == old(Contents())
      ensures record.Some? ==> fresh(record.value) && byOwner == old(byOwner)[o := record.value]
      ensures record.Some? ==> Contents() == Issue(old(Contents()), o, digest, now + ttl as real)
      ensures record.Some? ==> record.value.Value() == Record(o, digest, now + ttl as real, 0, false, false)
    {
      if |byOwner| >= maxActive {
        return None;
      }
      ghost var before := Contents();
      var r := new SessionCapability(o, digest, now + ttl as real);
      assert Contents() == before;
      Insert(r);
      return Some(r);
    }

    /** `record.active_calls += 1`. */
    method AddCall(record: SessionCapability)
      requires Valid() && Holds(record) && !record.cleanupStarted
      modifies record
      ensures Valid() && Contents() == AddReference(old(Contents()), record.taskId)
    {
      ReferencesKeepOk(Contents(), record.taskId);
      record.activeCalls := record.activeCalls + 1;
      OneRecordChanged(record);
      SameDigests();
    }

    /** `acquire`, for a token of the issued shape. */
    method Acquire(digest: Hash, now: Time) returns (record: Option<SessionCapability>)
      requires Valid()
      modifies byDigest.Values
      ensures Valid() && byOwner == old(byOwner) && byDigest == old(byDigest)
      ensures (if record.Some? then Some(record.value.taskId) else None) == Lookup(old(Contents()), digest, now)
      ensures record.None? ==> Contents() == old(Contents())
      ensures record.Some? ==>
        Holds(record.value) && Contents() == AddReference(old(Contents()), record.value.taskId)
      ensures record.Some? <==>
        digest in byDigest && old(!byDigest[digest].revoked) && now < byDigest[digest].expiresAt
      ensures record.Some? ==>
        record.value == byDigest[digest] && record.value.activeCalls == old(byDigest[digest].activeCalls) + 1
    {
      if digest !in byDigest {
        return None;
      }
      var r := byDigest[digest];
      assert r.Value() == Contents().records[r.taskId];
      if r.revoked || r.expiresAt <= now {
        return None;
      }
      assert RecordOk(Contents(), r.taskId);
      AddCall(r);
      return Some(r);
    }

    /** A record that the store does not hold can change without the store noticing. */
    twostate lemma StrangerChanged(record: SessionCapability)
      requires old(Shaped()) && !old(Holds(record)) && byOwner == old(byOwner) && byDigest == old(byDigest)
      requires forall o :: o in byOwner ==> unchanged(byOwner[o])
      ensures Contents() == old(Contents()) && Shaped()
    {
      assert Contents().records == old(Contents()).records;
      assert Contents().index == old(Contents()).index;
    }

    /** `retain`; false is the RuntimeError. */
    method Retain(record: SessionCapability) returns (retained: bool)
      requires Valid()
      modifies record
      ensures Valid() && byOwner == old(byOwner)
      ensures retained <==> old(Holds(record)) && CanRetain(old(Contents()), record.taskId)
      ensures retained <==> old(Holds(record) && record.activeCalls > 0 && !record.cleanupStarted)
      ensures record.activeCalls == old(record.activeCalls) + if retained then 1 else 0
      ensures Contents() == if retained then AddReference(old(Contents()), record.taskId) else old(Contents())
      ensures !retained ==> record.Value() == old(record.Value())
    {
      if record.taskId !in byOwner || byOwner[record.taskId] != record {
        return false;
      }
      assert record.Value() == Contents().records[record.taskId];
      if record.activeCalls <= 0 || record.cleanupStarted {
        return false;
      }
      AddCall(record);
      return true;
    }

    /** `release`, of a record that the store holds or that has already left it. */
    method ReleaseRecord(record: SessionCapability) returns (cleanup: Option<SessionCapability>)
      requires Valid()
      modifies record
      ensures Valid() && byOwner == old(byOwner)
      ensures record.Value() == ReleasedRecord(old(record.Value()))
      ensures cleanup == if LastReference(old(record.Value())) then Some(record) else None
      ensures Contents() == if old(Holds(record)) then Release(old(Contents()), record.taskId) else old(Contents())
      ensures old(Holds(record)) ==> LastReference(old(record.Value())) == LastRelease(old(Contents()), record.taskId)
    {
      ghost var before, held := Contents(), Holds(record);
      ReferencesKeepOk(before, record.taskId);
      assert held ==> record.Value() == before.records[record.taskId];
      if record.activeCalls <= 0 {
        return None;
      }
      cleanup := GiveBack(record);
      if held {
        OneRecordChanged(record);
        SameDigests();
      } else {
        assert forall o :: o in byOwner ==> byOwner[o] != record;
        StrangerChanged(record);
      }
    }

    method GiveBack(record: SessionCapability) returns (cleanup: Option<SessionCapability>)
      requires record.activeCalls > 0
      modifies record
      ensures record.Value() == ReleasedRecord(old(record.Value()))
      ensures cleanup == if LastReference(old(record.Value())) then Some(record) else None
    {
      record.activeCalls := record.activeCalls - 1;
      if record.revoked && record.activeCalls == 0 && !record.cleanupStarted {
        record.cleanupStarted := true;
        return Some(record);
      }
      return None;
    }

    /** `cleanup_complete`: the entry under the record's task ID goes, whatever it is. As
        task IDs are never shared, it is the record itself or nothing. */
    method CleanupCompleted(record: SessionCapability)
      requires Valid()
      modifies this
      ensures byDigest == old(byDigest)
      ensures byOwner == if record.cleanupStarted && record.activeCalls == 0
                         then old(byOwner) - {record.taskId} else old(byOwner)
      ensures old(Holds(record) || record.taskId !in byOwner) ==>
        Valid() && Contents() == CleanupComplete(old(Contents()), record.taskId)
    {
      ghost var before := Contents();
      if record.taskId !in byOwner {
        return;
      }
      if record.cleanupStarted && record.activeCalls == 0 {
        byOwner := byOwner - {record.taskId};
        if old(Holds(record)) {
          OwnerDropped(record);
        }
      }
    }

    twostate lemma OwnerDropped(record: SessionCapability)
      requires old(Valid()) && old(Holds(record)) && record.cleanupStarted && record.activeCalls == 0
      requires byOwner == old(byOwner) - {record.taskId} && byDigest == old(byDigest)
      requires forall o :: o in old(byOwner) ==> unchanged(old(byOwner)[o])
      ensures Valid() && Contents() == CleanupComplete(old(Contents()), record.taskId)
    {
      var before := old(Contents());
      CleanupKeepsOk(before, record.taskId);
      assert record.Value() == before.records[record.taskId];
      assert RecordOk(before, record.taskId);
      forall d | d in byDigest ensures byDigest[d].taskId != record.taskId {
        assert Indexed(before, d);
      }
      SubsetCardinality(byOwner.Keys, old(byOwner).Keys);
      assert Contents().records == before.records - {record.taskId};
      SameDigests();
    }
  }
}
