/** Bearer capabilities for sessionless clients: the store as a value, its operations as
    functions, and the class that carries them out on shared mutable records. */
module SessionStore {
  import opened Common

  /** The gateway-generated task ID that owns native resources. */
  type OwnerId = nat

  datatype Record = Record(
    owner: OwnerId, digest: Hash, expires: Time, calls: int, revoked: bool, cleanup: bool)

  /** `_by_owner` and `_by_digest`. */
  datatype Store = Store(records: map<OwnerId, Record>, index: map<Hash, OwnerId>)

  const EMPTY_STORE := Store(map[], map[])

  // -------------------------------------------------------------- operations

  /** `_revoke` on one record; a record without references is handed out for cleanup. */
  function RevokedRecord(r: Record): Record {
    r.(revoked := true, cleanup := r.cleanup || r.calls == 0)
  }

  predicate HandedOutByRevoke(r: Record) {
    r.calls == 0 && !r.cleanup
  }

  function WithoutDigests(index: map<Hash, OwnerId>, owners: set<OwnerId>): map<Hash, OwnerId> {
    map d | d in index && index[d] !in owners :: index[d]
  }

  /** Revocation of several records at once. */
  function RevokeOwners(st: Store, owners: set<OwnerId>): Store {
    Store(map o | o in st.records :: if o in owners then RevokedRecord(st.records[o]) else st.records[o],
          WithoutDigests(st.index, owners))
  }

  function HandedOut(st: Store, owners: set<OwnerId>): set<OwnerId> {
    set o | o in st.records && o in owners && HandedOutByRevoke(st.records[o])
  }

  function Due(st: Store, now: Time): set<OwnerId> {
    set o | o in st.records && !st.records[o].revoked && st.records[o].expires <= now
  }

  function Revoke(st: Store, o: OwnerId): Store {
    RevokeOwners(st, {o})
  }

  function Issue(st: Store, o: OwnerId, digest: Hash, expires: Time): Store {
    Store(st.records[o := Record(o, digest, expires, 0, false, false)], st.index[digest := o])
  }

  /** The record that a presented token opens. */
  function Lookup(st: Store, digest: Hash, now: Time): Option<OwnerId> {
    if digest in st.index && st.index[digest] in st.records
       && !st.records[st.index[digest]].revoked && now < st.records[st.index[digest]].expires
    then Some(st.index[digest]) else None
  }

  function AddReference(st: Store, o: OwnerId): Store
    requires o in st.records
  {
    st.(records := st.records[o := st.records[o].(calls := st.records[o].calls + 1)])
  }

  predicate CanRetain(st: Store, o: OwnerId) {
    o in st.records && st.records[o].calls > 0 && !st.records[o].cleanup
  }

  predicate LastRelease(st: Store, o: OwnerId) {
    o in st.records && LastReference(st.records[o])
  }

  function Release(st: Store, o: OwnerId): Store {
    if o in st.records && st.records[o].calls > 0 then
      st.(records := st.records[o := ReleasedRecord(st.records[o])])
    else
      st
  }

  /** `release` on one record, and whether it hands the record out for cleanup. */
  function ReleasedRecord(r: Record): Record {
    if r.calls > 0 then r.(calls := r.calls - 1, cleanup := r.cleanup || LastReference(r)) else r
  }

  predicate LastReference(r: Record) {
    r.calls == 1 && r.revoked && !r.cleanup
  }

  function CleanupComplete(st: Store, o: OwnerId): Store {
    if o in st.records && st.records[o].cleanup && st.records[o].calls == 0 then
      st.(records := st.records - {o})
    else
      st
  }

  // --------------------------------------------------------------- invariant

  ghost predicate RecordOk(st: Store, o: OwnerId)
    requires o in st.records
  {
    var r := st.records[o];
    && r.owner == o && r.calls >= 0
    && (r.cleanup <==> r.revoked && r.calls == 0)
    && (!r.revoked ==> r.digest in st.index && st.index[r.digest] == o)
  }

  ghost predicate Indexed(st: Store, d: Hash)
    requires d in st.index
  {
    && st.index[d] in st.records
    && st.records[st.index[d]].digest == d && !st.records[st.index[d]].revoked
  }

  /** Cleanup is due exactly for revoked records without references, and the digest index
      holds exactly the records that are not revoked. */
  ghost predicate StoreOk(st: Store) {
    && (forall o :: o in st.records ==> RecordOk(st, o))
    && (forall d :: d in st.index ==> Indexed(st, d))
  }

  lemma RevokeKeepsOk(st: Store, owners: set<OwnerId>)
    requires StoreOk(st)
    ensures StoreOk(RevokeOwners(st, owners))
  {
    var n := RevokeOwners(st, owners);
    forall o | o in n.records ensures RecordOk(n, o) {
      assert RecordOk(st, o);
    }
  }

  lemma IssueKeepsOk(st: Store, o: OwnerId, digest: Hash, expires: Time)
    requires StoreOk(st) && o !in st.records && digest !in st.index
    ensures StoreOk(Issue(st, o, digest, expires))
  {
    var n := Issue(st, o, digest, expires);
    forall i | i in n.records ensures RecordOk(n, i) {
      if i != o { assert RecordOk(st, i); }
    }
  }

  lemma ReferencesKeepOk(st: Store, o: OwnerId)
    requires StoreOk(st)
    ensures o in st.records && !st.records[o].cleanup ==> StoreOk(AddReference(st, o))
    ensures StoreOk(Release(st, o))
  {
    if o in st.records {
      var a, r := AddReference(st, o), Release(st, o);
      assert RecordOk(st, o);
      forall i | i in st.records ensures RecordOk(r, i) {
        assert RecordOk(st, i);
      }
      forall i | i in st.records && !st.records[o].cleanup ensures RecordOk(a, i) {
        assert RecordOk(st, i);
      }
    }
  }

  lemma CleanupKeepsOk(st: Store, o: OwnerId)
    requires StoreOk(st)
    ensures StoreOk(CleanupComplete(st, o))
  {
    var n := CleanupComplete(st, o);
    forall i | i in n.records ensures RecordOk(n, i) {
      assert RecordOk(st, i);
    }
    if o in st.records { assert RecordOk(st, o); }
  }

  lemma RevokeCompose(st: Store, owners: set<OwnerId>, o: OwnerId)
    ensures RevokeOwners(RevokeOwners(st, owners), {o}) == RevokeOwners(st, owners + {o})
    ensures RevokeOwners(st, {}) == st
  {
  }

  lemma RevokeOne(st: Store, o: OwnerId)
    requires o in st.records
    ensures Revoke(st, o) == Store(st.records[o := RevokedRecord(st.records[o])], WithoutDigests(st.index, {o}))
  {
  }

  lemma HandedOutOneMore(st: Store, owners: set<OwnerId>, o: OwnerId)
    requires o in st.records && o !in owners
    ensures HandedOut(st, owners + {o}) ==
      HandedOut(st, owners) + (if HandedOutByRevoke(st.records[o]) then {o} else {})
  {
  }

  lemma AllDigestsDropped(st: Store, owners: set<OwnerId>)
    requires StoreOk(st) && owners == st.records.Keys
    ensures RevokeOwners(st, owners).index == map[]
  {
    assert forall d :: d in st.index ==> Indexed(st, d);
  }
}
