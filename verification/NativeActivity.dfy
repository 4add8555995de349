/** `NativeCalls`: worker threads that stay counted after their waiter has gone, and the
    owner lease that a call started for a session holds until its task is done. */
module NativeActivity {
  import opened Common
  import opened SessionStore
  import opened SessionCapabilities
  import opened LeaseProtocol

  datatype RunReply = Started | LeaseInactive | NotCreated

  class NativeCalls {
    /** `_tasks`, each with the capability that its done-callback releases. */
    var tasks: map<CallId, Option<SessionCapability>>

    constructor ()
      ensures tasks == map[]
    {
      tasks := map[];
    }

    function ActiveCount(): nat
      reads this
    {
      |tasks|
    }

    /** `run` up to its shielded wait: the lease is retained first, and given back at once if
        no task could be created. A waiter that leaves afterwards changes nothing here. */
    method Run(call: CallId, lease: Option<SessionCapability>, store: SessionCapabilityStore, created: bool)
      returns (reply: RunReply)
      requires store.Valid() && call !in tasks
      modifies this, if lease.Some? then {lease.value} else {}
      ensures store.Valid() && store.byOwner == old(store.byOwner)
      ensures reply == LeaseInactive <==> lease.Some? && !old(Retainable(store, lease.value))
      ensures reply == NotCreated <==> !created && reply != LeaseInactive
      ensures tasks == if reply == Started then old(tasks)[call := lease] else old(tasks)
      ensures ActiveCount() == old(ActiveCount()) + if reply == Started then 1 else 0
      ensures store.Contents() == if reply == Started && lease.Some?
        then AddReference(old(store.Contents()), lease.value.taskId) else old(store.Contents())
    {
      if lease.Some? {
        var retained := store.Retain(lease.value);
        if !retained {
          return LeaseInactive;
        }
      }
      if !created {
        if lease.Some? {
          RetainedAndReleased(old(store.Contents()), lease.value.taskId);
          var cleanup := store.ReleaseRecord(lease.value);
        }
        return NotCreated;
      }
      tasks := tasks[call := lease];
      return Started;
    }

    /** The done-callbacks of a task: it leaves the count and its lease is released. */
    method Finished(call: CallId, store: SessionCapabilityStore) returns (cleanup: Option<SessionCapability>)
      requires store.Valid() && call in tasks
      modifies this, if tasks[call].Some? then {tasks[call].value} else {}
      ensures store.Valid() && tasks == old(tasks) - {call}
      ensures ActiveCount() == old(ActiveCount()) - 1
      ensures old(tasks)[call].None? ==> cleanup.None? && store.Contents() == old(store.Contents())
      ensures old(tasks)[call].Some? ==>
        var record := old(tasks)[call].value;
        && store.Contents()
           == (if old(store.Holds(record)) then Release(old(store.Contents()), record.taskId) else old(store.Contents()))
        && cleanup == (if LastReference(old(record.Value())) then Some(record) else None)
    {
      var lease := tasks[call];
      tasks := tasks - {call};
      cleanup := None;
      if lease.Some? {
        cleanup := store.ReleaseRecord(lease.value);
      }
    }
  }

  /** The store holds this very record, and it has a reference to add to. */
  ghost predicate Retainable(store: SessionCapabilityStore, record: SessionCapability)
    reads store, store.byOwner.Values, store.byDigest.Values, record
  {
    store.Holds(record) && CanRetain(store.Contents(), record.taskId)
  }

  /** A reference taken and given back leaves the store as it was and hands out nothing. */
  lemma RetainedAndReleased(st: Store, o: OwnerId)
    requires CanRetain(st, o)
    ensures Release(AddReference(st, o), o) == st && !LastRelease(AddReference(st, o), o)
  {
    assert AddReference(st, o).records[o := st.records[o]] == st.records;
  }
}
