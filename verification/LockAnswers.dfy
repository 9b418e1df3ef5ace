/** What a request for a plain file is answered, said of the paths and times in the table alone. */
module LockAnswers {
  import opened Options
  import opened Scopes
  import opened LockTable
  import opened LockState
  import opened FileLockManagement

  /** Somebody else has a live lock that speaks for the file. */
  ghost predicate Taken(slots: Slots, file: string, holder: string, now: int) {
    exists i :: 0 <= i < |slots| && TakenBy(slots[i], file, holder, now)
  }

  ghost predicate TakenBy(slot: Option<Lock>, file: string, holder: string, now: int) {
    && slot.Some? && now < slot.value.expiresAt && (holder == "" || slot.value.holder != holder)
    && Covers(slot.value.path, file)
  }

  lemma ClearIff(slots: Slots, file: string, holder: string, now: int)
    requires !("scope:" < file) && forall i :: 0 <= i < |slots| && slots[i].Some? ==> now < slots[i].value.expiresAt
    ensures Clear(slots, file, holder, now) <==> !Taken(slots, file, holder, now)
  {
    hide PathsConflict, Covers;
    forall i | 0 <= i < |slots| ensures Passes(slots[i], file, holder, now) <==> !TakenBy(slots[i], file, holder, now) {
      if slots[i].Some? { FileConflictsIff(slots[i].value.path, file); }
    }
  }

  /** With nothing expired and room in the table, a request for a file is granted if and only if nobody
      else has a live lock on it, or on a scope that matches it. */
  method AcquireFile(m: FileLockManager, file: string, holder: string, name: string, lease: Option<int>, now: int)
    returns (r: Attempt)
    requires m.Valid() && GoodLease(lease) && !("scope:" < file)
    requires forall i :: 0 <= i < |m.slots| && m.slots[i].Some? ==> now < m.slots[i].value.expiresAt
    requires Get(m.slots, file).Some? || Size(m.slots) < MAX_LOCKS
    modifies m
    ensures m.Valid() && r.Response? && (r.granted <==> !old(Taken(m.slots, file, holder, now)))
    ensures r.granted ==> Get(m.slots, file) == Some(r.lock) && r.lock.holder == holder
    ensures !r.granted ==> m.State() == old(m.State()) && TakenBy(Some(r.lock), file, holder, now)
  {
    hide Inv, Evolves, CapKept, Serves, Moves, GrantedAfter, Scanned, Clear, Taken, Covers, PathsConflict, CanGrant;
    NothingExpired(m.slots, now);
    ClearIff(m.slots, file, holder, now);
    r := m.Acquire(file, holder, name, lease, now);
    FileConflictsIff(r.lock.path, file);
  }

  lemma NothingExpired(slots: Slots, now: int)
    requires forall i :: 0 <= i < |slots| && slots[i].Some? ==> now < slots[i].value.expiresAt
    ensures Expired(slots, now) == {}
  {
  }
}
