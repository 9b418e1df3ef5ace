/** The file manifest and its rename window: deletions wait on timers that a file with the same
    content hash may turn into renames. */
module Manifests {

  type Path = string
  type Hash = string
  type TimerId = nat

  datatype Entry = Entry(present: bool, hash: Hash, mtime: int, size: nat)

  /** The pending deletion a content hash leads to. */
  datatype Pending = Pending(path: Path, timer: TimerId)

  /** What a running timer will do: `snapshot` is the entry when the deletion was noticed. */
  datatype Timer = Timer(path: Path, hash: Hash, snapshot: Entry)

  datatype Manifest = Manifest(
    files: map<Path, Entry>,
    pending: map<Hash, Pending>,
    timers: map<TimerId, Timer>,
    next: TimerId)

  // ---- Steps ----

  /** Turns the pending deletion of this hash, if there is one, into a rename. */
  function CheckRename(m: Manifest, hash: Hash): Manifest {
    if hash !in m.pending then m
    else
      var p := m.pending[hash];
      m.(files := if p.path in m.files then m.files[p.path := m.files[p.path].(present := false)] else m.files,
         pending := m.pending - {hash},
         timers := m.timers - {p.timer})
  }

  function SetFile(m: Manifest, path: Path, e: Entry): Manifest {
    var renamed := if e.present then CheckRename(m, e.hash) else m;
    renamed.(files := renamed.files[path := e])
  }

  function DeleteFile(m: Manifest, path: Path): Manifest {
    if path !in m.files then m
    else
      var e := m.files[path];
      m.(pending := m.pending[e.hash := Pending(path, m.next)],
         timers := m.timers[m.next := Timer(path, e.hash, e)],
         next := m.next + 1)
  }

  function Fire(m: Manifest, id: TimerId): Manifest {
    if id !in m.timers then m
    else
      var t := m.timers[id];
      m.(files := m.files[t.path := t.snapshot.(present := false)],
         pending := m.pending - {t.hash},
         timers := m.timers - {id})
  }

  datatype Event = Setting(path: Path, entry: Entry) | Deleting(path: Path) | Firing(id: TimerId)

  function Step(m: Manifest, e: Event): Manifest {
    match e
    case Setting(path, entry) => SetFile(m, path, entry)
    case Deleting(path) => DeleteFile(m, path)
    case Firing(id) => Fire(m, id)
  }

  function Run(m: Manifest, events: seq<Event>): Manifest
    decreases events
  {
    if events == [] then m else Run(Step(m, events[0]), events[1..])
  }

  // ---- What should become of a path ----

  /** A timer that will still mark this path as deleted. */
  ghost predicate Doomed(m: Manifest, path: Path) {
    exists id :: id in m.timers && m.timers[id].path == path
  }

  /** Whether a path should end up as existing: its latest operation set it so, and no timer for an
      earlier deletion of the same path was left running by that. */
  ghost function Intent(m: Manifest, intent: map<Path, bool>, e: Event): map<Path, bool> {
    match e
    case Setting(path, entry) => intent[path := entry.present && !Doomed(Step(m, e), path)]
    case Deleting(path) => if path in m.files then intent[path := false] else intent
    case Firing(_) => intent
  }

  ghost function RunIntent(m: Manifest, intent: map<Path, bool>, events: seq<Event>): map<Path, bool>
    decreases events
  {
    if events == [] then intent else RunIntent(Step(m, events[0]), Intent(m, intent, events[0]), events[1..])
  }

  /** Every pending deletion has its own running timer, and every timer is for a listed path. */
  ghost predicate Wired(m: Manifest) {
    && (forall h :: h in m.pending ==>
          m.pending[h].timer in m.timers && m.timers[m.pending[h].timer].path == m.pending[h].path
          && m.timers[m.pending[h].timer].hash == h)
    && (forall id :: id in m.timers ==> id < m.next && m.timers[id].path in m.files)
  }

  ghost predicate Follows(m: Manifest, intent: map<Path, bool>) {
    && m.files.Keys == intent.Keys
    && forall p :: p in m.files ==>
         if intent[p] then m.files[p].present && !Doomed(m, p)
         else m.files[p].present ==> Doomed(m, p)
  }

  ghost predicate Inv(m: Manifest, intent: map<Path, bool>) {
    Wired(m) && Follows(m, intent)
  }

  /** A rename marks its old path as deleted and touches nothing else that exists. */
  lemma CheckRenameKeeps(m: Manifest, intent: map<Path, bool>, hash: Hash)
    requires Inv(m, intent)
    ensures Inv(CheckRename(m, hash), intent)
  {
    if hash in m.pending {
      var after, p := CheckRename(m, hash), m.pending[hash];
      assert m.timers[p.timer].path == p.path && Doomed(m, p.path);
      forall h | h in after.pending ensures after.pending[h].timer in after.timers {
        assert h in m.pending && m.timers[m.pending[h].timer].hash == h;
      }
      forall q | q in after.files && q != p.path
        ensures Doomed(after, q) <==> Doomed(m, q)
      {
        if id :| id in m.timers && m.timers[id].path == q { assert id in after.timers; }
      }
    }
  }

  lemma SetFileKeeps(m: Manifest, intent: map<Path, bool>, path: Path, e: Entry)
    requires Inv(m, intent)
    ensures Inv(SetFile(m, path, e), Intent(m, intent, Setting(path, e)))
  {
    var renamed := if e.present then CheckRename(m, e.hash) else m;
    CheckRenameKeeps(m, intent, e.hash);
    var after := SetFile(m, path, e);
    assert forall q :: Doomed(after, q) <==> Doomed(renamed, q);
  }

  lemma DeleteFileKeeps(m: Manifest, intent: map<Path, bool>, path: Path)
    requires Inv(m, intent)
    ensures Inv(DeleteFile(m, path), Intent(m, intent, Deleting(path)))
  {
    if path in m.files {
      var after := DeleteFile(m, path);
      assert after.timers[m.next].path == path && Doomed(after, path);
      forall q | q in m.files && q != path
        ensures Doomed(after, q) <==> Doomed(m, q)
      {
        if id :| id in m.timers && m.timers[id].path == q { assert after.timers[id].path == q; }
        if id :| id in after.timers && after.timers[id].path == q { assert m.timers[id].path == q; }
      }
    }
  }

  lemma FireKeeps(m: Manifest, intent: map<Path, bool>, id: TimerId)
    requires Inv(m, intent)
    ensures Inv(Fire(m, id), intent)
  {
    if id in m.timers {
      var after, t := Fire(m, id), m.timers[id];
      assert Doomed(m, t.path);
      forall h | h in after.pending ensures after.pending[h].timer in after.timers {
        assert h in m.pending && m.timers[m.pending[h].timer].hash == h;
      }
      forall q | q in after.files && q != t.path
        ensures Doomed(after, q) <==> Doomed(m, q)
      {
        if other :| other in m.timers && m.timers[other].path == q { assert other in after.timers; }
      }
    }
  }

  lemma StepKeeps(m: Manifest, intent: map<Path, bool>, e: Event)
    requires Inv(m, intent)
    ensures Inv(Step(m, e), Intent(m, intent, e))
  {
    match e
    case Setting(path, entry) => SetFileKeeps(m, intent, path, entry);
    case Deleting(path) => DeleteFileKeeps(m, intent, path);
    case Firing(id) => FireKeeps(m, intent, id);
  }

  lemma {:induction false} RunKeeps(m: Manifest, intent: map<Path, bool>, events: seq<Event>)
    requires Inv(m, intent)
    ensures Inv(Run(m, events), RunIntent(m, intent, events))
    decreases events
  {
    if events != [] {
      StepKeeps(m, intent, events[0]);
      RunKeeps(Step(m, events[0]), Intent(m, intent, events[0]), events[1..]);
    }
  }

  // ---- Once no timer runs ----

  function Empty(): Manifest {
    Manifest(map[], map[], map[], 0)
  }

  /** Once no timer is running, exactly the intended paths exist, however operations, renames and
      equal content hashes interleaved. */
  lemma QuietIsIntended(events: seq<Event>, path: Path)
    requires Run(Empty(), events).timers == map[]
    ensures var m := Run(Empty(), events);
      var intent := RunIntent(Empty(), map[], events);
      (path in m.files <==> path in intent) && (path in m.files ==> (m.files[path].present <==> intent[path]))
  {
    RunKeeps(Empty(), map[], events);
  }

  ghost predicate Leaves(events: seq<Event>, path: Path) {
    forall i :: 0 <= i < |events| ==> events[i].Firing? || events[i].path != path
  }

  lemma {:induction false} IntentStays(m: Manifest, intent: map<Path, bool>, events: seq<Event>, path: Path)
    requires Leaves(events, path) && path in intent
    ensures path in RunIntent(m, intent, events) && RunIntent(m, intent, events)[path] == intent[path]
    decreases events
  {
    if events != [] {
      assert events[0].Firing? || events[0].path != path;
      assert Leaves(events[1..], path) by {
        forall i | 0 <= i < |events[1..]| ensures events[1..][i].Firing? || events[1..][i].path != path {
          assert events[1..][i] == events[i + 1];
        }
      }
      IntentStays(Step(m, events[0]), Intent(m, intent, events[0]), events[1..], path);
    }
  }

  /** What the latest operation on a path comes to: after a deletion the path does not exist, and
      after setting it, it exists exactly when it was set so and no timer for it was left running. */
  lemma LatestDecides(m: Manifest, intent: map<Path, bool>, latest: Event, later: seq<Event>)
    requires Inv(m, intent) && !latest.Firing? && Leaves(later, latest.path)
    requires latest.Setting? || latest.path in m.files
    requires Run(Step(m, latest), later).timers == map[]
    ensures var end := Run(Step(m, latest), later);
      latest.path in end.files && (end.files[latest.path].present <==>
        latest.Setting? && latest.entry.present && !Doomed(Step(m, latest), latest.path))
  {
    StepKeeps(m, intent, latest);
    RunKeeps(Step(m, latest), Intent(m, intent, latest), later);
    IntentStays(Step(m, latest), Intent(m, intent, latest), later, latest.path);
  }

  /** Deletions are committed: from the start, any operations, a deletion of a listed path, and then
      anything that leaves the path alone; once no timer runs, the path is recorded as gone. */
  lemma DeletionsCommit(before: seq<Event>, path: Path, later: seq<Event>)
    requires path in Run(Empty(), before).files && Leaves(later, path)
    requires Run(DeleteFile(Run(Empty(), before), path), later).timers == map[]
    ensures var end := Run(DeleteFile(Run(Empty(), before), path), later);
      path in end.files && !end.files[path].present
  {
    RunKeeps(Empty(), map[], before);
    LatestDecides(Run(Empty(), before), RunIntent(Empty(), map[], before), Deleting(path), later);
  }

  // ---- What is recorded of a path ----

  /** Hash, time and size of the path are those of `e`, and every timer for the path will record them. */
  ghost predicate Records(m: Manifest, path: Path, e: Entry) {
    && path in m.files && m.files[path].(present := e.present) == e
    && forall id :: id in m.timers && m.timers[id].path == path ==> m.timers[id].snapshot.(present := e.present) == e
  }

  lemma StepRecords(m: Manifest, path: Path, e: Entry, event: Event)
    requires Records(m, path, e) && (event.Firing? || event.path != path)
    ensures Records(Step(m, event), path, e)
  {
  }

  lemma {:induction false} RunRecords(m: Manifest, path: Path, e: Entry, events: seq<Event>)
    requires Records(m, path, e) && Leaves(events, path)
    ensures Records(Run(m, events), path, e)
    decreases events
  {
    if events != [] {
      assert events[0].Firing? || events[0].path != path;
      assert Leaves(events[1..], path) by {
        forall i | 0 <= i < |events[1..]| ensures events[1..][i].Firing? || events[1..][i].path != path {
          assert events[1..][i] == events[i + 1];
        }
      }
      StepRecords(m, path, e, events[0]);
      RunRecords(Step(m, events[0]), path, e, events[1..]);
    }
  }

  /** What the latest operation on a path leaves recorded of it, once no timer runs: after a deletion what
      was recorded before, marked as gone; after setting it what was set. Either holds if no earlier
      deletion of the path was still waiting. */
  lemma LatestIsRecorded(m: Manifest, intent: map<Path, bool>, latest: Event, later: seq<Event>)
    requires Inv(m, intent) && !latest.Firing? && Leaves(later, latest.path)
    requires latest.Deleting? ==> latest.path in m.files
    requires !Doomed(if latest.Deleting? then m else Step(m, latest), latest.path)
    requires Run(Step(m, latest), later).timers == map[]
    ensures var end := Run(Step(m, latest), later);
      && latest.path in end.files
      && end.files[latest.path] ==
           if latest.Setting? then latest.entry else m.files[latest.path].(present := false)
  {
    var path, after := latest.path, Step(m, latest);
    var e := if latest.Setting? then latest.entry else m.files[path];
    assert Records(after, path, e);
    RunRecords(after, path, e, later);
    LatestDecides(m, intent, latest, later);
  }

  /** Setting a path touches its entry, and takes for a rename a deletion of the same content that is still
      waiting: only if the path is set as existing, and only that one. */
  lemma SetTouches(m: Manifest, path: Path, e: Entry, q: Path)
    requires q != path
    ensures var t, renamed := SetFile(m, path, e), e.present && e.hash in m.pending;
      && path in t.files && t.files[path] == e
      && (q in t.files <==> q in m.files)
      && (q in m.files ==>
            t.files[q] == m.files[q].(present := m.files[q].present && !(renamed && m.pending[e.hash].path == q)))
      && t.timers == (if renamed then m.timers - {m.pending[e.hash].timer} else m.timers)
      && t.pending == (if renamed then m.pending - {e.hash} else m.pending)
  {
  }

  /** A deletion shows only later: the entry stays as it is, the path's own timer starts to wait beside all
      others, and the content now leads to this path. A path that is not listed cannot be deleted. */
  lemma DeletionWaits(m: Manifest, intent: map<Path, bool>, path: Path)
    requires Inv(m, intent)
    ensures var t := DeleteFile(m, path);
      t.files == m.files &&
      if path !in m.files then t == m
      else
        && (forall id :: id in m.timers ==> id in t.timers && t.timers[id] == m.timers[id])
        && (forall h :: h in t.pending <==> h in m.pending || h == m.files[path].hash)
        && (forall h :: h in m.pending && h != m.files[path].hash ==> t.pending[h] == m.pending[h])
        && var p := t.pending[m.files[path].hash];
           p.path == path && p.timer !in m.timers && t.timers.Keys == m.timers.Keys + {p.timer}
           && t.timers[p.timer] == Timer(path, m.files[path].hash, m.files[path])
  {
  }

  /** A timer that fires closes the window of its content for every deletion, later ones too; other
      contents stay open, and so do the other timers. */
  lemma FiringClosesWindow(m: Manifest, intent: map<Path, bool>, id: TimerId, path: Path, e: Entry)
    requires Inv(m, intent) && id in m.timers && e.present && e.hash == m.timers[id].hash
    ensures SetFile(Fire(m, id), path, e).timers == m.timers - {id}
    ensures forall h :: h in Fire(m, id).pending <==> h in m.pending && h != e.hash
  {
  }

  /** A rename closes the window: a deletion whose content turns up elsewhere leaves no timer behind,
      so setting the old path again stands. */
  lemma RenameClosesWindow(m: Manifest, intent: map<Path, bool>, path: Path, other: Path, e: Entry, again: Entry)
    requires Inv(m, intent) && path in m.files && !Doomed(m, path) && other != path
    requires e.present && e.hash == m.files[path].hash
    requires again.present && again.hash !in m.pending - {e.hash}
    ensures var moved := SetFile(DeleteFile(m, path), other, e);
      var end := SetFile(moved, path, again);
      moved.files == m.files[path := m.files[path].(present := false)][other := e] && moved.timers == m.timers
      && moved.pending == m.pending - {e.hash}
      && end.files == moved.files[path := again] && !Doomed(end, path)
  {
    var deleted := DeleteFile(m, path);
    var moved := SetFile(deleted, other, e);
    assert m.next !in m.timers;
    assert deleted.pending[e.hash] == Pending(path, m.next);
    assert moved.timers == m.timers;
    assert moved.pending == m.pending - {e.hash};
  }

  /** The converse fails: a path deleted and set again with another hash is lost when the timer of
      the deletion fires. */
  lemma RecreatedIsLost()
    ensures var first, second := Entry(true, "h", 1, 10), Entry(true, "k", 2, 20);
      var m := Run(Empty(), [Setting("a", first), Deleting("a"), Setting("a", second), Firing(0)]);
      m.timers == map[] && "a" in m.files && m.files["a"] == first.(present := false)
  {
    var first, second := Entry(true, "h", 1, 10), Entry(true, "k", 2, 20);
    var events := [Setting("a", first), Deleting("a"), Setting("a", second), Firing(0)];
    assert events[1..] == [Deleting("a"), Setting("a", second), Firing(0)];
    assert events[1..][1..] == [Setting("a", second), Firing(0)];
    assert events[1..][1..][1..] == [Firing(0)];
    var m1 := SetFile(Empty(), "a", first);
    var m2 := DeleteFile(m1, "a");
    assert m2.pending == map["h" := Pending("a", 0)] && m2.timers == map[0 := Timer("a", "h", first)];
    assert "k" != "h";
    var m3 := SetFile(m2, "a", second);
    assert m3.timers == m2.timers;
    var m4 := Fire(m3, 0);
    assert m4.timers == map[];
    assert Run(Empty(), events) == Run(m1, events[1..]) == Run(m2, events[1..][1..]);
    assert Run(m2, events[1..][1..]) == Run(m3, [Firing(0)]);
    assert [Firing(0)][1..] == [] && Run(m3, [Firing(0)]) == Run(m4, []) == m4;
  }

  // ---- The manager ----

  class ManifestManager {
    var files: map<Path, Entry>
    var pendingDeletes: map<Hash, Pending>
    var timers: map<TimerId, Timer>
    var nextTimer: TimerId

    ghost function View(): Manifest
      reads this
    {
      Manifest(files, pendingDeletes, timers, nextTimer)
    }

    constructor ()
      ensures View() == Empty()
    {
      files, pendingDeletes, timers, nextTimer := map[], map[], map[], 0;
    }

    method CheckRenamed(hash: Hash) returns (found: bool, oldPath: Path)
      modifies this
      ensures View() == CheckRename(old(View()), hash)
      ensures found <==> hash in old(pendingDeletes)
      ensures found ==> oldPath == old(pendingDeletes)[hash].path
    {
      if hash !in pendingDeletes { return false, ""; }
      var pending := pendingDeletes[hash];
      timers := timers - {pending.timer};
      pendingDeletes := pendingDeletes - {hash};
      if pending.path in files {
        files := files[pending.path := files[pending.path].(present := false)];
      }
      return true, pending.path;
    }

    method Set(path: Path, entry: Entry) returns (renamed: bool, oldPath: Path)
      modifies this
      ensures View() == SetFile(old(View()), path, entry)
      ensures renamed <==> entry.present && entry.hash in old(pendingDeletes)
      ensures renamed ==> oldPath == old(pendingDeletes)[entry.hash].path
    {
      renamed, oldPath := false, "";
      if entry.present {
        renamed, oldPath := CheckRenamed(entry.hash);
      }
      files := files[path := entry];
    }

    method Delete(path: Path)
      modifies this
      ensures View() == DeleteFile(old(View()), path)
    {
      if path !in files { return; }
      var existing := files[path];
      timers := timers[nextTimer := Timer(path, existing.hash, existing)];
      pendingDeletes := pendingDeletes[existing.hash := Pending(path, nextTimer)];
      nextTimer := nextTimer + 1;
    }

    method TimerFires(id: TimerId)
      requires id in timers
      modifies this
      ensures View() == Fire(old(View()), id)
    {
      var t := timers[id];
      timers := timers - {id};
      pendingDeletes := pendingDeletes - {t.hash};
      files := files[t.path := t.snapshot.(present := false)];
    }
  }
}
