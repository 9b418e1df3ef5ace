/** The propagation gate: local updates are sent, or queued per path until the path is free. */
module Gates {
  import opened Bytes
  import opened Updates

  type Path = string
  type Update = seq<byte>

  datatype Entry = Entry(path: Path, updates: seq<Update>)

  /** `queue` in insertion order; `sent` is all that was handed to the transport, `ops` the
      operations counted for it. */
  datatype Gate = Gate(queue: seq<Entry>, bytes: int, sent: seq<FileUpdate>, ops: nat)

  function Tagged(path: Path, updates: seq<Update>): (r: seq<FileUpdate>)
    ensures |r| == |updates|
  {
    seq(|updates|, i requires 0 <= i < |updates| => FileUpdate(path, updates[i]))
  }

  /** All that is queued. */
  function Flat(queue: seq<Entry>): seq<FileUpdate> {
    if queue == [] then [] else Tagged(queue[0].path, queue[0].updates) + Flat(queue[1..])
  }

  function IndexOf(queue: seq<Entry>, path: Path): (i: nat)
    ensures i <= |queue| && forall j :: 0 <= j < i ==> queue[j].path != path
    ensures i < |queue| ==> queue[i].path == path
  {
    if queue == [] || queue[0].path == path then 0 else 1 + IndexOf(queue[1..], path)
  }

  function Keys(queue: seq<Entry>): seq<Path> {
    seq(|queue|, i requires 0 <= i < |queue| => queue[i].path)
  }

  // ---- Steps ----

  function Send(g: Gate, path: Path, update: Update): Gate {
    g.(sent := g.sent + [FileUpdate(path, update)], ops := g.ops + 1)
  }

  function Push(queue: seq<Entry>, path: Path, update: Update): seq<Entry> {
    var i := IndexOf(queue, path);
    if i < |queue| then queue[i := Entry(path, queue[i].updates + [update])] else queue + [Entry(path, [update])]
  }

  function DrainFile(g: Gate, path: Path): Gate {
    var i := IndexOf(g.queue, path);
    if i == |g.queue| || g.queue[i].updates == [] then g
    else
      var out := Tagged(path, g.queue[i].updates);
      Gate(g.queue[..i] + g.queue[i + 1..], g.bytes - Weight(out), g.sent + out, g.ops + |out|)
  }

  function ForceFlush(g: Gate): Gate {
    Gate([], 0, g.sent + Flat(g.queue), g.ops + |Flat(g.queue)|)
  }

  predicate Overflows(g: Gate, update: Update) {
    |Flat(g.queue)| >= MAX_BUFFERED_UPDATES || g.bytes + |update| > MAX_BUFFERED_BYTES
  }

  function Enqueue(g: Gate, path: Path, update: Update): Gate {
    if Overflows(g, update) then Send(ForceFlush(g), path, update)
    else g.(queue := Push(g.queue, path, update), bytes := g.bytes + |update|)
  }

  function LocalUpdate(g: Gate, path: Path, update: Update, gated: bool): Gate {
    if gated then Enqueue(g, path, update) else Send(g, path, update)
  }

  function DrainPaths(g: Gate, paths: seq<Path>, gated: Path -> bool): Gate
    decreases paths
  {
    if paths == [] then g
    else DrainPaths(if gated(paths[0]) then g else DrainFile(g, paths[0]), paths[1..], gated)
  }

  function DrainGate(g: Gate, gated: Path -> bool): Gate {
    DrainPaths(g, Keys(g.queue), gated)
  }

  // ---- The ledger ----

  ghost predicate Unique(queue: seq<Entry>) {
    forall i, j :: 0 <= i < j < |queue| ==> queue[i].path != queue[j].path
  }

  /** Nothing lost, nothing doubled: what was sent and what is queued are what was emitted; the byte
      count is that of the queue; and both bounds hold. */
  ghost predicate Inv(g: Gate, emitted: seq<FileUpdate>) {
    && Unique(g.queue)
    && multiset(g.sent + Flat(g.queue)) == multiset(emitted)
    && g.bytes == Weight(Flat(g.queue)) <= MAX_BUFFERED_BYTES
    && |Flat(g.queue)| <= MAX_BUFFERED_UPDATES
    && g.ops == |g.sent|
  }

  lemma {:induction false} FlatAppend(a: seq<Entry>, b: seq<Entry>)
    ensures Flat(a + b) == Flat(a) + Flat(b)
  {
    if a == [] {
      assert a + b == b;
    } else {
      assert (a + b)[1..] == a[1..] + b;
      FlatAppend(a[1..], b);
    }
  }

  lemma FlatAt(queue: seq<Entry>, i: nat)
    requires i < |queue|
    ensures Flat(queue) == Flat(queue[..i]) + Tagged(queue[i].path, queue[i].updates) + Flat(queue[i + 1..])
  {
    assert queue == queue[..i] + queue[i..];
    FlatAppend(queue[..i], queue[i..]);
  }

  /** What is queued in front of the place where an update for `path` goes. */
  ghost function Ahead(queue: seq<Entry>, path: Path): seq<FileUpdate> {
    var i := IndexOf(queue, path);
    if i < |queue| then Flat(queue[..i]) + Tagged(path, queue[i].updates) else Flat(queue)
  }

  ghost function Behind(queue: seq<Entry>, path: Path): seq<FileUpdate> {
    var i := IndexOf(queue, path);
    if i < |queue| then Flat(queue[i + 1..]) else []
  }

  lemma PushFlat(queue: seq<Entry>, path: Path, update: Update)
    ensures Flat(queue) == Ahead(queue, path) + Behind(queue, path)
    ensures Flat(Push(queue, path, update)) == Ahead(queue, path) + [FileUpdate(path, update)] + Behind(queue, path)
  {
    var i := IndexOf(queue, path);
    if i < |queue| {
      PushThere(queue, i, update);
    } else {
      PushBehind(queue, path, update);
      assert Flat(queue) + [] == Flat(queue);
    }
  }

  lemma PushThere(queue: seq<Entry>, i: nat, update: Update)
    requires i < |queue|
    ensures var e := queue[i];
      Flat(queue[i := Entry(e.path, e.updates + [update])]) ==
        Flat(queue[..i]) + Tagged(e.path, e.updates) + [FileUpdate(e.path, update)] + Flat(queue[i + 1..])
    ensures Flat(queue) == Flat(queue[..i]) + Tagged(queue[i].path, queue[i].updates) + Flat(queue[i + 1..])
  {
    hide Flat, Tagged;
    var e := queue[i];
    var after := queue[i := Entry(e.path, e.updates + [update])];
    FlatAt(queue, i);
    FlatAt(after, i);
    assert after[..i] == queue[..i] && after[i + 1..] == queue[i + 1..];
    TaggedMore(e.path, e.updates, update);
    var a, t, s := Flat(queue[..i]), Tagged(e.path, e.updates), [FileUpdate(e.path, update)];
    assert a + (t + s) == a + t + s;
  }

  lemma TaggedMore(path: Path, updates: seq<Update>, update: Update)
    ensures Tagged(path, updates + [update]) == Tagged(path, updates) + [FileUpdate(path, update)]
  {
  }

  lemma PushBehind(queue: seq<Entry>, path: Path, update: Update)
    ensures Flat(queue + [Entry(path, [update])]) == Flat(queue) + [FileUpdate(path, update)]
  {
    FlatAppend(queue, [Entry(path, [update])]);
    assert Tagged(path, [update]) == [FileUpdate(path, update)];
    assert Flat([Entry(path, [update])]) == [FileUpdate(path, update)] + [];
  }

  lemma WithoutFlat(queue: seq<Entry>, i: nat)
    requires i < |queue|
    ensures Flat(queue[..i] + queue[i + 1..]) == Flat(queue[..i]) + Flat(queue[i + 1..])
    ensures Weight(Flat(queue)) ==
      Weight(Flat(queue[..i] + queue[i + 1..])) + Weight(Tagged(queue[i].path, queue[i].updates))
  {
    var a, t, b := Flat(queue[..i]), Tagged(queue[i].path, queue[i].updates), Flat(queue[i + 1..]);
    FlatAt(queue, i);
    FlatAppend(queue[..i], queue[i + 1..]);
    WeightAppend(a + t, b);
    WeightAppend(a, t);
    WeightAppend(a, b);
  }

  /** One part more in the middle: the same as a multiset and by weight as one more at the end. */
  lemma AddedInside(pre: seq<FileUpdate>, a: seq<FileUpdate>, s: seq<FileUpdate>, b: seq<FileUpdate>)
    ensures multiset(pre + (a + s + b)) == multiset(pre + (a + b)) + multiset(s)
    ensures Weight(a + s + b) == Weight(a + b) + Weight(s)
  {
    WeightAppend(a + s, b);
    WeightAppend(a, s);
    WeightAppend(a, b);
  }

  /** Moving the middle part to the sent updates leaves the whole the same as a multiset. */
  lemma MovedOver(sent: seq<FileUpdate>, a: seq<FileUpdate>, t: seq<FileUpdate>, b: seq<FileUpdate>)
    ensures multiset(sent + t + (a + b)) == multiset(sent + (a + t + b))
  {
    assert multiset(sent + t + (a + b)) == multiset(sent) + multiset(t) + (multiset(a) + multiset(b));
    assert multiset(sent + (a + t + b)) == multiset(sent) + (multiset(a) + multiset(t) + multiset(b));
  }

  lemma PushUnique(queue: seq<Entry>, path: Path, update: Update)
    requires Unique(queue)
    ensures Unique(Push(queue, path, update))
  {
  }

  lemma WithoutUnique(queue: seq<Entry>, i: nat)
    requires Unique(queue) && i < |queue|
    ensures Unique(queue[..i] + queue[i + 1..])
  {
  }

  lemma SendKeeps(g: Gate, emitted: seq<FileUpdate>, path: Path, update: Update)
    requires Inv(g, emitted)
    ensures Inv(Send(g, path, update), emitted + [FileUpdate(path, update)])
  {
    var s := [FileUpdate(path, update)];
    assert multiset(g.sent + s + Flat(g.queue)) == multiset(g.sent + Flat(g.queue)) + multiset(s);
  }

  lemma ForceFlushKeeps(g: Gate, emitted: seq<FileUpdate>)
    requires Inv(g, emitted)
    ensures Inv(ForceFlush(g), emitted)
  {
    assert g.sent + Flat(g.queue) + [] == g.sent + Flat(g.queue);
  }

  lemma EnqueueKeeps(g: Gate, emitted: seq<FileUpdate>, path: Path, update: Update)
    requires Inv(g, emitted)
    ensures Inv(Enqueue(g, path, update), emitted + [FileUpdate(path, update)])
  {
    if Overflows(g, update) {
      ForceFlushKeeps(g, emitted);
      SendKeeps(ForceFlush(g), emitted, path, update);
    } else {
      hide Flat, Weight, Push, Ahead, Behind;
      var a, s, b := Ahead(g.queue, path), [FileUpdate(path, update)], Behind(g.queue, path);
      PushFlat(g.queue, path, update);
      PushUnique(g.queue, path, update);
      AddedInside(g.sent, a, s, b);
      WeightOfOne(FileUpdate(path, update));
      assert multiset(emitted + s) == multiset(emitted) + multiset(s);
    }
  }

  lemma DrainFileKeeps(g: Gate, emitted: seq<FileUpdate>, path: Path)
    requires Inv(g, emitted)
    ensures Inv(DrainFile(g, path), emitted)
  {
    hide Flat, Weight, Tagged, Unique;
    var i := IndexOf(g.queue, path);
    if i < |g.queue| {
      FlatAt(g.queue, i);
      WithoutFlat(g.queue, i);
      WithoutUnique(g.queue, i);
      var a, t, b := Flat(g.queue[..i]), Tagged(path, g.queue[i].updates), Flat(g.queue[i + 1..]);
      MovedOver(g.sent, a, t, b);
    }
  }

  lemma {:induction false} DrainPathsKeeps(g: Gate, emitted: seq<FileUpdate>, paths: seq<Path>, gated: Path -> bool)
    requires Inv(g, emitted)
    ensures Inv(DrainPaths(g, paths, gated), emitted)
    decreases paths
  {
    if paths != [] {
      DrainFileKeeps(g, emitted, paths[0]);
      DrainPathsKeeps(if gated(paths[0]) then g else DrainFile(g, paths[0]), emitted, paths[1..], gated);
    }
  }

  // ---- Order within one path ----

  function Only(s: seq<FileUpdate>, path: Path): seq<FileUpdate> {
    if s == [] then []
    else if s[0].path == path then [s[0]] + Only(s[1..], path)
    else Only(s[1..], path)
  }

  /** The updates of one path reach the transport, now or later, in the order they were emitted. */
  ghost predicate InOrder(g: Gate, emitted: seq<FileUpdate>, path: Path) {
    Only(g.sent, path) + Only(Flat(g.queue), path) == Only(emitted, path)
  }

  lemma {:induction false} OnlyAppend(a: seq<FileUpdate>, b: seq<FileUpdate>, path: Path)
    ensures Only(a + b, path) == Only(a, path) + Only(b, path)
  {
    if a == [] {
      assert a + b == b;
    } else {
      assert (a + b)[1..] == a[1..] + b;
      OnlyAppend(a[1..], b, path);
    }
  }

  lemma {:induction false} OnlyTagged(s: seq<FileUpdate>, of: Path, path: Path)
    requires forall i :: 0 <= i < |s| ==> s[i].path == of
    ensures Only(s, path) == if of == path then s else []
  {
    if s != [] { OnlyTagged(s[1..], of, path); }
  }

  lemma {:induction false} OnlyOthers(queue: seq<Entry>, path: Path)
    requires forall i :: 0 <= i < |queue| ==> queue[i].path != path
    ensures Only(Flat(queue), path) == []
  {
    if queue != [] {
      var t := Tagged(queue[0].path, queue[0].updates);
      OnlyOthers(queue[1..], path);
      OnlyTagged(t, queue[0].path, path);
      OnlyAppend(t, Flat(queue[1..]), path);
    }
  }

  lemma UniqueKeys(queue: seq<Entry>)
    requires Unique(queue)
    ensures forall i, j :: 0 <= i < |queue| && 0 <= j < |queue| && i != j ==> queue[i].path != queue[j].path
  {
  }

  /** Draining one path keeps the order of every path. */
  lemma DrainFileInOrder(g: Gate, emitted: seq<FileUpdate>, drained: Path, path: Path)
    requires Unique(g.queue) && InOrder(g, emitted, path)
    ensures InOrder(DrainFile(g, drained), emitted, path)
  {
    hide Only, Flat, Weight, Unique;
    UniqueKeys(g.queue);
    var i := IndexOf(g.queue, drained);
    if i < |g.queue| {
      var a, t, b := Flat(g.queue[..i]), Tagged(drained, g.queue[i].updates), Flat(g.queue[i + 1..]);
      FlatAt(g.queue, i);
      WithoutFlat(g.queue, i);
      OnlyAppend(a + t, b, path);
      OnlyAppend(a, t, path);
      OnlyAppend(a, b, path);
      OnlyAppend(g.sent, t, path);
      OnlyTagged(t, drained, path);
      if drained == path {
        OnlyOthers(g.queue[..i], path);
        OnlyOthers(g.queue[i + 1..], path);
      }
      Regroup(Only(g.sent, path), Only(a, path), Only(t, path), Only(b, path));
    }
  }

  lemma Regroup(x: seq<FileUpdate>, a: seq<FileUpdate>, t: seq<FileUpdate>, b: seq<FileUpdate>)
    requires t == [] || (a == [] && b == [])
    ensures x + (a + t + b) == (x + t) + (a + b)
  {
  }

  lemma {:induction false} DrainPathsInOrder(g: Gate, emitted: seq<FileUpdate>, paths: seq<Path>,
                                             gated: Path -> bool, path: Path)
    requires Inv(g, emitted) && InOrder(g, emitted, path)
    ensures InOrder(DrainPaths(g, paths, gated), emitted, path)
    decreases paths
  {
    if paths != [] {
      DrainFileKeeps(g, emitted, paths[0]);
      DrainFileInOrder(g, emitted, paths[0], path);
      DrainPathsInOrder(if gated(paths[0]) then g else DrainFile(g, paths[0]), emitted, paths[1..], gated, path);
    }
  }

  lemma ForceFlushInOrder(g: Gate, emitted: seq<FileUpdate>, path: Path)
    requires InOrder(g, emitted, path)
    ensures InOrder(ForceFlush(g), emitted, path) && Only(Flat(ForceFlush(g).queue), path) == []
  {
    OnlyAppend(g.sent, Flat(g.queue), path);
    assert Only(g.sent, path) + Only(Flat(g.queue), path) + [] == Only(g.sent, path) + Only(Flat(g.queue), path);
  }

  /** A queued update goes behind everything of its path. */
  lemma PushInOrder(g: Gate, emitted: seq<FileUpdate>, of: Path, update: Update, path: Path)
    requires Unique(g.queue) && InOrder(g, emitted, path)
    ensures InOrder(g.(queue := Push(g.queue, of, update)), emitted + [FileUpdate(of, update)], path)
  {
    hide Only, Flat;
    var s := [FileUpdate(of, update)];
    var a, b := Ahead(g.queue, of), Behind(g.queue, of);
    PushFlat(g.queue, of, update);
    OnlyAppend(a + s, b, path);
    OnlyAppend(a, s, path);
    OnlyAppend(a, b, path);
    OnlyAppend(emitted, s, path);
    OnlyTagged(s, of, path);
    if of == path {
      var i := IndexOf(g.queue, of);
      if i < |g.queue| { OnlyOthers(g.queue[i + 1..], path); } else { OnlyTagged(b, of, path); }
    }
    assert Only(g.sent, path) + (Only(a, path) + Only(s, path)) == Only(g.sent, path) + Only(a, path) + Only(s, path);
  }

  /** Nothing in the queue but copies of one update. */
  ghost predicate Copies(q: seq<FileUpdate>, s: FileUpdate) {
    forall i :: 0 <= i < |q| ==> q[i] == s
  }

  /** Sending past the queue: in order if and only if what is queued of the path is nothing but
      copies of the update. */
  lemma SendInOrderIff(g: Gate, emitted: seq<FileUpdate>, of: Path, update: Update, path: Path)
    requires InOrder(g, emitted, path)
    ensures InOrder(Send(g, of, update), emitted + [FileUpdate(of, update)], path) <==>
      of != path || Copies(Only(Flat(g.queue), path), FileUpdate(of, update))
  {
    hide Flat, Only;
    var s := FileUpdate(of, update);
    var before, queued := Only(g.sent, path), Only(Flat(g.queue), path);
    OnlyAppend(g.sent, [s], path);
    OnlyAppend(emitted, [s], path);
    OnlyTagged([s], of, path);
    if of == path {
      assert before + [s] + queued == before + ([s] + queued);
      assert before + queued + [s] == before + (queued + [s]);
      SamePrefix(before, [s] + queued, queued + [s]);
      CommutesIff(queued, s);
    } else {
      assert before + [] == before && Only(emitted, path) + [] == Only(emitted, path);
    }
  }

  lemma SamePrefix(p: seq<FileUpdate>, x: seq<FileUpdate>, y: seq<FileUpdate>)
    ensures p + x == p + y <==> x == y
  {
    assert (p + x)[|p|..] == x && (p + y)[|p|..] == y;
  }

  lemma {:induction false} CommutesIff(q: seq<FileUpdate>, s: FileUpdate)
    ensures [s] + q == q + [s] <==> Copies(q, s)
  {
    if q != [] {
      var rest := q[1..];
      CommutesIff(rest, s);
      assert q == [q[0]] + rest;
      if [s] + q == q + [s] {
        assert ([s] + q)[0] == (q + [s])[0];
        assert ([s] + q)[1..] == (q + [s])[1..];
        assert (q + [s])[1..] == rest + [s];
      }
    }
  }

  /** What a local update does to the order of its path: it is kept if and only if the update is
      gated, or nothing else of the path waits in the queue. */
  lemma LocalUpdateInOrderIff(g: Gate, emitted: seq<FileUpdate>, of: Path, update: Update, gated: bool, path: Path)
    requires Inv(g, emitted) && InOrder(g, emitted, path)
    ensures InOrder(LocalUpdate(g, of, update, gated), emitted + [FileUpdate(of, update)], path) <==>
      gated || of != path || Copies(Only(Flat(g.queue), path), FileUpdate(of, update))
  {
    hide Only, Flat;
    if !gated {
      SendInOrderIff(g, emitted, of, update, path);
    } else if Overflows(g, update) {
      ForceFlushInOrder(g, emitted, path);
      SendInOrderIff(ForceFlush(g), emitted, of, update, path);
    } else {
      PushInOrder(g, emitted, of, update, path);
    }
  }

  // ---- Runs ----

  datatype Event = Local(path: Path, update: Update, gated: bool) | LockFreed(path: Path) | Tick(open: seq<Path>)

  /** One event while syncing. `open` lists the paths that are not gated at a tick. */
  function Step(g: Gate, e: Event): Gate {
    match e
    case Local(path, update, gated) => LocalUpdate(g, path, update, gated)
    case LockFreed(path) => DrainFile(g, path)
    case Tick(open) => DrainGate(g, p => p !in open)
  }

  function Emitted(emitted: seq<FileUpdate>, e: Event): seq<FileUpdate> {
    if e.Local? then emitted + [FileUpdate(e.path, e.update)] else emitted
  }

  function Run(g: Gate, events: seq<Event>): Gate
    decreases events
  {
    if events == [] then g else Run(Step(g, events[0]), events[1..])
  }

  function AllEmitted(emitted: seq<FileUpdate>, events: seq<Event>): seq<FileUpdate>
    decreases events
  {
    if events == [] then emitted else AllEmitted(Emitted(emitted, events[0]), events[1..])
  }

  lemma StepKeeps(g: Gate, emitted: seq<FileUpdate>, e: Event)
    requires Inv(g, emitted)
    ensures Inv(Step(g, e), Emitted(emitted, e))
  {
    match e
    case Local(path, update, gated) =>
      if gated { EnqueueKeeps(g, emitted, path, update); } else { SendKeeps(g, emitted, path, update); }
    case LockFreed(path) => DrainFileKeeps(g, emitted, path);
    case Tick(open) => DrainPathsKeeps(g, emitted, Keys(g.queue), p => p !in open);
  }

  /** Conservation over runs: sent and queued together are exactly what was emitted, the byte count
      is exact, and at most 1000 updates and 50 MB wait. */
  lemma {:induction false} RunConserves(g: Gate, emitted: seq<FileUpdate>, events: seq<Event>)
    requires Inv(g, emitted)
    ensures Inv(Run(g, events), AllEmitted(emitted, events))
    decreases events
  {
    if events != [] {
      StepKeeps(g, emitted, events[0]);
      RunConserves(Step(g, events[0]), Emitted(emitted, events[0]), events[1..]);
    }
  }

  /** Order is lost in two steps from the empty gate: an update is queued, then the path is free and
      a different update is sent past it. */
  lemma TwoUpdatesSwap(path: Path, first: Update, second: Update)
    requires first != second && |first| <= MAX_BUFFERED_BYTES
    ensures var g := Run(Gate([], 0, [], 0), [Local(path, first, true), Local(path, second, false)]);
      g.sent == [FileUpdate(path, second)] && Flat(g.queue) == [FileUpdate(path, first)]
      && !InOrder(g, [FileUpdate(path, first), FileUpdate(path, second)], path)
  {
    var empty := Gate([], 0, [], 0);
    var a, b := FileUpdate(path, first), FileUpdate(path, second);
    var queued := Gate([Entry(path, [first])], |first|, [], 0);
    assert Push([], path, first) == [Entry(path, [first])];
    assert LocalUpdate(empty, path, first, true) == queued;
    var events := [Local(path, first, true), Local(path, second, false)];
    assert events[1..] == [Local(path, second, false)] && events[1..][1..] == [];
    assert Run(empty, events) == Run(queued, events[1..]);
    assert Run(queued, events[1..]) == Send(queued, path, second);
    assert Tagged(path, [first]) == [a] && Flat(queued.queue) == [a] + [];
    OnlyTagged([b], path, path);
    OnlyTagged([a], path, path);
    OnlyTagged([a, b], path, path);
    assert ([b] + [a])[0] != [a, b][0];
  }

  /** No update of the path is sent past others of it in the queue. */
  ghost predicate NeverOvertakes(g: Gate, events: seq<Event>, path: Path)
    decreases events
  {
    events != [] ==>
      (events[0].Local? && !events[0].gated && events[0].path == path ==> Only(Flat(g.queue), path) == [])
      && NeverOvertakes(Step(g, events[0]), events[1..], path)
  }

  lemma {:induction false} RunInOrder(g: Gate, emitted: seq<FileUpdate>, events: seq<Event>, path: Path)
    requires Inv(g, emitted) && InOrder(g, emitted, path) && NeverOvertakes(g, events, path)
    ensures InOrder(Run(g, events), AllEmitted(emitted, events), path)
    decreases events
  {
    if events != [] {
      var e := events[0];
      StepKeeps(g, emitted, e);
      match e {
        case Local(of, update, gated) => LocalUpdateInOrderIff(g, emitted, of, update, gated, path);
        case LockFreed(of) => DrainFileInOrder(g, emitted, of, path);
        case Tick(open) => DrainPathsInOrder(g, emitted, Keys(g.queue), p => p !in open, path);
      }
      RunInOrder(Step(g, e), Emitted(emitted, e), events[1..], path);
    }
  }

  // ---- The orchestrator's gate ----

  lemma FlatNext(queue: seq<Entry>, k: nat)
    requires k < |queue|
    ensures Flat(queue[..k + 1]) == Flat(queue[..k]) + Tagged(queue[k].path, queue[k].updates)
  {
    FlatAt(queue[..k + 1], k);
    assert queue[..k + 1][..k] == queue[..k] && queue[..k + 1][k + 1..] == [];
  }

  lemma FlatNothing(queue: seq<Entry>)
    ensures Flat(queue[..0]) == [] && Flat([]) == []
  {
    assert queue[..0] == [];
  }

  class PropagationGate {
    var gateQueue: seq<Entry>
    var gateQueueBytes: int
    var sent: seq<FileUpdate>
    var totalOps: nat

    ghost function View(): Gate
      reads this
    {
      Gate(gateQueue, gateQueueBytes, sent, totalOps)
    }

    constructor ()
      ensures View() == Gate([], 0, [], 0) && Inv(View(), [])
    {
      gateQueue, gateQueueBytes, sent, totalOps := [], 0, [], 0;
    }

    method SendUpdate(path: Path, update: Update)
      modifies this
      ensures View() == Send(old(View()), path, update)
    {
      sent := sent + [FileUpdate(path, update)];
      totalOps := totalOps + 1;
    }

    method OnLocalUpdate(path: Path, update: Update, gated: bool)
      modifies this
      ensures View() == LocalUpdate(old(View()), path, update, gated)
    {
      if gated {
        EnqueueGatedUpdate(path, update);
        return;
      }
      SendUpdate(path, update);
    }

    method TotalQueued() returns (total: nat)
      ensures total == |Flat(gateQueue)|
    {
      total := 0;
      for k := 0 to |gateQueue|
        invariant total == |Flat(gateQueue[..k])|
      {
        FlatNext(gateQueue, k);
        total := total + |gateQueue[k].updates|;
      }
      assert gateQueue[..|gateQueue|] == gateQueue;
    }

    method EnqueueGatedUpdate(path: Path, update: Update)
      modifies this
      ensures View() == Enqueue(old(View()), path, update)
    {
      var i := IndexOf(gateQueue, path);
      if i == |gateQueue| {
        gateQueue := gateQueue + [Entry(path, [])];
        FlatAppend(old(gateQueue), [Entry(path, [])]);
        assert Flat([Entry(path, [])]) == [];
      }
      assert Flat(gateQueue) == Flat(old(gateQueue));
      hide Flat;
      var totalQueued := TotalQueued();
      if totalQueued >= MAX_BUFFERED_UPDATES || gateQueueBytes + |update| > MAX_BUFFERED_BYTES {
        ForceFlushGateQueue();
        SendUpdate(path, update);
        return;
      }
      gateQueue := gateQueue[i := Entry(path, gateQueue[i].updates + [update])];
      gateQueueBytes := gateQueueBytes + |update|;
      assert i == |old(gateQueue)| ==> gateQueue == old(gateQueue) + [Entry(path, [] + [update])];
      assert [] + [update] == [update];
    }

    method DrainFileQueue(path: Path)
      modifies this
      ensures View() == DrainFile(old(View()), path)
    {
      var i := IndexOf(gateQueue, path);
      if i == |gateQueue| || |gateQueue[i].updates| == 0 { return; }
      var queue := gateQueue[i].updates;
      ghost var out := Tagged(path, queue);
      for k := 0 to |queue|
        invariant gateQueue == old(gateQueue)
        invariant sent == old(sent) + out[..k] && totalOps == old(totalOps) + k
        invariant gateQueueBytes == old(gateQueueBytes) - Weight(out[..k])
      {
        assert out[..k + 1] == out[..k] + [out[k]];
        WeightAppend(out[..k], [out[k]]);
        WeightOfOne(FileUpdate(path, queue[k]));
        SendUpdate(path, queue[k]);
        gateQueueBytes := gateQueueBytes - |queue[k]|;
      }
      assert out[..|queue|] == out;
      gateQueue := gateQueue[..i] + gateQueue[i + 1..];
    }

    method ForceFlushGateQueue()
      modifies this
      ensures View() == ForceFlush(old(View()))
    {
      hide Flat, Tagged;
      FlatNothing(gateQueue);
      for k := 0 to |gateQueue|
        invariant gateQueue == old(gateQueue) && gateQueueBytes == old(gateQueueBytes)
        invariant sent == old(sent) + Flat(gateQueue[..k]) && totalOps == old(totalOps) + |Flat(gateQueue[..k])|
      {
        FlatNext(gateQueue, k);
        SendQueue(gateQueue[k].path, gateQueue[k].updates);
      }
      assert gateQueue[..|gateQueue|] == gateQueue;
      gateQueue := [];
      gateQueueBytes := 0;
    }

    /** Sends the updates of one path, oldest first. */
    method SendQueue(path: Path, queue: seq<Update>)
      modifies `sent, `totalOps
      ensures sent == old(sent) + Tagged(path, queue) && totalOps == old(totalOps) + |queue|
    {
      ghost var out := Tagged(path, queue);
      for j := 0 to |queue|
        invariant sent == old(sent) + out[..j] && totalOps == old(totalOps) + j
      {
        assert out[..j + 1] == out[..j] + [out[j]];
        sent := sent + [FileUpdate(path, queue[j])];
        totalOps := totalOps + 1;
      }
      assert out[..|queue|] == out;
    }

    method DrainGateQueue(gated: Path -> bool)
      modifies this
      ensures View() == DrainGate(old(View()), gated)
    {
      var paths := Keys(gateQueue);
      for k := 0 to |paths|
        invariant DrainPaths(View(), paths[k..], gated) == DrainGate(old(View()), gated)
      {
        assert paths[k..][1..] == paths[k + 1..];
        if !gated(paths[k]) {
          DrainFileQueue(paths[k]);
        }
      }
    }
  }
}
