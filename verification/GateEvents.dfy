/** What each event does to the propagation gate: which updates go out, and which stay queued. */
module GateEvents {
  import opened Bytes
  import opened Updates
  import opened Gates

  // ---- Local updates ----

  /** A gated update finds a place: fewer than 1000 are queued, and with it they are within 50 MB. */
  predicate Fits(g: Gate, update: Update) {
    |Flat(g.queue)| < 1000 && Weight(Flat(g.queue)) + |update| <= 52_428_800
  }

  /** An open path's update is sent and leaves the queue alone; a gated one waits behind all others of its
      path, a new path behind all others, and nothing is sent; without a place everything queued is sent,
      and then the update. */
  lemma LocalUpdateGoes(g: Gate, emitted: seq<FileUpdate>, path: Path, update: Update, gated: bool)
    requires Inv(g, emitted)
    ensures var t, u := LocalUpdate(g, path, update, gated), FileUpdate(path, update);
      if !gated then t.sent == g.sent + [u] && t.queue == g.queue
      else if Fits(g, update) then
        t.sent == g.sent && Keys(t.queue) == Keys(g.queue) + (if path in Keys(g.queue) then [] else [path]) &&
        forall p :: Only(Flat(t.queue), p) == Only(Flat(g.queue), p) + if p == path then [u] else []
      else t.sent == g.sent + Flat(g.queue) + [u] && t.queue == []
  {
    hide Flat, Only, Unique;
    if gated && Fits(g, update) {
      KeysAfterPush(g.queue, path, update);
      forall p ensures var u := FileUpdate(path, update);
        Only(Flat(Push(g.queue, path, update)), p) == Only(Flat(g.queue), p) + if p == path then [u] else []
      {
        PushedLast(g.queue, path, update, p);
      }
    }
  }

  lemma KeysAfterPush(queue: seq<Entry>, path: Path, update: Update)
    ensures Keys(Push(queue, path, update)) == Keys(queue) + if path in Keys(queue) then [] else [path]
  {
    var i := IndexOf(queue, path);
    if i < |queue| { assert Keys(queue)[i] == path; }
  }

  lemma PushedLast(queue: seq<Entry>, path: Path, update: Update, p: Path)
    requires Unique(queue)
    ensures var u := FileUpdate(path, update);
      Only(Flat(Push(queue, path, update)), p) == Only(Flat(queue), p) + if p == path then [u] else []
  {
    hide Flat, Only, Push;
    var waiting := Gate(queue, 0, [], 0);
    OnlyAppend([], [], p);
    OnlyTagged([], path, p);
    assert InOrder(waiting, Flat(queue), p);
    PushInOrder(waiting, Flat(queue), path, update, p);
    OnlyAppend(Flat(queue), [FileUpdate(path, update)], p);
    OnlyTagged([FileUpdate(path, update)], path, p);
  }

  // ---- Draining ----

  /** Draining one path sends what is queued of it, in order, and leaves the rest queued. */
  lemma DrainFileGoes(g: Gate, path: Path, p: Path)
    requires Unique(g.queue)
    ensures var t := DrainFile(g, path);
      && t.sent == g.sent + Only(Flat(g.queue), path)
      && Only(Flat(t.queue), p) == if p == path then [] else Only(Flat(g.queue), p)
  {
    hide Only, Flat, Weight, Unique;
    UniqueKeys(g.queue);
    var i := IndexOf(g.queue, path);
    if i < |g.queue| {
      PartsOf(g.queue, i, path);
      PartsOf(g.queue, i, p);
      OnlyOthers(g.queue[..i], path);
      OnlyOthers(g.queue[i + 1..], path);
      if g.queue[i].updates == [] { OnlyTagged([], path, p); }
    } else {
      OnlyOthers(g.queue, path);
    }
  }

  lemma PartsOf(queue: seq<Entry>, i: nat, p: Path)
    requires i < |queue|
    ensures Only(Flat(queue), p) == Only(Flat(queue[..i]), p)
      + (if queue[i].path == p then Tagged(p, queue[i].updates) else []) + Only(Flat(queue[i + 1..]), p)
    ensures Only(Flat(queue[..i] + queue[i + 1..]), p) == Only(Flat(queue[..i]), p) + Only(Flat(queue[i + 1..]), p)
  {
    var a, t, b := Flat(queue[..i]), Tagged(queue[i].path, queue[i].updates), Flat(queue[i + 1..]);
    FlatAt(queue, i);
    WithoutFlat(queue, i);
    OnlyAppend(a + t, b, p);
    OnlyAppend(a, t, p);
    OnlyAppend(a, b, p);
    OnlyTagged(t, queue[i].path, p);
  }

  /** The updates of the paths that are open, in queue order. */
  function Released(queue: seq<Entry>, gated: Path -> bool): seq<FileUpdate> {
    if queue == [] then []
    else (if gated(queue[0].path) then [] else Tagged(queue[0].path, queue[0].updates)) + Released(queue[1..], gated)
  }

  /** The entries of the paths that are gated, in queue order. */
  function Withheld(queue: seq<Entry>, gated: Path -> bool): seq<Entry> {
    if queue == [] then []
    else (if gated(queue[0].path) || queue[0].updates == [] then [queue[0]] else []) + Withheld(queue[1..], gated)
  }

  /** A tick sends the updates of exactly the open paths, in queue order, and keeps the others. */
  lemma DrainGateGoes(g: Gate, gated: Path -> bool)
    requires Unique(g.queue)
    ensures DrainGate(g, gated).sent == g.sent + Released(g.queue, gated)
    ensures DrainGate(g, gated).queue == Withheld(g.queue, gated)
  {
    assert [] + g.queue == g.queue;
    DrainRest(g, [], g.queue, gated);
  }

  lemma {:induction false} DrainRest(g: Gate, kept: seq<Entry>, rest: seq<Entry>, gated: Path -> bool)
    requires g.queue == kept + rest && Unique(g.queue)
    ensures DrainPaths(g, Keys(rest), gated).sent == g.sent + Released(rest, gated)
    ensures DrainPaths(g, Keys(rest), gated).queue == kept + Withheld(rest, gated)
    decreases rest
  {
    hide Unique, DrainFile, Tagged, IndexOf;
    if rest == [] {
      assert g.sent + [] == g.sent && kept + [] == kept;
    } else {
      var e, later := rest[0], rest[1..];
      assert Keys(rest)[1..] == Keys(later) && Keys(rest)[0] == e.path;
      var t := if gated(e.path) then g else DrainFile(g, e.path);
      DrainFirst(g, kept, rest);
      if gated(e.path) || e.updates == [] {
        assert kept + rest == (kept + [e]) + later;
        DrainRest(t, kept + [e], later, gated);
        assert (kept + [e]) + Withheld(later, gated) == kept + ([e] + Withheld(later, gated));
        assert [] + Released(later, gated) == Released(later, gated) by { assert Tagged(e.path, []) == []; }
      } else {
        DrainRest(t, kept, later, gated);
        assert g.sent + Tagged(e.path, e.updates) + Released(later, gated)
          == g.sent + (Tagged(e.path, e.updates) + Released(later, gated));
        assert [] + Withheld(later, gated) == Withheld(later, gated);
      }
    }
  }

  lemma DrainFirst(g: Gate, kept: seq<Entry>, rest: seq<Entry>)
    requires g.queue == kept + rest && rest != [] && Unique(g.queue)
    ensures var t := DrainFile(g, rest[0].path);
      if rest[0].updates == [] then t == g
      else t.queue == kept + rest[1..] && t.sent == g.sent + Tagged(rest[0].path, rest[0].updates) && Unique(t.queue)
  {
    hide Unique, Weight;
    FoundBehind(g.queue, kept, rest);
    WithoutUnique(g.queue, |kept|);
  }

  lemma FoundBehind(queue: seq<Entry>, kept: seq<Entry>, rest: seq<Entry>)
    requires queue == kept + rest && rest != [] && Unique(queue)
    ensures IndexOf(queue, rest[0].path) == |kept| && queue[|kept|] == rest[0]
    ensures queue[..|kept|] == kept && queue[|kept| + 1..] == rest[1..]
  {
    var i := IndexOf(queue, rest[0].path);
    assert queue[|kept|] == rest[0];
    assert i <= |kept|;
  }

  /** Path by path: a tick empties the queue of an open path and sends what was in it, in order; a gated
      path's queue stays, and nothing of it is sent. */
  lemma TickReleasesIff(g: Gate, gated: Path -> bool, p: Path)
    requires Unique(g.queue)
    ensures var t := DrainGate(g, gated);
      && g.sent <= t.sent
      && Only(Flat(t.queue), p) == (if gated(p) then Only(Flat(g.queue), p) else [])
      && Only(t.sent[|g.sent|..], p) == (if gated(p) then [] else Only(Flat(g.queue), p))
  {
    DrainGateGoes(g, gated);
    ReleasedOf(g.queue, gated, p);
    assert (g.sent + Released(g.queue, gated))[|g.sent|..] == Released(g.queue, gated);
  }

  lemma {:induction false} ReleasedOf(queue: seq<Entry>, gated: Path -> bool, p: Path)
    ensures Only(Released(queue, gated), p) == if gated(p) then [] else Only(Flat(queue), p)
    ensures Only(Flat(Withheld(queue, gated)), p) == if gated(p) then Only(Flat(queue), p) else []
  {
    hide Only;
    OnlyTagged([], p, p);
    if queue != [] {
      var e, t := queue[0], Tagged(queue[0].path, queue[0].updates);
      ReleasedOf(queue[1..], gated, p);
      OnlyTagged(t, e.path, p);
      OnlyAppend(t, Flat(queue[1..]), p);
      OnlyAppend(if gated(e.path) then [] else t, Released(queue[1..], gated), p);
      if gated(e.path) || e.updates == [] {
        assert ([e] + Withheld(queue[1..], gated))[1..] == Withheld(queue[1..], gated);
        OnlyAppend(t, Flat(Withheld(queue[1..], gated)), p);
      } else {
        assert [] + Withheld(queue[1..], gated) == Withheld(queue[1..], gated);
      }
    }
  }
}
