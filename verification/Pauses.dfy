/** Pausing: remote updates are held back as long as any pause reason remains. */
module Pauses {
  import opened Bytes
  import opened Options
  import opened Updates

  const MANIFEST_ID := "__manifest__"

  datatype Source = User | Git | Mcp | Auto

  datatype Reason = Reason(source: Source, id: string, timestamp: int)

  /** `held` is the pause buffer; `handled` is what was passed on past the pause check and
      `manifests` what went to the manifest, in order. */
  datatype Pausing = Pausing(
    reasons: map<string, Reason>,
    held: seq<FileUpdate>,
    bytes: int,
    handled: seq<FileUpdate>,
    manifests: seq<seq<byte>>)

  // ---- Reasons ----

  function Name(source: Source): string {
    match source
    case User => "user"
    case Git => "git"
    case Mcp => "mcp"
    case Auto => "auto"
  }

  function Key(source: Source, id: string): string {
    Name(source) + ":" + id
  }

  /** The part of a key in front of its first colon. */
  function KeySource(key: string): string {
    if key == "" || key[0] == ':' then "" else [key[0]] + KeySource(key[1..])
  }

  function AllowedSources(source: Source): set<string> {
    match source
    case User => {"user"}
    case Mcp => {"mcp", "auto"}
    case Git => {"git"}
    case Auto => {"auto"}
  }

  lemma {:induction false} KeySourceOf(name: string, id: string)
    requires ':' !in name
    ensures KeySource(name + ":" + id) == name
  {
    var key := name + ":" + id;
    if name != "" {
      assert name[0] in name && key[1..] == name[1..] + ":" + id;
      KeySourceOf(name[1..], id);
    }
  }

  /** A key names its source, whatever colons its id has, and no two reasons share a key unless both
      source and id agree. */
  lemma KeyNames(s: Source, i: string, t: Source, j: string)
    ensures KeySource(Key(s, i)) == Name(s)
    ensures Key(s, i) == Key(t, j) <==> s == t && i == j
  {
    KeySourceOf(Name(s), i);
    KeySourceOf(Name(t), j);
    assert Name(s) == Name(t) ==> s == t by {
      assert "user"[0] != "git"[0] && "user"[0] != "mcp"[0] && "user"[0] != "auto"[0];
      assert "git"[0] != "mcp"[0] && "git"[0] != "auto"[0] && "mcp"[0] != "auto"[0];
    }
    if s == t && Key(s, i) == Key(t, j) {
      assert Key(s, i)[|Name(s)| + 1..] == i && Key(t, j)[|Name(t)| + 1..] == j;
    }
  }

  /** Whether a removal takes this key away. */
  predicate Clears(source: Source, id: Option<string>, force: bool, key: string) {
    if force && source == User then true
    else if id.Some? && id.value != "" then key == Key(source, id.value)
    else KeySource(key) in AllowedSources(source)
  }

  /** Who may clear what: with force the user everything, with an id only that very reason, otherwise
      a source its own reasons, and agents also automatic ones. */
  lemma WhoMayClear(source: Source, id: Option<string>, force: bool, s: Source, i: string)
    ensures Clears(source, id, force, Key(s, i)) <==>
      || (force && source == User)
      || (!(force && source == User) && id.Some? && id.value != "" && s == source && i == id.value)
      || (!(force && source == User) && (id.None? || id.value == "") && (s == source || (source == Mcp && s == Auto)))
  {
    KeyNames(s, i, source, if id.Some? then id.value else "");
    assert "user"[0] != "git"[0] && "user"[0] != "mcp"[0] && "user"[0] != "auto"[0];
    assert "git"[0] != "mcp"[0] && "git"[0] != "auto"[0] && "mcp"[0] != "auto"[0];
  }

  // ---- Steps ----

  predicate Overflows(p: Pausing, update: seq<byte>) {
    |p.held| >= MAX_BUFFERED_UPDATES || p.bytes + |update| > MAX_BUFFERED_BYTES
  }

  /** One update more in the buffer; on overflow one, the oldest, is given up for it. */
  function Hold(p: Pausing, r: FileUpdate): Pausing {
    if Overflows(p, r.update) && p.held != [] then
      p.(held := p.held[1..] + [r], bytes := p.bytes - |p.held[0].update| + |r.update|)
    else p.(held := p.held + [r], bytes := p.bytes + |r.update|)
  }

  function Handle(p: Pausing, r: FileUpdate): Pausing {
    if r.path == MANIFEST_ID then p.(manifests := p.manifests + [r.update])
    else if p.reasons != map[] then Hold(p, r)
    else p.(handled := p.handled + [r])
  }

  function AddPause(p: Pausing, reason: Reason): Pausing {
    p.(reasons := p.reasons[Key(reason.source, reason.id) := reason])
  }

  function Flush(p: Pausing): Pausing {
    p.(held := [], bytes := 0, handled := p.handled + p.held)
  }

  function RemovePause(p: Pausing, source: Source, id: Option<string>, force: bool): Pausing {
    var left := p.(reasons := map k | k in p.reasons && !Clears(source, id, force, k) :: p.reasons[k]);
    if left.reasons == map[] then Flush(left) else left
  }

  datatype Event =
    | Adding(reason: Reason)
    | Removing(source: Source, id: Option<string>, force: bool)
    | Arriving(remote: FileUpdate)

  function Step(p: Pausing, e: Event): Pausing {
    match e
    case Adding(reason) => AddPause(p, reason)
    case Removing(source, id, force) => RemovePause(p, source, id, force)
    case Arriving(remote) => Handle(p, remote)
  }

  function Start(): Pausing {
    Pausing(map[], [], 0, [], [])
  }

  function Run(events: seq<Event>): Pausing {
    if events == [] then Start() else Step(Run(events[..|events| - 1]), events[|events| - 1])
  }

  // ---- The pause set ----

  predicate Adds(e: Event, key: string) {
    e.Adding? && Key(e.reason.source, e.reason.id) == key
  }

  predicate Removes(e: Event, key: string) {
    e.Removing? && Clears(e.source, e.id, e.force, key)
  }

  /** The addition at `i` is the last that concerns its key. */
  ghost predicate Stands(events: seq<Event>, i: nat, key: string) {
    i < |events| && Adds(events[i], key)
    && forall j :: i < j < |events| ==> !Adds(events[j], key) && !Removes(events[j], key)
  }

  lemma StandsStep(before: seq<Event>, e: Event, key: string, i: nat)
    ensures Stands(before + [e], i, key) <==>
      (i == |before| && Adds(e, key)) || (Stands(before, i, key) && !Adds(e, key) && !Removes(e, key))
  {
    var events := before + [e];
    assert events[|before|] == e && forall j :: 0 <= j < |before| ==> events[j] == before[j];
  }

  /** The pause set over runs: a reason is active if and only if an addition of it stands, that is,
      no permitted removal and no newer addition followed; and it is that addition's reason. */
  lemma {:induction false} ActiveIff(events: seq<Event>, key: string)
    ensures key in Run(events).reasons <==> exists i: nat :: Stands(events, i, key)
    ensures forall i: nat :: Stands(events, i, key) ==>
      key in Run(events).reasons && Run(events).reasons[key] == events[i].reason
  {
    if events != [] {
      var n := |events| - 1;
      var before, e := events[..n], events[n];
      assert events == before + [e];
      ActiveIff(before, key);
      forall i: nat
        ensures Stands(events, i, key) <==>
          (i == n && Adds(e, key)) || (Stands(before, i, key) && !Adds(e, key) && !Removes(e, key))
      {
        StandsStep(before, e, key, i);
      }
      StandsIsInside(before, key);
      StepReasons(Run(before), e, key);
      hide Stands, Step, Adds, Removes;
      if Adds(e, key) { assert Stands(events, n, key); }
    }
  }

  lemma StandsIsInside(events: seq<Event>, key: string)
    ensures forall i: nat :: Stands(events, i, key) ==> i < |events|
  {
  }

  lemma StepReasons(p: Pausing, e: Event, key: string)
    ensures key in Step(p, e).reasons <==> Adds(e, key) || (key in p.reasons && !Removes(e, key))
    ensures Adds(e, key) ==> e.Adding? && Step(p, e).reasons[key] == e.reason
    ensures key in Step(p, e).reasons && !Adds(e, key) ==> Step(p, e).reasons[key] == p.reasons[key]
  {
  }

  // ---- The buffer ----

  function LastOf(s: seq<FileUpdate>, n: nat): seq<FileUpdate> {
    if |s| <= n then s else s[|s| - n..]
  }

  /** All updates of the manifest that arrived. */
  function ManifestArrivals(events: seq<Event>): seq<seq<byte>> {
    if events == [] then []
    else
      var before, e := ManifestArrivals(events[..|events| - 1]), events[|events| - 1];
      if e.Arriving? && e.remote.path == "__manifest__" then before + [e.remote.update] else before
  }

  /** Over any run every update of the manifest that arrived has been applied, once and in order, however
      pauses came and went. */
  lemma {:induction false} ManifestsPass(events: seq<Event>)
    ensures Run(events).manifests == ManifestArrivals(events)
  {
    if events != [] { ManifestsPass(events[..|events| - 1]); }
  }

  /** The updates that arrived since the last flush, while paused. */
  function Since(events: seq<Event>): seq<FileUpdate> {
    if events == [] then []
    else
      var before, e := events[..|events| - 1], events[|events| - 1];
      match e
      case Adding(_) => Since(before)
      case Removing(_, _, _) => if Run(events).reasons == map[] then [] else Since(before)
      case Arriving(r) =>
        if r.path != MANIFEST_ID && Run(before).reasons != map[] then Since(before) + [r] else Since(before)
  }

  /** All updates for files that arrived. */
  function Arrivals(events: seq<Event>): seq<FileUpdate> {
    if events == [] then []
    else
      var before, e := Arrivals(events[..|events| - 1]), events[|events| - 1];
      if e.Arriving? && e.remote.path != MANIFEST_ID then before + [e.remote] else before
  }

  ghost predicate Suffix(s: seq<FileUpdate>, t: seq<FileUpdate>) {
    |s| <= |t| && s == t[|t| - |s|..]
  }

  ghost predicate Sound(p: Pausing, since: seq<FileUpdate>) {
    && (p.reasons == map[] ==> p.held == [] && since == [])
    && Suffix(p.held, since)
    && p.bytes == Weight(p.held)
    && |p.held| <= MAX_BUFFERED_UPDATES
  }

  lemma HoldSound(p: Pausing, since: seq<FileUpdate>, r: FileUpdate)
    requires Sound(p, since) && p.reasons != map[]
    ensures Sound(Hold(p, r), since + [r])
  {
    var rest := if Overflows(p, r.update) && p.held != [] then p.held[1..] else p.held;
    WeightAppend(rest, [r]);
    WeightOfOne(r);
    var all := since + [r];
    assert all[|all| - |rest + [r]|..] == since[|since| - |rest|..] + [r];
  }

  /** The buffer over runs: empty unless paused, a suffix of what arrived since the last flush, at
      most 1000 long, with an exact byte count. */
  lemma {:induction false} BufferSound(events: seq<Event>)
    ensures Sound(Run(events), Since(events))
  {
    if events != [] {
      var before, e := events[..|events| - 1], events[|events| - 1];
      BufferSound(before);
      var p := Run(before);
      match e
      case Adding(_) =>
      case Removing(_, _, _) =>
      case Arriving(r) => if r.path != MANIFEST_ID && p.reasons != map[] { HoldSound(p, Since(before), r); }
    }
  }

  lemma {:induction false} WeightOfSuffix(s: seq<FileUpdate>, k: nat)
    requires k <= |s|
    ensures Weight(s[k..]) <= Weight(s)
  {
    WeightAppend(s[..k], s[k..]);
    assert s[..k] + s[k..] == s;
  }

  /** Within 50 MB since the last flush, the buffer is exactly the last 1000 updates. */
  lemma {:induction false} BufferIsLast(events: seq<Event>)
    requires Weight(Since(events)) <= 52_428_800
    ensures Run(events).held == LastOf(Since(events), 1000)
  {
    if events != [] {
      var before, e := events[..|events| - 1], events[|events| - 1];
      var p, since := Run(before), Since(before);
      BufferSound(before);
      BufferSound(events);
      match e
      case Adding(_) => BufferIsLast(before);
      case Removing(_, _, _) => if Run(events).reasons != map[] { BufferIsLast(before); }
      case Arriving(r) =>
        if r.path != MANIFEST_ID && p.reasons != map[] {
          WeightAppend(since, [r]);
          WeightOfOne(r);
          BufferIsLast(before);
          WeightOfSuffix(since, |since| - |p.held|);
          assert !Overflows(p, r.update) || |p.held| == MAX_BUFFERED_UPDATES;
          HoldIsLast(p, since, r);
        } else {
          BufferIsLast(before);
        }
    }
  }

  /** Every update that arrived is small enough for a thousand of its size to fit into 50 MB. */
  ghost predicate AllSmall(s: seq<FileUpdate>) {
    forall i :: 0 <= i < |s| ==> Small(s[i])
  }

  predicate Small(r: FileUpdate) {
    |r.update| * MAX_BUFFERED_UPDATES <= MAX_BUFFERED_BYTES
  }

  /** What the shipped relay lets through is small: its schema allows 65536 base64 characters, three
      bytes for every four of them. */
  lemma RelayedIsSmall(r: FileUpdate, base64: nat)
    requires base64 <= 65_536 && 4 * |r.update| <= 3 * base64
    ensures Small(r)
  {
  }

  lemma {:induction false} SmallWeight(s: seq<FileUpdate>)
    requires AllSmall(s)
    ensures Weight(s) * MAX_BUFFERED_UPDATES <= |s| * MAX_BUFFERED_BYTES
  {
    if s != [] {
      assert Small(s[0]);
      assert forall i :: 0 <= i < |s[1..]| ==> s[1..][i] == s[i + 1];
      SmallWeight(s[1..]);
    }
  }

  lemma SmallSuffix(s: seq<FileUpdate>, t: seq<FileUpdate>)
    requires AllSmall(t) && Suffix(s, t)
    ensures AllSmall(s)
  {
    forall i | 0 <= i < |s| ensures Small(s[i]) {
      assert s[i] == t[|t| - |s| + i];
    }
  }

  /** With small updates, however long a pause lasts, the buffer is exactly the last 1000 updates
      since the flush, and stays within 50 MB. */
  lemma {:induction false} SmallUpdatesFit(events: seq<Event>)
    requires AllSmall(Arrivals(events))
    ensures AllSmall(Since(events))
    ensures Run(events).held == LastOf(Since(events), MAX_BUFFERED_UPDATES) && Run(events).bytes <= MAX_BUFFERED_BYTES
  {
    hide Small, Weight, Hold, Arrivals, Suffix, Overflows, Clears;
    BufferSound(events);
    if events != [] {
      var before, e := events[..|events| - 1], events[|events| - 1];
      SmallBefore(events);
      SmallUpdatesFit(before);
      BufferSound(before);
      if e.Arriving? && e.remote.path != MANIFEST_ID && Run(before).reasons != map[] {
        SmallHold(Run(before), Since(before), e.remote);
      }
    }
    SmallHeldFits(Run(events), Since(events));
  }

  lemma SmallHeldFits(p: Pausing, since: seq<FileUpdate>)
    requires Sound(p, since) && AllSmall(since)
    ensures p.bytes <= MAX_BUFFERED_BYTES
  {
    SmallSuffix(p.held, since);
    SmallWeight(p.held);
  }

  function ArrivesBy(e: Event): seq<FileUpdate> {
    if e.Arriving? && e.remote.path != MANIFEST_ID then [e.remote] else []
  }

  lemma ArrivalsGrow(events: seq<Event>)
    requires events != []
    ensures Arrivals(events) == Arrivals(events[..|events| - 1]) + ArrivesBy(events[|events| - 1])
  {
  }

  lemma SmallParts(s: seq<FileUpdate>, t: seq<FileUpdate>)
    requires AllSmall(s + t)
    ensures AllSmall(s) && AllSmall(t)
  {
    hide Small;
    forall i | 0 <= i < |s| ensures Small(s[i]) {
      assert (s + t)[i] == s[i];
    }
    forall i | 0 <= i < |t| ensures Small(t[i]) {
      assert (s + t)[|s| + i] == t[i];
    }
  }

  lemma SmallBefore(events: seq<Event>)
    requires events != [] && AllSmall(Arrivals(events))
    ensures AllSmall(Arrivals(events[..|events| - 1]))
    ensures var e := events[|events| - 1]; e.Arriving? && e.remote.path != MANIFEST_ID ==> Small(e.remote)
  {
    hide Small, Arrivals;
    var before, e := events[..|events| - 1], events[|events| - 1];
    ArrivalsGrow(events);
    SmallParts(Arrivals(before), ArrivesBy(e));
    if e.Arriving? && e.remote.path != MANIFEST_ID { assert ArrivesBy(e)[0] == e.remote; }
  }

  lemma SmallHold(p: Pausing, since: seq<FileUpdate>, r: FileUpdate)
    requires Sound(p, since) && AllSmall(since) && Small(r) && p.held == LastOf(since, MAX_BUFFERED_UPDATES)
    ensures AllSmall(since + [r]) && Hold(p, r).held == LastOf(since + [r], MAX_BUFFERED_UPDATES)
  {
    SmallSuffix(p.held, since);
    SmallWeight(p.held);
    assert Overflows(p, r.update) <==> |p.held| == MAX_BUFFERED_UPDATES;
    HoldIsLast(p, since, r);
  }

  lemma HoldIsLast(p: Pausing, since: seq<FileUpdate>, r: FileUpdate)
    requires p.held == LastOf(since, MAX_BUFFERED_UPDATES)
    requires Overflows(p, r.update) <==> |p.held| == MAX_BUFFERED_UPDATES
    ensures Hold(p, r).held == LastOf(since + [r], MAX_BUFFERED_UPDATES)
  {
    if |since| >= MAX_BUFFERED_UPDATES {
      var k := |since| - MAX_BUFFERED_UPDATES;
      assert p.held[1..] == since[k + 1..];
      assert since[k + 1..] + [r] == (since + [r])[k + 1..];
    }
  }

  /** A pause, then the same update again and again. */
  function Repeated(update: seq<byte>, n: nat): seq<Event> {
    if n == 0 then [Adding(Reason(User, "a", 0))]
    else Repeated(update, n - 1) + [Arriving(FileUpdate("f", update))]
  }

  /** Paused, with some copies of one update in the buffer, but not a thousand. */
  ghost predicate HoldsFew(p: Pausing, update: seq<byte>) {
    && p.reasons != map[] && |p.held| < MAX_BUFFERED_UPDATES && p.bytes == |p.held| * |update|
    && forall i :: 0 <= i < |p.held| ==> p.held[i].update == update
  }

  /** One update that is not small never fills the thousand places with copies of itself. */
  lemma {:induction false} LargeUpdatesCrowd(update: seq<byte>, n: nat)
    requires |update| * MAX_BUFFERED_UPDATES > MAX_BUFFERED_BYTES
    ensures HoldsFew(Run(Repeated(update, n)), update) && |Since(Repeated(update, n))| == n
  {
    hide HoldsFew, Hold;
    var events := Repeated(update, n);
    if n == 0 {
      PausedHoldsFew(update);
    } else {
      LargeUpdatesCrowd(update, n - 1);
      var before := Repeated(update, n - 1);
      assert events[..|events| - 1] == before;
      assert "f"[0] != MANIFEST_ID[0];
      LargeHold(Run(before), FileUpdate("f", update));
    }
  }

  lemma PausedHoldsFew(update: seq<byte>)
    ensures HoldsFew(Run(Repeated(update, 0)), update) && Since(Repeated(update, 0)) == []
  {
    var events := Repeated(update, 0);
    assert events[..0] == [];
    assert Run(events) == AddPause(Start(), Reason(User, "a", 0));
    assert Key(User, "a") in Run(events).reasons;
    assert Since(events) == Since([]) == [];
  }

  lemma LargeHold(p: Pausing, r: FileUpdate)
    requires |r.update| * MAX_BUFFERED_UPDATES > MAX_BUFFERED_BYTES && HoldsFew(p, r.update)
    ensures HoldsFew(Hold(p, r), r.update) && p.reasons != map[]
  {
    var k, n := |p.held|, |r.update|;
    assert (k + 1) * n == k * n + n;
    if k == MAX_BUFFERED_UPDATES - 1 {
      assert k * n + n == n * MAX_BUFFERED_UPDATES;
    }
  }

  ghost predicate UpTo(s: seq<FileUpdate>, size: nat) {
    forall i :: 0 <= i < |s| ==> |s[i].update| <= size
  }

  /** No run of updates up to this size passes 50 MB. */
  ghost predicate FitsUpTo(size: nat) {
    forall events :: UpTo(Arrivals(events), size) ==> Run(events).bytes <= MAX_BUFFERED_BYTES
  }

  /** A pause, an empty update, and then the same update again and again. */
  function EmptyThen(update: seq<byte>, n: nat): seq<Event> {
    if n == 0 then [Adding(Reason(User, "a", 0)), Arriving(FileUpdate("f", []))]
    else EmptyThen(update, n - 1) + [Arriving(FileUpdate("f", update))]
  }

  /** Paused, with the empty update first in the buffer, and `n` others of one size. */
  predicate EmptyFirst(p: Pausing, size: nat, n: nat) {
    p.reasons != map[] && |p.held| == n + 1 && p.held[0].update == [] && p.bytes == n * size
  }

  lemma StartsEmpty(update: seq<byte>)
    ensures EmptyFirst(Run(EmptyThen(update, 0)), |update|, 0) && UpTo(Arrivals(EmptyThen(update, 0)), |update|)
  {
    var add, arrive := Adding(Reason(User, "a", 0)), Arriving(FileUpdate("f", []));
    assert [add, arrive][..1] == [add] && [add][..0] == [];
    assert Run([add]) == AddPause(Start(), add.reason);
    assert Key(User, "a") in Run([add]).reasons;
    assert "f"[0] != MANIFEST_ID[0];
    assert Run([add, arrive]) == Hold(Run([add]), arrive.remote);
    assert Arrivals([add]) == Arrivals([]) == [];
  }

  lemma OneMoreArrives(update: seq<byte>, n: nat)
    requires Run(EmptyThen(update, n)).reasons != map[]
    ensures Run(EmptyThen(update, n + 1)) == Hold(Run(EmptyThen(update, n)), FileUpdate("f", update))
    ensures Arrivals(EmptyThen(update, n + 1)) == Arrivals(EmptyThen(update, n)) + [FileUpdate("f", update)]
  {
    var events := EmptyThen(update, n + 1);
    assert events[..|events| - 1] == EmptyThen(update, n);
    assert "f"[0] != MANIFEST_ID[0];
  }

  lemma {:induction false} EmptyStaysFirst(update: seq<byte>, n: nat)
    requires |update| * MAX_BUFFERED_UPDATES > MAX_BUFFERED_BYTES && n * |update| <= MAX_BUFFERED_BYTES
    ensures EmptyFirst(Run(EmptyThen(update, n)), |update|, n) && UpTo(Arrivals(EmptyThen(update, n)), |update|)
  {
    hide Hold, Run, Arrivals, EmptyThen;
    if n == 0 {
      StartsEmpty(update);
    } else {
      assert (n - 1) * |update| == n * |update| - |update|;
      assert n < MAX_BUFFERED_UPDATES by { FewerThanAThousand(n, |update|); }
      EmptyStaysFirst(update, n - 1);
      OneMoreArrives(update, n - 1);
      HoldAnother(Run(EmptyThen(update, n - 1)), FileUpdate("f", update), n - 1);
    }
  }

  lemma FewerThanAThousand(n: nat, size: nat)
    requires size * MAX_BUFFERED_UPDATES > MAX_BUFFERED_BYTES && n * size <= MAX_BUFFERED_BYTES
    ensures n < MAX_BUFFERED_UPDATES
  {
    assert n * size - MAX_BUFFERED_UPDATES * size == (n - MAX_BUFFERED_UPDATES) * size;
  }

  lemma HoldAnother(p: Pausing, r: FileUpdate, n: nat)
    requires EmptyFirst(p, |r.update|, n) && n + 1 < MAX_BUFFERED_UPDATES
    requires n * |r.update| + |r.update| <= MAX_BUFFERED_BYTES
    ensures EmptyFirst(Hold(p, r), |r.update|, n + 1)
  {
    assert (n + 1) * |r.update| == n * |r.update| + |r.update|;
  }

  /** Updates that are not small, behind an empty one, pass 50 MB: giving up the empty one makes no
      room. */
  lemma EmptyMakesNoRoom(update: seq<byte>) returns (events: seq<Event>)
    requires |update| * MAX_BUFFERED_UPDATES > MAX_BUFFERED_BYTES
    ensures UpTo(Arrivals(events), |update|) && Run(events).bytes > MAX_BUFFERED_BYTES
  {
    hide Run, Arrivals, EmptyThen;
    var n := MAX_BUFFERED_BYTES / |update|;
    assert n * |update| <= MAX_BUFFERED_BYTES < n * |update| + |update|;
    EmptyStaysFirst(update, n);
    OneMoreArrives(update, n);
    events := EmptyThen(update, n + 1);
  }

  /** The 50 MB figure bounds every run of updates up to a size if and only if a thousand of that size
      fit into it. */
  lemma FitsIff(size: nat)
    ensures FitsUpTo(size) <==> size <= 52_428
  {
    hide Run, Arrivals;
    if size * MAX_BUFFERED_UPDATES <= MAX_BUFFERED_BYTES {
      forall events | UpTo(Arrivals(events), size) ensures Run(events).bytes <= MAX_BUFFERED_BYTES {
        assert forall i :: 0 <= i < |Arrivals(events)| ==> Small(Arrivals(events)[i]);
        SmallUpdatesFit(events);
      }
    } else {
      var zero: byte := 0;
      var events := EmptyMakesNoRoom(seq(size, _ => zero));
    }
  }

  /** The 50 MB figure: one arrival gives up one update at most, so it is respected afterwards if
      and only if that one made room enough. */
  lemma WithinBytesIff(p: Pausing, since: seq<FileUpdate>, r: FileUpdate)
    requires Sound(p, since) && p.reasons != map[]
    ensures Hold(p, r).bytes <= MAX_BUFFERED_BYTES <==>
      p.bytes + |r.update| <=
        MAX_BUFFERED_BYTES + if Overflows(p, r.update) && p.held != [] then |p.held[0].update| else 0
  {
  }

  /** A single update of more than that passes it in an empty buffer. */
  lemma FiftyMegabytesIsNoBound(update: seq<byte>)
    requires |update| > MAX_BUFFERED_BYTES
    ensures Run([Adding(Reason(User, "a", 0)), Arriving(FileUpdate("f", update))]).bytes > MAX_BUFFERED_BYTES
  {
    var add, arrive := Adding(Reason(User, "a", 0)), Arriving(FileUpdate("f", update));
    assert [add, arrive][..1] == [add] && [add][..0] == [];
    assert Run([add]) == AddPause(Start(), add.reason);
    assert Key(User, "a") in Run([add]).reasons;
    assert "f"[0] != MANIFEST_ID[0];
    assert Run([add, arrive]) == Hold(Run([add]), FileUpdate("f", update));
  }

  // ---- Replay ----

  /** `s` is made of the elements of `all` at strictly increasing places. */
  ghost predicate Picks(s: seq<FileUpdate>, all: seq<FileUpdate>, at: seq<nat>) {
    && |s| == |at|
    && (forall i :: 0 <= i < |at| ==> at[i] < |all| && s[i] == all[at[i]])
    && forall i, j :: 0 <= i < j < |at| ==> at[i] < at[j]
  }

  lemma PicksMore(s: seq<FileUpdate>, all: seq<FileUpdate>, at: seq<nat>, r: FileUpdate)
    requires Picks(s, all, at)
    ensures Picks(s + [r], all + [r], at + [|all|])
  {
  }

  lemma PicksLess(s: seq<FileUpdate>, all: seq<FileUpdate>, at: seq<nat>, n: nat)
    requires Picks(s, all, at) && n < |s|
    ensures Picks(s[..n] + s[n + 1..], all, at[..n] + at[n + 1..])
  {
  }

  /** Once and in order: what was passed on and what is held, one after the other, are arrivals at
      strictly increasing places, however pauses came and went. */
  lemma {:induction false} ReplayedOnceInOrder(events: seq<Event>) returns (at: seq<nat>)
    ensures Picks(Run(events).handled + Run(events).held, Arrivals(events), at)
  {
    if events == [] {
      at := [];
    } else {
      var before, e := events[..|events| - 1], events[|events| - 1];
      at := ReplayedOnceInOrder(before);
      BufferSound(before);
      at := StepPicks(Run(before), e, Arrivals(before), at);
    }
  }

  lemma StepPicks(p: Pausing, e: Event, all: seq<FileUpdate>, was: seq<nat>) returns (at: seq<nat>)
    requires Picks(p.handled + p.held, all, was) && (p.reasons == map[] ==> p.held == [])
    ensures var now := if e.Arriving? && e.remote.path != MANIFEST_ID then all + [e.remote] else all;
      Picks(Step(p, e).handled + Step(p, e).held, now, at)
  {
    assert |was| == |p.handled + p.held|;
    hide Picks;
    var s, q, n := p.handled + p.held, Step(p, e), |p.handled|;
    at := was;
    if e.Arriving? && e.remote.path != MANIFEST_ID {
      if p.reasons != map[] && Overflows(p, e.remote.update) && p.held != [] {
        PicksLess(s, all, at, n);
        at := at[..n] + at[n + 1..];
        assert s[..n] + s[n + 1..] == p.handled + p.held[1..];
        PicksMore(p.handled + p.held[1..], all, at, e.remote);
        assert q.handled + q.held == p.handled + p.held[1..] + [e.remote];
      } else {
        PicksMore(s, all, at, e.remote);
        assert q.handled + q.held == s + [e.remote];
      }
      at := at + [|all|];
    } else {
      assert q.handled + q.held == s;
    }
  }

  /** Updates that never grow, the first of them within 50 MB. */
  ghost predicate NeverGrow(s: seq<FileUpdate>) {
    && (forall i, j :: 0 <= i < j < |s| ==> |s[i].update| >= |s[j].update|)
    && forall i :: 0 <= i < |s| ==> |s[i].update| <= MAX_BUFFERED_BYTES
  }

  /** Then giving up the oldest always makes room enough: the buffer stays within 50 MB. */
  lemma {:induction false} NeverGrowingFit(events: seq<Event>)
    requires NeverGrow(Arrivals(events))
    ensures Run(events).bytes <= MAX_BUFFERED_BYTES
  {
    if events != [] {
      var before, e := events[..|events| - 1], events[|events| - 1];
      var all := Arrivals(before);
      assert forall i :: 0 <= i < |all| ==> all[i] == Arrivals(events)[i];
      NeverGrowingFit(before);
      BufferSound(before);
      if e.Arriving? && e.remote.path != MANIFEST_ID && Run(before).reasons != map[] {
        assert Arrivals(events)[|all|] == e.remote;
        if Run(before).held != [] { HeldIsLarger(before, e.remote); }
        WithinBytesIff(Run(before), Since(before), e.remote);
      }
    }
  }

  lemma HeldIsLarger(events: seq<Event>, r: FileUpdate)
    requires NeverGrow(Arrivals(events) + [r]) && Run(events).held != []
    ensures |Run(events).held[0].update| >= |r.update|
  {
    var p, all := Run(events), Arrivals(events);
    var at := ReplayedOnceInOrder(events);
    var k := |p.handled|;
    assert (p.handled + p.held)[k] == p.held[0] == all[at[k]];
    assert (all + [r])[at[k]] == all[at[k]] && (all + [r])[|all|] == r;
  }

  /** No arrival found the buffer full. */
  ghost predicate NeverFull(events: seq<Event>) {
    events != [] ==>
      (var before, e := events[..|events| - 1], events[|events| - 1];
       NeverFull(before)
       && (e.Arriving? && e.remote.path != MANIFEST_ID && Run(before).reasons != map[] ==>
             !Overflows(Run(before), e.remote.update)))
  }

  /** And then nothing is lost: every arrival was passed on or is held, in order. */
  lemma {:induction false} NothingLost(events: seq<Event>)
    requires NeverFull(events)
    ensures Run(events).handled + Run(events).held == Arrivals(events)
  {
    if events != [] {
      var before, e := events[..|events| - 1], events[|events| - 1];
      NothingLost(before);
      BufferSound(before);
      var p := Run(before);
      match e
      case Adding(_) =>
      case Removing(_, _, _) =>
      case Arriving(r) =>
        if p.reasons != map[] {
          assert p.handled + (p.held + [r]) == (p.handled + p.held) + [r];
        } else {
          assert p.handled + [r] + [] == (p.handled + []) + [r];
        }
    }
  }

  // ---- The orchestrator's pause part ----

  class PauseControl {
    var pauseReasons: map<string, Reason>
    var bufferedUpdates: seq<FileUpdate>
    var bufferedBytes: int
    var handled: seq<FileUpdate>
    var manifests: seq<seq<byte>>

    ghost function View(): Pausing
      reads this
    {
      Pausing(pauseReasons, bufferedUpdates, bufferedBytes, handled, manifests)
    }

    /** Manifest updates are never held. */
    ghost predicate Valid()
      reads this
    {
      forall i :: 0 <= i < |bufferedUpdates| ==> bufferedUpdates[i].path != MANIFEST_ID
    }

    constructor ()
      ensures Valid() && View() == Start()
    {
      pauseReasons, bufferedUpdates, bufferedBytes, handled, manifests := map[], [], 0, [], [];
    }

    method Add(reason: Reason)
      requires Valid()
      modifies this
      ensures Valid() && View() == AddPause(old(View()), reason)
    {
      pauseReasons := pauseReasons[Key(reason.source, reason.id) := reason];
    }

    method HandleRemoteUpdate(path: string, update: seq<byte>)
      requires Valid()
      modifies this
      ensures Valid() && View() == Handle(old(View()), FileUpdate(path, update))
    {
      if path == MANIFEST_ID {
        manifests := manifests + [update];
        return;
      }
      if pauseReasons != map[] {
        if |bufferedUpdates| >= MAX_BUFFERED_UPDATES || bufferedBytes + |update| > MAX_BUFFERED_BYTES {
          if |bufferedUpdates| > 0 {
            bufferedBytes := bufferedBytes - |bufferedUpdates[0].update|;
            bufferedUpdates := bufferedUpdates[1..];
          }
        }
        bufferedUpdates := bufferedUpdates + [FileUpdate(path, update)];
        bufferedBytes := bufferedBytes + |update|;
        return;
      }
      handled := handled + [FileUpdate(path, update)];
    }

    method FlushBufferedUpdates()
      requires Valid() && pauseReasons == map[]
      modifies this
      ensures Valid() && View() == Flush(old(View()))
    {
      var updates := bufferedUpdates;
      bufferedUpdates := [];
      bufferedBytes := 0;
      for i := 0 to |updates|
        invariant View() == Pausing(map[], [], 0, old(handled) + updates[..i], old(manifests))
      {
        assert updates[..i + 1] == updates[..i] + [updates[i]];
        HandleRemoteUpdate(updates[i].path, updates[i].update);
      }
      assert updates[..|updates|] == updates;
    }

    method Remove(source: Source, id: Option<string>, force: bool)
      requires Valid()
      modifies this
      ensures Valid() && View() == RemovePause(old(View()), source, id, force)
    {
      hide Key, KeySource, AllowedSources;
      ghost var kept := map k | k in pauseReasons && !Clears(source, id, force, k) :: pauseReasons[k];
      if force && source == User {
        pauseReasons := map[];
      } else if id.Some? && id.value != "" {
        pauseReasons := pauseReasons - {Key(source, id.value)};
      } else {
        var keys := pauseReasons.Keys;
        while keys != {}
          invariant keys <= pauseReasons.Keys <= old(pauseReasons).Keys
          invariant unchanged(`bufferedUpdates, `bufferedBytes, `handled, `manifests)
          invariant forall k :: k in pauseReasons ==> pauseReasons[k] == old(pauseReasons)[k]
          invariant forall k :: k in old(pauseReasons) ==>
            (k in pauseReasons <==> k in keys || KeySource(k) !in AllowedSources(source))
          decreases keys
        {
          var key :| key in keys;
          keys := keys - {key};
          if KeySource(key) in AllowedSources(source) {
            pauseReasons := pauseReasons - {key};
          }
        }
      }
      assert pauseReasons == kept;
      if pauseReasons == map[] {
        FlushBufferedUpdates();
      }
    }
  }
}
