/**
 * The RPC adapter's descriptor registry. A descriptor may be dropped while
 * output streams on it are alive; its `Close` then waits for the last of them.
 */
module RpcAdapters {
  import opened LockRecords
  import opened FileSystems

  /** `live` lists the streams opened per descriptor, as weak references: which
      of them are still alive is known only from the set of live streams. */
  datatype Registry = Registry(
    descToFd: map<nat, nat>,
    fdToDesc: map<nat, nat>,
    flags: map<nat, Flags>,
    live: map<nat, seq<nat>>,
    pending: set<nat>,
    next: nat)

  datatype Released = Released(registry: Registry, fd: Option<nat>)

  function NewRegistry(): Registry { Registry(map[0 := 0], map[0 := 0], map[], map[], {}, 1) }

  function Allocate(r: Registry, fd: nat, flags: Flags): Registry {
    r.(next := r.next + 1, descToFd := r.descToFd[r.next := fd], fdToDesc := r.fdToDesc[fd := r.next],
       flags := r.flags[r.next := flags])
  }

  function ServerFd(r: Registry, d: nat): Option<nat> {
    if d in r.descToFd then Some(r.descToFd[d]) else None
  }

  function Release(r: Registry, d: nat): Released {
    if d !in r.descToFd then Released(r, None)
    else
      var fd := r.descToFd[d];
      Released(r.(descToFd := r.descToFd - {d}, fdToDesc := r.fdToDesc - {fd}, flags := r.flags - {d},
                  live := r.live - {d}, pending := r.pending - {d}), Some(fd))
  }

  function Streams(live: map<nat, seq<nat>>, d: nat): seq<nat> { if d in live then live[d] else [] }

  function Retain(list: seq<nat>, alive: set<nat>): seq<nat> {
    if list == [] then []
    else (if list[0] in alive then [list[0]] else []) + Retain(list[1..], alive)
  }

  function StreamOpened(r: Registry, d: nat, stream: nat): Registry {
    r.(live := r.live[d := Streams(r.live, d) + [stream]])
  }

  function LiveCount(r: Registry, d: nat, alive: set<nat>): nat { |Retain(Streams(r.live, d), alive)| }

  function StreamClosed(r: Registry, d: nat, alive: set<nat>): Released {
    var kept := if d in r.live then r.(live := r.live[d := Retain(r.live[d], alive)]) else r;
    if LiveCount(kept, d, alive) == 0 && d in kept.pending then Release(kept, d) else Released(kept, None)
  }

  function DescriptorDropped(r: Registry, d: nat, alive: set<nat>): Released {
    if LiveCount(r, d, alive) > 0 then Released(r.(pending := r.pending + {d}), None) else Release(r, d)
  }

  // ------------------------------------------------------- all orders ---

  /** The registry with what lives around it: descriptor resources, streams with
      their descriptor, and the history of descriptors given and closes sent. */
  datatype World = World(
    registry: Registry,
    descs: set<nat>,
    owner: map<nat, nat>,
    nextStream: nat,
    given: map<nat, nat>,
    closed: seq<nat>)

  function Birth(): World { World(NewRegistry(), {0}, map[], 0, map[0 := 0], []) }

  datatype Event =
    | OpenDescriptor(fd: nat, flags: Flags)
    | OpenStream(desc: nat)
    | DropStream(stream: nat)
    | DropDescriptor(desc: nat)

  /** Methods are called on live resources, a resource is dropped once, and the
      server never gives the same descriptor number twice. */
  predicate Enabled(w: World, e: Event) {
    match e
    case OpenDescriptor(fd, _) => fd !in w.given.Values
    case OpenStream(d) => d in w.descs
    case DropStream(st) => st in w.owner
    case DropDescriptor(d) => d in w.descs
  }

  function Sent(fd: Option<nat>): seq<nat> { if fd.Some? then [fd.value] else [] }

  /** The preopened root, descriptor 0, is never released. */
  function Next(w: World, e: Event): World
    requires Enabled(w, e)
  {
    match e
    case OpenDescriptor(fd, flags) =>
      w.(registry := Allocate(w.registry, fd, flags), descs := w.descs + {w.registry.next}, given := w.given[w.registry.next := fd])
    case OpenStream(d) =>
      w.(registry := StreamOpened(w.registry, d, w.nextStream), owner := w.owner[w.nextStream := d], nextStream := w.nextStream + 1)
    case DropStream(st) =>
      var r := StreamClosed(w.registry, w.owner[st], w.owner.Keys - {st});
      w.(registry := r.registry, owner := w.owner - {st}, closed := w.closed + Sent(r.fd))
    case DropDescriptor(d) =>
      if d == 0 then w
      else
        var r := DescriptorDropped(w.registry, d, w.owner.Keys);
        w.(registry := r.registry, descs := w.descs - {d}, closed := w.closed + Sent(r.fd))
  }

  /** Any order of events; one that cannot happen is skipped. */
  function Play(events: seq<Event>): World {
    if events == [] then Birth()
    else
      var w, e := Play(events[..|events| - 1]), events[|events| - 1];
      if Enabled(w, e) then Next(w, e) else w
  }

  /** The descriptor resource or one of its streams is still there. */
  ghost predicate InUse(descs: set<nat>, owner: map<nat, nat>, d: nat) {
    d in descs || exists st :: st in owner && owner[st] == d
  }

  /** The lists name every live stream under its descriptor. */
  ghost predicate ListsStreams(live: map<nat, seq<nat>>, owner: map<nat, nat>, nextStream: nat) {
    && (forall st :: st in owner ==> st < nextStream && Listed(live, owner[st], st))
    && (forall d: nat, st: nat :: Listed(live, d, st) ==> st < nextStream && (st in owner ==> owner[st] == d))
  }

  predicate Listed(live: map<nat, seq<nat>>, d: nat, st: nat) { d in live && st in live[d] }

  /** Registered under its server fd while in use; pending exactly when only streams are left. */
  ghost predicate Registered(r: Registry, descs: set<nat>, owner: map<nat, nat>, given: map<nat, nat>) {
    && 0 in descs && 0 in given && descs <= given.Keys && (forall st :: st in owner ==> owner[st] in given)
    && (forall d :: d in given ==> d < r.next)
    && (forall d :: d in r.descToFd <==> d in given && InUse(descs, owner, d))
    && (forall d :: d in r.descToFd ==> r.descToFd[d] == given[d])
    && (forall d :: d in r.pending <==> d in r.descToFd && d !in descs)
  }

  /** Closes sent: one for each descriptor no longer in use, no others. */
  ghost predicate ClosedOnce(closed: seq<nat>, descToFd: map<nat, nat>, given: map<nat, nat>) {
    && (forall d, e :: d in given && e in given && given[d] == given[e] ==> d == e)
    && (forall fd :: fd in closed ==> fd in given.Values)
    && (forall d :: d in given ==> multiset(closed)[given[d]] == if d in descToFd then 0 else 1)
  }

  ghost predicate WorldInv(w: World) {
    && ListsStreams(w.registry.live, w.owner, w.nextStream)
    && Registered(w.registry, w.descs, w.owner, w.given)
    && ClosedOnce(w.closed, w.registry.descToFd, w.given)
  }

  lemma {:induction false} RetainKeeps(list: seq<nat>, alive: set<nat>)
    ensures forall st :: st in Retain(list, alive) <==> st in list && st in alive
  {
    if list != [] {
      RetainKeeps(list[1..], alive);
      assert forall st :: st in list <==> st == list[0] || st in list[1..];
    }
  }

  /** Sending the close of a descriptor just released. */
  lemma CloseSent(closed: seq<nat>, descToFd: map<nat, nat>, given: map<nat, nat>, d: nat)
    requires ClosedOnce(closed, descToFd, given) && d in descToFd && d in given && descToFd[d] == given[d]
    ensures ClosedOnce(closed + [given[d]], descToFd - {d}, given)
  {
    assert multiset(closed + [given[d]]) == multiset(closed) + multiset{given[d]};
  }

  lemma GivenNew(closed: seq<nat>, descToFd: map<nat, nat>, given: map<nat, nat>, d: nat, fd: nat)
    requires ClosedOnce(closed, descToFd, given) && d !in given && fd !in given.Values
    ensures ClosedOnce(closed, descToFd[d := fd], given[d := fd])
  {
    var after := given[d := fd];
    assert fd !in closed;
    forall x | x in after ensures after[x] in after.Values && (x != d ==> after[x] != fd) {
      assert x != d ==> given[x] in given.Values;
    }
    assert forall v :: v in given.Values ==> v in after.Values by {
      forall v | v in given.Values ensures v in after.Values {
        var x :| x in given && given[x] == v;
        assert after[x] == v;
      }
    }
  }

  lemma RegisteredNew(r: Registry, descs: set<nat>, owner: map<nat, nat>, given: map<nat, nat>, fd: nat, flags: Flags)
    requires Registered(r, descs, owner, given)
    ensures r.next !in given && Registered(Allocate(r, fd, flags), descs + {r.next}, owner, given[r.next := fd])
  {
    assert forall d :: d != r.next ==> (InUse(descs + {r.next}, owner, d) <==> InUse(descs, owner, d));
  }

  lemma OpenDescriptorKeeps(w: World, fd: nat, flags: Flags)
    requires WorldInv(w) && Enabled(w, OpenDescriptor(fd, flags))
    ensures WorldInv(Next(w, OpenDescriptor(fd, flags)))
  {
    RegisteredNew(w.registry, w.descs, w.owner, w.given, fd, flags);
    GivenNew(w.closed, w.registry.descToFd, w.given, w.registry.next, fd);
    hide Registered;
    hide ClosedOnce;
    hide ListsStreams;
  }

  lemma ListedNew(live: map<nat, seq<nat>>, owner: map<nat, nat>, st: nat, d: nat)
    requires ListsStreams(live, owner, st)
    ensures ListsStreams(live[d := Streams(live, d) + [st]], owner[st := d], st + 1)
  {
    var after := live[d := Streams(live, d) + [st]];
    assert forall x, s :: Listed(after, x, s) <==> Listed(live, x, s) || (x == d && s == st);
    hide Listed;
  }

  lemma OpenStreamKeeps(w: World, d: nat)
    requires WorldInv(w) && Enabled(w, OpenStream(d))
    ensures WorldInv(Next(w, OpenStream(d)))
  {
    var w' := Next(w, OpenStream(d));
    ListedNew(w.registry.live, w.owner, w.nextStream, d);
    forall x ensures InUse(w'.descs, w'.owner, x) <==> InUse(w.descs, w.owner, x) {
      if x != d {
        StreamAdded(w.descs, w.owner, w.nextStream, d, x);
      }
    }
    hide ListsStreams;
    hide InUse;
    hide ClosedOnce;
  }

  lemma StreamAdded(descs: set<nat>, owner: map<nat, nat>, st: nat, d: nat, x: nat)
    requires x != d && st !in owner
    ensures InUse(descs, owner[st := d], x) <==> InUse(descs, owner, x)
  {
    if InUse(descs, owner, x) && x !in descs {
      var s :| s in owner && owner[s] == x;
      assert s in owner[st := d] && owner[st := d][s] == x;
    }
  }

  lemma StreamGone(descs: set<nat>, owner: map<nat, nat>, st: nat, x: nat)
    requires st in owner && owner[st] != x
    ensures InUse(descs, owner - {st}, x) <==> InUse(descs, owner, x)
  {
    if InUse(descs, owner, x) && x !in descs {
      var s :| s in owner && owner[s] == x;
      assert s in owner - {st} && (owner - {st})[s] == x;
    }
  }

  lemma ListedRetained(live: map<nat, seq<nat>>, owner: map<nat, nat>, next: nat, st: nat)
    requires ListsStreams(live, owner, next) && st in owner
    ensures var d, left := owner[st], owner - {st};
            && d in live && ListsStreams(live[d := Retain(live[d], left.Keys)], left, next)
            && (Retain(live[d], left.Keys) == [] <==> forall s :: s in left ==> left[s] != d)
  {
    var d, left := owner[st], owner - {st};
    RetainKeeps(live[d], left.Keys);
    var kept := Retain(live[d], left.Keys);
    var after := live[d := kept];
    assert forall x, s :: Listed(after, x, s) <==> Listed(live, x, s) && (x == d ==> s in left);
    assert forall s :: s in left && left[s] == d ==> Listed(live, d, s);
    if kept != [] {
      assert kept[0] in kept;
      assert Listed(after, d, kept[0]);
    }
    hide Retain;
  }

  lemma {:induction false} RetainTwice(list: seq<nat>, alive: set<nat>)
    ensures Retain(Retain(list, alive), alive) == Retain(list, alive)
  {
    if list != [] {
      RetainTwice(list[1..], alive);
      var rest := Retain(list[1..], alive);
      assert ([list[0]] + rest)[1..] == rest;
      assert [] + rest == rest;
    }
  }

  /** Removing the list of a released descriptor loses no live stream. */
  lemma ListDropped(live: map<nat, seq<nat>>, owner: map<nat, nat>, next: nat, d: nat)
    requires ListsStreams(live, owner, next) && forall s :: s in owner ==> owner[s] != d
    ensures ListsStreams(live - {d}, owner, next)
  {
    assert forall x, s :: Listed(live - {d}, x, s) <==> x != d && Listed(live, x, s);
    hide Listed;
  }

  lemma RegisteredReleased(r: Registry, descs: set<nat>, owner: map<nat, nat>, given: map<nat, nat>, d: nat)
    requires Registered(r.(pending := r.pending - {d}), descs + {d}, owner, given)
    requires d in r.descToFd && d !in descs && d != 0 && forall s :: s in owner ==> owner[s] != d
    ensures d in given && r.descToFd[d] == given[d]
    ensures Registered(Release(r, d).registry, descs, owner, given)
  {
    assert forall x :: InUse(descs, owner, x) <==> x != d && InUse(descs + {d}, owner, x);
    hide InUse;
  }

  /** Releasing a descriptor with nothing left on it sends its close. */
  lemma ReleaseKeeps(w: World, d: nat)
    requires ListsStreams(w.registry.live, w.owner, w.nextStream) && ClosedOnce(w.closed, w.registry.descToFd, w.given)
    requires Registered(w.registry.(pending := w.registry.pending - {d}), w.descs + {d}, w.owner, w.given)
    requires d in w.registry.descToFd && d !in w.descs && d != 0 && forall s :: s in w.owner ==> w.owner[s] != d
    ensures var r := Release(w.registry, d);
            WorldInv(w.(registry := r.registry, closed := w.closed + Sent(r.fd)))
  {
    RegisteredReleased(w.registry, w.descs, w.owner, w.given, d);
    ListDropped(w.registry.live, w.owner, w.nextStream, d);
    CloseSent(w.closed, w.registry.descToFd, w.given, d);
    hide Registered;
    hide ListsStreams;
    hide ClosedOnce;
  }

  /** What is left registered when one stream of `d` goes and something of `d` stays. */
  lemma RegisteredLess(r: Registry, descs: set<nat>, owner: map<nat, nat>, given: map<nat, nat>, st: nat)
    requires Registered(r, descs, owner, given) && st in owner && InUse(descs, owner - {st}, owner[st])
    ensures Registered(r, descs, owner - {st}, given)
    ensures owner[st] in r.pending ==> owner[st] !in descs
  {
    var d := owner[st];
    forall x ensures InUse(descs, owner - {st}, x) <==> InUse(descs, owner, x) {
      if x != d {
        StreamGone(descs, owner, st, x);
      } else {
        assert InUse(descs, owner, d);
      }
    }
    hide InUse;
  }

  /** The last stream of a dropped descriptor goes: as if the descriptor were
      dropped only now. */
  lemma RegisteredLast(r: Registry, descs: set<nat>, owner: map<nat, nat>, given: map<nat, nat>, st: nat)
    requires Registered(r, descs, owner, given) && st in owner
    ensures var d := owner[st];
            && d in r.descToFd && (d !in descs ==> d in r.pending && d != 0)
            && Registered(r.(pending := r.pending - {d}), descs + {d}, owner - {st}, given)
  {
    var d := owner[st];
    assert InUse(descs, owner, d);
    forall x ensures InUse(descs + {d}, owner - {st}, x) <==> InUse(descs, owner, x) {
      if x != d {
        StreamGone(descs + {d}, owner, st, x);
      }
    }
    hide InUse;
  }

  /** What dropping a stream does to the registry, once its list is pruned. */
  lemma StreamClosedPrunes(r: Registry, d: nat, alive: set<nat>)
    requires d in r.live
    ensures var list := Retain(r.live[d], alive);
            var kept := r.(live := r.live[d := list]);
            StreamClosed(r, d, alive) == if list == [] && d in kept.pending then Release(kept, d) else Released(kept, None)
  {
    RetainTwice(r.live[d], alive);
    hide Retain;
    hide Release;
  }

  lemma DropStreamKeeps(w: World, st: nat)
    requires WorldInv(w) && Enabled(w, DropStream(st))
    ensures WorldInv(Next(w, DropStream(st)))
  {
    hide Registered;
    hide ClosedOnce;
    hide ListsStreams;
    hide Retain;
    hide Release;
    hide StreamClosed;
    hide InUse;
    var d, left := w.owner[st], w.owner - {st};
    assert left.Keys == w.owner.Keys - {st};
    assert w.closed + [] == w.closed;
    ListedRetained(w.registry.live, w.owner, w.nextStream, st);
    StreamClosedPrunes(w.registry, d, left.Keys);
    var list := Retain(w.registry.live[d], left.Keys);
    var kept := w.registry.(live := w.registry.live[d := list]);
    RegisteredSame(w.registry, kept, w.descs, w.owner, w.given);
    if list == [] && d !in w.descs {
      RegisteredLast(kept, w.descs, w.owner, w.given, st);
      ReleaseKeeps(w.(registry := kept, owner := left), d);
    } else {
      StillInUse(w.descs, left, d);
      RegisteredLess(kept, w.descs, w.owner, w.given, st);
    }
  }

  lemma StillInUse(descs: set<nat>, owner: map<nat, nat>, d: nat)
    requires d in descs || !(forall s :: s in owner ==> owner[s] != d)
    ensures InUse(descs, owner, d)
  {
  }

  lemma RegisteredSame(r: Registry, r': Registry, descs: set<nat>, owner: map<nat, nat>, given: map<nat, nat>)
    requires Registered(r, descs, owner, given) && r' == r.(live := r'.live)
    ensures Registered(r', descs, owner, given)
  {
  }

  /** A dropped descriptor that still has a stream waits. */
  lemma RegisteredWaits(r: Registry, descs: set<nat>, owner: map<nat, nat>, given: map<nat, nat>, d: nat)
    requires Registered(r, descs, owner, given) && d in descs && d != 0 && InUse(descs - {d}, owner, d)
    ensures Registered(r.(pending := r.pending + {d}), descs - {d}, owner, given)
  {
    assert forall x :: InUse(descs - {d}, owner, x) <==> InUse(descs, owner, x);
    hide InUse;
  }

  lemma RegisteredHere(r: Registry, descs: set<nat>, owner: map<nat, nat>, given: map<nat, nat>, d: nat)
    requires Registered(r, descs, owner, given) && d in descs
    ensures d in r.descToFd && r.(pending := r.pending - {d}) == r
  {
    assert InUse(descs, owner, d);
  }

  /** The count of live streams is zero exactly when no live stream is the descriptor's. */
  lemma LiveCountCounts(r: Registry, owner: map<nat, nat>, next: nat, d: nat)
    requires ListsStreams(r.live, owner, next)
    ensures LiveCount(r, d, owner.Keys) == 0 <==> forall s :: s in owner ==> owner[s] != d
  {
    var kept := Retain(Streams(r.live, d), owner.Keys);
    RetainKeeps(Streams(r.live, d), owner.Keys);
    hide Retain;
    if kept != [] {
      assert kept[0] in kept;
      assert Listed(r.live, d, kept[0]);
    }
  }

  lemma DropDescriptorKeeps(w: World, d: nat)
    requires WorldInv(w) && Enabled(w, DropDescriptor(d))
    ensures WorldInv(Next(w, DropDescriptor(d)))
  {
    hide Registered;
    hide ClosedOnce;
    hide ListsStreams;
    hide LiveCount;
    hide Release;
    hide InUse;
    assert w.closed + [] == w.closed;
    if d != 0 {
      LiveCountCounts(w.registry, w.owner, w.nextStream, d);
      RegisteredHere(w.registry, w.descs, w.owner, w.given, d);
      if LiveCount(w.registry, d, w.owner.Keys) > 0 {
        StillInUse(w.descs - {d}, w.owner, d);
        RegisteredWaits(w.registry, w.descs, w.owner, w.given, d);
      } else {
        assert w.descs - {d} + {d} == w.descs;
        ReleaseKeeps(w.(descs := w.descs - {d}), d);
      }
    }
  }

  /** Whatever the order of opens and drops. */
  lemma {:induction false} PlayKeeps(events: seq<Event>)
    ensures WorldInv(Play(events))
  {
    if events == [] {
      var w := Birth();
      assert multiset(w.closed) == multiset{};
      assert InUse(w.descs, w.owner, 0);
    } else {
      var w, e := Play(events[..|events| - 1]), events[|events| - 1];
      PlayKeeps(events[..|events| - 1]);
      hide WorldInv;
      if Enabled(w, e) {
        match e
        case OpenDescriptor(fd, flags) => OpenDescriptorKeeps(w, fd, flags);
        case OpenStream(d) => OpenStreamKeeps(w, d);
        case DropStream(st) => DropStreamKeeps(w, st);
        case DropDescriptor(d) => DropDescriptorKeeps(w, d);
      }
    }
  }

  /** Exactly one `Close` is sent for a descriptor's server fd, and only once the
      descriptor and all its streams are gone. */
  lemma CloseIsSentOnce(events: seq<Event>, d: nat)
    requires d in Play(events).given
    ensures var w := Play(events);
            multiset(w.closed)[w.given[d]] == if InUse(w.descs, w.owner, d) then 0 else 1
  {
    PlayKeeps(events);
    var w := Play(events);
    assert ClosedOnce(w.closed, w.registry.descToFd, w.given);
    assert Registered(w.registry, w.descs, w.owner, w.given);
  }

  /** The flush a stream makes when it is dropped still finds its server fd, open. */
  lemma FlushFindsServerFd(events: seq<Event>, st: nat)
    requires st in Play(events).owner
    ensures var w := Play(events);
            && w.owner[st] in w.given && ServerFd(w.registry, w.owner[st]) == Some(w.given[w.owner[st]])
            && w.given[w.owner[st]] !in w.closed
  {
    PlayKeeps(events);
    var w := Play(events);
    var d := w.owner[st];
    assert InUse(w.descs, w.owner, d);
    assert Registered(w.registry, w.descs, w.owner, w.given);
    assert ClosedOnce(w.closed, w.registry.descToFd, w.given);
    assert multiset(w.closed)[w.given[d]] == 0;
  }
}
