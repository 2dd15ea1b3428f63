/** What an open and a poll bring to the local copy, whatever the other instances do
    in between. */
module Downloads {
  import opened LockRecords
  import opened ObjectStores
  import opened SyncProtocol
  import opened SoloRuns
  import opened RequestRuns

  // --------------------------------------------------------------- open ---

  /** The tag in the cache is that of the local copy. */
  predicate CacheFits(i: Instance, p: Path) {
    p in i.cache ==> p in i.local && i.cache[p] == ETag(i.local[p])
  }

  function TagAt(files: map<Path, Body>, p: Path): Option<ETag> {
    if p in files then Some(ETag(files[p])) else None
  }

  /** An open that answers Done holds a new, clean lease based on the object its last
      request met, and its local copy is that object; any other open leaves leases
      and local copies alone. */
  predicate OpenAnswered(i: Instance, p: Path, rs: seq<Request>, j: Instance) {
    if j.pc == Idle(Done) then
      && rs != [] && p in j.leases && j.leases == i.leases[p := j.leases[p]]
      && var files, l := rs[|rs| - 1].before.files, j.leases[p];
      && l.base == TagAt(files, p) && l.refs == 1 && !l.dirty && !l.pendingDelete && !l.lost && !l.releasing
      && j.local == (if p in files then i.local[p := files[p]] else i.local)
      && (p in files ==> p in j.cache && j.cache[p] == ETag(files[p]))
    else j.leases == i.leases && j.local == i.local
  }

  /** The request of an acquire. */
  predicate Acquiring(pc: Pc, p: Path) {
    (pc.AcquireGet? || pc.AcquirePut? || pc.AcquireVerify?) && pc.path == p
  }

  lemma AcquireOnce(cfg: Config, id: InstanceId, i: Instance, p: Path, b: Bucket, env: Env)
    requires Acquiring(i.pc, p) && Upload(p) !in i.queue
    ensures var (i1, b1) := Advance(cfg, id, i, b, env);
            && i1 == i.(pc := i1.pc) && b1.files == b.files
            && (Acquiring(i1.pc, p) || (i1.pc.HeadFile? && i1.pc.path == p && i1.pc.opening.Some?)
                || (i1.pc.Idle? && i1.pc.ret != Done))
  {
    hide Parse, Encode, Wrap64;
  }

  lemma {:induction false} OpenLeads(cfg: Config, id: InstanceId, i: Instance, p: Path, rs: seq<Request>, j: Instance)
    requires Acquiring(i.pc, p) && Upload(p) !in i.queue && p !in i.leases && CacheFits(i, p)
    requires Leads(cfg, id, i, rs, j) && j.pc.Idle?
    ensures OpenAnswered(i, p, rs, j)
    decreases |rs|
  {
    hide Advance, Leads;
    LeadsFirst(cfg, id, i, rs, j);
    AcquireOnce(cfg, id, i, p, rs[0].before, rs[0].env);
    var i1 := Advance(cfg, id, i, rs[0].before, rs[0].env).0;
    if i1.pc.HeadFile? {
      LookLeads(cfg, id, i1, p, i1.pc.opening.value, rs[1..], j);
    } else if i1.pc.Idle? {
      IdleLeads(cfg, id, i1, rs[1..], j);
    } else {
      OpenLeads(cfg, id, i1, p, rs[1..], j);
    }
  }

  lemma IdleLeads(cfg: Config, id: InstanceId, i: Instance, rs: seq<Request>, j: Instance)
    requires i.pc.Idle? && Leads(cfg, id, i, rs, j)
    ensures rs == [] && j == i
  {
  }

  /** Giving up an open takes one more request, and changes nothing. */
  lemma GivesUp(cfg: Config, id: InstanceId, i: Instance, p: Path, hold: Hold, rs: seq<Request>, j: Instance)
    requires i.pc == Unlock(p, hold.tag, AfterOpen(Failed)) && Leads(cfg, id, i, rs, j) && j.pc.Idle?
    ensures j == i.(pc := Idle(Failed))
  {
    LeadsFirst(cfg, id, i, rs, j);
  }

  lemma LookOnce(cfg: Config, id: InstanceId, i: Instance, p: Path, hold: Hold, b: Bucket, env: Env)
    requires i.pc == HeadFile(p, Some(hold))
    ensures Advance(cfg, id, i, b, env).0
            == if env.fault.Faulty? then i.(pc := Unlock(p, hold.tag, AfterOpen(Failed)))
               else if p in b.files && !(p in i.cache && i.cache[p] == ETag(b.files[p])) then i.(pc := GetFile(p, Some(hold)))
               else Opened(i, p, hold, TagAt(b.files, p))
  {
    hide Opened;
  }

  lemma FetchOnce(cfg: Config, id: InstanceId, i: Instance, p: Path, hold: Hold, b: Bucket, env: Env)
    requires i.pc == GetFile(p, Some(hold))
    ensures Advance(cfg, id, i, b, env).0
            == if env.fault.Faulty? then i.(pc := Unlock(p, hold.tag, AfterOpen(Failed)))
               else Opened(if p in b.files then Download(i, p, b.files[p]) else i, p, hold, TagAt(b.files, p))
  {
    hide Opened, Download;
  }

  /** An open that has just ended has answered as it should. */
  lemma OpenedAnswers(i: Instance, k: Instance, p: Path, hold: Hold, r: Request)
    requires k.leases == i.leases && k.local == (if p in r.before.files then i.local[p := r.before.files[p]] else i.local)
    requires p in r.before.files ==> p in k.cache && k.cache[p] == ETag(r.before.files[p])
    ensures OpenAnswered(i, p, [r], Opened(k, p, hold, TagAt(r.before.files, p)))
  {
  }

  /** With the lock in hand: the look at the file, and the download if it is new. */
  lemma LookLeads(cfg: Config, id: InstanceId, i: Instance, p: Path, hold: Hold, rs: seq<Request>, j: Instance)
    requires i.pc == HeadFile(p, Some(hold)) && p !in i.leases && CacheFits(i, p)
    requires Leads(cfg, id, i, rs, j) && j.pc.Idle?
    ensures OpenAnswered(i, p, rs, j)
    ensures AllAnswered(rs) ==> j.pc.ret == Done && |rs| <= 2
  {
    hide Leads, Advance, Opened, OpenAnswered;
    LeadsFirst(cfg, id, i, rs, j);
    LookOnce(cfg, id, i, p, hold, rs[0].before, rs[0].env);
    var files, rest := rs[0].before.files, rs[1..];
    var i1 := Advance(cfg, id, i, rs[0].before, rs[0].env).0;
    if rs[0].env.fault.Faulty? {
      GivesUp(cfg, id, i1, p, hold, rest, j);
      GaveUp(i, p, rs, j);
    } else if p in files && !(p in i.cache && i.cache[p] == ETag(files[p])) {
      FetchLeads(cfg, id, i1, p, hold, rest, j);
      SameOpenAnswer(i, i1, p, rest, j);
      AnswersLater(i, p, rs, j);
    } else {
      assert p in files ==> i.local[p := files[p]] == i.local;
      OpenedAnswers(i, i, p, hold, rs[0]);
      OpenedIsIdle(i, p, hold, TagAt(files, p));
      IdleLeads(cfg, id, i1, rest, j);
      assert rs == [rs[0]];
    }
  }

  lemma OpenedIsIdle(i: Instance, p: Path, hold: Hold, base: Option<ETag>)
    ensures Opened(i, p, hold, base).pc == Idle(Done)
  {
  }

  lemma GaveUp(i: Instance, p: Path, rs: seq<Request>, j: Instance)
    requires j == i.(pc := Idle(Failed))
    ensures OpenAnswered(i, p, rs, j)
  {
  }

  lemma AnswersLater(i: Instance, p: Path, rs: seq<Request>, j: Instance)
    requires |rs| > 1 && OpenAnswered(i, p, rs[1..], j)
    ensures OpenAnswered(i, p, rs, j)
  {
  }

  lemma FetchLeads(cfg: Config, id: InstanceId, i: Instance, p: Path, hold: Hold, rs: seq<Request>, j: Instance)
    requires i.pc == GetFile(p, Some(hold)) && p !in i.leases
    requires Leads(cfg, id, i, rs, j) && j.pc.Idle?
    ensures OpenAnswered(i, p, rs, j) && rs != []
    ensures AllAnswered(rs) ==> j.pc.ret == Done && |rs| == 1
  {
    hide Leads, Advance, Opened, OpenAnswered;
    LeadsFirst(cfg, id, i, rs, j);
    FetchOnce(cfg, id, i, p, hold, rs[0].before, rs[0].env);
    var files := rs[0].before.files;
    var i1 := Advance(cfg, id, i, rs[0].before, rs[0].env).0;
    if rs[0].env.fault.Faulty? {
      GivesUp(cfg, id, i1, p, hold, rs[1..], j);
      GaveUp(i, p, rs, j);
    } else {
      var k := if p in files then Download(i, p, files[p]) else i;
      OpenedAnswers(i, k, p, hold, rs[0]);
      OpenedIsIdle(k, p, hold, TagAt(files, p));
      IdleLeads(cfg, id, i1, rs[1..], j);
      assert rs == [rs[0]];
    }
  }

  /** An idle instance opens a path it has no lease on and no upload queued for. */
  lemma OpenAdopts(cfg: Config, s: System, id: InstanceId, p: Path, env: Env, tail: seq<Event>)
    requires id in s.instances && GoesOn(tail, id)
    requires var i := s.instances[id]; i.pc.Idle? && p !in i.leases && Upload(p) !in i.queue && CacheFits(i, p)
    ensures var evs := [Event(id, Start(Open(p)), env)];
            var rs, t := Requests(cfg, Run(cfg, s, evs), tail, id), Run(cfg, s, evs + tail);
            && id in t.instances
            && (t.instances[id].pc.Idle? ==>
                  && OpenAnswered(s.instances[id], p, rs, t.instances[id])
                  && (AllAnswered(rs) && TakesFreeLock(rs, p) ==> t.instances[id].pc.ret == Done && |rs| <= 4)
                  && (rs != [] && rs[0].env.fault.NoFault? && !Free(rs[0].before.locks, p, rs[0].env.wall) && rs[0].env.timedOut ==>
                        t.instances[id].pc.ret == Busy))
  {
    var evs := [Event(id, Start(Open(p)), env)];
    StartOne(cfg, s, id, Open(p), env);
    RunTwice(cfg, s, evs, tail);
    var t0 := Run(cfg, s, evs);
    RunLeads(cfg, t0, tail, id);
    var rs, j := Requests(cfg, t0, tail, id), Run(cfg, t0, tail).instances[id];
    assert t0.instances[id] == s.instances[id].(pc := AcquireGet(p));
    hide Run, Requests, Leads, OpenAnswered, TakesFreeLock, Begin, Free;
    if j.pc.Idle? {
      OpenLeads(cfg, id, t0.instances[id], p, rs, j);
      SameOpenAnswer(s.instances[id], t0.instances[id], p, rs, j);
      OpenGoesThrough(cfg, id, t0.instances[id], p, rs, j);
    }
  }

  lemma SameOpenAnswer(i: Instance, k: Instance, p: Path, rs: seq<Request>, j: Instance)
    requires k == i.(pc := k.pc) && OpenAnswered(k, p, rs, j)
    ensures OpenAnswered(i, p, rs, j)
  {
  }

  /** The first request finds the lock free or expired, and nobody takes it before the
      second. */
  predicate TakesFreeLock(rs: seq<Request>, p: Path) {
    && rs != [] && Free(rs[0].before.locks, p, rs[0].env.wall)
    && (|rs| > 1 ==> Seen(rs[1].before.locks, p) == Seen(rs[0].before.locks, p))
  }

  /** Over a store that answers, an open of a free lock goes through; one of a held
      lock is Busy when its time is up. */
  lemma OpenGoesThrough(cfg: Config, id: InstanceId, i: Instance, p: Path, rs: seq<Request>, j: Instance)
    requires i.pc == AcquireGet(p) && Upload(p) !in i.queue && p !in i.leases && CacheFits(i, p)
    requires Leads(cfg, id, i, rs, j) && j.pc.Idle?
    ensures AllAnswered(rs) && TakesFreeLock(rs, p) ==> j.pc.ret == Done && |rs| <= 4
    ensures rs != [] && rs[0].env.fault.NoFault? && !Free(rs[0].before.locks, p, rs[0].env.wall) && rs[0].env.timedOut ==> j.pc.ret == Busy
  {
    hide Leads, Parse, Encode, Wrap64, Free;
    LeadsFirst(cfg, id, i, rs, j);
    var r := rs[0];
    FirstLook(cfg, id, i, p, r.before, r.env);
    var i1 := Advance(cfg, id, i, r.before, r.env).0;
    hide Advance;
    if r.env.fault.NoFault? && !Free(r.before.locks, p, r.env.wall) && r.env.timedOut {
      IdleLeads(cfg, id, i1, rs[1..], j);
    } else if AllAnswered(rs) && TakesFreeLock(rs, p) {
      LeadsFirst(cfg, id, i1, rs[1..], j);
      TakesIt(cfg, id, i1, p, rs[1].before, rs[1].env);
      var i2 := Advance(cfg, id, i1, rs[1].before, rs[1].env).0;
      LookLeads(cfg, id, i2, p, i2.pc.opening.value, rs[2..], j);
      assert rs[1..][1..] == rs[2..];
    }
  }

  lemma FirstLook(cfg: Config, id: InstanceId, i: Instance, p: Path, b: Bucket, env: Env)
    requires i.pc == AcquireGet(p)
    ensures var (i1, b1) := Advance(cfg, id, i, b, env);
            && i1 == i.(pc := i1.pc)
            && (env.fault.NoFault? && Free(b.locks, p, env.wall) ==> i1.pc.AcquirePut? && i1.pc.path == p && i1.pc.seen == Seen(b.locks, p))
            && (env.fault.NoFault? && !Free(b.locks, p, env.wall) && env.timedOut ==> i1.pc == Idle(Busy))
  {
    hide Parse, Encode, Wrap64;
  }

  lemma TakesIt(cfg: Config, id: InstanceId, i: Instance, p: Path, b: Bucket, env: Env)
    requires i.pc.AcquirePut? && i.pc.path == p && i.pc.seen == Seen(b.locks, p) && env.fault.NoFault? && Upload(p) !in i.queue
    ensures var i1 := Advance(cfg, id, i, b, env).0;
            i1.pc.HeadFile? && i1.pc.path == p && i1.pc.opening.Some? && i1 == i.(pc := i1.pc)
  {
    hide Parse, Encode, Wrap64;
  }

  // --------------------------------------------------------------- poll ---

  /** The local copy of `p` is the object, and the cache says so. */
  predicate Current(i: Instance, files: map<Path, Body>, p: Path)
    requires p in files
  {
    p in i.local && i.local[p] == files[p] && p in i.cache && i.cache[p] == ETag(files[p])
  }

  predicate Unmoved(i: Instance, j: Instance, p: Path) {
    && (p in j.local <==> p in i.local) && (p in i.local ==> j.local[p] == i.local[p])
    && (p in j.cache <==> p in i.cache) && (p in i.cache ==> j.cache[p] == i.cache[p])
  }

  /** A poll that has still `todo` to look at. */
  ghost predicate PolledSoFar(i: Instance, j: Instance, files: map<Path, Body>, todo: seq<Path>) {
    && j.leases == i.leases && j.queue == i.queue
    && (forall p :: Unmoved(i, j, p) || (p in files && !Untouchable(i, p) && Current(j, files, p)))
    && (forall p :: p in files && !Untouchable(i, p) && p !in todo ==> Current(j, files, p))
  }

  /** What a poll leaves of each path: nothing changed if it is leased or pending, the
      object if there is one, and no copy of an object that has gone. */
  ghost predicate Polled(i: Instance, j: Instance, files: map<Path, Body>) {
    && j.leases == i.leases && j.queue == i.queue
    && forall p ::
         if Untouchable(i, p) then Unmoved(i, j, p)
         else if p in files then Current(j, files, p)
         else if p in i.cache && p in i.local then p !in j.local && p !in j.cache
         else Unmoved(i, j, p)
  }

  function Listing(files: map<Path, Body>): map<Path, ETag> { map p | p in files :: ETag(files[p]) }

  ghost predicate CachesFit(i: Instance) {
    forall p :: !Untouchable(i, p) ==> CacheFits(i, p)
  }

  lemma {:induction false} PollNextPolls(i: Instance, j: Instance, files: map<Path, Body>, tail: seq<Path>)
    requires CachesFit(i) && PolledSoFar(i, j, files, tail)
    ensures var k := PollNext(j, tail, Listing(files));
            if k.pc.PollGet? then
              && k.pc.listing == Listing(files) && k.pc.path in files && !Untouchable(i, k.pc.path) && |k.pc.tail| < |tail|
              && PolledSoFar(i, k, files, [k.pc.path] + k.pc.tail)
            else k.pc == Idle(Done) && Polled(i, k, files)
    decreases |tail|
  {
    if tail == [] {
      SweepPolls(i, j, files);
    } else {
      var p, rest := tail[0], tail[1..];
      assert [p] + rest == tail;
      assert forall q :: Untouchable(j, q) == Untouchable(i, q);
      var listing := Listing(files);
      if p !in files || (p in j.cache && j.cache[p] == listing[p]) || Untouchable(j, p) {
        SkipPolls(i, j, files, p, rest);
        hide PolledSoFar, Untouchable, Listing, Polled;
        PollNextPolls(i, j, files, rest);
      } else {
        var k := j.(pc := PollGet(p, rest, listing));
        hide PollNext, Untouchable;
        assert forall q :: Unmoved(i, k, q) == Unmoved(i, j, q);
        assert forall q :: q in files ==> Current(k, files, q) == Current(j, files, q);
      }
    }
  }

  /** A skipped path is leased, pending, not listed or already current. */
  lemma SkipPolls(i: Instance, j: Instance, files: map<Path, Body>, p: Path, rest: seq<Path>)
    requires CachesFit(i) && PolledSoFar(i, j, files, [p] + rest)
    requires p !in files || (p in j.cache && j.cache[p] == ETag(files[p])) || Untouchable(i, p)
    ensures PolledSoFar(i, j, files, rest)
  {
    hide Untouchable;
    assert Unmoved(i, j, p) || (p in files && !Untouchable(i, p) && Current(j, files, p));
    assert Untouchable(i, p) || CacheFits(i, p);
  }

  lemma SweepPolls(i: Instance, j: Instance, files: map<Path, Body>)
    requires PolledSoFar(i, j, files, [])
    ensures Polled(i, Return(PollSweep(j, Listing(files).Keys), Done), files)
  {
    assert forall q :: Untouchable(j, q) == Untouchable(i, q);
    hide Untouchable;
    assert Listing(files).Keys == files.Keys;
  }

  lemma DownloadPolls(i: Instance, j: Instance, files: map<Path, Body>, p: Path, rest: seq<Path>)
    requires PolledSoFar(i, j, files, [p] + rest) && p in files && !Untouchable(i, p)
    ensures PolledSoFar(i, Download(j, p, files[p]), files, rest)
  {
    hide Untouchable;
    var k := Download(j, p, files[p]);
    assert forall q :: q != p ==> Unmoved(i, k, q) == Unmoved(i, j, q);
    assert forall q :: q in files && q != p ==> Current(k, files, q) == Current(j, files, q);
    assert Current(k, files, p);
    hide Download, Unmoved, Current;
  }

  /** The requests of a poll that all meet the same files. */
  predicate AllMeet(rs: seq<Request>, files: map<Path, Body>) {
    forall n :: 0 <= n < |rs| ==> rs[n].before.files == files && rs[n].env.fault.NoFault?
  }

  lemma {:induction false} GetLeads(cfg: Config, id: InstanceId, i: Instance, k: Instance, files: map<Path, Body>, rs: seq<Request>, j: Instance)
    requires CachesFit(i) && k.pc.PollGet? && k.pc.listing == Listing(files) && k.pc.path in files && !Untouchable(i, k.pc.path)
    requires PolledSoFar(i, k, files, [k.pc.path] + k.pc.tail)
    requires AllMeet(rs, files) && Leads(cfg, id, k, rs, j)
    ensures |rs| <= 1 + |k.pc.tail| && (j.pc.Idle? ==> j.pc.ret == Done && Polled(i, j, files))
    decreases |rs|
  {
    hide PolledSoFar, Polled, CachesFit, Untouchable, Listing, PollNext;
    if rs != [] {
      var p, rest := k.pc.path, k.pc.tail;
      var k1 := Advance(cfg, id, k, rs[0].before, rs[0].env).0;
      assert k1 == PollNext(Download(k, p, files[p]), rest, Listing(files));
      hide Advance;
      DownloadPolls(i, k, files, p, rest);
      PollNextPolls(i, Download(k, p, files[p]), files, rest);
      if k1.pc.PollGet? {
        GetLeads(cfg, id, i, k1, files, rs[1..], j);
      } else {
        IdleLeads(cfg, id, k1, rs[1..], j);
      }
    } else {
      assert j == k;
    }
  }

  lemma {:induction false} PollLeads(cfg: Config, id: InstanceId, i: Instance, files: map<Path, Body>, rs: seq<Request>, j: Instance)
    requires i.pc == PollList && CachesFit(i) && AllMeet(rs, files) && Leads(cfg, id, i, rs, j)
    ensures j.pc.Idle? ==> j.pc.ret == Done && Polled(i, j, files)
    ensures rs != [] && (set p | p in rs[0].env.order) == files.Keys ==> |rs| <= 1 + |rs[0].env.order|
    decreases |rs|
  {
    hide PolledSoFar, Polled, CachesFit, Untouchable, PollNext;
    if rs != [] {
      var order := rs[0].env.order;
      var i1 := Advance(cfg, id, i, rs[0].before, rs[0].env).0;
      if (set p | p in order) == files.Keys {
        assert i1 == PollNext(i, order, Listing(files));
        hide Advance, Listing;
        StartsPolled(i, files, order);
        PollNextPolls(i, i, files, order);
        if i1.pc.PollGet? {
          GetLeads(cfg, id, i, i1, files, rs[1..], j);
        } else {
          IdleLeads(cfg, id, i1, rs[1..], j);
        }
      } else {
        assert i1 == i;
        hide Advance;
        PollLeads(cfg, id, i, files, rs[1..], j);
      }
    } else {
      assert j == i;
    }
  }

  lemma StartsPolled(i: Instance, files: map<Path, Body>, order: seq<Path>)
    requires (set p | p in order) == files.Keys
    ensures PolledSoFar(i, i, files, order)
  {
    forall p | p in files ensures p in order {
      assert p in (set q | q in order);
    }
    hide Untouchable;
  }

  /** A poll by an idle instance, while the files in the bucket stay as they are and
      every request is answered: when it is over each path is as it should be. It
      makes one request for the listing and at most one for each listed path. */
  lemma PollMatches(cfg: Config, s: System, id: InstanceId, env: Env, tail: seq<Event>, files: map<Path, Body>)
    requires id in s.instances && GoesOn(tail, id) && s.instances[id].pc.Idle? && CachesFit(s.instances[id])
    ensures var evs := [Event(id, Start(Poll), env)];
            var rs, t := Requests(cfg, Run(cfg, s, evs), tail, id), Run(cfg, s, evs + tail);
            && id in t.instances
            && (AllMeet(rs, files) ==>
                  && (t.instances[id].pc.Idle? ==> t.instances[id].pc.ret == Done && Polled(s.instances[id], t.instances[id], files))
                  && (rs != [] && (set p | p in rs[0].env.order) == files.Keys ==> |rs| <= 1 + |rs[0].env.order|))
  {
    var evs := [Event(id, Start(Poll), env)];
    StartOne(cfg, s, id, Poll, env);
    RunTwice(cfg, s, evs, tail);
    var t0, i := Run(cfg, s, evs), s.instances[id];
    RunLeads(cfg, t0, tail, id);
    var rs, j := Requests(cfg, t0, tail, id), Run(cfg, t0, tail).instances[id];
    var i1 := i.(pc := PollList);
    assert t0.instances[id] == i1;
    SameCachesFit(i, i1);
    hide Run, Requests, Leads, Begin, CachesFit;
    if AllMeet(rs, files) {
      PollLeads(cfg, id, i1, files, rs, j);
      if j.pc.Idle? { SamePolled(i, i1, j, files); }
      hide Polled, AllMeet;
    }
  }

  lemma SamePolled(i: Instance, k: Instance, j: Instance, files: map<Path, Body>)
    requires k == i.(pc := k.pc) && Polled(k, j, files)
    ensures Polled(i, j, files)
  {
    assert forall q :: Untouchable(k, q) == Untouchable(i, q);
    hide Untouchable;
  }

  lemma SameCachesFit(i: Instance, k: Instance)
    requires k == i.(pc := k.pc) && CachesFit(i)
    ensures CachesFit(k)
  {
    assert forall q :: Untouchable(k, q) == Untouchable(i, q);
    hide Untouchable;
  }

  lemma {:induction false} NothingToFetch(i: Instance, files: map<Path, Body>, tail: seq<Path>)
    requires forall p :: p in files && !Untouchable(i, p) ==> Current(i, files, p)
    ensures PollNext(i, tail, Listing(files)) == Return(PollSweep(i, files.Keys), Done)
    decreases |tail|
  {
    assert Listing(files).Keys == files.Keys;
    hide Untouchable;
    if tail != [] { NothingToFetch(i, files, tail[1..]); }
  }

  lemma NothingToDrop(i: Instance, j: Instance, files: map<Path, Body>)
    requires Polled(i, j, files)
    ensures PollSweep(j, files.Keys) == j
    ensures forall p :: p in files && !Untouchable(j, p) ==> Current(j, files, p)
  {
    assert forall q :: Untouchable(j, q) == Untouchable(i, q);
    hide Untouchable;
    assert (set p | p in j.cache && p in j.local && p !in files.Keys && !Untouchable(j, p)) == {};
    assert j.local - {} == j.local && j.cache - {} == j.cache;
  }

  lemma {:induction false} IdlePollLeads(cfg: Config, id: InstanceId, i: Instance, files: map<Path, Body>, rs: seq<Request>, j: Instance)
    requires i.pc == PollList && PollSweep(i, files.Keys) == i
    requires forall p :: p in files && !Untouchable(i, p) ==> Current(i, files, p)
    requires AllMeet(rs, files) && Leads(cfg, id, i, rs, j)
    ensures j == i.(pc := if j.pc.Idle? then Idle(Done) else PollList)
    decreases |rs|
  {
    hide Untouchable, PollNext;
    if rs != [] {
      var order := rs[0].env.order;
      var i1 := Advance(cfg, id, i, rs[0].before, rs[0].env).0;
      NothingToFetch(i, files, order);
      if (set p | p in order) == files.Keys {
        assert i1 == PollNext(i, order, Listing(files));
        IdleLeads(cfg, id, i1, rs[1..], j);
      } else {
        assert i1 == i;
        IdlePollLeads(cfg, id, i, files, rs[1..], j);
      }
    }
  }

  /** A poll after a poll, with the bucket still the same, fetches and drops nothing. */
  lemma SecondPollIsIdle(cfg: Config, s: System, id: InstanceId, env: Env, tail: seq<Event>, files: map<Path, Body>, i: Instance)
    requires id in s.instances && GoesOn(tail, id) && s.instances[id].pc == Idle(Done) && Polled(i, s.instances[id], files)
    ensures var evs := [Event(id, Start(Poll), env)];
            var rs, t := Requests(cfg, Run(cfg, s, evs), tail, id), Run(cfg, s, evs + tail);
            && id in t.instances
            && (AllMeet(rs, files) && t.instances[id].pc.Idle? ==> t.instances[id] == s.instances[id])
  {
    var evs := [Event(id, Start(Poll), env)];
    StartOne(cfg, s, id, Poll, env);
    RunTwice(cfg, s, evs, tail);
    var t0, k := Run(cfg, s, evs), s.instances[id];
    RunLeads(cfg, t0, tail, id);
    var rs, j := Requests(cfg, t0, tail, id), Run(cfg, t0, tail).instances[id];
    assert t0.instances[id] == k.(pc := PollList);
    hide Run, Requests, Leads, Begin;
    NothingToDrop(i, k, files);
    SameCurrent(k, k.(pc := PollList), files);
    hide Polled;
    if AllMeet(rs, files) {
      IdlePollLeads(cfg, id, k.(pc := PollList), files, rs, j);
    }
  }

  lemma SameCurrent(i: Instance, k: Instance, files: map<Path, Body>)
    requires k == i.(pc := k.pc) && PollSweep(i, files.Keys) == i
    requires forall p :: p in files && !Untouchable(i, p) ==> Current(i, files, p)
    ensures PollSweep(k, files.Keys) == k
    ensures forall p :: p in files && !Untouchable(k, p) ==> Current(k, files, p)
  {
    assert forall q :: Untouchable(k, q) == Untouchable(i, q);
    hide Untouchable;
    assert forall p :: p in files ==> Current(k, files, p) == Current(i, files, p);
  }
}
