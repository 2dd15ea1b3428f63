/** What a push answers and what it leaves in the bucket: a delete or a write, made
    under a lease or queued, whatever the other instances do in between. */
module Pushes {
  import opened LockRecords
  import opened ObjectStores
  import opened SyncProtocol
  import opened RequestRuns
  import opened SoloRuns

  /** The calls that push the pending change of a leased path, the only one left. */
  predicate PushesLease(call: Call, p: Path) {
    call == Close(p) || call == Fsync(p) || call == ReleaseAll([p])
  }

  // ------------------------------------------------------------ deletes ---

  /** A conditional delete answers Done exactly if its request was answered and `p`
      was absent once it took effect. It removes the version it names, and a changed
      object makes it a conflict, with the object as the local copy. */
  predicate DeleteAnswered(p: Path, base: ETag, rs: seq<Request>, j: Instance) {
    && rs != [] && j.pc.Idle?
    && var first := rs[0];
    && (j.pc.ret == Done <==> first.env.fault.NoFault? && p !in first.after.files)
    && (first.env.fault.NoFault? && (p in first.before.files ==> ETag(first.before.files[p]) == base) ==> p !in first.after.files)
    && (first.env.fault.NoFault? && p in first.before.files && ETag(first.before.files[p]) != base ==>
          && first.after == first.before && |rs| > 1
          && (rs[1].env.fault.NoFault? ==>
                && j.pc.ret == Conflict(p in rs[1].before.files)
                && (p in rs[1].before.files ==> p in j.local && j.local[p] == rs[1].before.files[p])))
  }

  lemma DeleteOnce(cfg: Config, id: InstanceId, i: Instance, p: Path, base: ETag, k: Cont, b: Bucket, env: Env)
    requires i.pc == DeleteFile(p, base, k)
    ensures var (i1, b1) := Advance(cfg, id, i, b, env);
            if env.fault.NoFault? then
              if p in b.files && ETag(b.files[p]) != base then i1 == i.(pc := Refresh(p, k)) && b1 == b
              else i1 == Finish(i.(cache := i.cache - {p}), p, k, Done) && p !in b1.files
            else i1 == i.(pc := Refresh(p, k)) || i1 == Finish(i, p, k, Failed)
  {
    hide Finish;
  }

  lemma DeleteEnds(cfg: Config, id: InstanceId, i: Instance, p: Path, base: ETag, k: Cont, rs: seq<Request>, j: Instance)
    requires i.pc == DeleteFile(p, base, k) && LastPush(i, k) && !k.ForQueue?
    requires Leads(cfg, id, i, rs, j) && j.pc.Idle?
    ensures DeleteAnswered(p, base, rs, j)
    ensures j.leases.Keys == i.leases.Keys - if k.ForClose? then {p} else {}
  {
    hide Finish, Advance, Leads, Refreshed;
    LeadsFirst(cfg, id, i, rs, j);
    DeleteOnce(cfg, id, i, p, base, k, rs[0].before, rs[0].env);
    var i1 := Advance(cfg, id, i, rs[0].before, rs[0].env).0;
    if rs[0].env.fault.NoFault? && !(p in rs[0].before.files && ETag(rs[0].before.files[p]) != base) {
      FinishEnds(cfg, id, i.(cache := i.cache - {p}), p, k, Done, rs[1..], j);
    } else if i1 == i.(pc := Refresh(p, k)) {
      RefreshEnds(cfg, id, i1, p, k, rs[1..], j);
    } else {
      FinishEnds(cfg, id, i, p, k, Failed, rs[1..], j);
    }
  }

  /** A run in which `id` makes one call, waits, makes another and goes on with it. */
  function TwoCalls(id: InstanceId, one: Call, env: Env, waiting: seq<Event>, two: Call, later: Env): seq<Event> {
    [Event(id, Start(one), env)] + waiting + [Event(id, Start(two), later)]
  }

  lemma SecondStarts(cfg: Config, s: System, id: InstanceId, one: Call, env: Env, waiting: seq<Event>, two: Call, later: Env)
    requires id in s.instances && s.instances[id].pc.Idle? && Others(waiting, id)
    requires Begin(cfg, id, s.instances[id], one, env).pc.Idle?
    ensures var t := Run(cfg, s, TwoCalls(id, one, env, waiting, two, later));
            id in t.instances && t.instances[id] == Begin(cfg, id, Begin(cfg, id, s.instances[id], one, env), two, later)
  {
    var t1 := Run(cfg, s, [Event(id, Start(one), env)]);
    StartOne(cfg, s, id, one, env);
    OthersKeep(cfg, t1, waiting, id);
    RunTwice(cfg, s, [Event(id, Start(one), env)], waiting);
    var t2 := Run(cfg, s, [Event(id, Start(one), env)] + waiting);
    StartOne(cfg, t2, id, two, later);
    RunTwice(cfg, s, [Event(id, Start(one), env)] + waiting, [Event(id, Start(two), later)]);
    hide Run, Begin;
  }

  /** Such a call comes to an end after a few requests. */
  lemma LeasedPushEnds(cfg: Config, id: InstanceId, i: Instance, p: Path, call: Call, env: Env)
    requires i.pc.Idle? && p in i.leases && i.leases[p].refs <= 1 && PushesLease(call, p)
    ensures Ending(Begin(cfg, id, i, call, env))
  {
    assert [p][1..] == [];
  }

  /** An idle instance holds `p` with one reference and unlinks it. The others do what
      they like; then it closes or fsyncs `p`, and the others interleave again. When
      the call is over: with no base there was nothing to delete and it is Done;
      otherwise its first request was the delete of `p` on condition of the base. */
  lemma LeasedDeleteReachesStore(cfg: Config, s: System, id: InstanceId, p: Path, env: Env, waiting: seq<Event>, call: Call, later: Env, tail: seq<Event>)
    requires id in s.instances && Others(waiting, id) && GoesOn(tail, id) && PushesLease(call, p)
    requires var i := s.instances[id]; i.pc.Idle? && p in i.local && p in i.leases && i.leases[p].refs <= 1
    ensures var evs := TwoCalls(id, Unlink(p), env, waiting, call, later);
            var rs, t := Requests(cfg, Run(cfg, s, evs), tail, id), Run(cfg, s, evs + tail);
            && id in t.instances && |rs| <= 6
            && var j, base := t.instances[id], s.instances[id].leases[p].base;
            j.pc.Idle? ==>
              && (if base.None? then j.pc.ret == Done else DeleteAnswered(p, base.value, rs, j))
              && (p in j.leases <==> call == Fsync(p))
  {
    var i := s.instances[id];
    var evs := TwoCalls(id, Unlink(p), env, waiting, call, later);
    var t0, l := Run(cfg, s, evs), i.leases[p].(dirty := false, pendingDelete := true);
    var i0 := i.(local := i.local - {p}, leases := i.leases[p := l], pc := Idle(Done));
    assert Begin(cfg, id, i, Unlink(p), env) == i0;
    SecondStarts(cfg, s, id, Unlink(p), env, waiting, call, later);
    RunTwice(cfg, s, evs, tail);
    RunLeads(cfg, t0, tail, id);
    var rs, j := Requests(cfg, t0, tail, id), Run(cfg, t0, tail).instances[id];
    hide Run, Requests, TwoCalls, Leads, DeleteAnswered;
    LeasedPushEnds(cfg, id, i0, p, call, later);
    hide Begin;
    LeadsRank(cfg, id, Begin(cfg, id, i0, call, later), rs, j);
    if j.pc.Idle? {
      PushedDelete(cfg, id, i0, p, call, later, rs, j);
    }
  }

  /** The call that pushes the delete, and its requests. */
  lemma PushedDelete(cfg: Config, id: InstanceId, i: Instance, p: Path, call: Call, env: Env, rs: seq<Request>, j: Instance)
    requires i.pc.Idle? && p in i.leases && i.leases[p].refs <= 1 && i.leases[p].pendingDelete && PushesLease(call, p)
    requires Leads(cfg, id, Begin(cfg, id, i, call, env), rs, j) && j.pc.Idle?
    ensures if i.leases[p].base.None? then j.pc.ret == Done else DeleteAnswered(p, i.leases[p].base.value, rs, j)
    ensures p in j.leases <==> call == Fsync(p)
  {
    hide Leads, DeleteAnswered;
    var l := if call == Fsync(p) then i.leases[p] else i.leases[p].(releasing := true);
    var i0 := i.(leases := i.leases[p := l]);
    var k := if call == Fsync(p) then ForSync else ForClose(l.tag, [], Done);
    assert i.leases[p := i.leases[p]] == i.leases;
    var i1 := Begin(cfg, id, i, call, env);
    assert [p][1..] == [];
    assert i1 == FlushLease(i0, p, l, k) by { hide FlushLease; }
    if l.base.None? {
      FinishEnds(cfg, id, i0.(cache := i0.cache - {p}), p, k, Done, rs, j);
    } else {
      DeleteEnds(cfg, id, i1, p, l.base.value, k, rs, j);
    }
  }

  // ------------------------------------------------------------- writes ---

  predicate Absent(r: Request, p: Path) { p !in r.before.files }

  /** Which request of a push stores the body, if one does: the first, if it finds what
      its condition asks for; else a create, after a base version that has gone or
      after an object that was there for the first request only. */
  function StoredBy(rs: seq<Request>, p: Path, cond: Precondition): Option<nat> {
    match cond
    case IfMatch(tag) =>
      if |rs| > 0 && !Absent(rs[0], p) && ETag(rs[0].before.files[p]) == tag then Some(0)
      else if |rs| > 1 && Absent(rs[0], p) && Absent(rs[1], p) then Some(1)
      else None
    case _ =>
      if |rs| > 0 && Absent(rs[0], p) then Some(0)
      else if |rs| > 2 && Absent(rs[1], p) && Absent(rs[2], p) then Some(2)
      else None
  }

  /** Which request fetches the object that was in the way otherwise. */
  function FetchedBy(rs: seq<Request>, p: Path, cond: Precondition): nat {
    match cond
    case IfMatch(_) => if |rs| > 0 && Absent(rs[0], p) then 2 else 1
    case _ => if |rs| > 1 && Absent(rs[1], p) then 3 else 2
  }

  /** The body is in the store, and the instance knows it. */
  predicate Stored(local: map<Path, Body>, p: Path, body: Body, j: Instance) {
    && j.pc == Idle(Done) && j.local == local && p in j.cache && j.cache[p] == ETag(body)
    && (p in j.leases ==> j.leases[p].base == Some(ETag(body)) && !j.leases[p].dirty)
  }

  /** The object in the way, if there is one, has become the local copy. A flush does
      not report it. */
  predicate Restored(local: map<Path, Body>, p: Path, files: map<Path, Body>, flush: bool, j: Instance) {
    && j.pc == Idle(if flush then Done else Conflict(p in files))
    && j.local == if p in files then local[p := files[p]] else local
  }

  /** What a push of `body` at `p` answers over a store that answers every request:
      Done if one of its requests stored the body over the version it was based on,
      or over nothing; else a conflict, with the object in the way as the local
      copy and nothing changed in the store. */
  predicate WriteAnswered(local: map<Path, Body>, p: Path, body: Body, cond: Precondition, rs: seq<Request>, j: Instance, flush: bool) {
    var n := StoredBy(rs, p, cond);
    if n.Some? then rs[n.value].after.files == rs[n.value].before.files[p := body] && Stored(local, p, body, j)
    else
      var m := FetchedBy(rs, p, cond);
      && m < |rs| && (forall n :: 0 <= n <= m ==> rs[n].after.files == rs[n].before.files)
      && Restored(local, p, rs[m].before.files, flush, j)
  }

  lemma StoredEnds(cfg: Config, id: InstanceId, i: Instance, p: Path, body: Body, k: Cont, rs: seq<Request>, j: Instance)
    requires LastPush(i, k) && Leads(cfg, id, Finish(Recorded(i, p, body), p, k, Done), rs, j) && j.pc.Idle?
    ensures Stored(i.local, p, body, j) && j.leases.Keys == i.leases.Keys - if k.ForClose? then {p} else {}
  {
    hide Finish, Leads, Recorded;
    RecordedShape(i, p, body);
    FinishEnds(cfg, id, Recorded(i, p, body), p, k, Done, rs, j);
  }

  lemma RestoredEnds(cfg: Config, id: InstanceId, i: Instance, p: Path, k: Cont, rs: seq<Request>, j: Instance)
    requires i.pc == Refresh(p, k) && LastPush(i, k) && AllAnswered(rs) && Leads(cfg, id, i, rs, j) && j.pc.Idle?
    ensures rs != [] && rs[0].after == rs[0].before && Restored(i.local, p, rs[0].before.files, k.ForQueue?, j)
    ensures j.leases.Keys == i.leases.Keys - if k.ForClose? then {p} else {}
  {
    hide Leads, Refreshed;
    RefreshEnds(cfg, id, i, p, k, rs, j);
  }

  /** A push that only creates. */
  lemma CreateEnds(cfg: Config, id: InstanceId, i: Instance, p: Path, body: Body, k: Cont, rs: seq<Request>, j: Instance)
    requires i.pc == UploadCreate(p, body, k) && LastPush(i, k) && AllAnswered(rs)
    requires Leads(cfg, id, i, rs, j) && j.pc.Idle?
    ensures rs != [] && j.leases.Keys == i.leases.Keys - (if k.ForClose? then {p} else {})
    ensures if Absent(rs[0], p) then rs[0].after.files == rs[0].before.files[p := body] && Stored(i.local, p, body, j)
            else
              && |rs| > 1 && rs[0].after == rs[0].before && rs[1].after == rs[1].before
              && Restored(i.local, p, rs[1].before.files, k.ForQueue?, j)
  {
    hide Finish, Advance, Leads, Recorded, Stored, Restored;
    LeadsFirst(cfg, id, i, rs, j);
    UploadOnce(cfg, id, i, p, body, k, rs[0].before, rs[0].env);
    var i1 := Advance(cfg, id, i, rs[0].before, rs[0].env).0;
    if Absent(rs[0], p) {
      StoredEnds(cfg, id, i, p, body, k, rs[1..], j);
    } else {
      RestoredEnds(cfg, id, i1, p, k, rs[1..], j);
    }
  }

  /** A push on condition of a version. */
  lemma ReplaceEnds(cfg: Config, id: InstanceId, i: Instance, p: Path, body: Body, tag: ETag, k: Cont, rs: seq<Request>, j: Instance)
    requires i.pc == UploadPut(p, body, IfMatch(tag), k) && LastPush(i, k) && AllAnswered(rs)
    requires Leads(cfg, id, i, rs, j) && j.pc.Idle?
    ensures WriteAnswered(i.local, p, body, IfMatch(tag), rs, j, k.ForQueue?)
    ensures j.leases.Keys == i.leases.Keys - if k.ForClose? then {p} else {}
  {
    hide Finish, Advance, Leads, Recorded, Stored, Restored;
    LeadsFirst(cfg, id, i, rs, j);
    UploadOnce(cfg, id, i, p, body, k, rs[0].before, rs[0].env);
    var i1, rest := Advance(cfg, id, i, rs[0].before, rs[0].env).0, rs[1..];
    if Absent(rs[0], p) {
      CreateEnds(cfg, id, i1, p, body, k, rest, j);
    } else if ETag(rs[0].before.files[p]) == tag {
      StoredEnds(cfg, id, i, p, body, k, rest, j);
    } else {
      RestoredEnds(cfg, id, i1, p, k, rest, j);
    }
  }

  /** After a create that found an object: the object is fetched, unless it has gone
      again, and then the create is tried once more. */
  lemma HeadEnds(cfg: Config, id: InstanceId, i: Instance, p: Path, body: Body, k: Cont, rs: seq<Request>, j: Instance)
    requires i.pc == UploadHead(p, body, k) && LastPush(i, k) && AllAnswered(rs)
    requires Leads(cfg, id, i, rs, j) && j.pc.Idle?
    ensures |rs| > 1 && rs[0].after == rs[0].before && j.leases.Keys == i.leases.Keys - (if k.ForClose? then {p} else {})
    ensures if Absent(rs[0], p) && Absent(rs[1], p) then rs[1].after.files == rs[1].before.files[p := body] && Stored(i.local, p, body, j)
            else
              var m := if Absent(rs[0], p) then 2 else 1;
              && m < |rs| && rs[1].after == rs[1].before && rs[m].after == rs[m].before
              && Restored(i.local, p, rs[m].before.files, k.ForQueue?, j)
  {
    hide Finish, Advance, Leads, Recorded, Stored, Restored;
    LeadsFirst(cfg, id, i, rs, j);
    HeadOnce(cfg, id, i, p, body, k, rs[0].before, rs[0].env);
    var i1 := Advance(cfg, id, i, rs[0].before, rs[0].env).0;
    if Absent(rs[0], p) {
      CreateEnds(cfg, id, i1, p, body, k, rs[1..], j);
    } else {
      RestoredEnds(cfg, id, i1, p, k, rs[1..], j);
    }
  }

  lemma UploadEnds(cfg: Config, id: InstanceId, i: Instance, p: Path, body: Body, cond: Precondition, k: Cont, rs: seq<Request>, j: Instance)
    requires i.pc == UploadPut(p, body, cond, k) && !cond.Unconditional? && LastPush(i, k) && AllAnswered(rs)
    requires Leads(cfg, id, i, rs, j) && j.pc.Idle?
    ensures WriteAnswered(i.local, p, body, cond, rs, j, k.ForQueue?)
    ensures j.leases.Keys == i.leases.Keys - if k.ForClose? then {p} else {}
  {
    hide Finish, Advance, Leads, Recorded, Stored, Restored;
    if cond.IfMatch? {
      ReplaceEnds(cfg, id, i, p, body, cond.tag, k, rs, j);
      hide WriteAnswered;
    } else {
      LeadsFirst(cfg, id, i, rs, j);
      UploadOnce(cfg, id, i, p, body, k, rs[0].before, rs[0].env);
      var i1, rest := Advance(cfg, id, i, rs[0].before, rs[0].env).0, rs[1..];
      if Absent(rs[0], p) {
        StoredEnds(cfg, id, i, p, body, k, rest, j);
      } else {
        HeadEnds(cfg, id, i1, p, body, k, rest, j);
      }
    }
  }

  // --------------------------------------------------------- the calls ---

  lemma {:induction false} WithoutAll(q: seq<SyncOp>, p: Path)
    requires forall n :: 0 <= n < |q| ==> q[n].path == p
    ensures Without(q, p) == []
  {
    if q != [] { WithoutAll(q[1..], p); }
  }

  /** The instance that pushes a leased write, and its requests. */
  lemma PushedWrite(cfg: Config, id: InstanceId, i: Instance, p: Path, call: Call, env: Env, rs: seq<Request>, j: Instance)
    requires i.pc.Idle? && p in i.local && p in i.leases && i.leases[p].refs <= 1 && PushesLease(call, p)
    requires i.leases[p].dirty && !i.leases[p].pendingDelete && AllAnswered(rs)
    requires Leads(cfg, id, Begin(cfg, id, i, call, env), rs, j) && j.pc.Idle?
    ensures WriteAnswered(i.local, p, i.local[p], BaseCond(i.leases[p].base), rs, j, false)
    ensures p in j.leases <==> call == Fsync(p)
  {
    hide Leads, WriteAnswered;
    var l := if call == Fsync(p) then i.leases[p] else i.leases[p].(releasing := true);
    var i0 := i.(leases := i.leases[p := l]);
    var k := if call == Fsync(p) then ForSync else ForClose(l.tag, [], Done);
    assert i.leases[p := i.leases[p]] == i.leases;
    var i1 := Begin(cfg, id, i, call, env);
    assert [p][1..] == [];
    assert i1 == FlushLease(i0, p, l, k) by { hide FlushLease; }
    UploadEnds(cfg, id, i1, p, i.local[p], BaseCond(l.base), k, rs, j);
  }

  /** An idle instance holds `p` with one reference and writes it. The others do what
      they like; then it closes or fsyncs `p`, and the others interleave again. */
  lemma LeasedWriteReachesStore(cfg: Config, s: System, id: InstanceId, p: Path, body: Body, env: Env, waiting: seq<Event>, call: Call, later: Env, tail: seq<Event>)
    requires id in s.instances && Others(waiting, id) && GoesOn(tail, id) && PushesLease(call, p)
    requires var i := s.instances[id]; i.pc.Idle? && p in i.leases && i.leases[p].refs <= 1
    ensures var evs := TwoCalls(id, Write(p, body), env, waiting, call, later);
            var rs, t := Requests(cfg, Run(cfg, s, evs), tail, id), Run(cfg, s, evs + tail);
            && id in t.instances && |rs| <= 6
            && var i, j := s.instances[id], t.instances[id];
            j.pc.Idle? && AllAnswered(rs) ==>
              && WriteAnswered(i.local[p := body], p, body, BaseCond(i.leases[p].base), rs, j, false)
              && (p in j.leases <==> call == Fsync(p))
  {
    var i := s.instances[id];
    var evs := TwoCalls(id, Write(p, body), env, waiting, call, later);
    var t0, l := Run(cfg, s, evs), i.leases[p].(dirty := true, pendingDelete := false);
    var i0 := i.(local := i.local[p := body], leases := i.leases[p := l], pc := Idle(Done));
    assert Begin(cfg, id, i, Write(p, body), env) == i0;
    SecondStarts(cfg, s, id, Write(p, body), env, waiting, call, later);
    RunTwice(cfg, s, evs, tail);
    RunLeads(cfg, t0, tail, id);
    var rs, j := Requests(cfg, t0, tail, id), Run(cfg, t0, tail).instances[id];
    LeasedPushEnds(cfg, id, i0, p, call, later);
    hide Run, Requests, TwoCalls, Leads, WriteAnswered, Begin;
    LeadsRank(cfg, id, Begin(cfg, id, i0, call, later), rs, j);
    if j.pc.Idle? && AllAnswered(rs) {
      PushedWrite(cfg, id, i0, p, call, later, rs, j);
    }
  }

  /** What an upload without a lease is conditioned on: the cached version, or that
      there is none. */
  function KnownCond(i: Instance, p: Path): Precondition {
    if p in i.cache then IfMatch(i.cache[p]) else IfNoneMatchAny
  }

  /** A realtime push, and an fsync without a lease, send the local copy at once. */
  lemma UnleasedPushReachesStore(cfg: Config, s: System, id: InstanceId, p: Path, call: Call, env: Env, tail: seq<Event>)
    requires id in s.instances && GoesOn(tail, id) && (call == SyncNow(p) || call == Fsync(p))
    requires var i := s.instances[id]; i.pc.Idle? && p in i.local && p !in i.leases
    ensures var evs := [Event(id, Start(call), env)];
            var rs, t := Requests(cfg, Run(cfg, s, evs), tail, id), Run(cfg, s, evs + tail);
            && id in t.instances && |rs| <= 6
            && var i, j := s.instances[id], t.instances[id];
            j.pc.Idle? && AllAnswered(rs) ==> WriteAnswered(i.local, p, i.local[p], KnownCond(i, p), rs, j, false)
  {
    var evs, i := [Event(id, Start(call), env)], s.instances[id];
    var t0 := Run(cfg, s, evs);
    StartOne(cfg, s, id, call, env);
    RunTwice(cfg, s, evs, tail);
    RunLeads(cfg, t0, tail, id);
    var rs, j := Requests(cfg, t0, tail, id), Run(cfg, t0, tail).instances[id];
    var i1 := Begin(cfg, id, i, call, env);
    assert i1 == i.(pc := UploadPut(p, i.local[p], KnownCond(i, p), ForSync));
    hide Run, Requests, Leads, WriteAnswered, Begin;
    LeadsRank(cfg, id, i1, rs, j);
    if j.pc.Idle? && AllAnswered(rs) {
      UploadEnds(cfg, id, i1, p, i.local[p], KnownCond(i, p), ForSync, rs, j);
    }
  }

  /** An idle instance without a lease on `p`, and with nothing of another path queued,
      writes it and later flushes. */
  lemma QueuedWriteReachesStore(cfg: Config, s: System, id: InstanceId, p: Path, body: Body, env: Env, waiting: seq<Event>, batch: nat, later: Env, tail: seq<Event>)
    requires id in s.instances && Others(waiting, id) && GoesOn(tail, id) && 0 < batch
    requires var i := s.instances[id]; i.pc.Idle? && p !in i.leases && forall n :: 0 <= n < |i.queue| ==> i.queue[n].path == p
    ensures var evs := TwoCalls(id, Write(p, body), env, waiting, Flush(batch), later);
            var rs, t := Requests(cfg, Run(cfg, s, evs), tail, id), Run(cfg, s, evs + tail);
            && id in t.instances && |rs| <= 6
            && var i, j := s.instances[id], t.instances[id];
            j.pc.Idle? && AllAnswered(rs) ==> WriteAnswered(i.local[p := body], p, body, KnownCond(i, p), rs, j, true)
  {
    var i := s.instances[id];
    var evs := TwoCalls(id, Write(p, body), env, waiting, Flush(batch), later);
    var t0 := Run(cfg, s, evs);
    WithoutAll(i.queue, p);
    var i0 := i.(local := i.local[p := body], queue := [Upload(p)], pc := Idle(Done));
    assert Begin(cfg, id, i, Write(p, body), env) == i0;
    SecondStarts(cfg, s, id, Write(p, body), env, waiting, Flush(batch), later);
    RunTwice(cfg, s, evs, tail);
    RunLeads(cfg, t0, tail, id);
    var rs, j := Requests(cfg, t0, tail, id), Run(cfg, t0, tail).instances[id];
    assert [Upload(p)][1..] == [];
    var i1 := i0.(queue := [], pc := UploadPut(p, body, KnownCond(i, p), ForQueue(batch - 1)));
    assert Begin(cfg, id, i0, Flush(batch), later) == i1;
    hide Run, Requests, TwoCalls, Leads, WriteAnswered, Begin, Without;
    LeadsRank(cfg, id, i1, rs, j);
    if j.pc.Idle? && AllAnswered(rs) {
      UploadEnds(cfg, id, i1, p, body, KnownCond(i, p), ForQueue(batch - 1), rs, j);
    }
  }

  /** What the flush of a queued delete does: it removes the version it was queued for,
      or whatever is there if none was known, and restores any other version. */
  predicate QueuedDeleteAnswered(p: Path, known: Option<ETag>, rs: seq<Request>, j: Instance) {
    && rs != [] && j.pc == Idle(Done)
    && var first := rs[0];
    if p in first.before.files && known.Some? && known.value != ETag(first.before.files[p]) then
      && |rs| > 1 && first.after == first.before && rs[1].after == rs[1].before
      && (p in rs[1].before.files ==> p in j.local && j.local[p] == rs[1].before.files[p])
    else first.after.files == first.before.files - {p}
  }

  lemma QueueDeleteEnds(cfg: Config, id: InstanceId, i: Instance, p: Path, known: Option<ETag>, left: nat, rs: seq<Request>, j: Instance)
    requires i.pc == QueueDelete(p, known, left) && i.queue == [] && AllAnswered(rs)
    requires Leads(cfg, id, i, rs, j) && j.pc.Idle?
    ensures QueuedDeleteAnswered(p, known, rs, j)
  {
    hide Leads;
    LeadsFirst(cfg, id, i, rs, j);
    var files := rs[0].before.files;
    var i1 := Advance(cfg, id, i, rs[0].before, rs[0].env).0;
    if p in files && known.Some? && known.value != ETag(files[p]) {
      assert i1 == i.(pc := Refresh(p, ForQueue(left)));
      RestoredEnds(cfg, id, i1, p, ForQueue(left), rs[1..], j);
    } else {
      assert i1 == Finish(i, p, ForQueue(left), Done);
      FinishEnds(cfg, id, i, p, ForQueue(left), Done, rs[1..], j);
    }
    hide Advance;
  }

  lemma QueuesDelete(cfg: Config, id: InstanceId, i: Instance, p: Path, env: Env, batch: nat, later: Env)
    requires i.pc.Idle? && p in i.local && p !in i.leases && 0 < batch && forall n :: 0 <= n < |i.queue| ==> i.queue[n].path == p
    ensures var known := if p in i.cache then Some(i.cache[p]) else None;
            var i0 := i.(local := i.local - {p}, cache := i.cache - {p}, queue := [Delete(p, known)], pc := Idle(Done));
            && Begin(cfg, id, i, Unlink(p), env) == i0
            && Begin(cfg, id, i0, Flush(batch), later) == i0.(queue := [], pc := QueueDelete(p, known, batch - 1))
  {
    var known := if p in i.cache then Some(i.cache[p]) else None;
    WithoutAll(i.queue, p);
    assert [] + [Delete(p, known)] == [Delete(p, known)] && [Delete(p, known)][1..] == [];
  }

  /** An idle instance without a lease on `p`, and with nothing of another path queued,
      unlinks it and later flushes. */
  lemma QueuedDeleteReachesStore(cfg: Config, s: System, id: InstanceId, p: Path, env: Env, waiting: seq<Event>, batch: nat, later: Env, tail: seq<Event>)
    requires id in s.instances && Others(waiting, id) && GoesOn(tail, id) && 0 < batch
    requires var i := s.instances[id]; i.pc.Idle? && p in i.local && p !in i.leases && forall n :: 0 <= n < |i.queue| ==> i.queue[n].path == p
    ensures var evs := TwoCalls(id, Unlink(p), env, waiting, Flush(batch), later);
            var rs, t := Requests(cfg, Run(cfg, s, evs), tail, id), Run(cfg, s, evs + tail);
            && id in t.instances && |rs| <= 6
            && var i, j := s.instances[id], t.instances[id];
            j.pc.Idle? && AllAnswered(rs) ==>
              QueuedDeleteAnswered(p, if p in i.cache then Some(i.cache[p]) else None, rs, j)
  {
    var i := s.instances[id];
    var known := if p in i.cache then Some(i.cache[p]) else None;
    var evs := TwoCalls(id, Unlink(p), env, waiting, Flush(batch), later);
    var t0 := Run(cfg, s, evs);
    var i0 := i.(local := i.local - {p}, cache := i.cache - {p}, queue := [Delete(p, known)], pc := Idle(Done));
    var i1 := i0.(queue := [], pc := QueueDelete(p, known, batch - 1));
    QueuesDelete(cfg, id, i, p, env, batch, later);
    hide Begin, Without;
    SecondStarts(cfg, s, id, Unlink(p), env, waiting, Flush(batch), later);
    RunTwice(cfg, s, evs, tail);
    RunLeads(cfg, t0, tail, id);
    var rs, j := Requests(cfg, t0, tail, id), Run(cfg, t0, tail).instances[id];
    hide Run, Requests, TwoCalls, Leads, QueuedDeleteAnswered;
    LeadsRank(cfg, id, i1, rs, j);
    if j.pc.Idle? && AllAnswered(rs) {
      QueueDeleteEnds(cfg, id, i1, p, known, batch - 1, rs, j);
    }
  }
}
