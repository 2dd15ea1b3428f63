/** The delete half of no lost update.

    A delete that carries a condition removes only a version its instance has
    once synced. A queued delete of a path whose tag was unknown carries none,
    and removes whatever is there; no queued delete looks at leases. */
module QueuedDeletes {
  import opened LockRecords
  import opened ObjectStores
  import opened SyncProtocol
  import opened NoLostUpdate
  import opened SoloRuns

  /** A queued or pending delete of `p` on condition of `tag`. */
  predicate Carries(i: Instance, p: Path, tag: ETag) {
    Delete(p, Some(tag)) in i.queue || (i.pc.QueueDelete? && i.pc.path == p && i.pc.known == Some(tag))
  }

  /** `j` carries no delete that `i` did not. */
  ghost predicate NoNewDeletes(i: Instance, j: Instance) {
    forall p, tag :: Carries(j, p, tag) ==> Carries(i, p, tag)
  }

  // ------------------------------------------- control flow adds no deletes ---

  lemma {:induction false} FlushNextDeletes(i: Instance, left: nat)
    ensures NoNewDeletes(i.(pc := Idle(Done)), FlushNext(i, left))
    decreases left
  {
    if left != 0 && i.queue != [] { FlushNextDeletes(i.(queue := i.queue[1..]), left - 1); }
  }

  lemma FinishDeletes(i: Instance, p: Path, k: Cont, ret: Outcome)
    ensures NoNewDeletes(i.(pc := Idle(Done)), Finish(i, p, k, ret)) && NoNewDeletes(i.(pc := Idle(Done)), UploadFailed(i, p, k))
  {
    hide FlushNext;
    if k.ForQueue? { FlushNextDeletes(i, k.left); }
  }

  lemma UploadDoneDeletes(i: Instance, p: Path, body: Body, tag: ETag, k: Cont)
    ensures NoNewDeletes(i.(pc := Idle(Done)), UploadDone(i, p, body, tag, k))
  {
    hide Finish;
    FinishDeletes(Rebase(i.(cache := i.cache[p := tag], version := i.version[p := body]), p, Some(tag), true), p, k, Done);
  }

  lemma {:induction false} ReleaseNextDeletes(i: Instance, paths: seq<Path>, first: Outcome)
    ensures NoNewDeletes(i.(pc := Idle(Done)), ReleaseNext(i, paths, first))
    decreases |paths|
  {
    if paths != [] && paths[0] !in i.leases { ReleaseNextDeletes(i, paths[1..], first); }
  }

  lemma {:induction false} RenewNextDeletes(cfg: Config, id: InstanceId, i: Instance, paths: seq<Path>, env: Env)
    ensures NoNewDeletes(i.(pc := Idle(Done)), RenewNext(cfg, id, i, paths, env))
    decreases |paths|
  {
    if paths != [] { RenewNextDeletes(cfg, id, i, paths[1..], env); }
  }

  lemma {:induction false} PollNextDeletes(i: Instance, tail: seq<Path>, listing: map<Path, ETag>)
    ensures NoNewDeletes(i.(pc := Idle(Done)), PollNext(i, tail, listing))
    decreases |tail|
  {
    if tail != [] { PollNextDeletes(i, tail[1..], listing); }
  }

  lemma {:induction false} WithoutUploadKeeps(q: seq<SyncOp>, p: Path)
    ensures forall op :: op in WithoutUpload(q, p) ==> op in q
  {
    if q != [] { WithoutUploadKeeps(q[1..], p); }
  }

  lemma {:induction false} WithoutKeeps(q: seq<SyncOp>, p: Path)
    ensures forall op :: op in Without(q, p) ==> op in q
  {
    if q != [] { WithoutKeeps(q[1..], p); }
  }

  lemma AcquiredDeletes(i: Instance, p: Path, hold: Hold)
    ensures NoNewDeletes(i.(pc := Idle(Done)), Acquired(i, p, hold))
  {
    WithoutUploadKeeps(i.queue, p);
    hide WithoutUpload;
  }

  /** Only an unlink queues a delete, on condition of the tag in the cache. */
  lemma BeginDeletes(cfg: Config, id: InstanceId, i: Instance, call: Call, env: Env, p: Path, tag: ETag)
    requires i.pc.Idle? && Carries(Begin(cfg, id, i, call, env), p, tag) && !Carries(i, p, tag)
    ensures p in i.cache && i.cache[p] == tag
  {
    hide ReleaseNext, FlushNext, RenewNext, DuePaths, Without, Finish, UploadFailed;
    match call
    case Write(q, _) => WithoutKeeps(i.queue, q);
    case Unlink(q) => WithoutKeeps(i.queue, q);
    case Close(q) => ReleaseNextDeletes(i, [q], Done);
    case ReleaseAll(paths) => ReleaseNextDeletes(i, paths, Done);
    case Flush(batch) => FlushNextDeletes(i, batch);
    case Renew(paths) => RenewNextDeletes(cfg, id, i, DuePaths(cfg, i, paths, env.mono), env);
    case Fsync(q) => {
      FinishDeletes(i, q, ForSync, Done);
      FinishDeletes(i.(cache := i.cache - {q}), q, ForSync, Done);
    }
    case SyncNow(q) => FinishDeletes(i, q, ForSync, Done);
    case _ =>
  }

  lemma FileDeletes(i: Instance, b: Bucket, env: Env)
    ensures i.pc.HeadFile? || i.pc.GetFile? || i.pc.Refresh? ==> NoNewDeletes(i, FileStep(i, b, env).0)
    ensures i.pc.PollList? || i.pc.PollGet? ==> NoNewDeletes(i, PollStep(i, b, env).0)
  {
    hide Finish, PollNext, Rebase;
    match i.pc
    case Refresh(_, _) => RefreshDeletes(i, b, env);
    case PollList => PollNextDeletes(i, env.order, map p | p in b.files :: ETag(b.files[p]));
    case PollGet(p, tail, listing) =>
      PollNextDeletes(i, tail, listing);
      if p in b.files { PollNextDeletes(Download(i, p, b.files[p]), tail, listing); }
    case _ =>
  }

  lemma RefreshDeletes(i: Instance, b: Bucket, env: Env)
    requires i.pc.Refresh?
    ensures NoNewDeletes(i, FileStep(i, b, env).0)
  {
    hide Finish;
    var Refresh(p, k) := i.pc;
    FinishDeletes(i, p, k, Conflict(false));
    FinishDeletes(Rebase(i.(cache := i.cache - {p}), p, None, false), p, k, Conflict(false));
    if p in b.files { FinishDeletes(Rebase(Download(i, p, b.files[p]), p, Some(ETag(b.files[p])), true), p, k, Conflict(true)); }
  }

  lemma UploadDeletes(i: Instance, b: Bucket, env: Env)
    requires i.pc.UploadPut? || i.pc.UploadCreate? || i.pc.UploadHead? || i.pc.UploadVerify?
    ensures NoNewDeletes(i, UploadStep(i, b, env).0)
  {
    hide UploadDone, UploadFailed;
    var p, body, k := i.pc.path, i.pc.body, i.pc.k;
    FinishDeletes(i, p, k, Done);
    UploadDoneDeletes(i, p, body, ETag(body), k);
    if p in b.files { UploadDoneDeletes(i, p, body, ETag(b.files[p]), k); }
  }

  lemma DeleteDeletes(i: Instance, b: Bucket, env: Env)
    requires i.pc.DeleteFile? || i.pc.QueueDelete?
    ensures NoNewDeletes(i, DeleteStep(i, b, env).0)
  {
    hide Finish, FlushNext;
    match i.pc
    case DeleteFile(p, _, k) =>
      FinishDeletes(i.(cache := i.cache - {p}), p, k, Done);
      FinishDeletes(i, p, k, Failed);
    case QueueDelete(_, _, left) => FlushNextDeletes(i, left);
  }

  lemma LockDeletes(cfg: Config, id: InstanceId, i: Instance, b: Bucket, env: Env)
    requires i.pc.Unlock? || i.pc.RenewPut?
    ensures NoNewDeletes(i, LockStep(cfg, id, i, b, env).0)
  {
    hide ReleaseNext, RenewNext, Encode;
    match i.pc
    case Unlock(p, _, next) =>
      if next.AfterClose? {
        ReleaseNextDeletes(i.(leases := i.leases - {p}), next.rest, if next.first.Done? then next.ret else next.first);
      }
    case RenewPut(p, tag, record, expiresAt, rest) =>
      var reply := Put(b.locks, p, Encode(record), IfMatch(tag), env.fault).1;
      var j :=
        if p !in i.leases || reply.PutBroken? then i
        else if reply.Stored? then i.(leases := i.leases[p := i.leases[p].(tag := reply.tag, expiresAt := expiresAt)])
        else i.(leases := i.leases[p := i.leases[p].(lost := true)]);
      RenewNextDeletes(cfg, id, j, rest, env);
  }

  lemma AdvanceDeletes(cfg: Config, id: InstanceId, i: Instance, b: Bucket, env: Env)
    requires !i.pc.Idle?
    ensures NoNewDeletes(i, Advance(cfg, id, i, b, env).0)
  {
    hide FileStep, UploadStep, DeleteStep, LockStep, PollStep, Parse, Encode, Acquired;
    FileDeletes(i, b, env);
    match i.pc
    case AcquirePut(p, _, record, expiresAt, _) => AcquiredDeletes(i, p, Hold(ETag(Encode(record)), record.epoch, expiresAt));
    case AcquireVerify(p, record, expiresAt, _) =>
      if p in b.locks { AcquiredDeletes(i, p, Hold(ETag(b.locks[p]), record.epoch, expiresAt)); }
    case UploadPut(_, _, _, _) => UploadDeletes(i, b, env);
    case UploadCreate(_, _, _) => UploadDeletes(i, b, env);
    case UploadHead(_, _, _) => UploadDeletes(i, b, env);
    case UploadVerify(_, _, _, _) => UploadDeletes(i, b, env);
    case DeleteFile(_, _, _) => DeleteDeletes(i, b, env);
    case QueueDelete(_, _, _) => DeleteDeletes(i, b, env);
    case Unlock(_, _, _) => LockDeletes(cfg, id, i, b, env);
    case RenewPut(_, _, _, _, _) => LockDeletes(cfg, id, i, b, env);
    case _ =>
  }

  // ------------------------------------------------- what deletes remove ---

  /** At some point of the run the last version of `p` that `id` had downloaded
      or uploaded was the one tagged. */
  predicate SyncedOnce(cfg: Config, s: System, evs: seq<Event>, id: InstanceId, p: Path, tag: ETag) {
    exists k :: 0 <= k <= |evs| && id in Run(cfg, s, evs[..k]).instances && Based(Run(cfg, s, evs[..k]).instances[id].version, p, tag)
  }

  lemma SyncedLater(cfg: Config, s: System, evs: seq<Event>, ev: Event, id: InstanceId, p: Path, tag: ETag)
    requires SyncedOnce(cfg, s, evs, id, p, tag)
    ensures SyncedOnce(cfg, s, evs + [ev], id, p, tag)
  {
    hide Run, Based;
    var k :| 0 <= k <= |evs| && id in Run(cfg, s, evs[..k]).instances && Based(Run(cfg, s, evs[..k]).instances[id].version, p, tag);
    assert (evs + [ev])[..k] == evs[..k];
  }

  lemma SyncedNow(cfg: Config, s: System, evs: seq<Event>, id: InstanceId, p: Path, tag: ETag)
    requires id in Run(cfg, s, evs).instances && Based(Run(cfg, s, evs).instances[id].version, p, tag)
    ensures SyncedOnce(cfg, s, evs, id, p, tag)
  {
    hide Run, Based;
    assert evs[..|evs|] == evs;
  }

  /** Every conditional delete in a queue is on condition of a version once synced. */
  lemma {:induction false} CarriedWasSynced(cfg: Config, s: System, evs: seq<Event>, id: InstanceId, p: Path, tag: ETag)
    requires Initial(s) && AllFindOwn(cfg, s, evs)
    requires id in Run(cfg, s, evs).instances && Carries(Run(cfg, s, evs).instances[id], p, tag)
    ensures SyncedOnce(cfg, s, evs, id, p, tag)
  {
    hide Begin, Advance, SyncedOnce, EventFindsOwn;
    assert id in s.instances ==> Fresh(s.instances[id]);
    if evs != [] {
      var prefix, ev := evs[..|evs| - 1], evs[|evs| - 1];
      var t := Run(cfg, s, prefix);
      assert prefix + [ev] == evs;
      var i := t.instances[id];
      if Carries(i, p, tag) {
        CarriedWasSynced(cfg, s, prefix, id, p, tag);
      } else {
        if ev.action.Start? {
          BeginDeletes(cfg, id, i, ev.action.call, ev.env, p, tag);
        } else {
          AdvanceDeletes(cfg, id, i, t.bucket, ev.env);
        }
        CachedIsBased(cfg, s, prefix, id, p);
        SyncedNow(cfg, s, prefix, id, p, tag);
      }
      SyncedLater(cfg, s, prefix, ev, id, p, tag);
    }
  }

  lemma CachedIsBased(cfg: Config, s: System, evs: seq<Event>, id: InstanceId, p: Path)
    requires Initial(s) && AllFindOwn(cfg, s, evs) && id in Run(cfg, s, evs).instances && p in Run(cfg, s, evs).instances[id].cache
    ensures var i := Run(cfg, s, evs).instances[id]; Based(i.version, p, i.cache[p])
  {
    hide Run, AllFindOwn, Initial;
    RunGrounded(cfg, s, evs);
    assert evs[..|evs|] == evs;
    assert AllGrounded(Run(cfg, s, evs[..|evs|]));
  }

  /** The pending delete, and the condition it carries, if it carries one. */
  function DeleteTag(pc: Pc): Option<ETag>
    requires pc.DeleteFile? || pc.QueueDelete?
  {
    if pc.DeleteFile? then Some(pc.base) else pc.known
  }

  lemma OnlyDeletesRemove(cfg: Config, id: InstanceId, i: Instance, b: Bucket, env: Env, p: Path)
    requires !i.pc.Idle? && p in b.files && p !in Advance(cfg, id, i, b, env).1.files
    ensures (i.pc.DeleteFile? || i.pc.QueueDelete?) && i.pc.path == p
    ensures DeleteTag(i.pc).Some? ==> DeleteTag(i.pc).value == ETag(b.files[p])
  {
    hide UploadDone, UploadFailed, Finish, FlushNext, ReleaseNext, RenewNext, PollNext, HeadDone, HeadFailed, Acquired, AcquireRetry, Parse, Encode;
  }

  /** In any run in which no HEAD finds a foreign body, only a delete of its path
      makes a file disappear, and one that carries a condition takes away exactly
      a version that its instance once downloaded or uploaded. */
  lemma DeletesRemoveSeen(cfg: Config, s: System, evs: seq<Event>, ev: Event, p: Path)
    requires Initial(s) && AllFindOwn(cfg, s, evs)
    ensures
      var t, u := Run(cfg, s, evs), Run(cfg, s, evs + [ev]);
      p in t.bucket.files && p !in u.bucket.files ==>
        && ev.who in t.instances && ev.action.Proceed?
        && var pc := t.instances[ev.who].pc;
        && (pc.DeleteFile? || pc.QueueDelete?) && pc.path == p
        && (DeleteTag(pc).Some? ==> SyncedOnce(cfg, s, evs, ev.who, p, ETag(t.bucket.files[p])))
  {
    hide Advance, Begin, SyncedOnce, AllFindOwn, Initial;
    assert (evs + [ev])[..|evs|] == evs;
    var t, u := Run(cfg, s, evs), Run(cfg, s, evs + [ev]);
    if p in t.bucket.files && p !in u.bucket.files {
      var i := t.instances[ev.who];
      OnlyDeletesRemove(cfg, ev.who, i, t.bucket, ev.env, p);
      if i.pc.DeleteFile? {
        PendingDeleteIsBased(cfg, s, evs, ev.who);
        SyncedNow(cfg, s, evs, ev.who, p, i.pc.base);
      } else if i.pc.known.Some? {
        CarriedWasSynced(cfg, s, evs, ev.who, p, i.pc.known.value);
      }
    }
  }

  lemma PendingDeleteIsBased(cfg: Config, s: System, evs: seq<Event>, id: InstanceId)
    requires Initial(s) && AllFindOwn(cfg, s, evs) && id in Run(cfg, s, evs).instances && Run(cfg, s, evs).instances[id].pc.DeleteFile?
    ensures var i := Run(cfg, s, evs).instances[id]; Based(i.version, i.pc.path, i.pc.base)
  {
    hide Run, AllFindOwn, Initial;
    RunGrounded(cfg, s, evs);
    assert evs[..|evs|] == evs;
    assert AllGrounded(Run(cfg, s, evs[..|evs|]));
  }

  /** A pending queued delete is safe, whatever the bucket holds and whoever has the
      lock, exactly when it carries a condition. */
  lemma SafeIffConditional(i: Instance, env: Env)
    requires i.pc.QueueDelete? && env.fault.NoFault?
    ensures (forall b: Bucket :: i.pc.path in b.files && i.pc.path !in DeleteStep(i, b, env).1.files ==>
                                   i.pc.known == Some(ETag(b.files[i.pc.path])))
            <==> i.pc.known.Some?
  {
    hide FlushNext;
    var p := i.pc.path;
    if i.pc.known.None? {
      var b := Bucket(map[p := ""], map[]);
      assert p in b.files && p !in DeleteStep(i, b, env).1.files;
    }
  }

  // ---------------------------------------------------------- a witness ---

  /** Open a path whose object exists and is not cached. */
  function OpenExisting(p: Path, env: Env): seq<Act> {
    Locking(p, env) + [Act(Proceed, env)] + [Act(Proceed, env)]
  }

  lemma OpensExisting(cfg: Config, id: InstanceId, i: Instance, b: Bucket, p: Path, env: Env)
    requires i.pc.Idle? && i.queue == [] && p !in i.leases && p !in i.cache && Free(b.locks, p, env.wall) && env.fault.NoFault? && p in b.files
    ensures var (j, c) := Solo(cfg, id, i, b, OpenExisting(p, env));
            && j.pc == Idle(Done) && p in j.leases && c == Locked(cfg, id, b, p, env)
  {
    hide Solo, Free, HoldOf, Locked, Parse, Encode;
    TakesLock(cfg, id, i, b, p, env);
    SoloMore(cfg, id, i, b, Locking(p, env), Act(Proceed, env));
    SoloMore(cfg, id, i, b, Locking(p, env) + [Act(Proceed, env)], Act(Proceed, env));
    assert Locked(cfg, id, b, p, env).files == b.files by { LockedFiles(cfg, id, b, p, env); }
  }

  /** Create a local file, remove it, flush the queue. */
  function CreateRemoveFlush(p: Path, x: Body, env: Env): seq<Act> {
    [Act(Start(Write(p, x)), env)] + [Act(Start(Unlink(p)), env)] + [Act(Start(Flush(1)), env)] + [Act(Proceed, env)]
  }

  lemma RemovesUnseen(cfg: Config, id: InstanceId, i: Instance, b: Bucket, p: Path, x: Body, env: Env)
    requires i.pc.Idle? && i.queue == [] && p !in i.leases && p !in i.cache && env.fault.NoFault? && p in b.files
    ensures var (j, c) := Solo(cfg, id, i, b, CreateRemoveFlush(p, x, env));
            c == b.(files := b.files - {p}) && j.version == i.version
  {
    var w, u, f, go := Act(Start(Write(p, x)), env), Act(Start(Unlink(p)), env), Act(Start(Flush(1)), env), Act(Proceed, env);
    SoloOne(cfg, id, i, b, w);
    SoloMore(cfg, id, i, b, [w], u);
    SoloMore(cfg, id, i, b, [w] + [u], f);
    SoloMore(cfg, id, i, b, [w] + [u] + [f], go);
    hide Solo, StepOne;
    var i1 := i.(local := i.local[p := x], queue := [Upload(p)], pc := Idle(Done));
    var i2 := i1.(local := i1.local - {p}, queue := [Delete(p, None)], pc := Idle(Done));
    WritesAndQueues(cfg, id, i, b, p, x, env);
    UnlinksUncached(cfg, id, i1, b, p, env);
    FlushesDelete(cfg, id, i2, b, p, env);
  }

  lemma UnlinksUncached(cfg: Config, id: InstanceId, i: Instance, b: Bucket, p: Path, env: Env)
    requires i.pc.Idle? && i.queue == [Upload(p)] && p !in i.leases && p !in i.cache && p in i.local
    ensures StepOne(cfg, id, i, b, Act(Start(Unlink(p)), env))
            == (i.(local := i.local - {p}, queue := [Delete(p, None)], pc := Idle(Done)), b)
  {
    assert [Upload(p)][1..] == [] && Without([Upload(p)], p) + [Delete(p, None)] == [Delete(p, None)];
    assert i.cache - {p} == i.cache;
  }

  lemma FlushesDelete(cfg: Config, id: InstanceId, i: Instance, b: Bucket, p: Path, env: Env)
    requires i.pc.Idle? && i.queue == [Delete(p, None)] && env.fault.NoFault?
    ensures var (j, c) := StepOne(cfg, id, i, b, Act(Start(Flush(1)), env));
            var (k, d) := StepOne(cfg, id, j, c, Act(Proceed, env));
            d == b.(files := b.files - {p}) && k.version == i.version
  {
    assert [Delete(p, None)][1..] == [];
    assert StepOne(cfg, id, i, b, Act(Start(Flush(1)), env)) == (i.(queue := [], pc := QueueDelete(p, None, 0)), b);
  }

  /** An instance that never synced `p` creates and removes a local file of that
      name. Its queue then deletes an object it has never seen, which another
      instance holds under a lease. No request fails. */
  lemma UnseenIsDeletedUnderLease(cfg: Config, s: System, a: InstanceId, b: InstanceId, p: Path, x: Body, env: Env)
    requires a != b && a in s.instances && b in s.instances && env.fault.NoFault?
    requires p in s.bucket.files && Free(s.bucket.locks, p, env.wall)
    requires forall id :: id in {a, b} ==>
               var i := s.instances[id];
               i.pc.Idle? && i.queue == [] && p !in i.leases && p !in i.cache && p !in i.version
    ensures var holds := Run(cfg, s, Events(a, OpenExisting(p, env)));
            var t := Run(cfg, s, Events(a, OpenExisting(p, env)) + Events(b, CreateRemoveFlush(p, x, env)));
            && a in holds.instances && p in holds.instances[a].leases && p in holds.bucket.files
            && a in t.instances && t.instances[a] == holds.instances[a] && t.bucket.locks == holds.bucket.locks
            && p !in t.bucket.files && b in t.instances && p !in t.instances[b].version
  {
    hide Solo, Run, Free;
    assert a in {a, b} && b in {a, b};
    SoloRun(cfg, s, a, OpenExisting(p, env));
    OpensExisting(cfg, a, s.instances[a], s.bucket, p, env);
    var holds := Run(cfg, s, Events(a, OpenExisting(p, env)));
    RunTwice(cfg, s, Events(a, OpenExisting(p, env)), Events(b, CreateRemoveFlush(p, x, env)));
    SoloRun(cfg, holds, b, CreateRemoveFlush(p, x, env));
    RemovesUnseen(cfg, b, holds.instances[b], holds.bucket, p, x, env);
  }
}
