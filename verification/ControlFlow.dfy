/** Which requests can follow which. */
module ControlFlow {
  import opened LockRecords
  import opened ObjectStores
  import opened SyncProtocol

  /** Neither the PUT of an acquire nor the HEAD after a lost upload. */
  predicate Plain(pc: Pc) {
    !pc.AcquirePut? && !pc.UploadVerify?
  }

  lemma {:induction false} FlushNextPc(i: Instance, left: nat)
    ensures Plain(FlushNext(i, left).pc)
    decreases left
  {
    if left != 0 && i.queue != [] { FlushNextPc(i.(queue := i.queue[1..]), left - 1); }
  }

  lemma FinishPc(i: Instance, p: Path, k: Cont, ret: Outcome)
    ensures Plain(Finish(i, p, k, ret).pc) && Plain(UploadFailed(i, p, k).pc)
  {
    hide FlushNext;
    if k.ForQueue? { FlushNextPc(i, k.left); }
  }

  lemma {:induction false} ReleaseNextPc(i: Instance, paths: seq<Path>, first: Outcome)
    ensures Plain(ReleaseNext(i, paths, first).pc)
    decreases |paths|
  {
    if paths != [] {
      if paths[0] !in i.leases { ReleaseNextPc(i, paths[1..], first); }
    }
  }

  lemma {:induction false} RenewNextPc(cfg: Config, id: InstanceId, i: Instance, paths: seq<Path>, env: Env)
    ensures Plain(RenewNext(cfg, id, i, paths, env).pc)
    decreases |paths|
  {
    if paths != [] { RenewNextPc(cfg, id, i, paths[1..], env); }
  }

  lemma {:induction false} PollNextPc(i: Instance, tail: seq<Path>, listing: map<Path, ETag>)
    ensures Plain(PollNext(i, tail, listing).pc)
    decreases |tail|
  {
    if tail != [] { PollNextPc(i, tail[1..], listing); }
  }

  lemma BeginPc(cfg: Config, id: InstanceId, i: Instance, call: Call, env: Env)
    requires i.pc.Idle?
    ensures Plain(Begin(cfg, id, i, call, env).pc)
  {
    hide ReleaseNext, FlushNext, RenewNext, DuePaths, Without, Finish, UploadFailed;
    match call
    case Close(p) => ReleaseNextPc(i, [p], Done);
    case ReleaseAll(paths) => ReleaseNextPc(i, paths, Done);
    case Flush(batch) => FlushNextPc(i, batch);
    case Renew(paths) => RenewNextPc(cfg, id, i, DuePaths(cfg, i, paths, env.mono), env);
    case Fsync(p) => {
      FinishPc(i, p, ForSync, Done);
      FinishPc(i.(cache := i.cache - {p}), p, ForSync, Done);
    }
    case SyncNow(p) => FinishPc(i, p, ForSync, Done);
    case _ =>
  }

  lemma FilePc(i: Instance, b: Bucket, env: Env)
    ensures i.pc.HeadFile? || i.pc.GetFile? || i.pc.Refresh? ==> Plain(FileStep(i, b, env).0.pc)
    ensures i.pc.PollList? || i.pc.PollGet? ==> Plain(PollStep(i, b, env).0.pc)
  {
    hide Finish, PollNext, Rebase;
    match i.pc
    case Refresh(p, k) =>
      FinishPc(i, p, k, Conflict(false));
      FinishPc(Rebase(i.(cache := i.cache - {p}), p, None, false), p, k, Conflict(false));
      if p in b.files { FinishPc(Rebase(Download(i, p, b.files[p]), p, Some(ETag(b.files[p])), true), p, k, Conflict(true)); }
    case PollList => PollNextPc(i, env.order, map p | p in b.files :: ETag(b.files[p]));
    case PollGet(p, tail, listing) =>
      PollNextPc(i, tail, listing);
      if p in b.files { PollNextPc(Download(i, p, b.files[p]), tail, listing); }
    case _ =>
  }

  lemma UploadDonePc(i: Instance, p: Path, body: Body, tag: ETag, k: Cont)
    ensures Plain(UploadDone(i, p, body, tag, k).pc)
  {
    hide Finish;
    FinishPc(Rebase(i.(cache := i.cache[p := tag], version := i.version[p := body]), p, Some(tag), true), p, k, Done);
  }

  lemma UploadPc(i: Instance, b: Bucket, env: Env)
    requires i.pc.UploadPut? || i.pc.UploadCreate? || i.pc.UploadHead? || i.pc.UploadVerify?
    ensures var pc := UploadStep(i, b, env).0.pc; !pc.AcquirePut? && (pc.UploadVerify? ==> env.fault.Faulty?)
  {
    hide UploadDone, UploadFailed;
    var p, body, k := i.pc.path, i.pc.body, i.pc.k;
    FinishPc(i, p, k, Done);
    UploadDonePc(i, p, body, ETag(body), k);
    if p in b.files { UploadDonePc(i, p, body, ETag(b.files[p]), k); }
  }

  lemma DeletePc(i: Instance, b: Bucket, env: Env)
    requires i.pc.DeleteFile? || i.pc.QueueDelete?
    ensures Plain(DeleteStep(i, b, env).0.pc)
  {
    hide Finish, FlushNext;
    match i.pc
    case DeleteFile(p, _, k) =>
      FinishPc(i.(cache := i.cache - {p}), p, k, Done);
      FinishPc(i, p, k, Failed);
    case QueueDelete(_, _, left) => FlushNextPc(i, left);
  }

  lemma LockPc(cfg: Config, id: InstanceId, i: Instance, b: Bucket, env: Env)
    requires i.pc.Unlock? || i.pc.RenewPut?
    ensures Plain(LockStep(cfg, id, i, b, env).0.pc)
  {
    hide ReleaseNext, RenewNext, Encode;
    match i.pc
    case Unlock(p, _, next) =>
      if next.AfterClose? {
        ReleaseNextPc(i.(leases := i.leases - {p}), next.rest, if next.first.Done? then next.ret else next.first);
      }
    case RenewPut(p, tag, record, expiresAt, rest) =>
      var reply := Put(b.locks, p, Encode(record), IfMatch(tag), env.fault).1;
      var j :=
        if p !in i.leases || reply.PutBroken? then i
        else if reply.Stored? then i.(leases := i.leases[p := i.leases[p].(tag := reply.tag, expiresAt := expiresAt)])
        else i.(leases := i.leases[p := i.leases[p].(lost := true)]);
      RenewNextPc(cfg, id, j, rest, env);
  }

  lemma AcquiredPc(i: Instance, p: Path, hold: Hold)
    ensures Plain(Acquired(i, p, hold).pc)
  {
    hide WithoutUpload;
  }

  /** Only the GET of an acquire leads to its PUT, and what it read is remembered;
      only a fault leads to the HEAD that looks for a lost upload. */
  lemma AdvancePc(cfg: Config, id: InstanceId, i: Instance, b: Bucket, env: Env)
    requires !i.pc.Idle?
    ensures var pc := Advance(cfg, id, i, b, env).0.pc;
            && (pc.AcquirePut? ==> pc.readAt == env.wall && (pc.seen.Some? ==> pc.path in b.locks && pc.seen.value == ETag(b.locks[pc.path])))
            && (pc.UploadVerify? ==> env.fault.Faulty?)
  {
    hide FileStep, UploadStep, DeleteStep, LockStep, PollStep, Parse, Encode, Acquired;
    FilePc(i, b, env);
    match i.pc
    case AcquirePut(p, _, record, expiresAt, _) => AcquiredPc(i, p, Hold(ETag(Encode(record)), record.epoch, expiresAt));
    case AcquireVerify(p, record, expiresAt, _) =>
      if p in b.locks { AcquiredPc(i, p, Hold(ETag(b.locks[p]), record.epoch, expiresAt)); }
    case UploadPut(_, _, _, _) => UploadPc(i, b, env);
    case UploadCreate(_, _, _) => UploadPc(i, b, env);
    case UploadHead(_, _, _) => UploadPc(i, b, env);
    case UploadVerify(_, _, _, _) => UploadPc(i, b, env);
    case DeleteFile(_, _, _) => DeletePc(i, b, env);
    case QueueDelete(_, _, _) => DeletePc(i, b, env);
    case Unlock(_, _, _) => LockPc(cfg, id, i, b, env);
    case RenewPut(_, _, _, _, _) => LockPc(cfg, id, i, b, env);
    case _ =>
  }
}
