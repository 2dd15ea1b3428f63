/** How lock objects change.

    Clocks may be skewed and responses may be lost: still, every change of a
    lock object is a create, a renewal or release by its owner, or a takeover
    of a record that had expired on the taker's own clock. */
module LockChanges {
  import opened LockRecords
  import opened ObjectStores
  import opened SyncProtocol

  /** The body is a record of `id`. */
  predicate RecordOf(body: Body, id: InstanceId) {
    Parse(body).Some? && Parse(body).value.instance == id
  }

  predicate RecordAt(body: Body, id: InstanceId, epoch: nat) {
    RecordOf(body, id) && Parse(body).value.epoch == epoch
  }

  // ------------------------------------------------------------- invariant ---

  predicate LeasesOwned(id: InstanceId, leases: map<Path, Lease>) {
    forall p :: p in leases ==> RecordAt(leases[p].tag.of, id, leases[p].epoch) && LockRecords.Clean(p)
  }

  predicate HoldOwned(id: InstanceId, hold: Hold) {
    RecordAt(hold.tag.of, id, hold.epoch)
  }

  predicate ContOwned(id: InstanceId, p: Path, k: Cont) {
    && (k.ForOpen? ==> HoldOwned(id, k.hold) && LockRecords.Clean(p))
    && (k.ForClose? ==> RecordOf(k.tag.of, id))
  }

  /** What a pending acquire PUT may replace. */
  predicate Takeable(body: Body, record: LockRecord, readAt: nat) {
    if Parse(body).Some? then IsExpired(Parse(body).value, readAt) && record.epoch == Wrap64(Parse(body).value.epoch + 1)
    else record.epoch == 1
  }

  /** `readings` are the wall-clock readings the instance has taken. */
  predicate PcOwned(id: InstanceId, pc: Pc, readings: set<nat>) {
    match pc
    case AcquireGet(p) => LockRecords.Clean(p)
    case AcquirePut(p, seen, record, _, readAt) =>
      && LockRecords.Clean(p) && Representable(record) && record.instance == id && readAt in readings
      && (if seen.Some? then Takeable(seen.value.of, record, readAt) else record.epoch == 1)
    case AcquireVerify(p, _, _, _) => LockRecords.Clean(p)
    case HeadFile(p, opening) => opening.Some? ==> HoldOwned(id, opening.value) && LockRecords.Clean(p)
    case GetFile(p, opening) => opening.Some? ==> HoldOwned(id, opening.value) && LockRecords.Clean(p)
    case UploadPut(p, _, _, k) => ContOwned(id, p, k)
    case UploadCreate(p, _, k) => ContOwned(id, p, k)
    case UploadHead(p, _, k) => ContOwned(id, p, k)
    case UploadVerify(p, _, _, k) => ContOwned(id, p, k)
    case Refresh(p, k) => ContOwned(id, p, k)
    case DeleteFile(p, _, k) => ContOwned(id, p, k)
    case Unlock(_, tag, _) => RecordOf(tag.of, id)
    case RenewPut(_, tag, record, _, _) => Representable(record) && record.instance == id && RecordAt(tag.of, id, record.epoch)
    case _ => true
  }

  predicate Owned(id: InstanceId, i: Instance, readings: set<nat>) {
    && LeasesOwned(id, i.leases)
    && PcOwned(id, i.pc, readings)
    && (i.pc.RenewPut? && i.pc.path in i.leases ==> i.leases[i.pc.path].epoch == i.pc.record.epoch)
  }

  // -------------------------------------------------- control flow keeps it ---

  lemma {:induction false} FlushNextOwned(id: InstanceId, i: Instance, left: nat, rs: set<nat>)
    requires LeasesOwned(id, i.leases)
    ensures Owned(id, FlushNext(i, left), rs)
    decreases left
  {
    hide Parse;
    if left != 0 && i.queue != [] && i.queue[0].Upload? && i.queue[0].path in i.leases {
      FlushNextOwned(id, i.(queue := i.queue[1..]), left - 1, rs);
    }
  }

  lemma FinishOwned(id: InstanceId, i: Instance, p: Path, k: Cont, ret: Outcome, rs: set<nat>)
    requires LeasesOwned(id, i.leases) && ContOwned(id, p, k)
    ensures Owned(id, Finish(i, p, k, ret), rs)
  {
    hide Parse, FlushNext;
    if k.ForQueue? { FlushNextOwned(id, i, k.left, rs); }
  }

  lemma StartUploadOwned(id: InstanceId, i: Instance, p: Path, cond: Precondition, k: Cont, rs: set<nat>)
    requires LeasesOwned(id, i.leases) && ContOwned(id, p, k)
    ensures Owned(id, StartUpload(i, p, cond, k), rs)
    ensures Owned(id, UploadFailed(i, p, k), rs)
  {
    hide Parse, Finish;
    FinishOwned(id, i, p, k, Failed, rs);
  }

  lemma UploadDoneOwned(id: InstanceId, i: Instance, p: Path, body: Body, tag: ETag, k: Cont, rs: set<nat>)
    requires LeasesOwned(id, i.leases) && ContOwned(id, p, k)
    ensures Owned(id, UploadDone(i, p, body, tag, k), rs)
  {
    hide Parse, Finish, LockRecords.Clean;
    var j := Rebase(i.(cache := i.cache[p := tag], version := i.version[p := body]), p, Some(tag), true);
    assert LeasesOwned(id, j.leases);
    if k.ForOpen? {
      assert LeasesOwned(id, Opened(j, p, k.hold, Some(tag)).leases);
    } else {
      FinishOwned(id, j, p, k, Done, rs);
    }
  }

  lemma FlushLeaseOwned(id: InstanceId, i: Instance, p: Path, l: Lease, k: Cont, rs: set<nat>)
    requires LeasesOwned(id, i.leases) && ContOwned(id, p, k)
    ensures Owned(id, FlushLease(i, p, l, k), rs)
  {
    hide Parse, Finish, StartUpload;
    FinishOwned(id, i.(cache := i.cache - {p}), p, k, Done, rs);
    FinishOwned(id, i, p, k, Done, rs);
    StartUploadOwned(id, i, p, BaseCond(l.base), k, rs);
  }

  lemma {:induction false} ReleaseNextOwned(id: InstanceId, i: Instance, paths: seq<Path>, first: Outcome, rs: set<nat>)
    requires LeasesOwned(id, i.leases)
    ensures Owned(id, ReleaseNext(i, paths, first), rs)
    decreases |paths|
  {
    hide Parse, FlushLease;
    if paths != [] {
      var p := paths[0];
      if p !in i.leases {
        ReleaseNextOwned(id, i, paths[1..], first, rs);
      } else {
        var l := i.leases[p].(releasing := true);
        FlushLeaseOwned(id, i.(leases := i.leases[p := l]), p, l, ForClose(l.tag, paths[1..], first), rs);
      }
    }
  }

  lemma WrapFits(n: nat)
    ensures Wrap64(n) <= U64_MAX
  {
  }

  lemma {:induction false} RenewNextOwned(cfg: Config, id: InstanceId, i: Instance, paths: seq<Path>, env: Env, rs: set<nat>)
    requires LeasesOwned(id, i.leases) && LockRecords.Clean(id)
    ensures Owned(id, RenewNext(cfg, id, i, paths, env), rs)
    decreases |paths|
  {
    hide Parse, Wrap64, LockRecords.Clean;
    if paths != [] {
      if paths[0] !in i.leases {
        RenewNextOwned(cfg, id, i, paths[1..], env, rs);
      } else {
        ParseYieldsRepresentable(i.leases[paths[0]].tag.of);
        WrapFits(env.wall + cfg.lease);
      }
    }
  }

  lemma {:induction false} PollNextOwned(id: InstanceId, i: Instance, tail: seq<Path>, listing: map<Path, ETag>, rs: set<nat>)
    requires LeasesOwned(id, i.leases)
    ensures Owned(id, PollNext(i, tail, listing), rs)
    decreases |tail|
  {
    hide Parse;
    if tail != [] { PollNextOwned(id, i, tail[1..], listing, rs); }
  }

  lemma HeadDoneOwned(id: InstanceId, i: Instance, p: Path, opening: Option<Hold>, base: Option<ETag>, rs: set<nat>)
    requires LeasesOwned(id, i.leases)
    requires opening.Some? ==> HoldOwned(id, opening.value) && LockRecords.Clean(p)
    ensures Owned(id, HeadDone(i, p, opening, base), rs)
    ensures Owned(id, HeadFailed(i, p, opening), rs)
  {
    hide Parse, LockRecords.Clean;
  }

  lemma AcquiredOwned(id: InstanceId, i: Instance, p: Path, hold: Hold, rs: set<nat>)
    requires LeasesOwned(id, i.leases) && HoldOwned(id, hold) && LockRecords.Clean(p)
    ensures Owned(id, Acquired(i, p, hold), rs)
  {
    hide Parse, LockRecords.Clean, WithoutUpload, StartUpload;
    StartUploadOwned(id, i.(queue := WithoutUpload(i.queue, p)), p, CondForUpload(i, p), ForOpen(hold), rs);
  }

  // ------------------------------------------------------- every step keeps it ---

  lemma BeginOwned(cfg: Config, id: InstanceId, i: Instance, call: Call, env: Env, rs: set<nat>)
    requires i.pc.Idle? && LeasesOwned(id, i.leases) && LockRecords.Clean(id)
    requires call.Open? ==> LockRecords.Clean(call.path)
    ensures Owned(id, Begin(cfg, id, i, call, env), rs)
  {
    hide Parse, RecordAt, RecordOf, LockRecords.Clean, ReleaseNext, FlushNext, RenewNext, DuePaths, Without, StartUpload, FlushLease;
    match call
    case Close(p) => ReleaseNextOwned(id, i, [p], Done, rs);
    case ReleaseAll(paths) => ReleaseNextOwned(id, i, paths, Done, rs);
    case Flush(batch) => FlushNextOwned(id, i, batch, rs);
    case Renew(paths) => RenewNextOwned(cfg, id, i, DuePaths(cfg, i, paths, env.mono), env, rs);
    case Fsync(p) =>
      StartUploadOwned(id, i, p, CondForUpload(i, p), ForSync, rs);
      if p in i.leases { FlushLeaseOwned(id, i, p, i.leases[p], ForSync, rs); }
    case SyncNow(p) => StartUploadOwned(id, i, p, CondForUpload(i, p), ForSync, rs);
    case _ =>
  }

  lemma AcquireGetOwned(cfg: Config, id: InstanceId, i: Instance, b: Bucket, env: Env, rs: set<nat>)
    requires i.pc.AcquireGet? && Owned(id, i, rs) && LockRecords.Clean(id)
    ensures Owned(id, AcquireStep(cfg, id, i, b, env).0, rs + {env.wall})
  {
    hide Parse, LockRecords.Clean, Wrap64, LeasesOwned;
    if i.pc.path in b.locks && Parse(b.locks[i.pc.path]).Some? {
      WrapFits(Parse(b.locks[i.pc.path]).value.epoch + 1);
    }
    WrapFits(env.wall + cfg.lease);
  }

  lemma AcquireStepOwned(cfg: Config, id: InstanceId, i: Instance, b: Bucket, env: Env, rs: set<nat>)
    requires (i.pc.AcquirePut? || i.pc.AcquireVerify?) && Owned(id, i, rs) && LockRecords.Clean(id)
    ensures Owned(id, AcquireStep(cfg, id, i, b, env).0, rs)
  {
    hide Encode, Acquired, Parse, LockRecords.Clean, Wrap64;
    var p := i.pc.path;
    match i.pc
    case AcquirePut(_, _, record, expiresAt, _) =>
      RoundTrip(record);
      AcquiredOwned(id, i, p, Hold(ETag(Encode(record)), record.epoch, expiresAt), rs);
    case AcquireVerify(_, record, expiresAt, _) =>
      if p in b.locks && RecordAt(b.locks[p], id, record.epoch) {
        AcquiredOwned(id, i, p, Hold(ETag(b.locks[p]), record.epoch, expiresAt), rs);
      }
  }

  lemma FileStepOwned(id: InstanceId, i: Instance, b: Bucket, env: Env, rs: set<nat>)
    requires (i.pc.HeadFile? || i.pc.GetFile? || i.pc.Refresh?) && Owned(id, i, rs)
    ensures Owned(id, FileStep(i, b, env).0, rs)
  {
    hide Parse, LockRecords.Clean, HeadDone, HeadFailed;
    var p := i.pc.path;
    if i.pc.Refresh? {
      RefreshStepOwned(id, i, b, env, rs);
    } else {
      HeadDoneOwned(id, i, p, i.pc.opening, None, rs);
      if p in b.files {
        HeadDoneOwned(id, i, p, i.pc.opening, Some(ETag(b.files[p])), rs);
        HeadDoneOwned(id, Download(i, p, b.files[p]), p, i.pc.opening, Some(ETag(b.files[p])), rs);
      }
    }
  }

  lemma RefreshStepOwned(id: InstanceId, i: Instance, b: Bucket, env: Env, rs: set<nat>)
    requires i.pc.Refresh? && Owned(id, i, rs)
    ensures Owned(id, FileStep(i, b, env).0, rs)
  {
    hide Parse, LockRecords.Clean, Finish;
    var Refresh(p, k) := i.pc;
    FinishOwned(id, i, p, k, Conflict(false), rs);
    FinishOwned(id, Rebase(i.(cache := i.cache - {p}), p, None, false), p, k, Conflict(false), rs);
    if p in b.files {
      FinishOwned(id, Rebase(Download(i, p, b.files[p]), p, Some(ETag(b.files[p])), true), p, k, Conflict(true), rs);
    }
  }

  lemma UploadStepOwned(id: InstanceId, i: Instance, b: Bucket, env: Env, rs: set<nat>)
    requires (i.pc.UploadPut? || i.pc.UploadCreate? || i.pc.UploadHead? || i.pc.UploadVerify?) && Owned(id, i, rs)
    ensures Owned(id, UploadStep(i, b, env).0, rs)
  {
    hide Parse, LockRecords.Clean, UploadDone, UploadFailed, StartUpload;
    var p, k := i.pc.path, i.pc.k;
    match i.pc
    case UploadPut(_, body, _, _) => UploadDoneOwned(id, i, p, body, ETag(body), k, rs);
    case UploadCreate(_, body, _) =>
      StartUploadOwned(id, i, p, IfNoneMatchAny, k, rs);
      UploadDoneOwned(id, i, p, body, ETag(body), k, rs);
    case UploadHead(_, _, _) => StartUploadOwned(id, i, p, IfNoneMatchAny, k, rs);
    case UploadVerify(_, body, _, _) =>
      StartUploadOwned(id, i, p, IfNoneMatchAny, k, rs);
      if p in b.files { UploadDoneOwned(id, i, p, body, ETag(b.files[p]), k, rs); }
  }

  lemma DeleteStepOwned(id: InstanceId, i: Instance, b: Bucket, env: Env, rs: set<nat>)
    requires (i.pc.DeleteFile? || i.pc.QueueDelete?) && Owned(id, i, rs)
    ensures Owned(id, DeleteStep(i, b, env).0, rs)
  {
    hide Parse, LockRecords.Clean, Finish, FlushNext;
    match i.pc
    case DeleteFile(p, _, k) =>
      FinishOwned(id, i.(cache := i.cache - {p}), p, k, Done, rs);
      FinishOwned(id, i, p, k, Failed, rs);
    case QueueDelete(_, _, left) => FlushNextOwned(id, i, left, rs);
  }

  lemma UnlockOwned(cfg: Config, id: InstanceId, i: Instance, b: Bucket, env: Env, rs: set<nat>)
    requires i.pc.Unlock? && Owned(id, i, rs)
    ensures Owned(id, LockStep(cfg, id, i, b, env).0, rs)
  {
    hide Parse, LockRecords.Clean, ReleaseNext;
    var next := i.pc.next;
    if next.AfterClose? {
      ReleaseNextOwned(id, i.(leases := i.leases - {i.pc.path}), next.rest, if next.first.Done? then next.ret else next.first, rs);
    }
  }

  lemma RenewPutOwned(cfg: Config, id: InstanceId, i: Instance, b: Bucket, env: Env, rs: set<nat>)
    requires i.pc.RenewPut? && Owned(id, i, rs) && LockRecords.Clean(id)
    ensures Owned(id, LockStep(cfg, id, i, b, env).0, rs)
  {
    hide Parse, LockRecords.Clean, RenewNext, Encode;
    var RenewPut(p, tag, record, expiresAt, rest) := i.pc;
    RoundTrip(record);
    var reply := Put(b.locks, p, Encode(record), IfMatch(tag), env.fault).1;
    var j :=
      if p !in i.leases || reply.PutBroken? then i
      else if reply.Stored? then i.(leases := i.leases[p := i.leases[p].(tag := reply.tag, expiresAt := expiresAt)])
      else i.(leases := i.leases[p := i.leases[p].(lost := true)]);
    RenewNextOwned(cfg, id, j, rest, env, rs);
  }

  lemma PollStepOwned(id: InstanceId, i: Instance, b: Bucket, env: Env, rs: set<nat>)
    requires (i.pc.PollList? || i.pc.PollGet?) && Owned(id, i, rs)
    ensures Owned(id, PollStep(i, b, env).0, rs)
  {
    hide Parse, LockRecords.Clean, PollNext;
    match i.pc
    case PollList => PollNextOwned(id, i, env.order, map p | p in b.files :: ETag(b.files[p]), rs);
    case PollGet(p, tail, listing) =>
      PollNextOwned(id, i, tail, listing, rs);
      if p in b.files { PollNextOwned(id, Download(i, p, b.files[p]), tail, listing, rs); }
  }

  lemma AdvanceOwned(cfg: Config, id: InstanceId, i: Instance, b: Bucket, env: Env, rs: set<nat>)
    requires !i.pc.Idle? && Owned(id, i, rs) && LockRecords.Clean(id)
    ensures Owned(id, Advance(cfg, id, i, b, env).0, rs + {env.wall})
  {
    hide AcquireStep, FileStep, UploadStep, DeleteStep, LockStep, PollStep, Parse, LockRecords.Clean;
    MoreReadings(id, i, rs, env.wall);
    var more := rs + {env.wall};
    if i.pc.AcquireGet? { AcquireGetOwned(cfg, id, i, b, env, rs); }
    else if i.pc.AcquirePut? || i.pc.AcquireVerify? { AcquireStepOwned(cfg, id, i, b, env, more); }
    else if i.pc.HeadFile? || i.pc.GetFile? || i.pc.Refresh? { FileStepOwned(id, i, b, env, more); }
    else if i.pc.UploadPut? || i.pc.UploadCreate? || i.pc.UploadHead? || i.pc.UploadVerify? { UploadStepOwned(id, i, b, env, more); }
    else if i.pc.DeleteFile? || i.pc.QueueDelete? { DeleteStepOwned(id, i, b, env, more); }
    else if i.pc.Unlock? { UnlockOwned(cfg, id, i, b, env, more); }
    else if i.pc.RenewPut? { RenewPutOwned(cfg, id, i, b, env, more); }
    else { PollStepOwned(id, i, b, env, more); }
  }

  lemma MoreReadings(id: InstanceId, i: Instance, rs: set<nat>, r: nat)
    requires Owned(id, i, rs)
    ensures Owned(id, i, rs + {r})
  {
    hide Parse, LockRecords.Clean;
  }

  // ------------------------------------------------------- one step of a lock ---

  /** The lock of `p` is unchanged, or `who`, at `pc`, created, renewed, released
      or took it over; an unreadable object is taken over with epoch 1. */
  predicate Lawful(before: map<Path, Body>, after: map<Path, Body>, p: Path, who: InstanceId, pc: Pc, readings: set<nat>) {
    if p !in before then p !in after || RecordAt(after[p], who, 1)
    else if p !in after then RecordOf(before[p], who)
    else
      || after[p] == before[p]
      || (RecordOf(before[p], who) && RecordAt(after[p], who, Parse(before[p]).value.epoch))
      || (Parse(before[p]).None? && RecordAt(after[p], who, 1))
      || TakenOver(before[p], after[p], p, who, pc, readings)
  }

  /** A takeover of the very record the taker had read, expired at the clock
      reading it took then. */
  predicate TakenOver(before: Body, after: Body, p: Path, who: InstanceId, pc: Pc, readings: set<nat>) {
    && Parse(before).Some?
    && pc.AcquirePut? && pc.path == p && pc.seen == Some(ETag(before)) && pc.readAt in readings
    && IsExpired(Parse(before).value, pc.readAt)
    && RecordAt(after, who, Wrap64(Parse(before).value.epoch + 1))
  }

  lemma AdvanceLawful(cfg: Config, id: InstanceId, i: Instance, b: Bucket, env: Env, rs: set<nat>, p: Path)
    requires !i.pc.Idle? && Owned(id, i, rs)
    ensures Lawful(b.locks, Advance(cfg, id, i, b, env).1.locks, p, id, i.pc, rs)
  {
    hide Parse, LockRecords.Clean, Encode, Wrap64, FileStep, UploadStep, DeleteStep, PollStep, Acquired, ReleaseNext, RenewNext;
    OtherStepsKeepLocks(i, b, env);
    if i.pc.AcquirePut? || i.pc.RenewPut? { RoundTrip(i.pc.record); }
  }

  lemma OtherStepsKeepLocks(i: Instance, b: Bucket, env: Env)
    ensures i.pc.HeadFile? || i.pc.GetFile? || i.pc.Refresh? ==> FileStep(i, b, env).1 == b
    ensures i.pc.UploadPut? || i.pc.UploadCreate? || i.pc.UploadHead? || i.pc.UploadVerify? ==> UploadStep(i, b, env).1.locks == b.locks
    ensures i.pc.DeleteFile? || i.pc.QueueDelete? ==> DeleteStep(i, b, env).1.locks == b.locks
    ensures i.pc.PollList? || i.pc.PollGet? ==> PollStep(i, b, env).1 == b
  {
    hide Finish, HeadDone, HeadFailed, UploadDone, UploadFailed, FlushNext, PollNext;
  }

  // --------------------------------------------------------------------- runs ---

  /** Wall-clock readings `id` has taken during `evs`. */
  function Readings(evs: seq<Event>, id: InstanceId): set<nat> {
    if evs == [] then {}
    else
      var ev := evs[|evs| - 1];
      Readings(evs[..|evs| - 1], id) + if ev.who == id then {ev.env.wall} else {}
  }

  /** Opened paths are newline-free and trimmed; instance ids are hexadecimal. */
  predicate CleanNames(s: System, evs: seq<Event>) {
    && (forall id :: id in s.instances ==> LockRecords.Clean(id))
    && (forall k :: 0 <= k < |evs| && evs[k].action.Start? && evs[k].action.call.Open? ==> LockRecords.Clean(evs[k].action.call.path))
  }

  predicate RunOwned(t: System, evs: seq<Event>) {
    forall id :: id in t.instances ==> Owned(id, t.instances[id], Readings(evs, id))
  }

  function PcOf(t: System, id: InstanceId): Pc {
    if id in t.instances then t.instances[id].pc else Idle(Done)
  }

  lemma ExecOwned(cfg: Config, t: System, evs: seq<Event>, ev: Event)
    requires RunOwned(t, evs) && CleanNames(t, [ev])
    ensures RunOwned(Exec(cfg, t, ev), evs + [ev])
    ensures forall p :: Lawful(t.bucket.locks, Exec(cfg, t, ev).bucket.locks, p, ev.who, PcOf(t, ev.who), Readings(evs, ev.who))
    ensures Exec(cfg, t, ev).instances.Keys == t.instances.Keys
  {
    hide Parse, LockRecords.Clean, Begin, Advance, Owned;
    assert (evs + [ev])[..|evs|] == evs && (evs + [ev])[|evs|] == ev;
    var u := Exec(cfg, t, ev);
    forall id | id in t.instances ensures Owned(id, u.instances[id], Readings(evs + [ev], id)) {
      var i, rs := t.instances[id], Readings(evs, id);
      assert Readings(evs + [ev], id) == if id == ev.who then rs + {ev.env.wall} else rs;
      if id == ev.who {
        MoreReadings(id, i, rs, ev.env.wall);
        if ev.action.Proceed? {
          if !i.pc.Idle? { AdvanceOwned(cfg, id, i, t.bucket, ev.env, rs); }
        } else if i.pc.Idle? {
          assert ev == [ev][0];
          assert LeasesOwned(id, i.leases) by { OwnedLeases(id, i, rs); }
          BeginOwned(cfg, id, i, ev.action.call, ev.env, rs + {ev.env.wall});
        }
      }
    }
    forall p ensures Lawful(t.bucket.locks, u.bucket.locks, p, ev.who, PcOf(t, ev.who), Readings(evs, ev.who)) {
      if ev.who in t.instances && ev.action.Proceed? && !t.instances[ev.who].pc.Idle? {
        AdvanceLawful(cfg, ev.who, t.instances[ev.who], t.bucket, ev.env, Readings(evs, ev.who), p);
      }
    }
  }

  lemma OwnedLeases(id: InstanceId, i: Instance, rs: set<nat>)
    requires Owned(id, i, rs)
    ensures LeasesOwned(id, i.leases)
  {
    hide Parse, LockRecords.Clean;
  }

  lemma {:induction false} RunIsOwned(cfg: Config, s: System, evs: seq<Event>)
    requires Initial(s) && CleanNames(s, evs)
    ensures RunOwned(Run(cfg, s, evs), evs)
    ensures Run(cfg, s, evs).instances.Keys == s.instances.Keys
  {
    hide Parse, LockRecords.Clean;
    if evs != [] {
      var prefix, ev := evs[..|evs| - 1], evs[|evs| - 1];
      RunIsOwned(cfg, s, prefix);
      hide Exec;
      ExecOwned(cfg, Run(cfg, s, prefix), prefix, ev);
      assert prefix + [ev] == evs;
    }
  }

  /** For every run, faults included, and every lock: the next event leaves it
      alone or is a create, a renewal, a release by the owner, or a takeover of
      an unreadable object or of an expired record the taker had read. */
  lemma LocksChangeLawfully(cfg: Config, s: System, evs: seq<Event>, ev: Event, p: Path)
    requires Initial(s) && CleanNames(s, evs + [ev])
    ensures var t, u := Run(cfg, s, evs), Run(cfg, s, evs + [ev]);
            Lawful(t.bucket.locks, u.bucket.locks, p, ev.who, PcOf(t, ev.who), Readings(evs, ev.who))
  {
    hide Parse, LockRecords.Clean, Exec, Lawful;
    assert (evs + [ev])[..|evs|] == evs && (evs + [ev])[|evs|] == ev;
    RunIsOwned(cfg, s, evs);
    ExecOwned(cfg, Run(cfg, s, evs), evs, ev);
  }

  /** Epochs strictly increase along a takeover exactly when the counter does not wrap. */
  lemma TakeoverRaisesEpoch(before: Body, after: Body, p: Path, who: InstanceId, pc: Pc, readings: set<nat>)
    requires TakenOver(before, after, p, who, pc, readings)
    ensures Parse(before).value.epoch < Parse(after).value.epoch <==> Parse(before).value.epoch != U64_MAX
  {
    ParseYieldsRepresentable(before);
    hide Parse, LockRecords.Clean;
  }
}
