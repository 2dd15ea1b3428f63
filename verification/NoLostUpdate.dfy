/** No lost update.

    With file locks on, a PUT never replaces content its writer has not seen, as
    long as no HEAD after a lost response finds another writer's body and takes
    it for its own. Whatever else fails, and however often, is harmless. */
module NoLostUpdate {
  import opened LockRecords
  import opened ObjectStores
  import opened SyncProtocol
  import opened ControlFlow

  /** `t` is the tag of the version the local copy of `p` was last synced with. */
  predicate Based(version: map<Path, Body>, p: Path, t: ETag) {
    p in version && t == ETag(version[p])
  }

  predicate CacheGrounded(cache: map<Path, ETag>, version: map<Path, Body>) {
    forall p :: p in cache ==> Based(version, p, cache[p])
  }

  predicate LeasesGrounded(leases: map<Path, Lease>, version: map<Path, Body>) {
    forall p :: p in leases && leases[p].base.Some? ==> Based(version, p, leases[p].base.value)
  }

  predicate DataGrounded(i: Instance) {
    CacheGrounded(i.cache, i.version) && LeasesGrounded(i.leases, i.version)
  }

  /** Conditions about to be sent are grounded, and no path is downloaded
      behind the back of its lease. */
  predicate PcGrounded(i: Instance) {
    match i.pc
    case UploadPut(p, _, cond, _) => cond.IfNoneMatchAny? || (cond.IfMatch? && Based(i.version, p, cond.tag))
    case UploadVerify(p, _, cond, _) => cond.IfNoneMatchAny? || (cond.IfMatch? && Based(i.version, p, cond.tag))
    case AcquireGet(p) => p !in i.leases
    case AcquirePut(p, _, _, _, _) => p !in i.leases
    case AcquireVerify(p, _, _, _) => p !in i.leases
    case HeadFile(p, _) => p !in i.leases
    case GetFile(p, _) => p !in i.leases
    case PollGet(p, _, _) => p !in i.leases
    case DeleteFile(p, base, _) => Based(i.version, p, base)
    case _ => true
  }

  predicate Grounded(i: Instance) {
    DataGrounded(i) && PcGrounded(i)
  }

  /** The guard of the branch that can go wrong: a HEAD that is about to take the
      body it finds for the one uploaded finds just that body. */
  predicate FindsOwn(i: Instance, files: map<Path, Body>, env: Env) {
    i.pc.UploadVerify? && env.fault.NoFault? && i.pc.path in files
    && (i.pc.cond.IfNoneMatchAny? || (i.pc.cond.IfMatch? && ETag(files[i.pc.path]) != i.pc.cond.tag))
    ==> files[i.pc.path] == i.pc.body
  }

  predicate EventFindsOwn(t: System, ev: Event) {
    ev.who in t.instances && ev.action.Proceed? ==> FindsOwn(t.instances[ev.who], t.bucket.files, ev.env)
  }

  /** No HEAD of the run finds a foreign body. */
  predicate AllFindOwn(cfg: Config, s: System, evs: seq<Event>) {
    evs == [] || (AllFindOwn(cfg, s, evs[..|evs| - 1]) && EventFindsOwn(Run(cfg, s, evs[..|evs| - 1]), evs[|evs| - 1]))
  }

  predicate AllGrounded(s: System) {
    forall id :: id in s.instances ==> Grounded(s.instances[id])
  }

  // -------------------------------------------------- control flow keeps it ---

  lemma {:induction false} FlushNextGrounded(i: Instance, left: nat)
    requires DataGrounded(i)
    ensures Grounded(FlushNext(i, left))
    decreases left
  {
    if left != 0 && i.queue != [] && i.queue[0].Upload? && i.queue[0].path in i.leases {
      FlushNextGrounded(i.(queue := i.queue[1..]), left - 1);
    }
  }

  lemma FinishGrounded(i: Instance, p: Path, k: Cont, ret: Outcome)
    requires DataGrounded(i)
    ensures Grounded(Finish(i, p, k, ret))
  {
    if k.ForQueue? { FlushNextGrounded(i, k.left); }
  }

  lemma {:induction false} ReleaseNextGrounded(i: Instance, paths: seq<Path>, first: Outcome)
    requires DataGrounded(i)
    ensures Grounded(ReleaseNext(i, paths, first))
    decreases |paths|
  {
    hide FlushLease;
    if paths != [] {
      var p := paths[0];
      if p !in i.leases {
        ReleaseNextGrounded(i, paths[1..], first);
      } else {
        var l := i.leases[p].(releasing := true);
        PushGrounded(i.(leases := i.leases[p := l]), p, ForClose(l.tag, paths[1..], first));
      }
    }
  }

  lemma {:induction false} RenewNextGrounded(cfg: Config, id: InstanceId, i: Instance, paths: seq<Path>, env: Env)
    requires DataGrounded(i)
    ensures Grounded(RenewNext(cfg, id, i, paths, env))
    decreases |paths|
  {
    if paths != [] && paths[0] !in i.leases {
      RenewNextGrounded(cfg, id, i, paths[1..], env);
    }
  }

  lemma {:induction false} PollNextGrounded(i: Instance, tail: seq<Path>, listing: map<Path, ETag>)
    requires DataGrounded(i)
    ensures Grounded(PollNext(i, tail, listing))
    decreases |tail|
  {
    if tail != [] { PollNextGrounded(i, tail[1..], listing); }
  }

  lemma UploadDoneGrounded(i: Instance, p: Path, body: Body, k: Cont)
    requires DataGrounded(i)
    ensures Grounded(UploadDone(i, p, body, ETag(body), k))
  {
    var j := Rebase(i.(cache := i.cache[p := ETag(body)], version := i.version[p := body]), p, Some(ETag(body)), true);
    assert DataGrounded(j);
    if !k.ForOpen? { FinishGrounded(j, p, k, Done); }
  }

  lemma PushGrounded(i: Instance, p: Path, k: Cont)
    requires DataGrounded(i)
    ensures Grounded(StartUpload(i, p, CondForUpload(i, p), k))
    ensures p in i.leases ==> Grounded(FlushLease(i, p, i.leases[p], k))
  {
    hide Finish;
    FinishGrounded(i, p, k, Failed);
    FinishGrounded(i, p, k, Done);
    FinishGrounded(i.(cache := i.cache - {p}), p, k, Done);
  }

  /** Calls that make no request, or whose first request carries no condition. */
  lemma PlainCallGrounded(cfg: Config, id: InstanceId, i: Instance, call: Call, env: Env)
    requires i.pc.Idle? && DataGrounded(i)
    requires call.Write? || call.Unlink? || call.Open? || call.Poll? || call.ReadThrough? || call.Check?
    ensures Grounded(Begin(cfg, id, i, call, env))
  {
    hide Without;
  }

  lemma BeginGrounded(cfg: Config, id: InstanceId, i: Instance, call: Call, env: Env)
    requires i.pc.Idle? && DataGrounded(i)
    ensures Grounded(Begin(cfg, id, i, call, env))
  {
    hide ReleaseNext, FlushNext, RenewNext, DuePaths, Without, StartUpload, FlushLease, CondForUpload;
    match call
    case Close(p) => ReleaseNextGrounded(i, [p], Done);
    case ReleaseAll(paths) => ReleaseNextGrounded(i, paths, Done);
    case Flush(batch) => FlushNextGrounded(i, batch);
    case Renew(paths) => RenewNextGrounded(cfg, id, i, DuePaths(cfg, i, paths, env.mono), env);
    case Fsync(p) => PushGrounded(i, p, ForSync);
    case SyncNow(p) => PushGrounded(i, p, ForSync);
    case _ => PlainCallGrounded(cfg, id, i, call, env);
  }

  lemma HeadDoneGrounded(i: Instance, p: Path, opening: Option<Hold>, base: Option<ETag>)
    requires DataGrounded(i) && (base.Some? ==> Based(i.version, p, base.value))
    ensures Grounded(HeadDone(i, p, opening, base))
  {
  }

  lemma HeadStepGrounded(i: Instance, b: Bucket, env: Env)
    requires (i.pc.HeadFile? || i.pc.GetFile?) && Grounded(i)
    ensures Grounded(FileStep(i, b, env).0)
  {
    hide HeadDone;
    var p, opening := i.pc.path, i.pc.opening;
    HeadDoneGrounded(i, p, opening, None);
    match Get(b.files, p, env.fault)
    case Found(body) =>
      if i.pc.HeadFile? {
        if p in i.cache && i.cache[p] == ETag(body) { HeadDoneGrounded(i, p, opening, Some(ETag(body))); }
      } else {
        HeadDoneGrounded(Download(i, p, body), p, opening, Some(ETag(body)));
      }
    case _ =>
  }

  lemma RefreshStepGrounded(i: Instance, b: Bucket, env: Env)
    requires i.pc.Refresh? && Grounded(i)
    ensures Grounded(FileStep(i, b, env).0)
  {
    hide Finish;
    var p, k := i.pc.path, i.pc.k;
    match Get(b.files, p, env.fault)
    case GetBroken => FinishGrounded(i, p, k, Conflict(false));
    case Absent => FinishGrounded(Rebase(i.(cache := i.cache - {p}), p, None, false), p, k, Conflict(false));
    case Found(body) => FinishGrounded(Rebase(Download(i, p, body), p, Some(ETag(body)), true), p, k, Conflict(true));
  }

  lemma UploadFailedGrounded(i: Instance, p: Path, k: Cont)
    requires DataGrounded(i)
    ensures Grounded(UploadFailed(i, p, k))
  {
    hide Finish;
    FinishGrounded(i, p, k, Failed);
  }

  lemma UploadStepGrounded(i: Instance, b: Bucket, env: Env)
    requires (i.pc.UploadPut? || i.pc.UploadCreate? || i.pc.UploadHead?) && Grounded(i)
    ensures Grounded(UploadStep(i, b, env).0)
  {
    hide UploadDone, UploadFailed;
    UploadDoneGrounded(i, i.pc.path, i.pc.body, i.pc.k);
    UploadFailedGrounded(i, i.pc.path, i.pc.k);
  }

  /** Taking a foreign body for one's own leaves a tag of a version never seen. */
  lemma ForeignUngrounds(i: Instance, p: Path, body: Body, there: Body, k: Cont)
    requires body != there
    ensures !DataGrounded(UploadDone(i, p, body, ETag(there), k))
  {
    var j := Rebase(i.(cache := i.cache[p := ETag(there)], version := i.version[p := body]), p, Some(ETag(there)), true);
    if k.ForQueue? { FlushNextKeepsData(j, k.left); }
    var u := UploadDone(i, p, body, ETag(there), k);
    hide FlushNext;
    assert p in u.cache && !Based(u.version, p, u.cache[p]);
  }

  lemma {:induction false} FlushNextKeepsData(i: Instance, left: nat)
    ensures FlushNext(i, left).cache == i.cache && FlushNext(i, left).version == i.version
    decreases left
  {
    if left != 0 && i.queue != [] { FlushNextKeepsData(i.(queue := i.queue[1..]), left - 1); }
  }

  /** The HEAD after a lost response keeps the grounding exactly when it does not
      find a foreign body. */
  lemma VerifyGroundedIff(i: Instance, b: Bucket, env: Env)
    requires i.pc.UploadVerify? && Grounded(i)
    ensures Grounded(UploadStep(i, b, env).0) <==> FindsOwn(i, b.files, env)
  {
    hide UploadDone, UploadFailed;
    var UploadVerify(p, body, cond, k) := i.pc;
    UploadFailedGrounded(i, p, k);
    if p in b.files {
      if b.files[p] == body { UploadDoneGrounded(i, p, body, k); }
      else { ForeignUngrounds(i, p, body, b.files[p], k); }
    }
  }

  lemma DeleteStepGrounded(i: Instance, b: Bucket, env: Env)
    requires (i.pc.DeleteFile? || i.pc.QueueDelete?) && Grounded(i)
    ensures Grounded(DeleteStep(i, b, env).0)
  {
    match i.pc
    case DeleteFile(p, _, k) =>
      FinishGrounded(i.(cache := i.cache - {p}), p, k, Done);
      FinishGrounded(i, p, k, Failed);
    case QueueDelete(_, _, left) => FlushNextGrounded(i, left);
  }

  lemma LockStepGrounded(cfg: Config, id: InstanceId, i: Instance, b: Bucket, env: Env)
    requires (i.pc.Unlock? || i.pc.RenewPut?) && Grounded(i)
    ensures Grounded(LockStep(cfg, id, i, b, env).0)
  {
    match i.pc
    case Unlock(p, _, next) =>
      if next.AfterClose? {
        ReleaseNextGrounded(i.(leases := i.leases - {p}), next.rest, if next.first.Done? then next.ret else next.first);
      }
    case RenewPut(p, tag, record, expiresAt, rest) =>
      var reply := Put(b.locks, p, Encode(record), IfMatch(tag), env.fault).1;
      var j :=
        if p !in i.leases || reply.PutBroken? then i
        else if reply.Stored? then i.(leases := i.leases[p := i.leases[p].(tag := reply.tag, expiresAt := expiresAt)])
        else i.(leases := i.leases[p := i.leases[p].(lost := true)]);
      RenewNextGrounded(cfg, id, j, rest, env);
  }

  lemma PollStepGrounded(i: Instance, b: Bucket, env: Env)
    requires (i.pc.PollList? || i.pc.PollGet?) && Grounded(i)
    ensures Grounded(PollStep(i, b, env).0)
  {
    match i.pc
    case PollList => PollNextGrounded(i, env.order, map p | p in b.files :: ETag(b.files[p]));
    case PollGet(p, tail, listing) =>
      PollNextGrounded(i, tail, listing);
      match Get(b.files, p, env.fault)
      case Found(body) => PollNextGrounded(Download(i, p, body), tail, listing);
      case _ =>
  }

  lemma AcquiredGrounded(i: Instance, p: Path, hold: Hold)
    requires DataGrounded(i) && p !in i.leases
    ensures Grounded(Acquired(i, p, hold))
  {
    hide WithoutUpload;
  }

  lemma AcquireStepGrounded(cfg: Config, id: InstanceId, i: Instance, b: Bucket, env: Env)
    requires (i.pc.AcquireGet? || i.pc.AcquirePut? || i.pc.AcquireVerify?) && Grounded(i)
    ensures Grounded(AcquireStep(cfg, id, i, b, env).0)
  {
    hide Parse, Encode, Acquired;
    var p := i.pc.path;
    match i.pc
    case AcquireGet(_) =>
    case AcquirePut(_, _, record, expiresAt, _) => AcquiredGrounded(i, p, Hold(ETag(Encode(record)), record.epoch, expiresAt));
    case AcquireVerify(_, record, expiresAt, _) =>
      if p in b.locks { AcquiredGrounded(i, p, Hold(ETag(b.locks[p]), record.epoch, expiresAt)); }
  }

  lemma AdvanceGrounded(cfg: Config, id: InstanceId, i: Instance, b: Bucket, env: Env)
    requires !i.pc.Idle? && Grounded(i)
    ensures Grounded(Advance(cfg, id, i, b, env).0) <==> FindsOwn(i, b.files, env)
  {
    hide AcquireStep, FileStep, UploadStep, DeleteStep, LockStep, PollStep;
    if i.pc.AcquireGet? || i.pc.AcquirePut? || i.pc.AcquireVerify? { AcquireStepGrounded(cfg, id, i, b, env); }
    else if i.pc.HeadFile? || i.pc.GetFile? { HeadStepGrounded(i, b, env); }
    else if i.pc.Refresh? { RefreshStepGrounded(i, b, env); }
    else if i.pc.UploadPut? || i.pc.UploadCreate? || i.pc.UploadHead? { UploadStepGrounded(i, b, env); }
    else if i.pc.UploadVerify? { VerifyGroundedIff(i, b, env); }
    else if i.pc.DeleteFile? || i.pc.QueueDelete? { DeleteStepGrounded(i, b, env); }
    else if i.pc.Unlock? || i.pc.RenewPut? { LockStepGrounded(cfg, id, i, b, env); }
    else if i.pc.PollList? || i.pc.PollGet? { PollStepGrounded(i, b, env); }
  }

  /** One event keeps the grounding of all instances exactly when it finds its own body. */
  lemma EventGroundedIff(cfg: Config, t: System, ev: Event)
    requires AllGrounded(t)
    ensures AllGrounded(Exec(cfg, t, ev)) <==> EventFindsOwn(t, ev)
  {
    hide Begin, Advance, Grounded, FindsOwn;
    var u := Exec(cfg, t, ev);
    if ev.who in t.instances {
      var i := t.instances[ev.who];
      if ev.action.Proceed? {
        if i.pc.Idle? { IdleFindsOwn(i, t.bucket.files, ev.env); }
        else {
          AdvanceGrounded(cfg, ev.who, i, t.bucket, ev.env);
          assert u.instances[ev.who] == Advance(cfg, ev.who, i, t.bucket, ev.env).0;
        }
      } else if i.pc.Idle? {
        GroundedData(i);
        BeginGrounded(cfg, ev.who, i, ev.action.call, ev.env);
      }
    }
  }

  lemma IdleFindsOwn(i: Instance, files: map<Path, Body>, env: Env)
    requires i.pc.Idle?
    ensures FindsOwn(i, files, env)
  {
  }

  lemma GroundedData(i: Instance)
    requires Grounded(i)
    ensures DataGrounded(i)
  {
  }

  /** Every reachable state of a run is grounded if and only if no HEAD of the run
      found a foreign body, whatever else failed. */
  lemma {:induction false} RunGrounded(cfg: Config, s: System, evs: seq<Event>)
    requires Initial(s)
    ensures (forall k :: 0 <= k <= |evs| ==> AllGrounded(Run(cfg, s, evs[..k]))) <==> AllFindOwn(cfg, s, evs)
  {
    hide Exec, EventFindsOwn;
    assert evs[..|evs|] == evs;
    if evs == [] {
      InitialGrounded(s);
    } else {
      var prefix, ev := evs[..|evs| - 1], evs[|evs| - 1];
      RunGrounded(cfg, s, prefix);
      hide AllGrounded;
      assert forall k :: 0 <= k < |evs| ==> evs[..k] == prefix[..k];
      assert prefix[..|prefix|] == prefix;
      if AllFindOwn(cfg, s, prefix) {
        assert AllGrounded(Run(cfg, s, prefix[..|prefix|]));
        EventGroundedIff(cfg, Run(cfg, s, prefix), ev);
        assert Run(cfg, s, evs) == Exec(cfg, Run(cfg, s, prefix), ev);
        if AllFindOwn(cfg, s, evs) {
          forall k | 0 <= k <= |evs| ensures AllGrounded(Run(cfg, s, evs[..k])) {
            if k < |evs| { assert AllGrounded(Run(cfg, s, prefix[..k])); }
          }
        } else {
          assert !AllGrounded(Run(cfg, s, evs[..|evs|]));
        }
      } else {
        var k :| 0 <= k <= |prefix| && !AllGrounded(Run(cfg, s, prefix[..k]));
        assert !AllGrounded(Run(cfg, s, evs[..k]));
      }
    }
  }

  lemma InitialGrounded(s: System)
    requires Initial(s)
    ensures AllGrounded(s)
  {
    forall id | id in s.instances ensures Grounded(s.instances[id]) {
      assert Fresh(s.instances[id]);
    }
  }

  // -------------------------------------------------------------- theorem ---

  /** The condition with which the pending PUT of an upload is sent. */
  function PutCond(pc: Pc): Precondition {
    if pc.UploadPut? then pc.cond else IfNoneMatchAny
  }

  /** The event is a PUT of `files/<p>` that the store accepts and carries out,
      whatever it then answers. */
  predicate Accepts(t: System, ev: Event, p: Path) {
    && ev.who in t.instances && ev.action.Proceed?
    && var pc := t.instances[ev.who].pc;
    && (pc.UploadPut? || pc.UploadCreate?) && pc.path == p
    && CheckCond(t.bucket.files, p, PutCond(pc)).Accepted?
    && (ev.env.fault.Faulty? ==> ev.env.fault.landed)
  }

  lemma UploadReplacesSeen(i: Instance, b: Bucket, env: Env, p: Path)
    requires (i.pc.UploadPut? || i.pc.UploadCreate?) && Grounded(i)
    ensures var files := UploadStep(i, b, env).1.files;
            var accepted := i.pc.path == p && CheckCond(b.files, p, PutCond(i.pc)).Accepted? && (env.fault.Faulty? ==> env.fault.landed);
            && (accepted ==> p in files && files[p] == i.pc.body && (p in b.files ==> Based(i.version, p, ETag(b.files[p]))))
            && (!accepted ==> (p in files <==> p in b.files) && (p in files ==> files[p] == b.files[p]))
  {
    hide UploadDone, UploadFailed, DataGrounded;
  }

  /** No other request adds or changes a file. */
  lemma OthersPutNothing(cfg: Config, id: InstanceId, i: Instance, b: Bucket, env: Env, p: Path)
    requires !i.pc.Idle? && !i.pc.UploadPut? && !i.pc.UploadCreate?
    ensures var files := Advance(cfg, id, i, b, env).1.files; p in files ==> p in b.files && files[p] == b.files[p]
  {
    hide UploadDone, UploadFailed, Finish, FlushNext, ReleaseNext, RenewNext, PollNext, HeadDone, HeadFailed, Acquired, AcquireRetry, Parse, Encode;
  }

  lemma StepReplacesSeen(cfg: Config, t: System, ev: Event, p: Path)
    requires AllGrounded(t)
    ensures var u := Exec(cfg, t, ev);
      && (Accepts(t, ev, p) ==>
            && p in u.bucket.files && u.bucket.files[p] == t.instances[ev.who].pc.body
            && (p in t.bucket.files ==> Based(t.instances[ev.who].version, p, ETag(t.bucket.files[p]))))
      && (p in u.bucket.files && (p in t.bucket.files ==> u.bucket.files[p] != t.bucket.files[p]) ==> Accepts(t, ev, p))
  {
    hide Begin, UploadStep, Grounded;
    if ev.who in t.instances && !t.instances[ev.who].pc.Idle? {
      var i := t.instances[ev.who];
      if i.pc.UploadPut? || i.pc.UploadCreate? {
        UploadReplacesSeen(i, t.bucket, ev.env, p);
      } else {
        OthersPutNothing(cfg, ev.who, i, t.bucket, ev.env, p);
        hide Advance;
      }
    }
  }

  /** In any run of any number of instances in which no HEAD finds a foreign body,
      every accepted PUT of `files/<p>` stores the body its instance had read from
      its local copy, and creates the object or replaces exactly the version that
      instance last downloaded or uploaded; and only an accepted PUT makes a file
      appear or change. */
  lemma NoUpdateIsLost(cfg: Config, s: System, evs: seq<Event>, ev: Event, p: Path)
    requires Initial(s) && AllFindOwn(cfg, s, evs)
    ensures
      var t, u := Run(cfg, s, evs), Run(cfg, s, evs + [ev]);
      && (Accepts(t, ev, p) ==>
            && p in u.bucket.files && u.bucket.files[p] == t.instances[ev.who].pc.body
            && (p in t.bucket.files ==> Based(t.instances[ev.who].version, p, ETag(t.bucket.files[p]))))
      && (p in u.bucket.files && (p in t.bucket.files ==> u.bucket.files[p] != t.bucket.files[p]) ==> Accepts(t, ev, p))
  {
    hide Exec, AllGrounded, Accepts;
    RunGrounded(cfg, s, evs);
    assert evs[..|evs|] == evs;
    assert AllGrounded(Run(cfg, s, evs[..|evs|]));
    assert (evs + [ev])[..|evs|] == evs;
    StepReplacesSeen(cfg, Run(cfg, s, evs), ev, p);
  }

  /** Without faults nobody ever looks for a lost upload. */
  lemma {:induction false} ReliableNeverVerifies(cfg: Config, s: System, evs: seq<Event>)
    requires Initial(s) && Reliable(evs)
    ensures forall id :: id in Run(cfg, s, evs).instances ==> !Run(cfg, s, evs).instances[id].pc.UploadVerify?
    ensures AllFindOwn(cfg, s, evs)
  {
    hide Begin, Advance;
    if evs == [] {
      forall id | id in s.instances ensures !s.instances[id].pc.UploadVerify? {
        assert Fresh(s.instances[id]);
      }
    } else {
      var prefix, ev := evs[..|evs| - 1], evs[|evs| - 1];
      ReliableNeverVerifies(cfg, s, prefix);
      var t := Run(cfg, s, prefix);
      if ev.who in t.instances {
        var i := t.instances[ev.who];
        if i.pc.Idle? {
          if ev.action.Start? { BeginPc(cfg, ev.who, i, ev.action.call, ev.env); }
        } else {
          AdvancePc(cfg, ev.who, i, t.bucket, ev.env);
        }
      }
    }
  }

  /** So over a store that fails only by rejecting conditions no update is lost. */
  lemma ReliableLosesNothing(cfg: Config, s: System, evs: seq<Event>, ev: Event, p: Path)
    requires Initial(s) && Reliable(evs)
    ensures var t := Run(cfg, s, evs);
            Accepts(t, ev, p) && p in t.bucket.files ==> Based(t.instances[ev.who].version, p, ETag(t.bucket.files[p]))
  {
    hide Run, Accepts, AllFindOwn;
    ReliableNeverVerifies(cfg, s, evs);
    NoUpdateIsLost(cfg, s, evs, ev, p);
  }
}
