/** What becomes of a local write that is not in the store yet.

    Such a write is in the queue, on a dirty lease, or in an upload taken from the
    queue. Every request of the protocol keeps it so or brings its bytes into the
    store, except exactly the ones listed in `Loses`: a refresh that finds other
    bytes, an upload given up by an open, a HEAD that takes another writer's body
    for the one uploaded, a conflict the queue drops, and the release of a lease
    whose push failed. Several of these report no error to anyone. */
module LocalWrites {
  import opened LockRecords
  import opened ObjectStores
  import opened SyncProtocol
  import opened OutboundQueue
  import opened SoloRuns

  predicate Held(i: Instance, p: Path) {
    Upload(p) in i.queue || (p in i.leases && i.leases[p].dirty)
  }

  /** An upload taken from the queue, by a flush or by an open. */
  predicate InFlight(pc: Pc, p: Path) {
    && (pc.UploadPut? || pc.UploadCreate? || pc.UploadHead? || pc.UploadVerify? || pc.Refresh?)
    && pc.path == p && (pc.k.ForOpen? || pc.k.ForQueue?)
  }

  predicate Tracked(i: Instance, p: Path) {
    Held(i, p) || InFlight(i.pc, p)
  }

  predicate LeaseFits(leases: map<Path, Lease>, p: Path) {
    p in leases ==> !(leases[p].dirty && leases[p].pendingDelete)
  }

  predicate Uploads(i: Instance, p: Path, body: Body, k: Cont) {
    p in i.local && i.local[p] == body && (k.ForOpen? ==> p !in i.leases)
  }

  /** What the pending request says about `p`. */
  predicate PcFits(i: Instance, p: Path) {
    match i.pc
    case AcquireGet(q) => q == p ==> p !in i.leases
    case AcquirePut(q, _, _, _, _) => q == p ==> p !in i.leases
    case AcquireVerify(q, _, _, _) => q == p ==> p !in i.leases
    case HeadFile(q, _) => q == p ==> p !in i.leases
    case GetFile(q, _) => q == p ==> p !in i.leases
    case UploadPut(q, body, _, k) => q == p ==> Uploads(i, p, body, k)
    case UploadCreate(q, body, k) => q == p ==> Uploads(i, p, body, k)
    case UploadHead(q, body, k) => q == p ==> Uploads(i, p, body, k)
    case UploadVerify(q, body, _, k) => q == p ==> Uploads(i, p, body, k)
    case Refresh(q, k) => q == p && k.ForOpen? ==> !Held(i, p)
    case DeleteFile(_, _, k) => !k.ForOpen?
    case _ => true
  }

  predicate SafeAt(i: Instance, p: Path) {
    LeaseFits(i.leases, p) && PcFits(i, p)
  }

  /** A local copy on its way to the store. */
  predicate Pushing(i: Instance, p: Path) {
    p in i.local && Tracked(i, p)
  }

  /** The store has the bytes of the local copy. */
  predicate InStore(i: Instance, files: map<Path, Body>, p: Path) {
    p in i.local && p in files && files[p] == i.local[p]
  }

  /** From `i` to `j`, the files then being `after`, the local copy of `p` is where
      it was and still on its way, or its bytes have arrived. */
  predicate Keeps(i: Instance, j: Instance, after: map<Path, Body>, p: Path) {
    InStore(i, after, p) || (p in i.local && Pushing(j, p) && j.local[p] == i.local[p])
  }

  /** The requests that lose a local copy of `p` on its way to the store. */
  predicate Loses(i: Instance, files: map<Path, Body>, env: Env, p: Path) {
    match i.pc
    case GetFile(q, _) => q == p && env.fault.NoFault? && p in files && !InStore(i, files, p)
    case Refresh(q, _) => q == p && !InStore(i, files, p) && ((env.fault.NoFault? && p in files) || !Held(i, p))
    case UploadCreate(q, body, k) =>
      q == p && k.ForOpen? && env.fault.Faulty? && !env.fault.as412
      && !InStore(i, Put(files, p, body, IfNoneMatchAny, env.fault).0, p)
    case UploadHead(q, _, k) => q == p && k.ForOpen? && env.fault.Faulty? && !InStore(i, files, p)
    case UploadVerify(q, _, cond, k) =>
      q == p && !InStore(i, files, p)
      && if env.fault.NoFault? && p in files && (cond.IfNoneMatchAny? || (cond.IfMatch? && ETag(files[p]) != cond.tag))
         then Upload(p) !in i.queue else k.ForOpen?
    case Unlock(q, _, next) => q == p && next.AfterClose? && Upload(p) !in i.queue && !InStore(i, files, p)
    case _ => false
  }

  // ------------------------------------------------------- control flow ---

  /** After a continuation: data and leases as before, and a write of `p` is
      tracked exactly when it was held. */
  predicate Continues(h: Instance, j: Instance, p: Path) {
    && j.local == h.local && j.leases == h.leases && PcFits(j, p)
    && (p in h.local ==> (Tracked(j, p) <==> Held(h, p)))
  }

  lemma FlushNextContinues(h: Instance, left: nat, p: Path)
    requires Orderly(h.queue, h.leases)
    ensures Continues(h, FlushNext(h, left), p)
  {
    if left != 0 && h.queue != [] {
      PopOrderly(h.queue, h.leases);
      assert forall op :: op in h.queue <==> op == h.queue[0] || op in h.queue[1..];
      assert forall op :: op in h.queue[1..] ==> op.path != h.queue[0].path;
    }
    hide Orderly;
  }

  lemma FinishContinues(h: Instance, q: Path, k: Cont, ret: Outcome, p: Path)
    requires Orderly(h.queue, h.leases)
    ensures Continues(h, Finish(h, q, k, ret), p)
  {
    hide FlushNext, Orderly;
    if k.ForQueue? { FlushNextContinues(h, k.left, p); }
  }

  /** The upload of `q` is given up: put back in the queue, or left to its caller. */
  lemma UploadFailedContinues(h: Instance, q: Path, k: Cont, p: Path)
    requires Orderly(h.queue, h.leases)
    ensures var j := UploadFailed(h, q, k);
            && j.local == h.local && j.leases == h.leases && PcFits(j, p)
            && (p in h.local ==> (Tracked(j, p) <==> Held(h, p) || (q == p && k.ForQueue?)))
  {
    hide Orderly, Finish;
    if !k.ForQueue? { FinishContinues(h, q, k, Failed, p); }
  }

  /** The upload of `q` is over; it counts as pushed, others are as they were. */
  lemma UploadDoneContinues(i: Instance, q: Path, body: Body, tag: ETag, k: Cont, p: Path)
    requires Orderly(i.queue, i.leases) && (q == p ==> p in i.local && i.local[p] == body)
    requires k.ForOpen? ==> q !in i.leases && Upload(q) !in i.queue
    ensures var j := UploadDone(i, q, body, tag, k);
            && j.local == i.local && PcFits(j, p) && (LeaseFits(i.leases, p) ==> LeaseFits(j.leases, p))
            && (p in i.local ==> (Tracked(j, p) <==> if q == p then Upload(p) in i.queue && !k.ForOpen? else Held(i, p)))
  {
    hide Orderly, Finish;
    var h := Rebase(i.(cache := i.cache[q := tag], version := i.version[q := body]), q, Some(tag), true);
    assert Orderly(h.queue, h.leases) by {
      assert h.leases.Keys == i.leases.Keys;
      SameKeysOrderly(i.queue, i.leases, h.leases);
    }
    if !k.ForOpen? { FinishContinues(h, q, k, Done, p); }
  }

  lemma PushContinues(h: Instance, q: Path, cond: Precondition, k: Cont, p: Path)
    requires Orderly(h.queue, h.leases) && (k.ForClose? || k.ForSync?)
    ensures Continues(h, StartUpload(h, q, cond, k), p)
  {
    hide Orderly, Finish;
    FinishContinues(h, q, k, Failed, p);
  }

  lemma FlushLeaseContinues(h: Instance, q: Path, l: Lease, k: Cont, p: Path)
    requires Orderly(h.queue, h.leases) && (k.ForClose? || k.ForSync?)
    ensures Continues(h, FlushLease(h, q, l, k), p)
  {
    hide Orderly, Finish, StartUpload;
    FinishContinues(h, q, k, Done, p);
    FinishContinues(h.(cache := h.cache - {q}), q, k, Done, p);
    PushContinues(h, q, BaseCond(l.base), k, p);
  }

  lemma {:induction false} ReleaseNextContinues(h: Instance, paths: seq<Path>, first: Outcome, p: Path)
    requires Orderly(h.queue, h.leases) && LeaseFits(h.leases, p)
    ensures var j := ReleaseNext(h, paths, first);
            && j.local == h.local && PcFits(j, p) && LeaseFits(j.leases, p)
            && (p in h.local ==> (Tracked(j, p) <==> Held(h, p)))
    decreases |paths|
  {
    hide Orderly, FlushLease;
    if paths != [] {
      var q := paths[0];
      if q !in h.leases {
        ReleaseNextContinues(h, paths[1..], first, p);
      } else {
        var l := h.leases[q].(releasing := true);
        var g := h.(leases := h.leases[q := l]);
        assert g.leases.Keys == h.leases.Keys;
        SameKeysOrderly(h.queue, h.leases, g.leases);
        FlushLeaseContinues(g, q, l, ForClose(l.tag, paths[1..], first), p);
      }
    }
  }

  lemma {:induction false} RenewNextContinues(cfg: Config, id: InstanceId, h: Instance, paths: seq<Path>, env: Env, p: Path)
    ensures Continues(h, RenewNext(cfg, id, h, paths, env), p)
    decreases |paths|
  {
    if paths != [] && paths[0] !in h.leases { RenewNextContinues(cfg, id, h, paths[1..], env, p); }
  }

  lemma {:induction false} PollNextContinues(h: Instance, tail: seq<Path>, listing: map<Path, ETag>, p: Path)
    ensures var j := PollNext(h, tail, listing);
            && j.leases == h.leases && j.queue == h.queue && PcFits(j, p) && !InFlight(j.pc, p)
            && (p in j.local ==> p in h.local && j.local[p] == h.local[p]) && (Held(h, p) && p in h.local ==> p in j.local)
    decreases |tail|
  {
    UploadIsPending(h.queue, p);
    if tail != [] { PollNextContinues(h, tail[1..], listing, p); }
  }

  lemma AcquiredContinues(h: Instance, q: Path, hold: Hold, p: Path)
    requires q !in h.leases
    ensures var j := Acquired(h, q, hold);
            && j.local == h.local && j.leases == h.leases && PcFits(j, p)
            && (p in h.local ==> (Tracked(j, p) <==> Held(h, p)))
  {
    WithoutUploadFacts(h.queue, q);
    hide WithoutUpload;
  }

  // ------------------------------------------------------------- steps ---

  /** The request keeps a local copy of `p` on its way to the store if and only if
      it is not one that loses it, and leaves everything fit for the next. */
  predicate StepFits(i: Instance, files: map<Path, Body>, env: Env, j: Instance, after: map<Path, Body>, p: Path) {
    && (Pushing(i, p) ==> (Keeps(i, j, after, p) <==> !Loses(i, files, env, p)))
    && LeaseFits(j.leases, p) && PcFits(j, p)
  }

  /** The local copy of `p` is the same. */
  predicate SameLocalAt(i: Instance, j: Instance, p: Path) {
    (p in i.local <==> p in j.local) && (p in i.local ==> i.local[p] == j.local[p])
  }

  lemma StillTracked(i: Instance, files: map<Path, Body>, env: Env, j: Instance, after: map<Path, Body>, p: Path)
    requires SameLocalAt(i, j, p) && LeaseFits(j.leases, p) && PcFits(j, p)
    requires Pushing(i, p) ==> Tracked(j, p) && !Loses(i, files, env, p)
    ensures StepFits(i, files, env, j, after, p)
  {
    hide Loses, Tracked, PcFits, LeaseFits;
  }

  /** The copy stays where it was, but it depends on the store whether it is lost. */
  lemma StoredOrLost(i: Instance, files: map<Path, Body>, env: Env, j: Instance, after: map<Path, Body>, p: Path)
    requires LeaseFits(j.leases, p) && PcFits(j, p)
    requires Pushing(i, p) ==> !Pushing(j, p) && (Loses(i, files, env, p) <==> !InStore(i, after, p))
    ensures StepFits(i, files, env, j, after, p)
  {
    hide Loses, Tracked, PcFits, LeaseFits;
  }

  /** The copy is replaced by what the store has. */
  lemma Replaced(i: Instance, files: map<Path, Body>, env: Env, j: Instance, p: Path)
    requires p in files && p in j.local && j.local[p] == files[p] && LeaseFits(j.leases, p) && PcFits(j, p)
    requires Pushing(i, p) ==> (Loses(i, files, env, p) <==> !InStore(i, files, p))
    ensures StepFits(i, files, env, j, files, p)
  {
    hide Loses, Tracked, PcFits, LeaseFits;
  }

  /** The acquire goes on, or gives up. */
  lemma StillAcquiringFits(i: Instance, files: map<Path, Body>, env: Env, pc: Pc, p: Path)
    requires (i.pc.AcquireGet? || i.pc.AcquirePut? || i.pc.AcquireVerify?) && SafeAt(i, p)
    requires pc.Idle? || ((pc.AcquireGet? || pc.AcquirePut? || pc.AcquireVerify?) && pc.path == i.pc.path)
    ensures StepFits(i, files, env, i.(pc := pc), files, p)
  {
    hide StepFits;
    StillTracked(i, files, env, i.(pc := pc), files, p);
  }

  lemma AcquiredFits(i: Instance, files: map<Path, Body>, env: Env, hold: Hold, p: Path)
    requires (i.pc.AcquirePut? || i.pc.AcquireVerify?) && SafeAt(i, p) && i.pc.path !in i.leases
    ensures StepFits(i, files, env, Acquired(i, i.pc.path, hold), files, p)
  {
    hide StepFits, Acquired;
    AcquiredContinues(i, i.pc.path, hold, p);
    StillTracked(i, files, env, Acquired(i, i.pc.path, hold), files, p);
  }

  lemma AcquireStepFits(cfg: Config, id: InstanceId, i: Instance, b: Bucket, env: Env, p: Path)
    requires (i.pc.AcquireGet? || i.pc.AcquirePut? || i.pc.AcquireVerify?) && SafeAt(i, p)
    requires !i.pc.AcquireGet? ==> i.pc.path !in i.leases
    ensures var (j, c) := AcquireStep(cfg, id, i, b, env); StepFits(i, b.files, env, j, c.files, p)
  {
    hide Acquired, Parse, Encode, StepFits, SafeAt, Wrap64, IsExpired;
    var j := AcquireStep(cfg, id, i, b, env).0;
    match i.pc
    case AcquireGet(_) => StillAcquiringFits(i, b.files, env, j.pc, p);
    case AcquirePut(q, _, record, expiresAt, _) =>
      AcquiredFits(i, b.files, env, Hold(ETag(Encode(record)), record.epoch, expiresAt), p);
      StillAcquiringFits(i, b.files, env, AcquireVerify(q, record, expiresAt, true), p);
      StillAcquiringFits(i, b.files, env, AcquireVerify(q, record, expiresAt, false), p);
    case AcquireVerify(q, record, expiresAt, _) =>
      if q in b.locks { AcquiredFits(i, b.files, env, Hold(ETag(b.locks[q]), record.epoch, expiresAt), p); }
      StillAcquiringFits(i, b.files, env, AcquireGet(q), p);
      StillAcquiringFits(i, b.files, env, Idle(Busy), p);
      StillAcquiringFits(i, b.files, env, Idle(Failed), p);
  }

  lemma HeadDoneContinues(h: Instance, q: Path, opening: Option<Hold>, base: Option<ETag>, p: Path)
    requires LeaseFits(h.leases, p) && (opening.Some? && q == p ==> !Held(h, p))
    ensures forall j :: j == HeadDone(h, q, opening, base) || j == HeadFailed(h, q, opening) ==>
              SameLocalAt(h, j, p) && LeaseFits(j.leases, p) && PcFits(j, p) && (Held(h, p) ==> Tracked(j, p))
  {
  }

  lemma HeadFileFits(i: Instance, b: Bucket, env: Env, p: Path)
    requires i.pc.HeadFile? && SafeAt(i, p) && PcOrderly(i)
    ensures var (j, c) := FileStep(i, b, env); StepFits(i, b.files, env, j, c.files, p)
  {
    hide StepFits, HeadDone, HeadFailed;
    var HeadFile(q, opening) := i.pc;
    var j := FileStep(i, b, env).0;
    HeadDoneContinues(i, q, opening, None, p);
    if q in b.files { HeadDoneContinues(i, q, opening, Some(ETag(b.files[q])), p); }
    assert !Loses(i, b.files, env, p);
    hide Loses;
    StillTracked(i, b.files, env, j, b.files, p);
  }

  lemma GetFileFits(i: Instance, b: Bucket, env: Env, p: Path)
    requires i.pc.GetFile? && SafeAt(i, p) && PcOrderly(i)
    ensures var (j, c) := FileStep(i, b, env); StepFits(i, b.files, env, j, c.files, p)
  {
    hide StepFits, HeadDone, HeadFailed;
    var GetFile(q, opening) := i.pc;
    var j := FileStep(i, b, env).0;
    if env.fault.NoFault? && q in b.files {
      var h := Download(i, q, b.files[q]);
      assert opening.Some? && q == p ==> !Held(h, p);
      HeadDoneContinues(h, q, opening, Some(ETag(b.files[q])), p);
      if q == p {
        Replaced(i, b.files, env, j, p);
      } else {
        StillTracked(i, b.files, env, j, b.files, p);
      }
    } else {
      HeadDoneContinues(i, q, opening, None, p);
      StillTracked(i, b.files, env, j, b.files, p);
    }
  }

  lemma RefreshStepFits(i: Instance, b: Bucket, env: Env, p: Path)
    requires i.pc.Refresh? && SafeAt(i, p) && Orderly(i.queue, i.leases)
    ensures var (j, c) := FileStep(i, b, env); StepFits(i, b.files, env, j, c.files, p)
  {
    hide Orderly, Finish, StepFits, Rebase;
    var Refresh(q, k) := i.pc;
    var j := FileStep(i, b, env).0;
    if env.fault.NoFault? && q in b.files {
      var h := Rebase(Download(i, q, b.files[q]), q, Some(ETag(b.files[q])), true);
      RebaseAt(Download(i, q, b.files[q]), q, Some(ETag(b.files[q])), true, p);
      FinishContinues(h, q, k, Conflict(true), p);
      if q == p { Replaced(i, b.files, env, j, p); }
      else { StillTracked(i, b.files, env, j, b.files, p); }
    } else {
      var h := if env.fault.NoFault? then Rebase(i.(cache := i.cache - {q}), q, None, false) else i;
      RebaseAt(i.(cache := i.cache - {q}), q, None, false, p);
      FinishContinues(h, q, k, Conflict(false), p);
      assert j == Finish(h, q, k, Conflict(false)) && SameLocalAt(i, j, p) && (Held(h, p) <==> Held(i, p));
      if q == p && !Held(i, p) { StoredOrLost(i, b.files, env, j, b.files, p); }
      else { StillTracked(i, b.files, env, j, b.files, p); }
    }
  }

  lemma RebaseAt(h: Instance, q: Path, base: Option<ETag>, clean: bool, p: Path)
    requires Orderly(h.queue, h.leases)
    ensures var g := Rebase(h, q, base, clean);
            && Orderly(g.queue, g.leases) && g.local == h.local
            && (LeaseFits(h.leases, p) ==> LeaseFits(g.leases, p)) && (p != q || !clean ==> (Held(g, p) <==> Held(h, p)))
  {
    var g := Rebase(h, q, base, clean);
    assert g.leases.Keys == h.leases.Keys;
    SameKeysOrderly(h.queue, h.leases, g.leases);
    hide Orderly;
  }

  /** The upload goes on with another request. */
  lemma SameUploadFits(i: Instance, files: map<Path, Body>, env: Env, pc: Pc, after: map<Path, Body>, p: Path)
    requires (i.pc.UploadPut? || i.pc.UploadCreate? || i.pc.UploadHead?) && SafeAt(i, p) && InOrder(i)
    requires !Loses(i, files, env, p)
    requires pc.UploadCreate? || pc.UploadHead? || pc.UploadVerify? || pc.Refresh?
    requires pc.path == i.pc.path && pc.k == i.pc.k && (!pc.Refresh? ==> pc.body == i.pc.body)
    ensures StepFits(i, files, env, i.(pc := pc), after, p)
  {
    hide Orderly, StepFits, Loses;
    StillTracked(i, files, env, i.(pc := pc), after, p);
  }

  /** The upload is taken to be over. */
  lemma UploadDoneFits(i: Instance, files: map<Path, Body>, env: Env, tag: ETag, after: map<Path, Body>, p: Path)
    requires (i.pc.UploadPut? || i.pc.UploadCreate? || i.pc.UploadVerify?) && SafeAt(i, p) && InOrder(i)
    requires i.pc.k.ForOpen? ==> i.pc.path !in i.leases
    requires i.pc.path != p ==> !Loses(i, files, env, p)
    requires i.pc.path == p ==> (Loses(i, files, env, p) <==> !InStore(i, after, p) && Upload(p) !in i.queue)
    ensures StepFits(i, files, env, UploadDone(i, i.pc.path, i.pc.body, tag, i.pc.k), after, p)
  {
    hide Orderly, StepFits, Loses, UploadDone;
    var q, body, k := i.pc.path, i.pc.body, i.pc.k;
    UploadDoneContinues(i, q, body, tag, k, p);
    var j := UploadDone(i, q, body, tag, k);
    if q == p && Upload(p) !in i.queue { StoredOrLost(i, files, env, j, after, p); }
    else { StillTracked(i, files, env, j, after, p); }
  }

  lemma UploadFailedFits(i: Instance, files: map<Path, Body>, env: Env, after: map<Path, Body>, p: Path)
    requires (i.pc.UploadCreate? || i.pc.UploadHead? || i.pc.UploadVerify?) && SafeAt(i, p) && InOrder(i)
    requires i.pc.k.ForOpen? ==> i.pc.path !in i.leases
    requires Loses(i, files, env, p) <==> i.pc.path == p && i.pc.k.ForOpen? && !InStore(i, after, p)
    ensures StepFits(i, files, env, UploadFailed(i, i.pc.path, i.pc.k), after, p)
  {
    hide Orderly, StepFits, Loses, UploadFailed;
    var q, k := i.pc.path, i.pc.k;
    UploadFailedContinues(i, q, k, p);
    var j := UploadFailed(i, q, k);
    if q == p && k.ForOpen? { StoredOrLost(i, files, env, j, after, p); }
    else { StillTracked(i, files, env, j, after, p); }
  }

  lemma UploadPutFits(i: Instance, b: Bucket, env: Env, p: Path)
    requires i.pc.UploadPut? && SafeAt(i, p) && InOrder(i) && (i.pc.k.ForOpen? ==> i.pc.path !in i.leases)
    ensures var (j, c) := UploadStep(i, b, env); StepFits(i, b.files, env, j, c.files, p)
  {
    hide InOrder, StepFits, UploadDone, UploadFailed;
    var UploadPut(q, body, cond, k) := i.pc;
    var (after, reply) := Put(b.files, q, body, cond, env.fault);
    match reply
    case Stored(tag) => UploadDoneFits(i, b.files, env, tag, after, p);
    case PutMissing =>
      SameUploadFits(i, b.files, env, UploadCreate(q, body, k), after, p);
      SameUploadFits(i, b.files, env, UploadVerify(q, body, cond, k), after, p);
    case PutRejected =>
      SameUploadFits(i, b.files, env, UploadHead(q, body, k), after, p);
      SameUploadFits(i, b.files, env, Refresh(q, k), after, p);
    case PutBroken => SameUploadFits(i, b.files, env, UploadVerify(q, body, cond, k), after, p);
  }

  lemma UploadCreateFits(i: Instance, b: Bucket, env: Env, p: Path)
    requires i.pc.UploadCreate? && SafeAt(i, p) && InOrder(i) && (i.pc.k.ForOpen? ==> i.pc.path !in i.leases)
    ensures var (j, c) := UploadStep(i, b, env); StepFits(i, b.files, env, j, c.files, p)
  {
    hide InOrder, StepFits, UploadDone, UploadFailed;
    var UploadCreate(q, body, k) := i.pc;
    var (after, reply) := Put(b.files, q, body, IfNoneMatchAny, env.fault);
    match reply
    case Stored(tag) => UploadDoneFits(i, b.files, env, tag, after, p);
    case PutRejected => SameUploadFits(i, b.files, env, Refresh(q, k), after, p);
    case _ => UploadFailedFits(i, b.files, env, after, p);
  }

  lemma UploadHeadFits(i: Instance, b: Bucket, env: Env, p: Path)
    requires (i.pc.UploadHead? || i.pc.UploadVerify?) && SafeAt(i, p) && InOrder(i)
    requires i.pc.k.ForOpen? ==> i.pc.path !in i.leases
    ensures var (j, c) := UploadStep(i, b, env); StepFits(i, b.files, env, j, c.files, p)
  {
    hide InOrder, StepFits, UploadDone, UploadFailed;
    match i.pc
    case UploadHead(q, body, k) => {
      match Get(b.files, q, env.fault)
      case GetBroken => UploadFailedFits(i, b.files, env, b.files, p);
      case Absent => SameUploadFits(i, b.files, env, UploadCreate(q, body, k), b.files, p);
      case Found(_) => SameUploadFits(i, b.files, env, Refresh(q, k), b.files, p);
    }
    case UploadVerify(q, body, cond, k) => {
      if env.fault.NoFault? && q in b.files && (cond.IfNoneMatchAny? || (cond.IfMatch? && ETag(b.files[q]) != cond.tag)) {
        UploadDoneFits(i, b.files, env, ETag(b.files[q]), b.files, p);
      } else {
        UploadFailedFits(i, b.files, env, b.files, p);
      }
    }
  }

  lemma DeleteStepFits(i: Instance, b: Bucket, env: Env, p: Path)
    requires (i.pc.DeleteFile? || i.pc.QueueDelete?) && SafeAt(i, p) && Orderly(i.queue, i.leases)
    ensures var (j, c) := DeleteStep(i, b, env); StepFits(i, b.files, env, j, c.files, p)
  {
    hide StepFits, Finish, FlushNext, Orderly;
    var j := DeleteStep(i, b, env).0;
    match i.pc {
      case DeleteFile(q, _, k) =>
        FinishContinues(i.(cache := i.cache - {q}), q, k, Done, p);
        FinishContinues(i, q, k, Failed, p);
      case QueueDelete(_, _, left) => FlushNextContinues(i, left, p);
    }
    assert !Loses(i, b.files, env, p);
    hide Loses;
    StillTracked(i, b.files, env, j, DeleteStep(i, b, env).1.files, p);
  }

  lemma UnlockFits(cfg: Config, id: InstanceId, i: Instance, b: Bucket, env: Env, p: Path)
    requires i.pc.Unlock? && SafeAt(i, p) && Orderly(i.queue, i.leases)
    ensures var (j, c) := LockStep(cfg, id, i, b, env); StepFits(i, b.files, env, j, c.files, p)
  {
    hide StepFits, ReleaseNext, Orderly;
    var Unlock(q, tag, next) := i.pc;
    var j := LockStep(cfg, id, i, b, env).0;
    if next.AfterClose? {
      var h := i.(leases := i.leases - {q});
      SameKeysOrderly(i.queue, i.leases, h.leases);
      ReleaseNextContinues(h, next.rest, if next.first.Done? then next.ret else next.first, p);
      if q == p && Upload(p) !in i.queue {
        StoredOrLost(i, b.files, env, j, b.files, p);
      } else {
        StillTracked(i, b.files, env, j, b.files, p);
      }
    } else {
      StillTracked(i, b.files, env, j, b.files, p);
    }
  }

  lemma RenewPutFits(cfg: Config, id: InstanceId, i: Instance, b: Bucket, env: Env, p: Path)
    requires i.pc.RenewPut? && SafeAt(i, p)
    ensures var (j, c) := LockStep(cfg, id, i, b, env); StepFits(i, b.files, env, j, c.files, p)
  {
    hide StepFits, RenewNext, Encode;
    var RenewPut(q, tag, record, expiresAt, rest) := i.pc;
    var reply := Put(b.locks, q, Encode(record), IfMatch(tag), env.fault).1;
    var h :=
      if q !in i.leases || reply.PutBroken? then i
      else if reply.Stored? then i.(leases := i.leases[q := i.leases[q].(tag := reply.tag, expiresAt := expiresAt)])
      else i.(leases := i.leases[q := i.leases[q].(lost := true)]);
    RenewNextContinues(cfg, id, h, rest, env, p);
    var j := LockStep(cfg, id, i, b, env).0;
    assert j == RenewNext(cfg, id, h, rest, env);
    assert !Loses(i, b.files, env, p) && (Held(h, p) <==> Held(i, p));
    hide Loses, LockStep;
    StillTracked(i, b.files, env, j, b.files, p);
  }

  lemma PollStepFits(i: Instance, b: Bucket, env: Env, p: Path)
    requires (i.pc.PollList? || i.pc.PollGet?) && SafeAt(i, p) && PcOrderly(i)
    ensures var (j, c) := PollStep(i, b, env); StepFits(i, b.files, env, j, c.files, p)
  {
    hide StepFits, PollNext;
    var j := PollStep(i, b, env).0;
    match i.pc {
      case PollList =>
        PollNextContinues(i, env.order, map q | q in b.files :: ETag(b.files[q]), p);
        PollFits(i, b.files, env, i, j, p);
      case PollGet(q, tail, listing) =>
        PollNextContinues(i, tail, listing, p);
        if q in b.files {
          var h := Download(i, q, b.files[q]);
          PollNextContinues(h, tail, listing, p);
          if q == p { NotHeld(i, p); }
          if env.fault.NoFault? {
            PollFits(i, b.files, env, h, j, p);
          } else {
            PollFits(i, b.files, env, i, j, p);
          }
        } else {
          PollFits(i, b.files, env, i, j, p);
        }
    }
  }

  lemma NotHeld(i: Instance, p: Path)
    requires !Untouchable(i, p) && SafeAt(i, p) && i.pc.PollGet?
    ensures !Pushing(i, p)
  {
    UploadIsPending(i.queue, p);
  }

  lemma UploadIsPending(q: seq<SyncOp>, p: Path)
    ensures Upload(p) in q ==> Pending(q, p)
  {
    if Upload(p) in q {
      var a :| 0 <= a < |q| && q[a] == Upload(p);
      assert q[a].path == p;
    }
  }

  /** A poll may have brought a new copy of a path that had no unsaved write. */
  lemma PollFits(i: Instance, files: map<Path, Body>, env: Env, h: Instance, j: Instance, p: Path)
    requires (i.pc.PollList? || i.pc.PollGet?) && SafeAt(i, p) && h.leases == i.leases && h.queue == i.queue
    requires SameLocalAt(i, h, p) || !Pushing(i, p)
    requires j.leases == h.leases && j.queue == h.queue && PcFits(j, p)
    requires (p in j.local ==> p in h.local && j.local[p] == h.local[p]) && (Held(h, p) && p in h.local ==> p in j.local)
    ensures StepFits(i, files, env, j, files, p)
  {
    assert !Loses(i, files, env, p);
    hide Loses, PcFits;
  }

  /** One request of an instance: it keeps a local copy of `p` on its way to the
      store, or its bytes are in the store, if and only if it is not one of those
      listed. */
  lemma AdvanceKeepsIff(cfg: Config, id: InstanceId, i: Instance, b: Bucket, env: Env, p: Path)
    requires !i.pc.Idle? && InOrder(i) && SafeAt(i, p) && (!i.pc.PollList? ==> SafeAt(i, i.pc.path))
    ensures var (j, c) := Advance(cfg, id, i, b, env); StepFits(i, b.files, env, j, c.files, p)
  {
    hide StepFits, AcquireStep, FileStep, UploadStep, DeleteStep, LockStep, PollStep, Pushing, LeaseFits, Orderly;
    if i.pc.AcquireGet? || i.pc.AcquirePut? || i.pc.AcquireVerify? { AcquireStepFits(cfg, id, i, b, env, p); }
    else if i.pc.HeadFile? { HeadFileFits(i, b, env, p); }
    else if i.pc.GetFile? { GetFileFits(i, b, env, p); }
    else if i.pc.Refresh? { RefreshStepFits(i, b, env, p); }
    else if i.pc.UploadPut? { UploadPutFits(i, b, env, p); }
    else if i.pc.UploadCreate? { UploadCreateFits(i, b, env, p); }
    else if i.pc.UploadHead? || i.pc.UploadVerify? { UploadHeadFits(i, b, env, p); }
    else if i.pc.DeleteFile? || i.pc.QueueDelete? { DeleteStepFits(i, b, env, p); }
    else if i.pc.Unlock? { UnlockFits(cfg, id, i, b, env, p); }
    else if i.pc.RenewPut? { RenewPutFits(cfg, id, i, b, env, p); }
    else { PollStepFits(i, b, env, p); }
  }

  // -------------------------------------------------------------- calls ---

  lemma EnqueueSafe(i: Instance, q: Path, body: Body, p: Path)
    requires i.pc.Idle? && SafeAt(i, p)
    ensures var j := Return(EnqueueUpload(i.(local := i.local[q := body]), q), Done);
            SafeAt(j, p) && (p == q || Pushing(i, p) ==> Pushing(j, p)) && j.local == i.local[q := body]
    ensures var j := Return(EnqueueDelete(i.(local := i.local - {q}), q), Done);
            SafeAt(j, p) && (p != q && Pushing(i, p) ==> Pushing(j, p)) && j.local == i.local - {q}
  {
    WithoutFacts(i.queue, q);
    hide Without;
  }

  /** The local copies after a call has started. */
  function LocalAfter(i: Instance, call: Call): map<Path, Body> {
    match call
    case Write(q, body) => i.local[q := body]
    case Unlink(q) => i.local - {q}
    case _ => i.local
  }

  /** Calls that push nothing and queue nothing. */
  lemma PlainCallSafe(cfg: Config, id: InstanceId, i: Instance, call: Call, env: Env, p: Path)
    requires i.pc.Idle? && SafeAt(i, p) && (call.Open? || call.Poll? || call.ReadThrough? || call.Check? || call.Close?)
    requires call.Close? ==> call.path !in i.leases || 1 < i.leases[call.path].refs
    ensures var j := Begin(cfg, id, i, call, env);
            SafeAt(j, p) && j.local == i.local && (Pushing(i, p) ==> Pushing(j, p))
  {
    hide ReleaseNext;
  }

  /** A call puts what it writes on its way, and takes nothing off it except what
      it unlinks. */
  lemma BeginSafe(cfg: Config, id: InstanceId, i: Instance, call: Call, env: Env, p: Path)
    requires i.pc.Idle? && InOrder(i) && SafeAt(i, p)
    ensures var j := Begin(cfg, id, i, call, env);
            && SafeAt(j, p) && j.local == LocalAfter(i, call)
            && (call.Write? && call.path == p ==> Pushing(j, p))
            && (Pushing(i, p) && !(call.Unlink? && call.path == p) ==> Pushing(j, p))
  {
    hide ReleaseNext, FlushNext, RenewNext, DuePaths, Without, StartUpload, FlushLease, Orderly, EnqueueUpload, EnqueueDelete;
    match call
    case Write(q, body) => EnqueueSafe(i, q, body, p);
    case Unlink(q) => EnqueueSafe(i, q, "", p);
    case Close(q) =>
      if q in i.leases && i.leases[q].refs <= 1 { ReleaseNextContinues(i, [q], Done, p); }
      else { PlainCallSafe(cfg, id, i, call, env, p); }
    case ReleaseAll(paths) => ReleaseNextContinues(i, paths, Done, p);
    case Flush(batch) => FlushNextContinues(i, batch, p);
    case Renew(paths) => RenewNextContinues(cfg, id, i, DuePaths(cfg, i, paths, env.mono), env, p);
    case Fsync(q) => {
      PushContinues(i, q, CondForUpload(i, q), ForSync, p);
      if q in i.leases { FlushLeaseContinues(i, q, i.leases[q], ForSync, p); }
    }
    case SyncNow(q) => PushContinues(i, q, CondForUpload(i, q), ForSync, p);
    case _ => PlainCallSafe(cfg, id, i, call, env, p);
  }

  // --------------------------------------------------------------- runs ---

  /** The bytes `id` has written to `p` that have not been in the store since:
      what its last write put there, unless it has unlinked the file or one of
      its own requests has left the store holding just these bytes. */
  function Owed(cfg: Config, s: System, evs: seq<Event>, id: InstanceId, p: Path): Option<Body> {
    if evs == [] then None
    else
      var prefix, ev := evs[..|evs| - 1], evs[|evs| - 1];
      var t, before := Run(cfg, s, prefix), Owed(cfg, s, prefix, id, p);
      if ev.who != id || id !in t.instances then before
      else OwedAfter(cfg, t, ev, p, before)
  }

  function OwedAfter(cfg: Config, t: System, ev: Event, p: Path, before: Option<Body>): Option<Body>
    requires ev.who in t.instances
  {
    match ev.action
    case Start(call) =>
      if !t.instances[ev.who].pc.Idle? then before
      else if call.Write? && call.path == p then Some(call.body)
      else if call.Unlink? && call.path == p then None
      else before
    case Proceed =>
      var files := Exec(cfg, t, ev).bucket.files;
      if before.Some? && !t.instances[ev.who].pc.Idle? && p in files && files[p] == before.value then None else before
  }

  /** The bytes are in the store, or in place and on their way. */
  predicate Kept(i: Instance, files: map<Path, Body>, p: Path, x: Body) {
    (p in files && files[p] == x) || (Pushing(i, p) && i.local[p] == x)
  }

  /** The local copy is what is owed, and on its way. */
  predicate OnItsWay(i: Instance, p: Path, owed: Option<Body>) {
    owed.Some? ==> Pushing(i, p) && i.local[p] == owed.value
  }

  ghost predicate AllOnTheirWay(cfg: Config, s: System, evs: seq<Event>) {
    forall id, p :: id in Run(cfg, s, evs).instances ==> OnItsWay(Run(cfg, s, evs).instances[id], p, Owed(cfg, s, evs, id, p))
  }

  ghost predicate AllSafe(t: System) {
    forall id, p :: id in t.instances ==> SafeAt(t.instances[id], p)
  }

  /** The event after `evs` is not a request that loses what its instance owes. */
  ghost predicate LosesNone(cfg: Config, s: System, evs: seq<Event>, ev: Event) {
    var t := Run(cfg, s, evs);
    IsRequest(t, ev) ==>
      forall p :: Owed(cfg, s, evs, ev.who, p).Some? ==> !Loses(t.instances[ev.who], t.bucket.files, ev.env, p)
  }

  /** If the event is a request, everything its instance owes is afterwards in the
      store, or in place and on its way. */
  ghost predicate KeepsAll(cfg: Config, s: System, evs: seq<Event>, ev: Event) {
    var t := Run(cfg, s, evs);
    IsRequest(t, ev) ==>
      forall p :: Owed(cfg, s, evs, ev.who, p).Some? ==>
        var (j, c) := Advance(cfg, ev.who, t.instances[ev.who], t.bucket, ev.env);
        Kept(j, c.files, p, Owed(cfg, s, evs, ev.who, p).value)
  }

  ghost predicate RunLosesNone(cfg: Config, s: System, evs: seq<Event>) {
    evs == [] || (RunLosesNone(cfg, s, evs[..|evs| - 1]) && LosesNone(cfg, s, evs[..|evs| - 1], evs[|evs| - 1]))
  }

  ghost predicate RunKeepsAll(cfg: Config, s: System, evs: seq<Event>) {
    evs == [] || (RunKeepsAll(cfg, s, evs[..|evs| - 1]) && KeepsAll(cfg, s, evs[..|evs| - 1], evs[|evs| - 1]))
  }

  /** A request, for one path and what is owed on it. */
  lemma RequestKeepsIff(cfg: Config, t: System, ev: Event, p: Path, owed: Option<Body>)
    requires IsRequest(t, ev) && AllSafe(t) && AllInOrder(t) && OnItsWay(t.instances[ev.who], p, owed)
    ensures var i := t.instances[ev.who];
            var (j, c) := Advance(cfg, ev.who, i, t.bucket, ev.env);
            && SafeAt(j, p)
            && (owed.Some? ==> (Kept(j, c.files, p, owed.value) <==> !Loses(i, t.bucket.files, ev.env, p)))
  {
    hide Advance, SafeAt, InOrder, Loses, Tracked;
    var i := t.instances[ev.who];
    AdvanceKeepsIff(cfg, ev.who, i, t.bucket, ev.env, p);
    var (j, c) := Advance(cfg, ev.who, i, t.bucket, ev.env);
    FitsIsSafe(i, t.bucket.files, ev.env, j, c.files, p);
  }

  lemma FitsIsSafe(i: Instance, files: map<Path, Body>, env: Env, j: Instance, after: map<Path, Body>, p: Path)
    requires StepFits(i, files, env, j, after, p)
    ensures SafeAt(j, p)
    ensures Pushing(i, p) ==> (Keeps(i, j, after, p) <==> !Loses(i, files, env, p))
  {
    hide Loses, PcFits, LeaseFits, Tracked, Keeps;
  }

  /** Any event leaves every instance fit for the next. */
  lemma EventSafe(cfg: Config, t: System, ev: Event)
    requires AllSafe(t) && AllInOrder(t)
    ensures AllSafe(Exec(cfg, t, ev))
  {
    hide Begin, Advance, SafeAt, InOrder;
    if ev.who in t.instances {
      var i := t.instances[ev.who];
      var u := Exec(cfg, t, ev);
      forall p ensures SafeAt(u.instances[ev.who], p) {
        if ev.action.Start? {
          if i.pc.Idle? { BeginSafe(cfg, ev.who, i, ev.action.call, ev.env, p); }
        } else if !i.pc.Idle? {
          RequestKeepsIff(cfg, t, ev, p, None);
        }
      }
    }
  }

  /** What is owed after the event is on its way if what was owed before was, and
      the event, if a request, did not lose it. */
  lemma EventOnItsWay(cfg: Config, t: System, ev: Event, p: Path, owed: Option<Body>)
    requires ev.who in t.instances && AllSafe(t) && AllInOrder(t) && OnItsWay(t.instances[ev.who], p, owed)
    requires IsRequest(t, ev) && owed.Some? ==> !Loses(t.instances[ev.who], t.bucket.files, ev.env, p)
    ensures ev.who in Exec(cfg, t, ev).instances
            && OnItsWay(Exec(cfg, t, ev).instances[ev.who], p, OwedAfter(cfg, t, ev, p, owed))
  {
    hide Begin, Advance, SafeAt, InOrder, Loses, Tracked;
    var i := t.instances[ev.who];
    assert SafeAt(i, p) && InOrder(i);
    if ev.action.Start? {
      if i.pc.Idle? { BeginSafe(cfg, ev.who, i, ev.action.call, ev.env, p); }
    } else if !i.pc.Idle? {
      RequestKeepsIff(cfg, t, ev, p, owed);
    }
  }

  lemma OthersOnTheirWay(cfg: Config, t: System, ev: Event, id: InstanceId)
    requires id in Exec(cfg, t, ev).instances && id != ev.who
    ensures id in t.instances && Exec(cfg, t, ev).instances[id] == t.instances[id]
  {
    hide Begin, Advance;
  }

  lemma StartIsSafe(s: System)
    requires Initial(s)
    ensures AllSafe(s)
  {
    forall id, p | id in s.instances ensures SafeAt(s.instances[id], p) {
      assert Fresh(s.instances[id]);
    }
  }

  lemma {:induction false} RunIsSafe(cfg: Config, s: System, evs: seq<Event>)
    requires Initial(s)
    ensures AllSafe(Run(cfg, s, evs)) && AllInOrder(Run(cfg, s, evs))
  {
    hide Exec, AllSafe, AllInOrder, Initial;
    QueuesStayInOrder(cfg, s, evs);
    if evs == [] {
      StartIsSafe(s);
    } else {
      RunIsSafe(cfg, s, evs[..|evs| - 1]);
      EventSafe(cfg, Run(cfg, s, evs[..|evs| - 1]), evs[|evs| - 1]);
    }
  }

  lemma EventKeepsIff(cfg: Config, s: System, evs: seq<Event>, ev: Event)
    requires Initial(s) && AllOnTheirWay(cfg, s, evs)
    ensures KeepsAll(cfg, s, evs, ev) <==> LosesNone(cfg, s, evs, ev)
    ensures LosesNone(cfg, s, evs, ev) ==> AllOnTheirWay(cfg, s, evs + [ev])
  {
    hide Exec, Advance, AllSafe, AllInOrder, Initial, Loses, Kept, OnItsWay, OwedAfter;
    RunIsSafe(cfg, s, evs);
    var t := Run(cfg, s, evs);
    if IsRequest(t, ev) {
      forall p | Owed(cfg, s, evs, ev.who, p).Some?
        ensures var (j, c) := Advance(cfg, ev.who, t.instances[ev.who], t.bucket, ev.env);
                Kept(j, c.files, p, Owed(cfg, s, evs, ev.who, p).value) <==> !Loses(t.instances[ev.who], t.bucket.files, ev.env, p)
      {
        RequestKeepsIff(cfg, t, ev, p, Owed(cfg, s, evs, ev.who, p));
      }
    }
    if LosesNone(cfg, s, evs, ev) {
      var more := evs + [ev];
      assert more[..|more| - 1] == evs && more[|more| - 1] == ev;
      assert Run(cfg, s, more) == Exec(cfg, t, ev);
      forall id, p | id in Run(cfg, s, more).instances
        ensures OnItsWay(Run(cfg, s, more).instances[id], p, Owed(cfg, s, more, id, p))
      {
        if id != ev.who { OthersOnTheirWay(cfg, t, ev, id); }
        else if id in t.instances { EventOnItsWay(cfg, t, ev, p, Owed(cfg, s, evs, id, p)); }
        else { NobodyNew(cfg, t, ev); }
      }
    }
  }

  lemma NobodyNew(cfg: Config, t: System, ev: Event)
    ensures Exec(cfg, t, ev).instances.Keys == t.instances.Keys
  {
    hide Begin, Advance;
  }

  /** In every run, faults included, every request keeps everything its instance
      owes, in the store or on its way, if and only if no request is one of those
      listed; and as long as none is, each local copy that is owed holds the bytes
      written and is queued, on a dirty lease, or being uploaded. */
  lemma {:induction false} WritesSurvive(cfg: Config, s: System, evs: seq<Event>)
    requires Initial(s)
    ensures RunKeepsAll(cfg, s, evs) <==> RunLosesNone(cfg, s, evs)
    ensures RunLosesNone(cfg, s, evs) ==> AllOnTheirWay(cfg, s, evs)
  {
    hide Run, KeepsAll, LosesNone, Initial;
    if evs != [] {
      var prefix, ev := evs[..|evs| - 1], evs[|evs| - 1];
      hide AllOnTheirWay;
      WritesSurvive(cfg, s, prefix);
      if RunLosesNone(cfg, s, prefix) {
        EventKeepsIff(cfg, s, prefix, ev);
        assert prefix + [ev] == evs;
      }
    }
  }
}
