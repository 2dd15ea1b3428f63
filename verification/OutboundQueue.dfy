/** The outbound queue over all runs, faults included: at most one operation per
    path, and never an upload of a leased path. */
module OutboundQueue {
  import opened LockRecords
  import opened ObjectStores
  import opened SyncProtocol

  predicate OnePerPath(q: seq<SyncOp>) {
    forall a, b :: 0 <= a < b < |q| ==> q[a].path != q[b].path
  }

  predicate NoLeasedUpload(q: seq<SyncOp>, leases: map<Path, Lease>) {
    forall a :: 0 <= a < |q| && q[a].Upload? ==> q[a].path !in leases
  }

  predicate Orderly(q: seq<SyncOp>, leases: map<Path, Lease>) {
    OnePerPath(q) && NoLeasedUpload(q, leases)
  }

  /** An upload taken from the queue may be put back; a path being opened has
      no queued upload. */
  predicate ContOrderly(i: Instance, p: Path, k: Cont) {
    && (k.ForQueue? ==> !Pending(i.queue, p) && p !in i.leases)
    && (k.ForOpen? ==> Upload(p) !in i.queue)
  }

  predicate PcOrderly(i: Instance) {
    match i.pc
    case HeadFile(p, opening) => opening.Some? ==> Upload(p) !in i.queue
    case GetFile(p, opening) => opening.Some? ==> Upload(p) !in i.queue
    case UploadPut(p, _, _, k) => ContOrderly(i, p, k)
    case UploadCreate(p, _, k) => ContOrderly(i, p, k)
    case UploadHead(p, _, k) => ContOrderly(i, p, k)
    case UploadVerify(p, _, _, k) => ContOrderly(i, p, k)
    case PollGet(p, _, _) => !Untouchable(i, p)
    case _ => true
  }

  predicate InOrder(i: Instance) {
    Orderly(i.queue, i.leases) && PcOrderly(i)
  }

  // ------------------------------------------------------- the queue itself ---

  lemma {:induction false} WithoutFacts(q: seq<SyncOp>, p: Path)
    ensures forall op :: op in Without(q, p) <==> op in q && op.path != p
    ensures OnePerPath(q) ==> OnePerPath(Without(q, p))
  {
    if q != [] {
      WithoutFacts(q[1..], p);
      var rest := Without(q[1..], p);
      assert forall op :: op in q <==> op == q[0] || op in q[1..];
      if OnePerPath(q) {
        assert OnePerPath(q[1..]);
        forall b | 0 <= b < |rest| ensures rest[b].path != q[0].path {
          assert rest[b] in q[1..];
        }
      }
    }
  }

  lemma {:induction false} WithoutUploadFacts(q: seq<SyncOp>, p: Path)
    ensures forall op :: op in WithoutUpload(q, p) <==> op in q && op != Upload(p)
    ensures OnePerPath(q) ==> OnePerPath(WithoutUpload(q, p))
  {
    if q != [] {
      WithoutUploadFacts(q[1..], p);
      var rest := WithoutUpload(q[1..], p);
      assert forall op :: op in q <==> op == q[0] || op in q[1..];
      if OnePerPath(q) {
        assert OnePerPath(q[1..]);
        forall b | 0 <= b < |rest| ensures rest[b].path != q[0].path {
          assert rest[b] in q[1..];
        }
      }
    }
  }

  lemma AppendOrderly(q: seq<SyncOp>, op: SyncOp, leases: map<Path, Lease>)
    requires Orderly(q, leases) && !Pending(q, op.path) && (op.Upload? ==> op.path !in leases)
    ensures Orderly(q + [op], leases)
  {
  }

  lemma ReplaceOrderly(q: seq<SyncOp>, op: SyncOp, leases: map<Path, Lease>)
    requires Orderly(q, leases) && (op.Upload? ==> op.path !in leases)
    ensures Orderly(Without(q, op.path) + [op], leases)
  {
    WithoutFacts(q, op.path);
    var rest := Without(q, op.path);
    forall a | 0 <= a < |rest| ensures rest[a].path != op.path && (rest[a].Upload? ==> rest[a].path !in leases) {
      assert rest[a] in q;
    }
  }

  /** Taking the head leaves no operation on its path behind. */
  lemma PopOrderly(q: seq<SyncOp>, leases: map<Path, Lease>)
    requires Orderly(q, leases) && q != []
    ensures Orderly(q[1..], leases) && !Pending(q[1..], q[0].path) && (q[0].Upload? ==> q[0].path !in leases)
  {
  }

  lemma SameKeysOrderly(q: seq<SyncOp>, leases: map<Path, Lease>, after: map<Path, Lease>)
    requires Orderly(q, leases) && after.Keys <= leases.Keys
    ensures Orderly(q, after)
  {
    assert forall p :: p in after ==> p in after.Keys;
  }

  // --------------------------------------------------- control flow keeps it ---

  /** The flush never meets an upload of a leased path, so its skip is dead code. */
  lemma FlushNextInOrder(i: Instance, left: nat)
    requires Orderly(i.queue, i.leases)
    ensures InOrder(FlushNext(i, left))
    ensures left != 0 && i.queue != [] && i.queue[0].Upload? ==> i.queue[0].path !in i.leases
  {
    if left != 0 && i.queue != [] {
      PopOrderly(i.queue, i.leases);
      if i.queue[0].Upload? && i.queue[0].path !in i.local { AppendOrderly(i.queue[1..], i.queue[0], i.leases); }
    }
    hide Orderly;
  }

  lemma FinishInOrder(i: Instance, p: Path, k: Cont, ret: Outcome)
    requires Orderly(i.queue, i.leases)
    ensures InOrder(Finish(i, p, k, ret))
  {
    hide Orderly, FlushNext;
    if k.ForQueue? { FlushNextInOrder(i, k.left); }
  }

  lemma UploadFailedInOrder(i: Instance, p: Path, k: Cont)
    requires Orderly(i.queue, i.leases) && ContOrderly(i, p, k)
    ensures InOrder(UploadFailed(i, p, k))
  {
    if k.ForQueue? { AppendOrderly(i.queue, Upload(p), i.leases); }
    hide Orderly, Finish;
    if !k.ForQueue? { FinishInOrder(i, p, k, Failed); }
  }

  lemma StartUploadInOrder(i: Instance, p: Path, cond: Precondition, k: Cont)
    requires Orderly(i.queue, i.leases) && ContOrderly(i, p, k)
    ensures InOrder(StartUpload(i, p, cond, k))
  {
    hide Orderly, UploadFailed;
    UploadFailedInOrder(i, p, k);
  }

  lemma OpenedInOrder(i: Instance, p: Path, hold: Hold, base: Option<ETag>)
    requires Orderly(i.queue, i.leases) && Upload(p) !in i.queue
    ensures InOrder(Opened(i, p, hold, base))
  {
    forall a | 0 <= a < |i.queue| && i.queue[a].Upload? ensures i.queue[a].path != p {
      assert i.queue[a] in i.queue;
    }
  }

  lemma RebaseKeys(i: Instance, p: Path, base: Option<ETag>, clean: bool)
    ensures Rebase(i, p, base, clean).leases.Keys == i.leases.Keys && Rebase(i, p, base, clean).queue == i.queue
  {
  }

  lemma UploadDoneInOrder(i: Instance, p: Path, body: Body, tag: ETag, k: Cont)
    requires Orderly(i.queue, i.leases) && ContOrderly(i, p, k)
    ensures InOrder(UploadDone(i, p, body, tag, k))
  {
    hide Orderly, Finish, Opened, Rebase;
    var h := i.(cache := i.cache[p := tag], version := i.version[p := body]);
    var j := Rebase(h, p, Some(tag), true);
    RebaseKeys(h, p, Some(tag), true);
    SameKeysOrderly(i.queue, i.leases, j.leases);
    if k.ForOpen? { OpenedInOrder(j, p, k.hold, Some(tag)); } else { FinishInOrder(j, p, k, Done); }
  }

  lemma FlushLeaseInOrder(i: Instance, p: Path, l: Lease, k: Cont)
    requires Orderly(i.queue, i.leases) && (k.ForClose? || k.ForSync?)
    ensures InOrder(FlushLease(i, p, l, k))
  {
    hide Orderly, Finish, StartUpload;
    FinishInOrder(i.(cache := i.cache - {p}), p, k, Done);
    FinishInOrder(i, p, k, Done);
    StartUploadInOrder(i, p, BaseCond(l.base), k);
  }

  lemma {:induction false} ReleaseNextInOrder(i: Instance, paths: seq<Path>, first: Outcome)
    requires Orderly(i.queue, i.leases)
    ensures InOrder(ReleaseNext(i, paths, first))
    decreases |paths|
  {
    hide Orderly, FlushLease;
    if paths != [] {
      var p := paths[0];
      if p !in i.leases {
        ReleaseNextInOrder(i, paths[1..], first);
      } else {
        var l := i.leases[p].(releasing := true);
        SameKeysOrderly(i.queue, i.leases, i.leases[p := l]);
        FlushLeaseInOrder(i.(leases := i.leases[p := l]), p, l, ForClose(l.tag, paths[1..], first));
      }
    }
  }

  lemma {:induction false} RenewNextInOrder(cfg: Config, id: InstanceId, i: Instance, paths: seq<Path>, env: Env)
    requires Orderly(i.queue, i.leases)
    ensures InOrder(RenewNext(cfg, id, i, paths, env))
    decreases |paths|
  {
    hide Orderly;
    if paths != [] && paths[0] !in i.leases { RenewNextInOrder(cfg, id, i, paths[1..], env); }
  }

  lemma {:induction false} PollNextInOrder(i: Instance, tail: seq<Path>, listing: map<Path, ETag>)
    requires Orderly(i.queue, i.leases)
    ensures InOrder(PollNext(i, tail, listing))
    decreases |tail|
  {
    hide Orderly;
    if tail != [] { PollNextInOrder(i, tail[1..], listing); }
  }

  lemma AcquiredInOrder(i: Instance, p: Path, hold: Hold)
    requires Orderly(i.queue, i.leases)
    ensures InOrder(Acquired(i, p, hold))
  {
    WithoutUploadFacts(i.queue, p);
    var rest := WithoutUpload(i.queue, p);
    forall a | 0 <= a < |rest| && rest[a].Upload? ensures rest[a].path !in i.leases { assert rest[a] in i.queue; }
    assert Orderly(rest, i.leases);
    hide Orderly, StartUpload, WithoutUpload;
    if Upload(p) in i.queue { StartUploadInOrder(i.(queue := rest), p, CondForUpload(i, p), ForOpen(hold)); }
  }

  // -------------------------------------------------------- every step keeps it ---

  lemma LocalCallInOrder(i: Instance, call: Call)
    requires Orderly(i.queue, i.leases)
    ensures call.Write? ==> InOrder(Return(EnqueueUpload(i.(local := i.local[call.path := call.body]), call.path), Done))
    ensures call.Unlink? ==> InOrder(Return(EnqueueDelete(i.(local := i.local - {call.path}), call.path), Done))
    ensures call.Open? && call.path in i.leases ==>
              Orderly(i.queue, i.leases[call.path := i.leases[call.path].(refs := i.leases[call.path].refs + 1)])
    ensures call.Close? && call.path in i.leases && 1 < i.leases[call.path].refs ==>
              Orderly(i.queue, i.leases[call.path := i.leases[call.path].(refs := i.leases[call.path].refs - 1)])
  {
    if call.Write? && call.path !in i.leases { ReplaceOrderly(i.queue, Upload(call.path), i.leases); }
    if call.Unlink? && call.path !in i.leases {
      ReplaceOrderly(i.queue, Delete(call.path, if call.path in i.cache then Some(i.cache[call.path]) else None), i.leases);
    }
  }

  lemma BeginInOrder(cfg: Config, id: InstanceId, i: Instance, call: Call, env: Env)
    requires i.pc.Idle? && InOrder(i)
    ensures InOrder(Begin(cfg, id, i, call, env))
  {
    hide Orderly, ReleaseNext, FlushNext, RenewNext, DuePaths, StartUpload, FlushLease, EnqueueUpload, EnqueueDelete;
    LocalCallInOrder(i, call);
    match call
    case Close(p) => ReleaseNextInOrder(i, [p], Done);
    case ReleaseAll(paths) => ReleaseNextInOrder(i, paths, Done);
    case Flush(batch) => FlushNextInOrder(i, batch);
    case Renew(paths) => RenewNextInOrder(cfg, id, i, DuePaths(cfg, i, paths, env.mono), env);
    case Fsync(p) =>
      StartUploadInOrder(i, p, CondForUpload(i, p), ForSync);
      if p in i.leases { FlushLeaseInOrder(i, p, i.leases[p], ForSync); }
    case SyncNow(p) => StartUploadInOrder(i, p, CondForUpload(i, p), ForSync);
    case _ =>
  }

  lemma FileStepInOrder(i: Instance, b: Bucket, env: Env)
    requires (i.pc.HeadFile? || i.pc.GetFile? || i.pc.Refresh?) && InOrder(i)
    ensures InOrder(FileStep(i, b, env).0)
  {
    hide Orderly, Finish, Opened, Rebase;
    var p := i.pc.path;
    if i.pc.Refresh? {
      var k := i.pc.k;
      FinishInOrder(i, p, k, Conflict(false));
      var gone := i.(cache := i.cache - {p});
      RebaseKeys(gone, p, None, false);
      SameKeysOrderly(i.queue, i.leases, Rebase(gone, p, None, false).leases);
      FinishInOrder(Rebase(gone, p, None, false), p, k, Conflict(false));
      if p in b.files {
        var there, tag := Download(i, p, b.files[p]), Some(ETag(b.files[p]));
        RebaseKeys(there, p, tag, true);
        SameKeysOrderly(i.queue, i.leases, Rebase(there, p, tag, true).leases);
        FinishInOrder(Rebase(there, p, tag, true), p, k, Conflict(true));
      }
    } else if i.pc.opening.Some? {
      var hold := i.pc.opening.value;
      OpenedInOrder(i, p, hold, None);
      if p in b.files {
        OpenedInOrder(i, p, hold, Some(ETag(b.files[p])));
        OpenedInOrder(Download(i, p, b.files[p]), p, hold, Some(ETag(b.files[p])));
      }
    }
  }

  /** The upload goes on with another request. */
  lemma SameUploadInOrder(i: Instance, pc: Pc)
    requires (i.pc.UploadPut? || i.pc.UploadCreate? || i.pc.UploadHead?) && InOrder(i)
    requires (pc.UploadCreate? || pc.UploadHead? || pc.UploadVerify? || pc.Refresh?) && pc.path == i.pc.path && pc.k == i.pc.k
    ensures InOrder(i.(pc := pc))
  {
    hide Orderly;
  }

  lemma UploadFits(i: Instance)
    requires (i.pc.UploadPut? || i.pc.UploadCreate? || i.pc.UploadHead? || i.pc.UploadVerify?) && InOrder(i)
    ensures Orderly(i.queue, i.leases) && ContOrderly(i, i.pc.path, i.pc.k)
  {
    hide Orderly;
  }

  lemma UploadStepInOrder(i: Instance, b: Bucket, env: Env)
    requires (i.pc.UploadPut? || i.pc.UploadCreate? || i.pc.UploadHead? || i.pc.UploadVerify?) && InOrder(i)
    ensures InOrder(UploadStep(i, b, env).0)
  {
    hide InOrder, Orderly, ContOrderly, UploadDone, UploadFailed;
    var p, body, k := i.pc.path, i.pc.body, i.pc.k;
    UploadFits(i);
    UploadFailedInOrder(i, p, k);
    UploadDoneInOrder(i, p, body, ETag(body), k);
    if p in b.files { UploadDoneInOrder(i, p, body, ETag(b.files[p]), k); }
    if !i.pc.UploadVerify? {
      SameUploadInOrder(i, UploadCreate(p, body, k));
      SameUploadInOrder(i, UploadHead(p, body, k));
      SameUploadInOrder(i, Refresh(p, k));
      if i.pc.UploadPut? { SameUploadInOrder(i, UploadVerify(p, body, i.pc.cond, k)); }
    }
  }

  lemma DeleteStepInOrder(i: Instance, b: Bucket, env: Env)
    requires (i.pc.DeleteFile? || i.pc.QueueDelete?) && InOrder(i)
    ensures InOrder(DeleteStep(i, b, env).0)
  {
    hide Orderly, Finish, FlushNext;
    match i.pc
    case DeleteFile(p, _, k) =>
      FinishInOrder(i.(cache := i.cache - {p}), p, k, Done);
      FinishInOrder(i, p, k, Failed);
    case QueueDelete(_, _, left) => FlushNextInOrder(i, left);
  }

  lemma LockStepInOrder(cfg: Config, id: InstanceId, i: Instance, b: Bucket, env: Env)
    requires (i.pc.Unlock? || i.pc.RenewPut?) && InOrder(i)
    ensures InOrder(LockStep(cfg, id, i, b, env).0)
  {
    hide Orderly, ReleaseNext, RenewNext, Encode;
    var p := i.pc.path;
    SameKeysOrderly(i.queue, i.leases, i.leases - {p});
    match i.pc
    case Unlock(_, _, next) =>
      if next.AfterClose? {
        ReleaseNextInOrder(i.(leases := i.leases - {p}), next.rest, if next.first.Done? then next.ret else next.first);
      }
    case RenewPut(_, tag, record, expiresAt, rest) =>
      RenewNextInOrder(cfg, id, i, rest, env);
      if p in i.leases {
        var renewed := i.leases[p := i.leases[p].(tag := ETag(Encode(record)), expiresAt := expiresAt)];
        var lost := i.leases[p := i.leases[p].(lost := true)];
        SameKeysOrderly(i.queue, i.leases, renewed);
        SameKeysOrderly(i.queue, i.leases, lost);
        RenewNextInOrder(cfg, id, i.(leases := renewed), rest, env);
        RenewNextInOrder(cfg, id, i.(leases := lost), rest, env);
      }
  }

  lemma OtherStepInOrder(cfg: Config, id: InstanceId, i: Instance, b: Bucket, env: Env)
    requires InOrder(i)
    ensures i.pc.AcquireGet? || i.pc.AcquirePut? || i.pc.AcquireVerify? ==> InOrder(AcquireStep(cfg, id, i, b, env).0)
    ensures i.pc.PollList? || i.pc.PollGet? ==> InOrder(PollStep(i, b, env).0)
  {
    hide Orderly, Acquired, PollNext, Parse, Encode;
    match i.pc
    case AcquirePut(p, _, record, expiresAt, _) => AcquiredInOrder(i, p, Hold(ETag(Encode(record)), record.epoch, expiresAt));
    case AcquireVerify(p, record, expiresAt, _) =>
      if p in b.locks { AcquiredInOrder(i, p, Hold(ETag(b.locks[p]), record.epoch, expiresAt)); }
    case PollList => PollNextInOrder(i, env.order, map p | p in b.files :: ETag(b.files[p]));
    case PollGet(p, tail, listing) =>
      PollNextInOrder(i, tail, listing);
      if p in b.files { PollNextInOrder(Download(i, p, b.files[p]), tail, listing); }
    case _ =>
  }

  lemma AdvanceInOrder(cfg: Config, id: InstanceId, i: Instance, b: Bucket, env: Env)
    requires !i.pc.Idle? && InOrder(i)
    ensures InOrder(Advance(cfg, id, i, b, env).0)
  {
    hide InOrder, AcquireStep, FileStep, UploadStep, DeleteStep, LockStep, PollStep;
    if i.pc.HeadFile? || i.pc.GetFile? || i.pc.Refresh? { FileStepInOrder(i, b, env); }
    else if i.pc.UploadPut? || i.pc.UploadCreate? || i.pc.UploadHead? || i.pc.UploadVerify? { UploadStepInOrder(i, b, env); }
    else if i.pc.DeleteFile? || i.pc.QueueDelete? { DeleteStepInOrder(i, b, env); }
    else if i.pc.Unlock? || i.pc.RenewPut? { LockStepInOrder(cfg, id, i, b, env); }
    else { OtherStepInOrder(cfg, id, i, b, env); }
  }

  predicate AllInOrder(s: System) {
    forall id :: id in s.instances ==> InOrder(s.instances[id])
  }

  /** In every run, whatever fails and however instances interleave, every
      queue holds at most one operation per path and no upload of a leased path. */
  lemma {:induction false} QueuesStayInOrder(cfg: Config, s: System, evs: seq<Event>)
    requires Initial(s)
    ensures AllInOrder(Run(cfg, s, evs))
  {
    if evs == [] {
      assert AllInOrder(s);
    } else {
      hide InOrder, Begin, Advance, Initial;
      var before, ev := Run(cfg, s, evs[..|evs| - 1]), evs[|evs| - 1];
      QueuesStayInOrder(cfg, s, evs[..|evs| - 1]);
      if ev.who in before.instances {
        var i := before.instances[ev.who];
        if ev.action.Proceed? {
          if !i.pc.Idle? { AdvanceInOrder(cfg, ev.who, i, before.bucket, ev.env); }
        } else if i.pc.Idle? {
          BeginInOrder(cfg, ev.who, i, ev.action.call, ev.env);
        }
      }
    }
  }

  // -------------------------------------------------------------- polling ---

  predicate SameLocal(a: map<Path, Body>, b: map<Path, Body>, p: Path) {
    (p in a <==> p in b) && (p in a ==> a[p] == b[p])
  }

  lemma {:induction false} PollNextKeeps(i: Instance, tail: seq<Path>, listing: map<Path, ETag>, q: Path)
    requires Untouchable(i, q)
    ensures SameLocal(i.local, PollNext(i, tail, listing).local, q)
    decreases |tail|
  {
    if tail != [] { PollNextKeeps(i, tail[1..], listing, q); }
  }

  /** In every run no poll request changes the local bytes of a path that is
      leased or has a pending operation. */
  lemma PollNeverTouches(cfg: Config, s: System, evs: seq<Event>, ev: Event, q: Path)
    requires Initial(s)
    ensures var t := Run(cfg, s, evs);
            ev.who in t.instances && (t.instances[ev.who].pc.PollList? || t.instances[ev.who].pc.PollGet?)
              && Untouchable(t.instances[ev.who], q) && ev.action.Proceed? ==>
              SameLocal(t.instances[ev.who].local, Exec(cfg, t, ev).instances[ev.who].local, q)
  {
    hide Run, Initial, AcquireStep, FileStep, UploadStep, DeleteStep, LockStep, Begin, PollNext, Orderly;
    QueuesStayInOrder(cfg, s, evs);
    var t := Run(cfg, s, evs);
    if ev.who in t.instances && Untouchable(t.instances[ev.who], q) {
      var i := t.instances[ev.who];
      assert InOrder(i);
      match i.pc
      case PollList => PollNextKeeps(i, ev.env.order, map p | p in t.bucket.files :: ETag(t.bucket.files[p]), q);
      case PollGet(p, tail, listing) =>
        PollNextKeeps(i, tail, listing, q);
        if p in t.bucket.files { PollNextKeeps(Download(i, p, t.bucket.files[p]), tail, listing, q); }
      case _ =>
    }
  }
}
