/** The multi-instance sync protocol as a transition system.

    Several instances share one bucket. An instance has one thread of control:
    it is idle, or it is inside one call and about to issue one store request.
    `Begin` starts a call and runs it up to its first store request; `Advance`
    performs the pending request and runs on to the next one. The environment
    interleaves instances freely between requests and chooses clock readings,
    store faults and the order in which hash maps are walked.

    File locks are enabled. Paths are canonical, so the keys `files/<path>` and
    `locks/<path>` are two disjoint maps indexed by path. */
module SyncProtocol {
  import opened LockRecords
  import opened ObjectStores

  type Path = string
  type Body = string
  type InstanceId = string

  datatype Bucket = Bucket(files: map<Path, Body>, locks: map<Path, Body>)

  /** Bookkeeping for a lease this instance holds. */
  datatype Lease = Lease(
    base: Option<ETag>, tag: ETag, epoch: nat, expiresAt: nat, refs: nat,
    dirty: bool, pendingDelete: bool, lost: bool, releasing: bool)

  datatype SyncOp = Upload(path: Path) | Delete(path: Path, tag: Option<ETag>)

  datatype Outcome = Done | Busy | Conflict(refreshed: bool) | Failed

  /** A lock object acquired by an open that has not finished yet. */
  datatype Hold = Hold(tag: ETag, epoch: nat, expiresAt: nat)

  /** What to do once an upload, or the refresh after a lost one, is over. */
  datatype Cont =
    | ForOpen(hold: Hold)
    | ForClose(tag: ETag, rest: seq<Path>, first: Outcome)
    | ForSync
    | ForQueue(left: nat)

  datatype After =
    | AfterOpen(ret: Outcome)
    | AfterClose(ret: Outcome, rest: seq<Path>, first: Outcome)

  /** Every constructor but `Idle` names the store request about to be made. */
  datatype Pc =
    | Idle(ret: Outcome)
    | AcquireGet(path: Path)
    | AcquirePut(path: Path, seen: Option<ETag>, record: LockRecord, expiresAt: nat, readAt: nat)
    | AcquireVerify(path: Path, record: LockRecord, expiresAt: nat, rejected: bool)
    | HeadFile(path: Path, opening: Option<Hold>)
    | GetFile(path: Path, opening: Option<Hold>)
    | UploadPut(path: Path, body: Body, cond: Precondition, k: Cont)
    | UploadCreate(path: Path, body: Body, k: Cont)
    | UploadHead(path: Path, body: Body, k: Cont)
    | UploadVerify(path: Path, body: Body, cond: Precondition, k: Cont)
    | Refresh(path: Path, k: Cont)
    | DeleteFile(path: Path, base: ETag, k: Cont)
    | QueueDelete(path: Path, known: Option<ETag>, left: nat)
    | Unlock(path: Path, tag: ETag, next: After)
    | RenewPut(path: Path, tag: ETag, record: LockRecord, expiresAt: nat, rest: seq<Path>)
    | PollList
    | PollGet(path: Path, tail: seq<Path>, listing: map<Path, ETag>)

  /** `version` is history: the body last downloaded into, or uploaded from,
      the local copy of each path. No step reads it. */
  datatype Instance = Instance(
    local: map<Path, Body>, cache: map<Path, ETag>, leases: map<Path, Lease>,
    queue: seq<SyncOp>, pc: Pc, version: map<Path, Body>)

  datatype Config = Config(lease: nat)

  /** Choices of the environment: the two clocks of the acting instance, its
      acquire deadline, the fate of the request, the order of a listing. */
  datatype Env = Env(wall: nat, mono: nat, timedOut: bool, fault: Fault, order: seq<Path>)

  datatype Call =
    | Write(path: Path, body: Body)
    | Unlink(path: Path)
    | Open(path: Path)
    | Close(path: Path)
    | Fsync(path: Path)
    | SyncNow(path: Path)
    | ReleaseAll(paths: seq<Path>)
    | Flush(batch: nat)
    | Renew(paths: seq<Path>)
    | Poll
    | ReadThrough(path: Path)
    | Check(path: Path)

  // ------------------------------------------------------- local bookkeeping ---

  function Wrap64(n: nat): nat {
    n % (U64_MAX + 1)
  }

  function BaseCond(base: Option<ETag>): Precondition {
    if base.Some? then IfMatch(base.value) else IfNoneMatchAny
  }

  function CondForUpload(i: Instance, p: Path): Precondition {
    if p in i.leases then BaseCond(i.leases[p].base)
    else if p in i.cache then IfMatch(i.cache[p])
    else IfNoneMatchAny
  }

  /** The queue without any operation on `p`. */
  function Without(q: seq<SyncOp>, p: Path): seq<SyncOp> {
    if q == [] then [] else (if q[0].path == p then [] else [q[0]]) + Without(q[1..], p)
  }

  /** The queue without uploads of `p`. */
  function WithoutUpload(q: seq<SyncOp>, p: Path): seq<SyncOp> {
    if q == [] then [] else (if q[0] == Upload(p) then [] else [q[0]]) + WithoutUpload(q[1..], p)
  }

  predicate Pending(q: seq<SyncOp>, p: Path) {
    exists j :: 0 <= j < |q| && q[j].path == p
  }

  function EnqueueUpload(i: Instance, p: Path): Instance {
    if p in i.leases then i.(leases := i.leases[p := i.leases[p].(dirty := true, pendingDelete := false)])
    else i.(queue := Without(i.queue, p) + [Upload(p)])
  }

  function EnqueueDelete(i: Instance, p: Path): Instance {
    if p in i.leases then i.(leases := i.leases[p := i.leases[p].(dirty := false, pendingDelete := true)])
    else
      var known := if p in i.cache then Some(i.cache[p]) else None;
      i.(cache := i.cache - {p}, queue := Without(i.queue, p) + [Delete(p, known)])
  }

  /** Replace the local copy by a downloaded body. */
  function Download(i: Instance, p: Path, body: Body): Instance {
    i.(local := i.local[p := body], cache := i.cache[p := ETag(body)], version := i.version[p := body])
  }

  function Rebase(i: Instance, p: Path, base: Option<ETag>, clean: bool): Instance {
    if p in i.leases then i.(leases := i.leases[p := i.leases[p].(base := base, dirty := i.leases[p].dirty && !clean)])
    else i
  }

  // ------------------------------------------------------------ control flow ---

  function Return(i: Instance, ret: Outcome): Instance {
    i.(pc := Idle(ret))
  }

  function StartUpload(i: Instance, p: Path, cond: Precondition, k: Cont): Instance {
    if p in i.local then i.(pc := UploadPut(p, i.local[p], cond, k)) else UploadFailed(i, p, k)
  }

  /** The upload failed for a reason other than a lost condition. */
  function UploadFailed(i: Instance, p: Path, k: Cont): Instance {
    match k
    case ForQueue(_) => Return(i.(queue := i.queue + [Upload(p)]), Failed)
    case _ => Finish(i, p, k, Failed)
  }

  /** The body is in the store under `tag`. */
  function UploadDone(i: Instance, p: Path, body: Body, tag: ETag, k: Cont): Instance {
    var j := Rebase(i.(cache := i.cache[p := tag], version := i.version[p := body]), p, Some(tag), true);
    match k
    case ForOpen(hold) => Opened(j, p, hold, Some(tag))
    case _ => Finish(j, p, k, Done)
  }

  function Finish(i: Instance, p: Path, k: Cont, ret: Outcome): Instance {
    match k
    case ForOpen(hold) => i.(pc := Unlock(p, hold.tag, AfterOpen(ret)))
    case ForClose(tag, rest, first) => i.(pc := Unlock(p, tag, AfterClose(ret, rest, first)))
    case ForSync => Return(i, ret)
    case ForQueue(left) => FlushNext(i, left)
  }

  function FlushNext(i: Instance, left: nat): Instance
    decreases left
  {
    if left == 0 || i.queue == [] then Return(i, Done)
    else
      var j := i.(queue := i.queue[1..]);
      match i.queue[0]
      case Delete(p, known) => j.(pc := QueueDelete(p, known, left - 1))
      case Upload(p) =>
        if p in i.leases then FlushNext(j, left - 1)
        else if p in i.local then j.(pc := UploadPut(p, i.local[p], CondForUpload(i, p), ForQueue(left - 1)))
        else Return(j.(queue := j.queue + [Upload(p)]), Failed)
  }

  function Opened(i: Instance, p: Path, hold: Hold, base: Option<ETag>): Instance {
    Return(i.(leases := i.leases[p := Lease(base, hold.tag, hold.epoch, hold.expiresAt, 1, false, false, false, false)]), Done)
  }

  function HeadDone(i: Instance, p: Path, opening: Option<Hold>, base: Option<ETag>): Instance {
    if opening.Some? then Opened(i, p, opening.value, base) else Return(i, Done)
  }

  function HeadFailed(i: Instance, p: Path, opening: Option<Hold>): Instance {
    if opening.Some? then i.(pc := Unlock(p, opening.value.tag, AfterOpen(Failed))) else Return(i, Failed)
  }

  /** The lock object is ours: push a queued upload of the path first, else
      adopt the remote version. */
  function Acquired(i: Instance, p: Path, hold: Hold): Instance {
    if Upload(p) in i.queue then
      StartUpload(i.(queue := WithoutUpload(i.queue, p)), p, CondForUpload(i, p), ForOpen(hold))
    else i.(pc := HeadFile(p, Some(hold)))
  }

  function AcquireRetry(i: Instance, p: Path, env: Env): Instance {
    if env.timedOut then Return(i, Busy) else i.(pc := AcquireGet(p))
  }

  /** Push the pending change of a leased path. */
  function FlushLease(i: Instance, p: Path, l: Lease, k: Cont): Instance {
    if l.pendingDelete then
      if l.base.None? then Finish(i.(cache := i.cache - {p}), p, k, Done) else i.(pc := DeleteFile(p, l.base.value, k))
    else if !l.dirty then Finish(i, p, k, Done)
    else StartUpload(i, p, BaseCond(l.base), k)
  }

  function ReleaseNext(i: Instance, paths: seq<Path>, first: Outcome): Instance
    decreases |paths|
  {
    if paths == [] then Return(i, first)
    else
      var p := paths[0];
      if p !in i.leases then ReleaseNext(i, paths[1..], first)
      else
        var l := i.leases[p].(releasing := true);
        FlushLease(i.(leases := i.leases[p := l]), p, l, ForClose(l.tag, paths[1..], first))
  }

  predicate Due(cfg: Config, l: Lease, mono: nat) {
    !l.releasing && !l.lost && l.expiresAt <= mono + cfg.lease / 2
  }

  function DuePaths(cfg: Config, i: Instance, paths: seq<Path>, mono: nat): seq<Path> {
    if paths == [] then []
    else (if paths[0] in i.leases && Due(cfg, i.leases[paths[0]], mono) then [paths[0]] else []) + DuePaths(cfg, i, paths[1..], mono)
  }

  function RenewNext(cfg: Config, id: InstanceId, i: Instance, paths: seq<Path>, env: Env): Instance
    decreases |paths|
  {
    if paths == [] then Return(i, Done)
    else if paths[0] !in i.leases then RenewNext(cfg, id, i, paths[1..], env)
    else
      var l := i.leases[paths[0]];
      i.(pc := RenewPut(paths[0], l.tag, LockRecord(id, l.epoch, Wrap64(env.wall + cfg.lease), paths[0]), env.mono + cfg.lease, paths[1..]))
  }

  /** Paths with a lease or a pending operation are left alone by polling. */
  predicate Untouchable(i: Instance, p: Path) {
    p in i.leases || Pending(i.queue, p)
  }

  function PollNext(i: Instance, tail: seq<Path>, listing: map<Path, ETag>): Instance
    decreases |tail|
  {
    if tail == [] then Return(PollSweep(i, listing.Keys), Done)
    else
      var p := tail[0];
      if p !in listing || (p in i.cache && i.cache[p] == listing[p]) || Untouchable(i, p)
      then PollNext(i, tail[1..], listing)
      else i.(pc := PollGet(p, tail[1..], listing))
  }

  /** Drop local copies whose object is gone from the listing. */
  function PollSweep(i: Instance, listed: set<Path>): Instance {
    var gone := set p | p in i.cache && p in i.local && p !in listed && !Untouchable(i, p);
    i.(local := i.local - gone, cache := i.cache - gone)
  }

  // ------------------------------------------------------------------- steps ---

  /** Start a call on an idle instance. */
  function Begin(cfg: Config, id: InstanceId, i: Instance, call: Call, env: Env): Instance
    requires i.pc.Idle?
  {
    match call
    case Write(p, body) => Return(EnqueueUpload(i.(local := i.local[p := body]), p), Done)
    case Unlink(p) => if p in i.local then Return(EnqueueDelete(i.(local := i.local - {p}), p), Done) else Return(i, Failed)
    case Open(p) =>
      if p in i.leases then Return(i.(leases := i.leases[p := i.leases[p].(refs := i.leases[p].refs + 1)]), Done)
      else i.(pc := AcquireGet(p))
    case Close(p) =>
      if p !in i.leases then Return(i, Done)
      else if 1 < i.leases[p].refs then Return(i.(leases := i.leases[p := i.leases[p].(refs := i.leases[p].refs - 1)]), Done)
      else ReleaseNext(i, [p], Done)
    case Fsync(p) =>
      if p !in i.leases then StartUpload(i, p, CondForUpload(i, p), ForSync)
      else if i.leases[p].dirty || i.leases[p].pendingDelete then FlushLease(i, p, i.leases[p], ForSync)
      else Return(i, Done)
    case SyncNow(p) => StartUpload(i, p, CondForUpload(i, p), ForSync)
    case ReleaseAll(paths) => ReleaseNext(i, paths, Done)
    case Flush(batch) => FlushNext(i, batch)
    case Renew(paths) =>
      if (set p | p in paths) == i.leases.Keys then RenewNext(cfg, id, i, DuePaths(cfg, i, paths, env.mono), env) else i
    case Poll => i.(pc := PollList)
    case ReadThrough(p) => if p in i.leases then Return(i, Done) else i.(pc := GetFile(p, None))
    case Check(p) => if p in i.leases then Return(i, Done) else i.(pc := HeadFile(p, None))
  }

  function AcquireStep(cfg: Config, id: InstanceId, i: Instance, b: Bucket, env: Env): (Instance, Bucket)
    requires i.pc.AcquireGet? || i.pc.AcquirePut? || i.pc.AcquireVerify?
  {
    match i.pc
    case AcquireGet(p) => (
      match Get(b.locks, p, env.fault)
      case GetBroken => Return(i, Failed)
      case Absent =>
        i.(pc := AcquirePut(p, None, LockRecord(id, 1, Wrap64(env.wall + cfg.lease), p), env.mono + cfg.lease, env.wall))
      case Found(body) =>
        var held := Parse(body);
        if held.None? || IsExpired(held.value, env.wall) then
          var epoch := if held.Some? then Wrap64(held.value.epoch + 1) else 1;
          i.(pc := AcquirePut(p, Some(ETag(body)), LockRecord(id, epoch, Wrap64(env.wall + cfg.lease), p), env.mono + cfg.lease, env.wall))
        else AcquireRetry(i, p, env), b)
    // A PUT that is neither stored nor broken was refused, and is tried again. A
    // creating PUT is refused only by its condition here; the code would not retry
    // one refused for a missing key, which no reply of this store to a creating
    // PUT is.
    case AcquirePut(p, seen, record, expiresAt, _) =>
      var (locks, reply) := Put(b.locks, p, Encode(record), BaseCond(seen), env.fault);
      (match reply
       case Stored(tag) => Acquired(i, p, Hold(tag, record.epoch, expiresAt))
       case PutBroken => i.(pc := AcquireVerify(p, record, expiresAt, false))
       case _ => i.(pc := AcquireVerify(p, record, expiresAt, true)), b.(locks := locks))
    case AcquireVerify(p, record, expiresAt, rejected) => (
      match Get(b.locks, p, env.fault)
      case Found(body) =>
        var found := Parse(body);
        if found.Some? && found.value.instance == id && found.value.epoch == record.epoch then
          Acquired(i, p, Hold(ETag(body), record.epoch, expiresAt))
        else if rejected then AcquireRetry(i, p, env) else Return(i, Failed)
      case _ => if rejected then AcquireRetry(i, p, env) else Return(i, Failed), b)
  }

  function FileStep(i: Instance, b: Bucket, env: Env): (Instance, Bucket)
    requires i.pc.HeadFile? || i.pc.GetFile? || i.pc.Refresh?
  {
    (match i.pc
     case HeadFile(p, opening) => (
       match Get(b.files, p, env.fault)
       case GetBroken => HeadFailed(i, p, opening)
       case Absent => HeadDone(i, p, opening, None)
       case Found(body) =>
         if p in i.cache && i.cache[p] == ETag(body) then HeadDone(i, p, opening, Some(ETag(body)))
         else i.(pc := GetFile(p, opening)))
     case GetFile(p, opening) => (
       match Get(b.files, p, env.fault)
       case GetBroken => HeadFailed(i, p, opening)
       case Absent => HeadDone(i, p, opening, None)
       case Found(body) => HeadDone(Download(i, p, body), p, opening, Some(ETag(body))))
     case Refresh(p, k) => (
       match Get(b.files, p, env.fault)
       case GetBroken => Finish(i, p, k, Conflict(false))
       case Absent => Finish(Rebase(i.(cache := i.cache - {p}), p, None, false), p, k, Conflict(false))
       case Found(body) => Finish(Rebase(Download(i, p, body), p, Some(ETag(body)), true), p, k, Conflict(true))), b)
  }

  function UploadStep(i: Instance, b: Bucket, env: Env): (Instance, Bucket)
    requires i.pc.UploadPut? || i.pc.UploadCreate? || i.pc.UploadHead? || i.pc.UploadVerify?
  {
    match i.pc
    case UploadPut(p, body, cond, k) =>
      var (files, reply) := Put(b.files, p, body, cond, env.fault);
      (match reply
       case Stored(tag) => UploadDone(i, p, body, tag, k)
       case PutMissing => if cond.IfMatch? then i.(pc := UploadCreate(p, body, k)) else i.(pc := UploadVerify(p, body, cond, k))
       case PutRejected => if cond.IfNoneMatchAny? then i.(pc := UploadHead(p, body, k)) else i.(pc := Refresh(p, k))
       case PutBroken => i.(pc := UploadVerify(p, body, cond, k)), b.(files := files))
    case UploadCreate(p, body, k) =>
      var (files, reply) := Put(b.files, p, body, IfNoneMatchAny, env.fault);
      (match reply
       case Stored(tag) => UploadDone(i, p, body, tag, k)
       case PutRejected => i.(pc := Refresh(p, k))
       case _ => UploadFailed(i, p, k), b.(files := files))
    case UploadHead(p, body, k) => (
      match Get(b.files, p, env.fault)
      case GetBroken => UploadFailed(i, p, k)
      case Absent => i.(pc := UploadCreate(p, body, k))
      case Found(_) => i.(pc := Refresh(p, k)), b)
    case UploadVerify(p, body, cond, k) => (
      match Get(b.files, p, env.fault)
      case Found(there) =>
        if cond.IfNoneMatchAny? || (cond.IfMatch? && ETag(there) != cond.tag) then UploadDone(i, p, body, ETag(there), k)
        else UploadFailed(i, p, k)
      case _ => UploadFailed(i, p, k), b)
  }

  function DeleteStep(i: Instance, b: Bucket, env: Env): (Instance, Bucket)
    requires i.pc.DeleteFile? || i.pc.QueueDelete?
  {
    match i.pc
    case DeleteFile(p, base, k) =>
      var (files, reply) := Remove(b.files, p, IfMatch(base), env.fault);
      (match reply
       case Deleted => Finish(i.(cache := i.cache - {p}), p, k, Done)
       case DeleteRejected => i.(pc := Refresh(p, k))
       case DeleteBroken => Finish(i, p, k, Failed), b.(files := files))
    case QueueDelete(p, known, left) =>
      var (files, reply) := Remove(b.files, p, if known.Some? then IfMatch(known.value) else Unconditional, env.fault);
      (match reply
       case DeleteRejected => i.(pc := Refresh(p, ForQueue(left)))
       case _ => FlushNext(i, left), b.(files := files))
  }

  function LockStep(cfg: Config, id: InstanceId, i: Instance, b: Bucket, env: Env): (Instance, Bucket)
    requires i.pc.Unlock? || i.pc.RenewPut?
  {
    match i.pc
    case Unlock(p, tag, next) =>
      var (locks, _) := Remove(b.locks, p, IfMatch(tag), env.fault);
      (match next
       case AfterOpen(ret) => Return(i, ret)
       case AfterClose(ret, rest, first) =>
         ReleaseNext(i.(leases := i.leases - {p}), rest, if first.Done? then ret else first), b.(locks := locks))
    case RenewPut(p, tag, record, expiresAt, rest) =>
      var (locks, reply) := Put(b.locks, p, Encode(record), IfMatch(tag), env.fault);
      var j :=
        if p !in i.leases || reply.PutBroken? then i
        else if reply.Stored? then i.(leases := i.leases[p := i.leases[p].(tag := reply.tag, expiresAt := expiresAt)])
        else i.(leases := i.leases[p := i.leases[p].(lost := true)]);
      (RenewNext(cfg, id, j, rest, env), b.(locks := locks))
  }

  function PollStep(i: Instance, b: Bucket, env: Env): (Instance, Bucket)
    requires i.pc.PollList? || i.pc.PollGet?
  {
    (match i.pc
     case PollList =>
       if env.fault.Faulty? then Return(i, Failed)
       else if (set p | p in env.order) != b.files.Keys then i
       else PollNext(i, env.order, map p | p in b.files :: ETag(b.files[p]))
     case PollGet(p, tail, listing) => (
       match Get(b.files, p, env.fault)
       case Found(body) => PollNext(Download(i, p, body), tail, listing)
       case _ => PollNext(i, tail, listing)), b)
  }

  /** Perform the pending store request of instance `id`. */
  function Advance(cfg: Config, id: InstanceId, i: Instance, b: Bucket, env: Env): (Instance, Bucket)
    requires !i.pc.Idle?
  {
    match i.pc
    case AcquireGet(_) => AcquireStep(cfg, id, i, b, env)
    case AcquirePut(_, _, _, _, _) => AcquireStep(cfg, id, i, b, env)
    case AcquireVerify(_, _, _, _) => AcquireStep(cfg, id, i, b, env)
    case HeadFile(_, _) => FileStep(i, b, env)
    case GetFile(_, _) => FileStep(i, b, env)
    case Refresh(_, _) => FileStep(i, b, env)
    case UploadPut(_, _, _, _) => UploadStep(i, b, env)
    case UploadCreate(_, _, _) => UploadStep(i, b, env)
    case UploadHead(_, _, _) => UploadStep(i, b, env)
    case UploadVerify(_, _, _, _) => UploadStep(i, b, env)
    case DeleteFile(_, _, _) => DeleteStep(i, b, env)
    case QueueDelete(_, _, _) => DeleteStep(i, b, env)
    case Unlock(_, _, _) => LockStep(cfg, id, i, b, env)
    case RenewPut(_, _, _, _, _) => LockStep(cfg, id, i, b, env)
    case PollList => PollStep(i, b, env)
    case PollGet(_, _, _) => PollStep(i, b, env)
  }

  // ------------------------------------------------------------------- runs ---

  datatype System = System(bucket: Bucket, instances: map<InstanceId, Instance>)

  datatype Action = Start(call: Call) | Proceed

  datatype Event = Event(who: InstanceId, action: Action, env: Env)

  /** One event. An event that does not fit the state of its instance is a stutter. */
  function Exec(cfg: Config, s: System, ev: Event): System {
    if ev.who !in s.instances then s
    else
      var i := s.instances[ev.who];
      match ev.action
      case Start(call) => if i.pc.Idle? then s.(instances := s.instances[ev.who := Begin(cfg, ev.who, i, call, ev.env)]) else s
      case Proceed =>
        if i.pc.Idle? then s
        else
          var (j, b) := Advance(cfg, ev.who, i, s.bucket, ev.env);
          System(b, s.instances[ev.who := j])
  }

  /** Every sequence of events is a run. */
  function Run(cfg: Config, s: System, evs: seq<Event>): System {
    if evs == [] then s else Exec(cfg, Run(cfg, s, evs[..|evs| - 1]), evs[|evs| - 1])
  }

  /** The event is a request of its instance. */
  predicate IsRequest(s: System, ev: Event) {
    ev.who in s.instances && ev.action.Proceed? && !s.instances[ev.who].pc.Idle?
  }

  /** The store fails only by rejecting conditions. */
  predicate Reliable(evs: seq<Event>) {
    forall k :: 0 <= k < |evs| ==> evs[k].env.fault.NoFault?
  }

  /** An instance as it starts: nothing leased, queued or in flight, and each
      cached tag is that of the local copy. */
  predicate Fresh(i: Instance) {
    && i.leases == map[] && i.queue == [] && i.pc == Idle(Done)
    && i.cache.Keys <= i.local.Keys
    && (forall p :: p in i.cache ==> i.cache[p] == ETag(i.local[p]) && p in i.version && i.version[p] == i.local[p])
  }

  predicate Initial(s: System) {
    forall id :: id in s.instances ==> Fresh(s.instances[id])
  }
}
