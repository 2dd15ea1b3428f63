/** Timed runs on a shared clock, and why every event keeps held locks alive.

    All instances read one clock, and an instance that holds or is taking a
    lease completes a renewal tick at least every half lease, a tick taking no
    time. Then the lock object always is the holder's own live record. */
module LeaseTiming {
  import opened LockRecords
  import opened ObjectStores
  import opened SyncProtocol
  import opened LockChanges

  // --------------------------------------------------------------- timed runs ---

  /** `stamps` is the time of each instance's last renewal tick, or of stamping
      the record of its first lease. */
  datatype Timed = Timed(sys: System, now: nat, stamps: map<InstanceId, nat>)

  /** The instance holds a lock object, or is about to write one. */
  predicate Engaged(i: Instance) {
    i.leases != map[] || i.pc.AcquirePut? || Opening(i.pc).Some?
  }

  /** The tag of a lock object held by an open in progress. */
  function Opening(pc: Pc): Option<ETag> {
    match pc
    case HeadFile(_, opening) => if opening.Some? then Some(opening.value.tag) else None
    case GetFile(_, opening) => if opening.Some? then Some(opening.value.tag) else None
    case UploadPut(_, _, _, k) => if k.ForOpen? then Some(k.hold.tag) else None
    case UploadCreate(_, _, k) => if k.ForOpen? then Some(k.hold.tag) else None
    case UploadHead(_, _, k) => if k.ForOpen? then Some(k.hold.tag) else None
    case UploadVerify(_, _, _, k) => if k.ForOpen? then Some(k.hold.tag) else None
    case Refresh(_, k) => if k.ForOpen? then Some(k.hold.tag) else None
    case Unlock(_, tag, next) => if next.AfterOpen? then Some(tag) else None
    case _ => None
  }

  /** Tags of the leases in the table. */
  function LeaseTags(leases: map<Path, Lease>): map<Path, ETag> {
    map p | p in leases :: leases[p].tag
  }

  /** Every lock object this instance holds, by path. */
  function Held(i: Instance): map<Path, ETag> {
    if Opening(i.pc).Some? then LeaseTags(i.leases)[i.pc.path := Opening(i.pc).value] else LeaseTags(i.leases)
  }

  function HeldWith(leases: map<Path, Lease>, p: Path, k: Cont): map<Path, ETag> {
    if k.ForOpen? then LeaseTags(leases)[p := k.hold.tag] else LeaseTags(leases)
  }

  /** The event completes a renewal tick, or stamps a first lease. */
  predicate Freshens(before: Instance, ev: Event, after: Instance) {
    || (after.pc.Idle? && (before.pc.RenewPut? || (before.pc.Idle? && ev.action.Start? && ev.action.call.Renew?
                                                   && (set p | p in ev.action.call.paths) == before.leases.Keys)))
    || (after.pc.AcquirePut? && before.pc.AcquireGet? && before.leases == map[])
  }

  function TimedExec(cfg: Config, t: Timed, ev: Event): Timed {
    var u := Exec(cfg, t.sys, ev);
    Timed(u, ev.env.wall,
          if ev.who in t.sys.instances && ev.who in u.instances && Freshens(t.sys.instances[ev.who], ev, u.instances[ev.who])
          then t.stamps[ev.who := ev.env.wall] else t.stamps)
  }

  function TimedRun(cfg: Config, t: Timed, evs: seq<Event>): Timed {
    if evs == [] then t else TimedExec(cfg, TimedRun(cfg, t, evs[..|evs| - 1]), evs[|evs| - 1])
  }

  /** One clock, no faults, ticks on time, renewal instantaneous. */
  predicate OnTime(cfg: Config, t: Timed, ev: Event) {
    && ev.env.fault.NoFault?
    && ev.env.wall == ev.env.mono && t.now <= ev.env.wall && ev.env.wall + cfg.lease <= U64_MAX
    && (forall id :: id in t.sys.instances ==>
          && id in t.stamps
          && (Engaged(t.sys.instances[id]) ==> ev.env.wall <= t.stamps[id] + cfg.lease / 2)
          && (t.sys.instances[id].pc.RenewPut? ==> ev.env.wall == t.now))
  }

  predicate Timely(cfg: Config, t: Timed, evs: seq<Event>) {
    evs == [] || (Timely(cfg, t, evs[..|evs| - 1]) && OnTime(cfg, TimedRun(cfg, t, evs[..|evs| - 1]), evs[|evs| - 1]))
  }

  // ---------------------------------------------------------------- invariant ---

  function Expires(tag: ETag): nat {
    if Parse(tag.of).Some? then Parse(tag.of).value.expires else 0
  }

  /** The lock object is the one tagged, and it lives past `limit`. */
  predicate Live(locks: map<Path, Body>, p: Path, tag: ETag, limit: nat) {
    p in locks && locks[p] == tag.of && limit < Expires(tag)
  }

  predicate LeasesLive(leases: map<Path, Lease>, locks: map<Path, Body>, limit: nat) {
    forall p :: p in leases ==>
      Live(locks, p, leases[p].tag, limit) && leases[p].expiresAt == Expires(leases[p].tag) && !leases[p].lost
  }

  /** Only leases in `closing` are being released. */
  predicate ReleasingOnly(leases: map<Path, Lease>, closing: set<Path>) {
    forall p :: p in leases && leases[p].releasing ==> p in closing
  }

  predicate HoldLive(leases: map<Path, Lease>, p: Path, hold: Hold, locks: map<Path, Body>, limit: nat) {
    p !in leases && Live(locks, p, hold.tag, limit) && hold.expiresAt == Expires(hold.tag)
  }

  predicate ContLive(leases: map<Path, Lease>, p: Path, k: Cont, locks: map<Path, Body>, limit: nat) {
    && (k.ForOpen? ==> HoldLive(leases, p, k.hold, locks, limit))
    && (k.ForClose? ==> p in leases && leases[p].tag == k.tag)
    && ReleasingOnly(leases, if k.ForClose? then {p} else {})
  }

  predicate PcLive(cfg: Config, i: Instance, locks: map<Path, Body>, limit: nat, now: nat) {
    match i.pc
    case AcquireGet(p) => p !in i.leases && ReleasingOnly(i.leases, {})
    case AcquirePut(p, seen, record, expiresAt, readAt) =>
      p !in i.leases && ReleasingOnly(i.leases, {}) && record.expires == expiresAt && limit < expiresAt && readAt <= now
    case AcquireVerify(p, _, _, _) => p !in i.leases && ReleasingOnly(i.leases, {})
    case HeadFile(p, opening) => ReleasingOnly(i.leases, {}) && (opening.Some? ==> HoldLive(i.leases, p, opening.value, locks, limit))
    case GetFile(p, opening) => ReleasingOnly(i.leases, {}) && (opening.Some? ==> HoldLive(i.leases, p, opening.value, locks, limit))
    case UploadPut(p, _, _, k) => ContLive(i.leases, p, k, locks, limit)
    case UploadCreate(p, _, k) => ContLive(i.leases, p, k, locks, limit)
    case UploadHead(p, _, k) => ContLive(i.leases, p, k, locks, limit)
    case UploadVerify(p, _, _, k) => ContLive(i.leases, p, k, locks, limit)
    case Refresh(p, k) => ContLive(i.leases, p, k, locks, limit)
    case DeleteFile(p, _, k) => ContLive(i.leases, p, k, locks, limit) && !k.ForOpen?
    case Unlock(p, tag, next) =>
      if next.AfterOpen? then p !in i.leases && Live(locks, p, tag, limit) && ReleasingOnly(i.leases, {})
      else p in i.leases && i.leases[p].tag == tag && ReleasingOnly(i.leases, {p})
    case RenewPut(p, tag, record, expiresAt, rest) =>
      && p in i.leases && i.leases[p].tag == tag && ReleasingOnly(i.leases, {})
      && record.expires == expiresAt == now + cfg.lease
      && (forall q :: q in i.leases ==> q == p || q in rest || now + cfg.lease / 2 < i.leases[q].expiresAt)
    case _ => ReleasingOnly(i.leases, {})
  }

  predicate InstanceLive(cfg: Config, i: Instance, locks: map<Path, Body>, limit: nat, now: nat) {
    LeasesLive(i.leases, locks, limit) && PcLive(cfg, i, locks, limit, now)
  }

  /** Updating a lease in place without touching its lock changes nothing here. */
  lemma Touch(leases: map<Path, Lease>, p: Path, l: Lease, locks: map<Path, Body>, limit: nat, closing: set<Path>)
    requires p in leases && LeasesLive(leases, locks, limit) && ReleasingOnly(leases, closing)
    requires l.tag == leases[p].tag && l.expiresAt == leases[p].expiresAt && l.lost == leases[p].lost
    ensures LeasesLive(leases[p := l], locks, limit)
    ensures LeaseTags(leases[p := l]) == LeaseTags(leases)
    ensures ReleasingOnly(leases[p := l], if l.releasing then closing + {p} else closing)
  {
    hide Live, Expires;
  }

  lemma RebaseLive(i: Instance, p: Path, k: Cont, base: Option<ETag>, clean: bool, locks: map<Path, Body>, limit: nat)
    requires LeasesLive(i.leases, locks, limit) && ContLive(i.leases, p, k, locks, limit)
    ensures LeasesLive(Rebase(i, p, base, clean).leases, locks, limit)
    ensures ContLive(Rebase(i, p, base, clean).leases, p, k, locks, limit)
    ensures LeaseTags(Rebase(i, p, base, clean).leases) == LeaseTags(i.leases)
  {
    hide Live, Expires, LeasesLive, LeaseTags;
    if p in i.leases {
      Touch(i.leases, p, i.leases[p].(base := base, dirty := i.leases[p].dirty && !clean), locks, limit, if k.ForClose? then {p} else {});
    }
  }

  // ---------------------------------------------------- control flow keeps it ---

  lemma {:induction false} FlushNextLive(cfg: Config, i: Instance, left: nat, locks: map<Path, Body>, limit: nat, now: nat)
    requires LeasesLive(i.leases, locks, limit) && ReleasingOnly(i.leases, {})
    ensures InstanceLive(cfg, FlushNext(i, left), locks, limit, now)
    ensures Held(FlushNext(i, left)) == LeaseTags(i.leases)
    decreases left
  {
    hide Expires, Live, LeasesLive, LeaseTags, ReleasingOnly, CondForUpload;
    if left != 0 && i.queue != [] && i.queue[0].Upload? && i.queue[0].path in i.leases {
      FlushNextLive(cfg, i.(queue := i.queue[1..]), left - 1, locks, limit, now);
    }
  }

  lemma FinishLive(cfg: Config, i: Instance, p: Path, k: Cont, ret: Outcome, locks: map<Path, Body>, limit: nat, now: nat)
    requires LeasesLive(i.leases, locks, limit) && ContLive(i.leases, p, k, locks, limit)
    ensures InstanceLive(cfg, Finish(i, p, k, ret), locks, limit, now)
    ensures Held(Finish(i, p, k, ret)) == HeldWith(i.leases, p, k)
  {
    hide Expires, Live, LeasesLive, LeaseTags, FlushNext;
    if k.ForQueue? { FlushNextLive(cfg, i, k.left, locks, limit, now); }
  }

  lemma UploadFailedLive(cfg: Config, i: Instance, p: Path, k: Cont, locks: map<Path, Body>, limit: nat, now: nat)
    requires LeasesLive(i.leases, locks, limit) && ContLive(i.leases, p, k, locks, limit)
    ensures InstanceLive(cfg, UploadFailed(i, p, k), locks, limit, now)
    ensures Held(UploadFailed(i, p, k)) == HeldWith(i.leases, p, k)
  {
    hide Parse, Finish;
    if !k.ForQueue? { FinishLive(cfg, i, p, k, Failed, locks, limit, now); }
  }

  lemma StartUploadLive(cfg: Config, i: Instance, p: Path, cond: Precondition, k: Cont, locks: map<Path, Body>, limit: nat, now: nat)
    requires LeasesLive(i.leases, locks, limit) && ContLive(i.leases, p, k, locks, limit)
    ensures InstanceLive(cfg, StartUpload(i, p, cond, k), locks, limit, now)
    ensures Held(StartUpload(i, p, cond, k)) == HeldWith(i.leases, p, k)
  {
    hide Parse, UploadFailed;
    if p !in i.local { UploadFailedLive(cfg, i, p, k, locks, limit, now); }
  }

  lemma OpenedLive(cfg: Config, i: Instance, p: Path, hold: Hold, base: Option<ETag>, locks: map<Path, Body>, limit: nat, now: nat)
    requires LeasesLive(i.leases, locks, limit) && HoldLive(i.leases, p, hold, locks, limit) && ReleasingOnly(i.leases, {})
    ensures InstanceLive(cfg, Opened(i, p, hold, base), locks, limit, now)
    ensures Held(Opened(i, p, hold, base)) == LeaseTags(i.leases)[p := hold.tag]
  {
    hide Parse;
  }

  lemma UploadDoneLive(cfg: Config, i: Instance, p: Path, body: Body, tag: ETag, k: Cont, locks: map<Path, Body>, limit: nat, now: nat)
    requires LeasesLive(i.leases, locks, limit) && ContLive(i.leases, p, k, locks, limit)
    ensures InstanceLive(cfg, UploadDone(i, p, body, tag, k), locks, limit, now)
    ensures Held(UploadDone(i, p, body, tag, k)) == HeldWith(i.leases, p, k)
  {
    hide Live, Expires, LeasesLive, LeaseTags, Finish, Opened, Rebase;
    var h := i.(cache := i.cache[p := tag], version := i.version[p := body]);
    var j := Rebase(h, p, Some(tag), true);
    RebaseLive(h, p, k, Some(tag), true, locks, limit);
    if k.ForOpen? { OpenedLive(cfg, j, p, k.hold, Some(tag), locks, limit, now); }
    else { FinishLive(cfg, j, p, k, Done, locks, limit, now); }
  }

  lemma FlushLeaseLive(cfg: Config, i: Instance, p: Path, l: Lease, k: Cont, locks: map<Path, Body>, limit: nat, now: nat)
    requires LeasesLive(i.leases, locks, limit) && ContLive(i.leases, p, k, locks, limit) && !k.ForOpen?
    ensures InstanceLive(cfg, FlushLease(i, p, l, k), locks, limit, now)
    ensures Held(FlushLease(i, p, l, k)) == LeaseTags(i.leases)
  {
    hide Parse, Finish, StartUpload;
    if l.pendingDelete {
      if l.base.None? { FinishLive(cfg, i.(cache := i.cache - {p}), p, k, Done, locks, limit, now); }
    } else if !l.dirty {
      FinishLive(cfg, i, p, k, Done, locks, limit, now);
    } else {
      StartUploadLive(cfg, i, p, BaseCond(l.base), k, locks, limit, now);
    }
  }

  lemma {:induction false} ReleaseNextLive(cfg: Config, i: Instance, paths: seq<Path>, first: Outcome, locks: map<Path, Body>, limit: nat, now: nat)
    requires LeasesLive(i.leases, locks, limit) && ReleasingOnly(i.leases, {})
    ensures InstanceLive(cfg, ReleaseNext(i, paths, first), locks, limit, now)
    ensures Held(ReleaseNext(i, paths, first)) == LeaseTags(i.leases)
    decreases |paths|
  {
    hide Live, Expires, LeasesLive, LeaseTags, FlushLease;
    if paths != [] {
      var p := paths[0];
      if p !in i.leases {
        ReleaseNextLive(cfg, i, paths[1..], first, locks, limit, now);
      } else {
        var l := i.leases[p].(releasing := true);
        Touch(i.leases, p, l, locks, limit, {});
        FlushLeaseLive(cfg, i.(leases := i.leases[p := l]), p, l, ForClose(l.tag, paths[1..], first), locks, limit, now);
      }
    }
  }

  lemma {:induction false} PollNextLive(cfg: Config, i: Instance, tail: seq<Path>, listing: map<Path, ETag>, locks: map<Path, Body>, limit: nat, now: nat)
    requires LeasesLive(i.leases, locks, limit) && ReleasingOnly(i.leases, {})
    ensures InstanceLive(cfg, PollNext(i, tail, listing), locks, limit, now)
    ensures Held(PollNext(i, tail, listing)) == LeaseTags(i.leases)
    decreases |tail|
  {
    hide Parse;
    if tail != [] { PollNextLive(cfg, i, tail[1..], listing, locks, limit, now); }
  }

  lemma HeadDoneLive(cfg: Config, i: Instance, p: Path, opening: Option<Hold>, base: Option<ETag>, locks: map<Path, Body>, limit: nat, now: nat)
    requires LeasesLive(i.leases, locks, limit) && ReleasingOnly(i.leases, {})
    requires opening.Some? ==> HoldLive(i.leases, p, opening.value, locks, limit)
    ensures InstanceLive(cfg, HeadDone(i, p, opening, base), locks, limit, now)
    ensures InstanceLive(cfg, HeadFailed(i, p, opening), locks, limit, now)
    ensures Held(HeadDone(i, p, opening, base)) == Held(HeadFailed(i, p, opening))
            == if opening.Some? then LeaseTags(i.leases)[p := opening.value.tag] else LeaseTags(i.leases)
  {
    hide Parse, Opened;
    if opening.Some? { OpenedLive(cfg, i, p, opening.value, base, locks, limit, now); }
  }

  lemma AcquiredLive(cfg: Config, i: Instance, p: Path, hold: Hold, locks: map<Path, Body>, limit: nat, now: nat)
    requires LeasesLive(i.leases, locks, limit) && HoldLive(i.leases, p, hold, locks, limit) && ReleasingOnly(i.leases, {})
    ensures InstanceLive(cfg, Acquired(i, p, hold), locks, limit, now)
    ensures Held(Acquired(i, p, hold)) == LeaseTags(i.leases)[p := hold.tag]
  {
    hide Parse, WithoutUpload, StartUpload;
    StartUploadLive(cfg, i.(queue := WithoutUpload(i.queue, p)), p, CondForUpload(i, p), ForOpen(hold), locks, limit, now);
  }

  // ----------------------------------------------------------------- renewals ---

  /** Every lease not in `paths` lives for more than half a lease from `now`. */
  predicate OthersFresh(cfg: Config, leases: map<Path, Lease>, paths: seq<Path>, now: nat) {
    forall q :: q in leases ==> q in paths || now + cfg.lease / 2 < leases[q].expiresAt
  }

  lemma {:induction false} DuePathsCoverDue(cfg: Config, i: Instance, paths: seq<Path>, now: nat)
    ensures forall q :: q in paths && q in i.leases && Due(cfg, i.leases[q], now) ==> q in DuePaths(cfg, i, paths, now)
  {
    if paths != [] {
      DuePathsCoverDue(cfg, i, paths[1..], now);
      forall q | q in paths && q in i.leases && Due(cfg, i.leases[q], now) ensures q in DuePaths(cfg, i, paths, now) {
        if q != paths[0] { assert q in paths[1..]; }
      }
    }
  }

  /** A tick in progress keeps the old limit; once it is over every lease lives
      for more than half a lease, which is the limit of the new stamp. */
  lemma {:induction false} RenewNextLive(cfg: Config, id: InstanceId, i: Instance, paths: seq<Path>, env: Env, locks: map<Path, Body>, limit: nat)
    requires LeasesLive(i.leases, locks, limit) && ReleasingOnly(i.leases, {}) && OthersFresh(cfg, i.leases, paths, env.wall)
    requires env.wall == env.mono && env.wall + cfg.lease <= U64_MAX
    ensures var j := RenewNext(cfg, id, i, paths, env);
            && (j.pc.RenewPut? ==> InstanceLive(cfg, j, locks, limit, env.wall))
            && (j.pc.Idle? ==> InstanceLive(cfg, j, locks, env.wall + cfg.lease / 2, env.wall))
            && (j.pc.RenewPut? || j.pc.Idle?)
    ensures Held(RenewNext(cfg, id, i, paths, env)) == LeaseTags(i.leases)
    decreases |paths|
  {
    hide Parse;
    if paths != [] {
      if paths[0] !in i.leases {
        assert forall q :: q in i.leases && q in paths ==> q in paths[1..];
        RenewNextLive(cfg, id, i, paths[1..], env, locks, limit);
      } else {
        assert forall q :: q in paths ==> q == paths[0] || q in paths[1..];
      }
    }
  }

  // ------------------------------------------------- steps of the acting instance ---

  /** The lock objects recorded for `id`. */
  function OwnLocks(locks: map<Path, Body>, id: InstanceId): map<Path, ETag> {
    map p | p in locks && RecordOf(locks[p], id) :: ETag(locks[p])
  }

  /** What one step of `id` must re-establish: its leases live, and it holds
      exactly the lock objects recorded for it. */
  predicate Sound(cfg: Config, id: InstanceId, i: Instance, locks: map<Path, Body>, limit: nat, now: nat) {
    InstanceLive(cfg, i, locks, limit, now) && Held(i) == OwnLocks(locks, id)
  }

  predicate LocalCall(call: Call) {
    call.Write? || call.Unlink? || call.Open? || call.Poll? || call.ReadThrough? || call.Check?
  }

  lemma LocalCallSound(cfg: Config, id: InstanceId, i: Instance, call: Call, env: Env, locks: map<Path, Body>, limit: nat)
    requires i.pc.Idle? && Sound(cfg, id, i, locks, limit, env.wall) && LocalCall(call)
    ensures Sound(cfg, id, Begin(cfg, id, i, call, env), locks, limit, env.wall)
  {
    hide OwnLocks, Without, Live, Expires, LeasesLive, LeaseTags;
    match call
    case Write(p, _) =>
      if p in i.leases { Touch(i.leases, p, i.leases[p].(dirty := true, pendingDelete := false), locks, limit, {}); }
    case Unlink(p) =>
      if p in i.leases { Touch(i.leases, p, i.leases[p].(dirty := false, pendingDelete := true), locks, limit, {}); }
    case Open(p) =>
      if p in i.leases { Touch(i.leases, p, i.leases[p].(refs := i.leases[p].refs + 1), locks, limit, {}); }
    case _ =>
  }

  lemma BeginSound(cfg: Config, id: InstanceId, i: Instance, call: Call, env: Env, locks: map<Path, Body>, limit: nat)
    requires i.pc.Idle? && Sound(cfg, id, i, locks, limit, env.wall)
    requires env.wall == env.mono && env.wall + cfg.lease <= U64_MAX
    requires !LocalCall(call) && !call.Renew?
    ensures Sound(cfg, id, Begin(cfg, id, i, call, env), locks, limit, env.wall)
  {
    hide OwnLocks, Live, Expires, LeasesLive, LeaseTags, ReleaseNext, FlushNext, StartUpload, FlushLease;
    match call
    case Close(p) =>
      ReleaseNextLive(cfg, i, [p], Done, locks, limit, env.wall);
      if p in i.leases && 1 < i.leases[p].refs {
        Touch(i.leases, p, i.leases[p].(refs := i.leases[p].refs - 1), locks, limit, {});
      }
    case ReleaseAll(paths) => ReleaseNextLive(cfg, i, paths, Done, locks, limit, env.wall);
    case Flush(batch) => FlushNextLive(cfg, i, batch, locks, limit, env.wall);
    case Fsync(p) =>
      if p !in i.leases { StartUploadLive(cfg, i, p, CondForUpload(i, p), ForSync, locks, limit, env.wall); }
      else { FlushLeaseLive(cfg, i, p, i.leases[p], ForSync, locks, limit, env.wall); }
    case SyncNow(p) => StartUploadLive(cfg, i, p, CondForUpload(i, p), ForSync, locks, limit, env.wall);
  }

  lemma RenewSound(cfg: Config, id: InstanceId, i: Instance, paths: seq<Path>, env: Env, locks: map<Path, Body>, limit: nat)
    requires i.pc.Idle? && Sound(cfg, id, i, locks, limit, env.wall)
    requires env.wall == env.mono && env.wall + cfg.lease <= U64_MAX
    requires (set p | p in paths) == i.leases.Keys
    ensures var j := Begin(cfg, id, i, Renew(paths), env);
            && (j.pc.RenewPut? || j.pc.Idle?)
            && Sound(cfg, id, j, locks, if j.pc.Idle? then env.wall + cfg.lease / 2 else limit, env.wall)
  {
    hide Parse, OwnLocks, Expires, RenewNext, DuePaths;
    DuePathsCoverDue(cfg, i, paths, env.mono);
    var due := DuePaths(cfg, i, paths, env.mono);
    forall q | q in i.leases ensures q in due || env.wall + cfg.lease / 2 < i.leases[q].expiresAt {
      assert q in (set p | p in paths);
    }
    RenewNextLive(cfg, id, i, due, env, locks, limit);
  }

  lemma WrapExact(n: nat)
    requires n <= U64_MAX
    ensures Wrap64(n) == n
  {
  }

  /** A clock reading and store answer as timed runs have them. */
  predicate Punctual(cfg: Config, env: Env) {
    env.fault.NoFault? && env.wall == env.mono && env.wall + cfg.lease <= U64_MAX && 0 < cfg.lease
  }

  lemma AcquireGetSound(cfg: Config, id: InstanceId, i: Instance, b: Bucket, env: Env, stamp: nat)
    requires i.pc.AcquireGet? && Punctual(cfg, env) && stamp <= env.wall
    requires Sound(cfg, id, i, b.locks, stamp + cfg.lease / 2, env.wall)
    ensures var j := AcquireStep(cfg, id, i, b, env).0;
            Sound(cfg, id, j, b.locks, if j.pc.AcquirePut? && i.leases == map[] then env.wall + cfg.lease / 2 else stamp + cfg.lease / 2, env.wall)
  {
    hide Parse, OwnLocks, Live, Expires, LeaseTags, Wrap64;
    WrapExact(env.wall + cfg.lease);
    if i.leases == map[] { assert LeasesLive(i.leases, b.locks, env.wall + cfg.lease / 2); }
    hide LeasesLive;
  }

  /** Writing `record` under `p`, which `id` did not hold, adds it to the locks of `id`. */
  lemma OwnLocksPut(locks: map<Path, Body>, id: InstanceId, p: Path, record: LockRecord)
    requires Representable(record) && record.instance == id
    ensures OwnLocks(locks[p := Encode(record)], id) == OwnLocks(locks, id)[p := ETag(Encode(record))]
    ensures Expires(ETag(Encode(record))) == record.expires
  {
    hide Parse, Encode, LockRecords.Clean;
    RoundTrip(record);
  }

  lemma LeasesLivePut(leases: map<Path, Lease>, locks: map<Path, Body>, limit: nat, p: Path, body: Body)
    requires LeasesLive(leases, locks, limit) && p !in leases
    ensures LeasesLive(leases, locks[p := body], limit)
    ensures LeasesLive(leases, locks - {p}, limit)
  {
    hide Expires;
  }

  lemma AcquirePutSound(cfg: Config, id: InstanceId, i: Instance, b: Bucket, env: Env, limit: nat, rs: set<nat>)
    requires i.pc.AcquirePut? && Punctual(cfg, env) && Owned(id, i, rs)
    requires Sound(cfg, id, i, b.locks, limit, env.wall)
    ensures var (j, c) := AcquireStep(cfg, id, i, b, env);
            Sound(cfg, id, j, c.locks, limit, env.wall)
  {
    hide Parse, Encode, OwnLocks, Expires, LeasesLive, LeaseTags, Acquired, LockRecords.Clean, LeasesOwned, Takeable;
    var AcquirePut(p, seen, record, expiresAt, _) := i.pc;
    OwnLocksPut(b.locks, id, p, record);
    LeasesLivePut(i.leases, b.locks, limit, p, Encode(record));
    var (locks, reply) := Put(b.locks, p, Encode(record), BaseCond(seen), env.fault);
    if reply.Stored? {
      AcquiredLive(cfg, i, p, Hold(reply.tag, record.epoch, expiresAt), locks, limit, env.wall);
    }
  }

  lemma AcquireVerifySound(cfg: Config, id: InstanceId, i: Instance, b: Bucket, env: Env, limit: nat)
    requires i.pc.AcquireVerify? && Punctual(cfg, env)
    requires Sound(cfg, id, i, b.locks, limit, env.wall)
    ensures Sound(cfg, id, AcquireStep(cfg, id, i, b, env).0, b.locks, limit, env.wall)
  {
    hide Parse, Expires, LeasesLive, Acquired;
    var p := i.pc.path;
    assert p !in LeaseTags(i.leases);
    assert p !in OwnLocks(b.locks, id);
    hide OwnLocks, LeaseTags;
  }

  lemma FileStepSound(cfg: Config, id: InstanceId, i: Instance, b: Bucket, env: Env, limit: nat)
    requires (i.pc.HeadFile? || i.pc.GetFile? || i.pc.Refresh?) && Punctual(cfg, env)
    requires Sound(cfg, id, i, b.locks, limit, env.wall)
    ensures Sound(cfg, id, FileStep(i, b, env).0, b.locks, limit, env.wall)
  {
    hide OwnLocks, Live, Expires, LeasesLive, LeaseTags, Finish, HeadDone, HeadFailed, Rebase;
    var p := i.pc.path;
    if i.pc.Refresh? {
      var k := i.pc.k;
      if p in b.files {
        var h := Download(i, p, b.files[p]);
        RebaseLive(h, p, k, Some(ETag(b.files[p])), true, b.locks, limit);
        FinishLive(cfg, Rebase(h, p, Some(ETag(b.files[p])), true), p, k, Conflict(true), b.locks, limit, env.wall);
      } else {
        var h := i.(cache := i.cache - {p});
        RebaseLive(h, p, k, None, false, b.locks, limit);
        FinishLive(cfg, Rebase(h, p, None, false), p, k, Conflict(false), b.locks, limit, env.wall);
      }
    } else if p in b.files {
      HeadDoneLive(cfg, i, p, i.pc.opening, Some(ETag(b.files[p])), b.locks, limit, env.wall);
      HeadDoneLive(cfg, Download(i, p, b.files[p]), p, i.pc.opening, Some(ETag(b.files[p])), b.locks, limit, env.wall);
    } else {
      HeadDoneLive(cfg, i, p, i.pc.opening, None, b.locks, limit, env.wall);
    }
  }

  /** Going on to another request of the same upload. */
  lemma SameUploadSound(cfg: Config, id: InstanceId, i: Instance, pc: Pc, locks: map<Path, Body>, limit: nat, now: nat)
    requires Sound(cfg, id, i, locks, limit, now)
    requires i.pc.UploadPut? || i.pc.UploadCreate?
    requires (pc.UploadCreate? || pc.UploadHead? || pc.UploadVerify? || pc.Refresh?) && pc.path == i.pc.path && pc.k == i.pc.k
    ensures Sound(cfg, id, i.(pc := pc), locks, limit, now)
  {
    hide OwnLocks, LeasesLive, LeaseTags, ContLive;
  }

  lemma UploadPutSound(cfg: Config, id: InstanceId, i: Instance, b: Bucket, env: Env, limit: nat)
    requires (i.pc.UploadPut? || i.pc.UploadCreate?) && Punctual(cfg, env)
    requires Sound(cfg, id, i, b.locks, limit, env.wall)
    ensures Sound(cfg, id, UploadStep(i, b, env).0, b.locks, limit, env.wall)
  {
    var p, k, body := i.pc.path, i.pc.k, i.pc.body;
    UploadDoneSound(cfg, id, i, b.locks, limit, env.wall);
    hide Sound, UploadDone, UploadFailed;
    if i.pc.UploadPut? {
      SameUploadSound(cfg, id, i, UploadCreate(p, body, k), b.locks, limit, env.wall);
      SameUploadSound(cfg, id, i, UploadHead(p, body, k), b.locks, limit, env.wall);
      SameUploadSound(cfg, id, i, UploadVerify(p, body, i.pc.cond, k), b.locks, limit, env.wall);
    }
    SameUploadSound(cfg, id, i, Refresh(p, k), b.locks, limit, env.wall);
  }

  lemma UploadDoneSound(cfg: Config, id: InstanceId, i: Instance, locks: map<Path, Body>, limit: nat, now: nat)
    requires (i.pc.UploadPut? || i.pc.UploadCreate?) && Sound(cfg, id, i, locks, limit, now)
    ensures Sound(cfg, id, UploadDone(i, i.pc.path, i.pc.body, ETag(i.pc.body), i.pc.k), locks, limit, now)
    ensures Sound(cfg, id, UploadFailed(i, i.pc.path, i.pc.k), locks, limit, now)
  {
    hide OwnLocks, Live, Expires, LeasesLive, LeaseTags, HoldLive, ReleasingOnly, UploadDone, UploadFailed;
    UploadDoneLive(cfg, i, i.pc.path, i.pc.body, ETag(i.pc.body), i.pc.k, locks, limit, now);
    UploadFailedLive(cfg, i, i.pc.path, i.pc.k, locks, limit, now);
  }

  lemma UploadHeadSound(cfg: Config, id: InstanceId, i: Instance, b: Bucket, env: Env, limit: nat)
    requires (i.pc.UploadHead? || i.pc.UploadVerify?) && Punctual(cfg, env)
    requires Sound(cfg, id, i, b.locks, limit, env.wall)
    ensures Sound(cfg, id, UploadStep(i, b, env).0, b.locks, limit, env.wall)
  {
    hide OwnLocks, Live, Expires, LeasesLive, LeaseTags, HoldLive, ReleasingOnly, UploadDone, UploadFailed;
    var p, k := i.pc.path, i.pc.k;
    UploadFailedLive(cfg, i, p, k, b.locks, limit, env.wall);
    if i.pc.UploadVerify? && p in b.files {
      UploadDoneLive(cfg, i, p, i.pc.body, ETag(b.files[p]), k, b.locks, limit, env.wall);
    }
  }

  lemma DeleteStepSound(cfg: Config, id: InstanceId, i: Instance, b: Bucket, env: Env, limit: nat)
    requires (i.pc.DeleteFile? || i.pc.QueueDelete?) && Punctual(cfg, env)
    requires Sound(cfg, id, i, b.locks, limit, env.wall)
    ensures Sound(cfg, id, DeleteStep(i, b, env).0, b.locks, limit, env.wall)
  {
    hide OwnLocks, Live, Expires, LeasesLive, LeaseTags, Finish, FlushNext;
    match i.pc
    case DeleteFile(p, _, k) =>
      FinishLive(cfg, i.(cache := i.cache - {p}), p, k, Done, b.locks, limit, env.wall);
      FinishLive(cfg, i, p, k, Failed, b.locks, limit, env.wall);
    case QueueDelete(_, _, left) => FlushNextLive(cfg, i, left, b.locks, limit, env.wall);
  }

  lemma PollStepSound(cfg: Config, id: InstanceId, i: Instance, b: Bucket, env: Env, limit: nat)
    requires (i.pc.PollList? || i.pc.PollGet?) && Punctual(cfg, env)
    requires Sound(cfg, id, i, b.locks, limit, env.wall)
    ensures Sound(cfg, id, PollStep(i, b, env).0, b.locks, limit, env.wall)
  {
    hide OwnLocks, Live, Expires, LeasesLive, LeaseTags, PollNext;
    match i.pc
    case PollList => PollNextLive(cfg, i, env.order, map p | p in b.files :: ETag(b.files[p]), b.locks, limit, env.wall);
    case PollGet(p, tail, listing) =>
      PollNextLive(cfg, i, tail, listing, b.locks, limit, env.wall);
      if p in b.files { PollNextLive(cfg, Download(i, p, b.files[p]), tail, listing, b.locks, limit, env.wall); }
  }

  lemma DropLease(leases: map<Path, Lease>, p: Path, locks: map<Path, Body>, id: InstanceId, limit: nat)
    requires LeasesLive(leases, locks, limit) && ReleasingOnly(leases, {p})
    ensures LeasesLive(leases - {p}, locks - {p}, limit) && ReleasingOnly(leases - {p}, {})
    ensures LeaseTags(leases - {p}) == LeaseTags(leases) - {p}
    ensures OwnLocks(locks - {p}, id) == OwnLocks(locks, id) - {p}
  {
    hide Expires, RecordOf;
  }

  lemma UnlockSound(cfg: Config, id: InstanceId, i: Instance, b: Bucket, env: Env, limit: nat)
    requires i.pc.Unlock? && Punctual(cfg, env)
    requires Sound(cfg, id, i, b.locks, limit, env.wall)
    ensures var (j, c) := LockStep(cfg, id, i, b, env);
            Sound(cfg, id, j, c.locks, limit, env.wall)
  {
    hide OwnLocks, Expires, ReleaseNext;
    var Unlock(p, tag, next) := i.pc;
    assert p in b.locks && b.locks[p] == tag.of;
    DropLease(i.leases, p, b.locks, id, limit);
    LeasesLivePut(i.leases - {p}, b.locks - {p}, limit, p, "");
    if next.AfterClose? {
      ReleaseNextLive(cfg, i.(leases := i.leases - {p}), next.rest, if next.first.Done? then next.ret else next.first, b.locks - {p}, limit, env.wall);
    } else {
      assert i.leases - {p} == i.leases;
      assert LeaseTags(i.leases)[p := tag] - {p} == LeaseTags(i.leases);
    }
  }

  lemma RenewLease(leases: map<Path, Lease>, p: Path, l: Lease, locks: map<Path, Body>, limit: nat)
    requires p in leases && LeasesLive(leases, locks, limit) && ReleasingOnly(leases, {})
    requires !l.lost && !l.releasing && l.expiresAt == Expires(l.tag) && limit < l.expiresAt
    ensures LeasesLive(leases[p := l], locks[p := l.tag.of], limit) && ReleasingOnly(leases[p := l], {})
    ensures LeaseTags(leases[p := l]) == LeaseTags(leases)[p := l.tag]
  {
    hide Expires;
  }

  lemma RenewPutSound(cfg: Config, id: InstanceId, i: Instance, b: Bucket, env: Env, stamp: nat, rs: set<nat>)
    requires i.pc.RenewPut? && Punctual(cfg, env) && Owned(id, i, rs) && stamp <= env.wall
    requires Sound(cfg, id, i, b.locks, stamp + cfg.lease / 2, env.wall)
    ensures var (j, c) := LockStep(cfg, id, i, b, env);
            && (j.pc.RenewPut? || j.pc.Idle?)
            && Sound(cfg, id, j, c.locks, if j.pc.Idle? then env.wall + cfg.lease / 2 else stamp + cfg.lease / 2, env.wall)
  {
    hide Parse, Encode, OwnLocks, Expires, LeaseTags, RenewNext, LockRecords.Clean, LeasesOwned;
    var RenewPut(p, tag, record, expiresAt, rest) := i.pc;
    var limit := stamp + cfg.lease / 2;
    assert p in b.locks && b.locks[p] == tag.of;
    assert !i.leases[p].lost && !i.leases[p].releasing;
    OwnLocksPut(b.locks, id, p, record);
    var l := i.leases[p].(tag := ETag(Encode(record)), expiresAt := expiresAt);
    RenewLease(i.leases, p, l, b.locks, limit);
    assert OthersFresh(cfg, i.leases[p := l], rest, env.wall);
    RenewNextLive(cfg, id, i.(leases := i.leases[p := l]), rest, env, b.locks[p := Encode(record)], limit);
  }

  lemma StepSound(cfg: Config, id: InstanceId, i: Instance, b: Bucket, env: Env, stamp: nat, rs: set<nat>)
    requires !i.pc.Idle? && Punctual(cfg, env) && Owned(id, i, rs) && stamp <= env.wall
    requires Sound(cfg, id, i, b.locks, stamp + cfg.lease / 2, env.wall)
    ensures var (j, c) := Advance(cfg, id, i, b, env);
            var limit := (if Freshens(i, Event(id, Proceed, env), j) then env.wall else stamp) + cfg.lease / 2;
            Sound(cfg, id, j, c.locks, limit, env.wall)
  {
    hide Sound, Owned, AcquireStep, FileStep, UploadStep, DeleteStep, LockStep, PollStep;
    OtherStepsKeepLocks(i, b, env);
    StepKind(cfg, id, i, b, env);
    var limit := stamp + cfg.lease / 2;
    if i.pc.AcquireGet? { AcquireGetSound(cfg, id, i, b, env, stamp); }
    else if i.pc.AcquirePut? { AcquirePutSound(cfg, id, i, b, env, limit, rs); }
    else if i.pc.AcquireVerify? { AcquireVerifySound(cfg, id, i, b, env, limit); }
    else if i.pc.HeadFile? || i.pc.GetFile? || i.pc.Refresh? { FileStepSound(cfg, id, i, b, env, limit); }
    else if i.pc.UploadPut? || i.pc.UploadCreate? { UploadPutSound(cfg, id, i, b, env, limit); }
    else if i.pc.UploadHead? || i.pc.UploadVerify? { UploadHeadSound(cfg, id, i, b, env, limit); }
    else if i.pc.DeleteFile? || i.pc.QueueDelete? { DeleteStepSound(cfg, id, i, b, env, limit); }
    else if i.pc.Unlock? { UnlockSound(cfg, id, i, b, env, limit); }
    else if i.pc.RenewPut? { RenewPutSound(cfg, id, i, b, env, stamp, rs); }
    else { PollStepSound(cfg, id, i, b, env, limit); }
  }

  /** Acquire steps other than the final PUT leave the bucket alone. */
  lemma StepKind(cfg: Config, id: InstanceId, i: Instance, b: Bucket, env: Env)
    ensures i.pc.AcquireGet? || i.pc.AcquireVerify? ==> AcquireStep(cfg, id, i, b, env).1 == b
  {
    hide Parse, Acquired;
  }

  // --------------------------------------------------------------- whole system ---

  predicate SystemSound(cfg: Config, t: Timed) {
    forall id :: id in t.sys.instances ==>
      && id in t.stamps && t.stamps[id] <= t.now
      && Sound(cfg, id, t.sys.instances[id], t.sys.bucket.locks, t.stamps[id] + cfg.lease / 2, t.now)
  }

  /** Time passes without the instance acting. */
  lemma SoundLater(cfg: Config, id: InstanceId, i: Instance, locks: map<Path, Body>, limit: nat, now: nat, later: nat)
    requires Sound(cfg, id, i, locks, limit, now) && now <= later && (i.pc.RenewPut? ==> now == later)
    ensures Sound(cfg, id, i, locks, limit, later)
  {
    hide OwnLocks, Live, Expires, LeasesLive, Held;
  }

  lemma HeldIsLive(cfg: Config, id: InstanceId, i: Instance, locks: map<Path, Body>, limit: nat, now: nat, p: Path)
    requires InstanceLive(cfg, i, locks, limit, now) && p in Held(i)
    ensures Live(locks, p, Held(i)[p], limit) && Engaged(i)
  {
    hide Live, Expires;
  }

  /** Another instance's lawful change never touches a held, unexpired lock. */
  lemma OthersKeepHeld(cfg: Config, id: InstanceId, i: Instance, locks: map<Path, Body>, after: map<Path, Body>, limit: nat, now: nat, who: InstanceId, pc: Pc, rs: set<nat>)
    requires Sound(cfg, id, i, locks, limit, now) && who != id && (Engaged(i) ==> now <= limit)
    requires forall r :: r in rs ==> r <= now
    requires forall p :: Lawful(locks, after, p, who, pc, rs)
    ensures forall p :: p in Held(i) ==> p in after && after[p] == locks[p]
    ensures OwnLocks(after, id) == OwnLocks(locks, id)
  {
    hide Parse, InstanceLive, Held;
    forall p | p in locks && RecordOf(locks[p], id) ensures p in after && after[p] == locks[p] {
      assert p in OwnLocks(locks, id);
      HeldIsLive(cfg, id, i, locks, limit, now, p);
      assert Lawful(locks, after, p, who, pc, rs);
    }
    forall p | p in after && RecordOf(after[p], id) ensures p in locks && after[p] == locks[p] {
      assert Lawful(locks, after, p, who, pc, rs);
    }
    forall p | p in Held(i) ensures p in after && after[p] == locks[p] {
      assert p in OwnLocks(locks, id);
    }
  }

  lemma SoundFrame(cfg: Config, id: InstanceId, i: Instance, locks: map<Path, Body>, after: map<Path, Body>, limit: nat, now: nat)
    requires Sound(cfg, id, i, locks, limit, now)
    requires forall p :: p in Held(i) ==> p in after && after[p] == locks[p]
    requires OwnLocks(after, id) == OwnLocks(locks, id)
    ensures Sound(cfg, id, i, after, limit, now)
  {
    hide OwnLocks, Expires;
    forall p | p in i.leases ensures p in Held(i) { assert p in LeaseTags(i.leases); }
  }

  lemma ActorSound(cfg: Config, t: Timed, evs: seq<Event>, ev: Event)
    requires 0 < cfg.lease && SystemSound(cfg, t) && OnTime(cfg, t, ev) && RunOwned(t.sys, evs) && ev.who in t.sys.instances
    ensures var u := TimedExec(cfg, t, ev);
            && ev.who in u.sys.instances && ev.who in u.stamps && u.stamps[ev.who] <= u.now
            && Sound(cfg, ev.who, u.sys.instances[ev.who], u.sys.bucket.locks, u.stamps[ev.who] + cfg.lease / 2, u.now)
  {
    hide Begin, Advance, Sound, Owned, Engaged;
    var id, i, b, env := ev.who, t.sys.instances[ev.who], t.sys.bucket, ev.env;
    var stamp := t.stamps[id];
    var limit := stamp + cfg.lease / 2;
    SoundLater(cfg, id, i, b.locks, limit, t.now, env.wall);
    if ev.action.Proceed? {
      if !i.pc.Idle? { StepSound(cfg, id, i, b, env, stamp, Readings(evs, id)); }
    } else if i.pc.Idle? {
      var call := ev.action.call;
      if LocalCall(call) { LocalCallSound(cfg, id, i, call, env, b.locks, limit); LocalCallNotFresh(cfg, id, i, call, env); }
      else if call.Renew? {
        if (set p | p in call.paths) == i.leases.Keys { RenewSound(cfg, id, i, call.paths, env, b.locks, limit); }
        else { BadRenew(cfg, id, i, call, env); }
      } else { BeginSound(cfg, id, i, call, env, b.locks, limit); }
    }
  }

  lemma LocalCallNotFresh(cfg: Config, id: InstanceId, i: Instance, call: Call, env: Env)
    requires i.pc.Idle? && !call.Renew?
    ensures !Freshens(i, Event(id, Start(call), env), Begin(cfg, id, i, call, env))
  {
    hide Begin;
  }

  lemma BadRenew(cfg: Config, id: InstanceId, i: Instance, call: Call, env: Env)
    requires i.pc.Idle? && call.Renew? && (set p | p in call.paths) != i.leases.Keys
    ensures Begin(cfg, id, i, call, env) == i
  {
  }

  lemma {:induction false} ReadingsPast(cfg: Config, t: Timed, evs: seq<Event>, id: InstanceId)
    requires Timely(cfg, t, evs)
    ensures forall r :: r in Readings(evs, id) ==> r <= TimedRun(cfg, t, evs).now
  {
    hide Exec;
    if evs != [] { ReadingsPast(cfg, t, evs[..|evs| - 1], id); }
  }

  lemma TimedExecSound(cfg: Config, t: Timed, evs: seq<Event>, ev: Event)
    requires 0 < cfg.lease && SystemSound(cfg, t) && OnTime(cfg, t, ev) && RunOwned(t.sys, evs) && CleanNames(t.sys, [ev])
    requires forall r :: r in Readings(evs, ev.who) ==> r <= t.now
    ensures SystemSound(cfg, TimedExec(cfg, t, ev))
  {
    hide Exec, Sound, RunOwned, CleanNames, OwnLocks, Held;
    ExecOwned(cfg, t.sys, evs, ev);
    var u := TimedExec(cfg, t, ev);
    var locks, after, rs := t.sys.bucket.locks, u.sys.bucket.locks, Readings(evs, ev.who);
    forall id | id in u.sys.instances
      ensures id in u.stamps && u.stamps[id] <= u.now
      ensures Sound(cfg, id, u.sys.instances[id], after, u.stamps[id] + cfg.lease / 2, u.now)
    {
      if id == ev.who {
        ActorSound(cfg, t, evs, ev);
      } else {
        var i, limit := t.sys.instances[id], t.stamps[id] + cfg.lease / 2;
        ExecOthers(cfg, t.sys, ev, id);
        SoundLater(cfg, id, i, locks, limit, t.now, u.now);
        OthersKeepHeld(cfg, id, i, locks, after, limit, u.now, ev.who, PcOf(t.sys, ev.who), rs);
        SoundFrame(cfg, id, i, locks, after, limit, u.now);
      }
    }
  }

  lemma ExecOthers(cfg: Config, s: System, ev: Event, id: InstanceId)
    requires id in s.instances && id != ev.who
    ensures id in Exec(cfg, s, ev).instances && Exec(cfg, s, ev).instances[id] == s.instances[id]
  {
    hide Begin, Advance;
  }
}
