/** Why an Ok of a close promises nothing while the hold is shared.

    Two opens of one path by one instance share a lease. The first close returns
    Ok and sends nothing. If the lease then runs out and another instance writes,
    the last close meets a conflict and the record is gone, although a close of
    the open that wrote it had returned Ok. No request fails in this run. */
module SharedClose {
  import opened LockRecords
  import opened ObjectStores
  import opened SyncProtocol
  import opened SoloRuns

  /** Open twice, append through one of the opens, close that one. */
  function OpenTwiceCloseOnce(p: Path, x: Body, env: Env): seq<Act> {
    Locking(p, env) + [Act(Proceed, env)] + [Act(Start(Open(p)), env)] + [Act(Start(Write(p, x)), env)] + [Act(Start(Close(p)), env)]
  }

  /** Open, append, close. */
  function WholeSession(p: Path, y: Body, env: Env): seq<Act> {
    Locking(p, env) + [Act(Proceed, env)] + [Act(Start(Write(p, y)), env)] + [Act(Start(Close(p)), env)] + [Act(Proceed, env)] + [Act(Proceed, env)]
  }

  function LastClose(p: Path, env: Env): seq<Act> {
    [Act(Start(Close(p)), env)] + [Act(Proceed, env)] + [Act(Proceed, env)] + [Act(Proceed, env)] + [Act(Proceed, env)]
  }

  predicate Unused(i: Instance, p: Path) {
    i.pc.Idle? && i.queue == [] && p !in i.leases
  }

  /** One open left on a lease with an unsent append. */
  predicate Unsent(i: Instance, p: Path, x: Body) {
    && i.pc.Idle? && i.queue == [] && p in i.leases && p in i.local && i.local[p] == x
    && var l := i.leases[p];
    && l.refs == 1 && l.dirty && !l.pendingDelete && l.base.None?
  }

  lemma FirstCloseIsOk(cfg: Config, id: InstanceId, i: Instance, b: Bucket, p: Path, x: Body, env: Env)
    requires Unused(i, p) && Free(b.locks, p, env.wall) && env.fault.NoFault? && p !in b.files
    ensures var (j, c) := Solo(cfg, id, i, b, OpenTwiceCloseOnce(p, x, env));
            Unsent(j, p, x) && j.pc == Idle(Done) && c == Locked(cfg, id, b, p, env)
  {
    var held := Locking(p, env) + [Act(Proceed, env)];
    OpensNew(cfg, id, i, b, p, env);
    SoloMore(cfg, id, i, b, held, Act(Start(Open(p)), env));
    SoloMore(cfg, id, i, b, held + [Act(Start(Open(p)), env)], Act(Start(Write(p, x)), env));
    SoloMore(cfg, id, i, b, held + [Act(Start(Open(p)), env)] + [Act(Start(Write(p, x)), env)], Act(Start(Close(p)), env));
    hide Solo, Free, HoldOf, Locked, Parse, ReleaseNext, Without;
  }

  /** The last close sends the append, and the store accepts it if it is new. */
  lemma ClosingPut(cfg: Config, id: InstanceId, i: Instance, b: Bucket, p: Path, x: Body, env: Env)
    requires Unsent(i, p, x) && env.fault.NoFault?
    ensures var (j, c) := StepOne(cfg, id, i, b, Act(Start(Close(p)), env));
            && c == b && j.pc == UploadPut(p, x, IfNoneMatchAny, ForClose(i.leases[p].tag, [], Done))
            && j.local == i.local && j.queue == [] && p in j.leases
  {
    assert [p][1..] == [];
  }

  predicate Closing(i: Instance, p: Path) {
    i.queue == [] && p in i.leases
  }

  lemma PutAccepted(cfg: Config, id: InstanceId, i: Instance, b: Bucket, p: Path, y: Body, tag: ETag, env: Env)
    requires Closing(i, p) && i.pc == UploadPut(p, y, IfNoneMatchAny, ForClose(tag, [], Done)) && env.fault.NoFault? && p !in b.files
    ensures var (j, c) := StepOne(cfg, id, i, b, Act(Proceed, env));
            c == b.(files := b.files[p := y]) && j.pc == Unlock(p, tag, AfterClose(Done, [], Done)) && Closing(j, p)
  {
  }

  lemma Unlocks(cfg: Config, id: InstanceId, i: Instance, b: Bucket, p: Path, tag: ETag, ret: Outcome, env: Env)
    requires Closing(i, p) && i.pc == Unlock(p, tag, AfterClose(ret, [], Done)) && env.fault.NoFault?
    ensures var (j, c) := StepOne(cfg, id, i, b, Act(Proceed, env));
            c.files == b.files && j == i.(leases := i.leases - {p}, pc := Idle(ret))
  {
  }

  lemma OtherSessionLands(cfg: Config, id: InstanceId, i: Instance, b: Bucket, p: Path, y: Body, env: Env)
    requires Unused(i, p) && Free(b.locks, p, env.wall) && env.fault.NoFault? && p !in b.files
    ensures var (j, c) := Solo(cfg, id, i, b, WholeSession(p, y, env));
            j.pc == Idle(Done) && c.files == b.files[p := y]
  {
    var held, write, close, go := Locking(p, env) + [Act(Proceed, env)], Act(Start(Write(p, y)), env), Act(Start(Close(p)), env), Act(Proceed, env);
    OpensNew(cfg, id, i, b, p, env);
    SoloMore(cfg, id, i, b, held, write);
    SoloMore(cfg, id, i, b, held + [write], close);
    SoloMore(cfg, id, i, b, held + [write] + [close], go);
    SoloMore(cfg, id, i, b, held + [write] + [close] + [go], go);
    var locked := Locked(cfg, id, b, p, env);
    var i0 := Solo(cfg, id, i, b, held).0;
    var i1 := Begin(cfg, id, i0, Write(p, y), env);
    assert Solo(cfg, id, i, b, held + [write]) == (i1, locked);
    assert Unsent(i1, p, y);
    hide Solo, Free, HoldOf, Locked, Parse, StepOne, Begin;
    ClosingPut(cfg, id, i1, locked, p, y, env);
    var (i2, _) := StepOne(cfg, id, i1, locked, close);
    PutAccepted(cfg, id, i2, locked, p, y, i1.leases[p].tag, env);
    var (i3, b3) := StepOne(cfg, id, i2, locked, go);
    assert b3.files == b.files[p := y] by { LockedFiles(cfg, id, b, p, env); }
    Unlocks(cfg, id, i3, b3, p, i1.leases[p].tag, Done, env);
  }

  /** Refused, the append makes way for what the other instance wrote. */
  lemma ConflictStep(cfg: Config, id: InstanceId, i: Instance, b: Bucket, p: Path, x: Body, tag: ETag, env: Env)
    requires Closing(i, p) && env.fault.NoFault? && p in b.files
    ensures i.pc == UploadPut(p, x, IfNoneMatchAny, ForClose(tag, [], Done)) ==>
              StepOne(cfg, id, i, b, Act(Proceed, env)) == (i.(pc := UploadHead(p, x, ForClose(tag, [], Done))), b)
    ensures i.pc == UploadHead(p, x, ForClose(tag, [], Done)) ==>
              StepOne(cfg, id, i, b, Act(Proceed, env)) == (i.(pc := Refresh(p, ForClose(tag, [], Done))), b)
    ensures i.pc == Refresh(p, ForClose(tag, [], Done)) ==>
              var (j, c) := StepOne(cfg, id, i, b, Act(Proceed, env));
              c == b && j.local == i.local[p := b.files[p]] && j.pc == Unlock(p, tag, AfterClose(Conflict(true), [], Done)) && Closing(j, p)
  {
  }

  lemma LastCloseConflicts(cfg: Config, id: InstanceId, i: Instance, b: Bucket, p: Path, x: Body, env: Env)
    requires Unsent(i, p, x) && env.fault.NoFault? && p in b.files
    ensures var (j, c) := Solo(cfg, id, i, b, LastClose(p, env));
            && c.files == b.files && j.pc == Idle(Conflict(true)) && j.queue == [] && p !in j.leases
            && p in j.local && j.local[p] == b.files[p]
  {
    var close, go := Act(Start(Close(p)), env), Act(Proceed, env);
    hide Solo, StepOne;
    SoloOne(cfg, id, i, b, close);
    SoloMore(cfg, id, i, b, [close], go);
    SoloMore(cfg, id, i, b, [close] + [go], go);
    SoloMore(cfg, id, i, b, [close] + [go] + [go], go);
    SoloMore(cfg, id, i, b, [close] + [go] + [go] + [go], go);
    ClosingPut(cfg, id, i, b, p, x, env);
    var tag := i.leases[p].tag;
    var (i1, _) := StepOne(cfg, id, i, b, close);
    ConflictStep(cfg, id, i1, b, p, x, tag, env);
    var (i2, _) := StepOne(cfg, id, i1, b, go);
    ConflictStep(cfg, id, i2, b, p, x, tag, env);
    var (i3, _) := StepOne(cfg, id, i2, b, go);
    ConflictStep(cfg, id, i3, b, p, x, tag, env);
    var (i4, _) := StepOne(cfg, id, i3, b, go);
    Unlocks(cfg, id, i4, b, p, tag, Conflict(true), env);
  }

  function Schedule(a: InstanceId, b: InstanceId, p: Path, x: Body, y: Body, early: Env, late: Env): seq<Event> {
    Events(a, OpenTwiceCloseOnce(p, x, early)) + Events(b, WholeSession(p, y, late)) + Events(a, LastClose(p, late))
  }

  /** From any state in which two idle instances can take the lock of a new path:
      the first close of `a` returns Ok, and in the end the object is the record of
      `b` alone and nothing of `a` is left anywhere. */
  lemma SharedCloseLosesRecord(cfg: Config, s: System, a: InstanceId, b: InstanceId, p: Path, x: Body, y: Body, early: Env, late: Env)
    requires a != b && a in s.instances && b in s.instances && Unused(s.instances[a], p) && Unused(s.instances[b], p)
    requires p !in s.bucket.files && p !in s.bucket.locks && LockRecords.Clean(a) && LockRecords.Clean(p)
    requires early.fault.NoFault? && late.fault.NoFault? && Wrap64(early.wall + cfg.lease) <= late.wall
    ensures var closed := Run(cfg, s, Events(a, OpenTwiceCloseOnce(p, x, early)));
            var t := Run(cfg, s, Schedule(a, b, p, x, y, early, late));
            && a in closed.instances && closed.instances[a].pc == Idle(Done) && closed.bucket.files == s.bucket.files
            && a in t.instances && t.bucket.files == s.bucket.files[p := y]
            && t.instances[a].pc == Idle(Conflict(true)) && t.instances[a].queue == [] && p !in t.instances[a].leases
            && p in t.instances[a].local && t.instances[a].local[p] == y
  {
    hide Solo, Run, Unsent, StepOne, LockRecords.Clean, Parse, Encode;
    var xs, ys, zs := OpenTwiceCloseOnce(p, x, early), WholeSession(p, y, late), LastClose(p, late);
    SoloRun(cfg, s, a, xs);
    FirstCloseIsOk(cfg, a, s.instances[a], s.bucket, p, x, early);
    var t1 := Run(cfg, s, Events(a, xs));
    RunTwice(cfg, s, Events(a, xs), Events(b, ys));
    SoloRun(cfg, t1, b, ys);
    assert Free(t1.bucket.locks, p, late.wall) by {
      var record := TakenRecord(cfg, a, s.bucket.locks, p, early);
      WrapInRange(early.wall + cfg.lease);
      RoundTrip(record);
    }
    OtherSessionLands(cfg, b, t1.instances[b], t1.bucket, p, y, late);
    var t2 := Run(cfg, t1, Events(b, ys));
    RunTwice(cfg, s, Events(a, xs) + Events(b, ys), Events(a, zs));
    SoloRun(cfg, t2, a, zs);
    LastCloseConflicts(cfg, a, t2.instances[a], t2.bucket, p, x, late);
  }

  lemma WrapInRange(n: nat)
    ensures Wrap64(n) <= U64_MAX
  {
  }
}
