/** Runs of one instance at a time, for following a given schedule step by step. */
module SoloRuns {
  import opened LockRecords
  import opened ObjectStores
  import opened SyncProtocol

  datatype Act = Act(action: Action, env: Env)

  function StepOne(cfg: Config, id: InstanceId, i: Instance, b: Bucket, act: Act): (Instance, Bucket) {
    match act.action
    case Start(call) => (if i.pc.Idle? then Begin(cfg, id, i, call, act.env) else i, b)
    case Proceed => if i.pc.Idle? then (i, b) else Advance(cfg, id, i, b, act.env)
  }

  /** The instance and the bucket after it alone has acted. */
  function Solo(cfg: Config, id: InstanceId, i: Instance, b: Bucket, acts: seq<Act>): (Instance, Bucket) {
    if acts == [] then (i, b)
    else
      var (j, c) := Solo(cfg, id, i, b, acts[..|acts| - 1]);
      StepOne(cfg, id, j, c, acts[|acts| - 1])
  }

  function Events(id: InstanceId, acts: seq<Act>): seq<Event> {
    seq(|acts|, k requires 0 <= k < |acts| => Event(id, acts[k].action, acts[k].env))
  }

  /** A run of events of one instance changes that instance and the bucket. */
  lemma {:induction false} SoloRun(cfg: Config, s: System, id: InstanceId, acts: seq<Act>)
    requires id in s.instances
    ensures var (i, b) := Solo(cfg, id, s.instances[id], s.bucket, acts);
            Run(cfg, s, Events(id, acts)) == System(b, s.instances[id := i])
  {
    hide Begin, Advance;
    if acts != [] {
      var front := acts[..|acts| - 1];
      SoloRun(cfg, s, id, front);
      assert Events(id, acts)[..|acts| - 1] == Events(id, front);
    } else {
      assert s.instances[id := s.instances[id]] == s.instances;
    }
  }

  lemma {:induction false} RunTwice(cfg: Config, s: System, xs: seq<Event>, ys: seq<Event>)
    ensures Run(cfg, s, xs + ys) == Run(cfg, Run(cfg, s, xs), ys)
  {
    hide Exec;
    if ys == [] {
      assert xs + ys == xs;
    } else {
      RunTwice(cfg, s, xs, ys[..|ys| - 1]);
      assert (xs + ys)[..|xs + ys| - 1] == xs + ys[..|ys| - 1];
    }
  }

  lemma SoloMore(cfg: Config, id: InstanceId, i: Instance, b: Bucket, acts: seq<Act>, act: Act)
    ensures var (j, c) := Solo(cfg, id, i, b, acts);
            Solo(cfg, id, i, b, acts + [act]) == StepOne(cfg, id, j, c, act)
  {
    hide StepOne;
    assert (acts + [act])[..|acts|] == acts;
  }

  lemma {:induction false} SoloTwice(cfg: Config, id: InstanceId, i: Instance, b: Bucket, xs: seq<Act>, ys: seq<Act>)
    ensures var (j, c) := Solo(cfg, id, i, b, xs);
            Solo(cfg, id, i, b, xs + ys) == Solo(cfg, id, j, c, ys)
  {
    hide StepOne;
    if ys == [] {
      assert xs + ys == xs;
    } else {
      SoloTwice(cfg, id, i, b, xs, ys[..|ys| - 1]);
      assert (xs + ys)[..|xs + ys| - 1] == xs + ys[..|ys| - 1];
    }
  }

  lemma SoloOne(cfg: Config, id: InstanceId, i: Instance, b: Bucket, act: Act)
    ensures Solo(cfg, id, i, b, [act]) == StepOne(cfg, id, i, b, act)
  {
    hide StepOne;
    assert [act][..0] == [];
  }

  lemma WritesAndQueues(cfg: Config, id: InstanceId, i: Instance, b: Bucket, p: Path, x: Body, env: Env)
    requires i.pc.Idle? && i.queue == [] && p !in i.leases
    ensures StepOne(cfg, id, i, b, Act(Start(Write(p, x)), env))
            == (i.(local := i.local[p := x], queue := [Upload(p)], pc := Idle(Done)), b)
  {
    assert Without([], p) + [Upload(p)] == [Upload(p)];
  }

  // ------------------------------------------------------- taking a hold ---

  /** The record an instance writes when it takes the lock of `p`. */
  function TakenRecord(cfg: Config, id: InstanceId, locks: map<Path, Body>, p: Path, env: Env): LockRecord {
    LockRecord(id, if p in locks && Parse(locks[p]).Some? then Wrap64(Parse(locks[p]).value.epoch + 1) else 1,
               Wrap64(env.wall + cfg.lease), p)
  }

  predicate Free(locks: map<Path, Body>, p: Path, wall: nat) {
    p in locks ==> Parse(locks[p]).None? || IsExpired(Parse(locks[p]).value, wall)
  }

  function Seen(locks: map<Path, Body>, p: Path): Option<ETag> {
    if p in locks then Some(ETag(locks[p])) else None
  }

  /** An open up to its look at the file. */
  function Locking(p: Path, env: Env): seq<Act> {
    [Act(Start(Open(p)), env)] + [Act(Proceed, env)] + [Act(Proceed, env)]
  }

  function Locked(cfg: Config, id: InstanceId, b: Bucket, p: Path, env: Env): Bucket {
    b.(locks := b.locks[p := Encode(TakenRecord(cfg, id, b.locks, p, env))])
  }

  lemma LockedFiles(cfg: Config, id: InstanceId, b: Bucket, p: Path, env: Env)
    ensures Locked(cfg, id, b, p, env).files == b.files
  {
  }

  function HoldOf(cfg: Config, id: InstanceId, b: Bucket, p: Path, env: Env): Hold {
    var record := TakenRecord(cfg, id, b.locks, p, env);
    Hold(ETag(Encode(record)), record.epoch, env.mono + cfg.lease)
  }

  lemma LooksAtLock(cfg: Config, id: InstanceId, i: Instance, b: Bucket, p: Path, env: Env)
    requires i.pc == AcquireGet(p) && Free(b.locks, p, env.wall) && env.fault.NoFault?
    ensures StepOne(cfg, id, i, b, Act(Proceed, env))
            == (i.(pc := AcquirePut(p, Seen(b.locks, p), TakenRecord(cfg, id, b.locks, p, env), env.mono + cfg.lease, env.wall)), b)
  {
    hide Parse, Wrap64;
  }

  lemma WritesLock(cfg: Config, id: InstanceId, i: Instance, b: Bucket, p: Path, env: Env)
    requires env.fault.NoFault?
    requires i.pc == AcquirePut(p, Seen(b.locks, p), TakenRecord(cfg, id, b.locks, p, env), env.mono + cfg.lease, env.wall)
    ensures StepOne(cfg, id, i, b, Act(Proceed, env)) == (Acquired(i, p, HoldOf(cfg, id, b, p, env)), Locked(cfg, id, b, p, env))
  {
    hide Parse, Encode, TakenRecord, Acquired;
  }

  /** An open takes a free lock, and then pushes a queued upload or looks at the file. */
  lemma TakesLock(cfg: Config, id: InstanceId, i: Instance, b: Bucket, p: Path, env: Env)
    requires i.pc.Idle? && p !in i.leases && Free(b.locks, p, env.wall) && env.fault.NoFault?
    ensures Solo(cfg, id, i, b, Locking(p, env)) == (Acquired(i, p, HoldOf(cfg, id, b, p, env)), Locked(cfg, id, b, p, env))
  {
    var open, go := Act(Start(Open(p)), env), Act(Proceed, env);
    var i1 := i.(pc := AcquireGet(p));
    assert StepOne(cfg, id, i, b, open) == (i1, b);
    var i2 := i.(pc := AcquirePut(p, Seen(b.locks, p), TakenRecord(cfg, id, b.locks, p, env), env.mono + cfg.lease, env.wall));
    LooksAtLock(cfg, id, i1, b, p, env);
    WritesLock(cfg, id, i2, b, p, env);
    SameAcquired(i, i2, p, HoldOf(cfg, id, b, p, env));
    hide StepOne, Acquired, Free, Parse, Solo;
    SoloOne(cfg, id, i, b, open);
    SoloMore(cfg, id, i, b, [open], go);
    SoloMore(cfg, id, i, b, [open] + [go], go);
  }

  /** What happens next does not depend on the request just made. */
  lemma SameAcquired(i: Instance, j: Instance, p: Path, hold: Hold)
    requires j == i.(pc := j.pc)
    ensures Acquired(i, p, hold) == Acquired(j, p, hold)
  {
    hide WithoutUpload;
  }

  function NewLease(hold: Hold, base: Option<ETag>): Lease {
    Lease(base, hold.tag, hold.epoch, hold.expiresAt, 1, false, false, false, false)
  }

  /** With no object there and nothing queued the open is over after one look. */
  lemma OpensNew(cfg: Config, id: InstanceId, i: Instance, b: Bucket, p: Path, env: Env)
    requires i.pc.Idle? && i.queue == [] && p !in i.leases && Free(b.locks, p, env.wall) && env.fault.NoFault? && p !in b.files
    ensures Solo(cfg, id, i, b, Locking(p, env) + [Act(Proceed, env)])
            == (i.(leases := i.leases[p := NewLease(HoldOf(cfg, id, b, p, env), None)], pc := Idle(Done)), Locked(cfg, id, b, p, env))
  {
    TakesLock(cfg, id, i, b, p, env);
    SoloMore(cfg, id, i, b, Locking(p, env), Act(Proceed, env));
    hide Solo, Free, HoldOf, Parse, Encode;
  }
}
