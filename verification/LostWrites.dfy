/** Three runs in which a local write is lost: a read overwrites it without an error,
    an open that fails forgets it, and a flush that gets no answer finds another
    writer's object, takes it for its own and reports success. */
module LostWrites {
  import opened LockRecords
  import opened ObjectStores
  import opened SyncProtocol
  import opened SoloRuns
  import opened LocalWrites

  // ------------------------------------------------------- read-through ---

  function WriteThenRead(p: Path, x: Body, env: Env): seq<Act> {
    [Act(Start(Write(p, x)), env)] + [Act(Start(ReadThrough(p)), env)] + [Act(Proceed, env)]
  }

  lemma ReadOverwrites(cfg: Config, id: InstanceId, i: Instance, b: Bucket, p: Path, x: Body, env: Env)
    requires i.pc.Idle? && i.queue == [] && p !in i.leases && p in b.files && b.files[p] != x && env.fault.NoFault?
    ensures var (j, c) := Solo(cfg, id, i, b, WriteThenRead(p, x, env));
            c == b && j.pc == Idle(Done) && p in j.local && j.local[p] == b.files[p] && j.queue == [Upload(p)]
    ensures Loses(i.(local := i.local[p := x], queue := [Upload(p)], pc := GetFile(p, None)), b.files, env, p)
  {
    var w, r, go := Act(Start(Write(p, x)), env), Act(Start(ReadThrough(p)), env), Act(Proceed, env);
    SoloOne(cfg, id, i, b, w);
    SoloMore(cfg, id, i, b, [w], r);
    SoloMore(cfg, id, i, b, [w] + [r], go);
    WritesAndQueues(cfg, id, i, b, p, x, env);
    hide Solo;
  }

  /** A write is queued, then a read refreshes the file from the store: the written
      bytes are gone from the local copy and were never sent. The read returns Ok. */
  lemma ReadThroughLosesWrite(cfg: Config, s: System, id: InstanceId, p: Path, x: Body, env: Env)
    requires id in s.instances && env.fault.NoFault? && p in s.bucket.files && s.bucket.files[p] != x
    requires s.instances[id].pc.Idle? && s.instances[id].queue == [] && p !in s.instances[id].leases
    ensures var t := Run(cfg, s, Events(id, WriteThenRead(p, x, env)));
            && t.bucket == s.bucket && id in t.instances && t.instances[id].pc == Idle(Done)
            && p in t.instances[id].local && t.instances[id].local[p] == s.bucket.files[p]
  {
    hide Run, Solo;
    SoloRun(cfg, s, id, WriteThenRead(p, x, env));
    ReadOverwrites(cfg, id, s.instances[id], s.bucket, p, x, env);
  }

  // ------------------------------------------------------- a failed open ---

  function WriteThenOpen(p: Path, x: Body, env: Env, bad: Env): seq<Act> {
    [Act(Start(Write(p, x)), env)] + Locking(p, env) + [Act(Proceed, bad)] + [Act(Proceed, bad)] + [Act(Proceed, env)]
  }

  /** The open takes the queued upload out of the queue to send it first. */
  lemma AcquiredUploads(i: Instance, p: Path, hold: Hold)
    requires i.queue == [Upload(p)] && p in i.local
    ensures Acquired(i, p, hold) == i.(queue := [], pc := UploadPut(p, i.local[p], CondForUpload(i, p), ForOpen(hold)))
  {
    assert [Upload(p)][1..] == [];
    assert WithoutUpload([Upload(p)], p) == [];
  }

  /** PUT and HEAD both without an answer: the upload is given up. */
  lemma GivesUp(cfg: Config, id: InstanceId, i: Instance, b: Bucket, p: Path, x: Body, cond: Precondition, hold: Hold, env: Env, bad: Env)
    requires i.pc == UploadPut(p, x, cond, ForOpen(hold)) && bad.fault == Faulty(false, false) && env.fault.NoFault?
    ensures var (j, c) := Solo(cfg, id, i, b, [Act(Proceed, bad)] + [Act(Proceed, bad)] + [Act(Proceed, env)]);
            j == i.(pc := Idle(Failed)) && c.files == b.files
  {
    var lost, go := Act(Proceed, bad), Act(Proceed, env);
    SoloOne(cfg, id, i, b, lost);
    SoloMore(cfg, id, i, b, [lost], lost);
    SoloMore(cfg, id, i, b, [lost] + [lost], go);
    hide Solo;
  }

  lemma OpenForgets(cfg: Config, id: InstanceId, i: Instance, b: Bucket, p: Path, x: Body, env: Env, bad: Env)
    requires i.pc.Idle? && i.queue == [] && p !in i.leases && Free(b.locks, p, env.wall)
    requires env.fault.NoFault? && bad.fault == Faulty(false, false) && !(p in b.files && b.files[p] == x)
    ensures var (j, c) := Solo(cfg, id, i, b, WriteThenOpen(p, x, env, bad));
            j.pc == Idle(Failed) && c.files == b.files && p in j.local && j.local[p] == x && !Tracked(j, p) && !InStore(j, c.files, p)
  {
    hide Solo, StepOne, Free;
    var w, tail := [Act(Start(Write(p, x)), env)], [Act(Proceed, bad)] + [Act(Proceed, bad)] + [Act(Proceed, env)];
    var i1 := i.(local := i.local[p := x], queue := [Upload(p)], pc := Idle(Done));
    WritesAndQueues(cfg, id, i, b, p, x, env);
    SoloOne(cfg, id, i, b, w[0]);
    SoloTwice(cfg, id, i, b, w, Locking(p, env));
    TakesLock(cfg, id, i1, b, p, env);
    var hold := HoldOf(cfg, id, b, p, env);
    AcquiredUploads(i1, p, hold);
    var i2 := Acquired(i1, p, hold);
    SoloTwice(cfg, id, i, b, w + Locking(p, env), tail);
    GivesUp(cfg, id, i2, Locked(cfg, id, b, p, env), p, x, CondForUpload(i1, p), hold, env, bad);
    LockedFiles(cfg, id, b, p, env);
    assert w + Locking(p, env) + tail == WriteThenOpen(p, x, env, bad);
  }

  /** A write is queued; an open of the same path takes it out of the queue, gets no
      answer for its upload, fails, and does not put it back. The write is in no
      queue, on no lease and not in the store. */
  lemma FailedOpenForgetsWrite(cfg: Config, s: System, id: InstanceId, p: Path, x: Body, env: Env, bad: Env)
    requires id in s.instances && env.fault.NoFault? && bad.fault == Faulty(false, false) && Free(s.bucket.locks, p, env.wall)
    requires var i := s.instances[id];
             i.pc.Idle? && i.queue == [] && p !in i.leases && !(p in s.bucket.files && s.bucket.files[p] == x)
    ensures var t := Run(cfg, s, Events(id, WriteThenOpen(p, x, env, bad)));
            && t.bucket.files == s.bucket.files && id in t.instances && t.instances[id].pc == Idle(Failed)
            && p in t.instances[id].local && t.instances[id].local[p] == x
            && !Tracked(t.instances[id], p) && !InStore(t.instances[id], t.bucket.files, p)
  {
    hide Run, Solo, Free, Tracked;
    SoloRun(cfg, s, id, WriteThenOpen(p, x, env, bad));
    OpenForgets(cfg, id, s.instances[id], s.bucket, p, x, env, bad);
  }

  // ------------------------------------------------- a foreign object ---

  /** Create `p` and flush it; the PUT may meet a fault. */
  function WriteThenFlush(p: Path, x: Body, env: Env, put: Env): seq<Act> {
    [Act(Start(Write(p, x)), env)] + [Act(Start(Flush(1)), env)] + [Act(Proceed, put)]
  }

  predicate NewTo(i: Instance, p: Path) {
    i.pc.Idle? && i.queue == [] && p !in i.leases && p !in i.cache
  }

  lemma FlushStarts(cfg: Config, id: InstanceId, i: Instance, b: Bucket, p: Path, x: Body, env: Env)
    requires i.pc.Idle? && i.queue == [Upload(p)] && p !in i.leases && p !in i.cache && p in i.local && i.local[p] == x
    ensures StepOne(cfg, id, i, b, Act(Start(Flush(1)), env))
            == (i.(queue := [], pc := UploadPut(p, x, IfNoneMatchAny, ForQueue(0))), b)
  {
    assert [Upload(p)][1..] == [];
  }

  /** The PUT creates the object, or gets no answer and leaves no trace. */
  lemma FlushSends(cfg: Config, id: InstanceId, i: Instance, b: Bucket, p: Path, x: Body, env: Env, put: Env)
    requires NewTo(i, p) && p !in b.files && (put.fault.NoFault? || put.fault == Faulty(false, false))
    ensures var (j, c) := Solo(cfg, id, i, b, WriteThenFlush(p, x, env, put));
            && j.queue == [] && j.leases == i.leases && p in j.local && j.local[p] == x
            && (if put.fault.NoFault? then c == b.(files := b.files[p := x])
                else c == b && j.pc == UploadVerify(p, x, IfNoneMatchAny, ForQueue(0)))
  {
    hide Solo;
    var w, f, go := Act(Start(Write(p, x)), env), Act(Start(Flush(1)), env), Act(Proceed, put);
    SoloOne(cfg, id, i, b, w);
    SoloMore(cfg, id, i, b, [w], f);
    SoloMore(cfg, id, i, b, [w] + [f], go);
    WritesAndQueues(cfg, id, i, b, p, x, env);
    FlushStarts(cfg, id, i.(local := i.local[p := x], queue := [Upload(p)], pc := Idle(Done)), b, p, x, env);
  }

  lemma TakesForOwn(cfg: Config, id: InstanceId, i: Instance, b: Bucket, p: Path, x: Body, env: Env)
    requires i.pc == UploadVerify(p, x, IfNoneMatchAny, ForQueue(0)) && i.queue == [] && p !in i.leases
    requires env.fault.NoFault? && p in b.files && p in i.local && i.local[p] == x && b.files[p] != x
    ensures Loses(i, b.files, env, p)
    ensures var (j, c) := Solo(cfg, id, i, b, [Act(Proceed, env)]);
            && c == b && j.pc == Idle(Done) && j.local == i.local && !Tracked(j, p)
  {
    SoloOne(cfg, id, i, b, Act(Proceed, env));
    hide Solo;
  }

  /** `a` creates a file and flushes it; the PUT is lost. `b` creates the object.
      The HEAD of `a` finds it and takes it for its own: the flush returns Ok, the
      write of `a` is queued nowhere, and at no point was it in the store. */
  lemma ForeignObjectDropsWrite(cfg: Config, s: System, a: InstanceId, b: InstanceId, p: Path, x: Body, y: Body, ok: Env, bad: Env)
    requires a != b && a in s.instances && b in s.instances && NewTo(s.instances[a], p) && NewTo(s.instances[b], p)
    requires p !in s.bucket.files && x != y && ok.fault.NoFault? && bad.fault == Faulty(false, false)
    ensures var xs, ys, zs := Events(a, WriteThenFlush(p, x, ok, bad)), Events(b, WriteThenFlush(p, y, ok, ok)), Events(a, [Act(Proceed, ok)]);
            var t1, t2, t := Run(cfg, s, xs), Run(cfg, s, xs + ys), Run(cfg, s, xs + ys + zs);
            && t1.bucket.files == s.bucket.files
            && t2.bucket.files == t.bucket.files == s.bucket.files[p := y]
            && a in t.instances && t.instances[a].pc == Idle(Done)
            && p in t.instances[a].local && t.instances[a].local[p] == x && !Tracked(t.instances[a], p)
  {
    hide Run, Solo, Tracked;
    var xs, ys, zs := WriteThenFlush(p, x, ok, bad), WriteThenFlush(p, y, ok, ok), [Act(Proceed, ok)];
    SoloRun(cfg, s, a, xs);
    FlushSends(cfg, a, s.instances[a], s.bucket, p, x, ok, bad);
    var t1 := Run(cfg, s, Events(a, xs));
    RunTwice(cfg, s, Events(a, xs), Events(b, ys));
    SoloRun(cfg, t1, b, ys);
    FlushSends(cfg, b, t1.instances[b], t1.bucket, p, y, ok, ok);
    var t2 := Run(cfg, t1, Events(b, ys));
    RunTwice(cfg, s, Events(a, xs) + Events(b, ys), Events(a, zs));
    SoloRun(cfg, t2, a, zs);
    TakesForOwn(cfg, a, t2.instances[a], t2.bucket, p, x, ok);
  }
}
