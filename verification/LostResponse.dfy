/** PUTs whose response is lost.

    The HEAD that follows such a PUT recovers the truth for the only writer of
    a leased path. With a second writer it does not: one lost response is then
    enough to overwrite content the writer has never seen. */
module LostResponse {
  import opened LockRecords
  import opened ObjectStores
  import opened SyncProtocol

  /** The recorded base is what the store has, or none when it has nothing. */
  predicate Matches(base: Option<ETag>, files: map<Path, Body>, p: Path) {
    if p in files then base == Some(ETag(files[p])) else base == None
  }

  /** The base recorded for a leased path matched the store before the PUT; the
      PUT reports a transport error, having taken effect or not; nobody else
      changes the object until the HEAD answers. Then the base matches again,
      and the upload counts as done only if the store holds its body. */
  lemma HeadRecoversBase(cfg: Config, id: InstanceId, i: Instance, b: Bucket, lost: Env, later: Bucket, head: Env)
    requires i.pc.UploadPut? && i.pc.path in i.leases && !i.pc.k.ForOpen?
    requires i.pc.cond == BaseCond(i.leases[i.pc.path].base)
    requires Matches(i.leases[i.pc.path].base, b.files, i.pc.path)
    requires lost.fault.Faulty? && !lost.fault.as412 && head.fault.NoFault?
    requires var p := i.pc.path; var files := Advance(cfg, id, i, b, lost).1.files;
             (p in later.files <==> p in files) && (p in files ==> later.files[p] == files[p])
    ensures var p := i.pc.path;
            var waiting := Advance(cfg, id, i, b, lost).0;
            waiting.pc.UploadVerify? &&
            var (j, after) := Advance(cfg, id, waiting, later, head);
            && p in j.leases && Matches(j.leases[p].base, after.files, p)
            && (j.leases[p].base != i.leases[p].base ==> p in later.files && later.files[p] == i.pc.body && !j.leases[p].dirty)
  {
    var UploadPut(p, body, cond, k) := i.pc;
    assert Advance(cfg, id, i, b, lost).0 == i.(pc := UploadVerify(p, body, cond, k));
    var waiting := i.(pc := UploadVerify(p, body, cond, k));
    FlushNextKeepsLeases(i, p, k);
    if p in later.files && (cond.IfNoneMatchAny? || (cond.IfMatch? && ETag(later.files[p]) != cond.tag)) {
      var tag := ETag(later.files[p]);
      UploadDoneLease(waiting, p, body, tag, k);
    } else {
      UploadFailedLease(waiting, p, k);
    }
  }

  lemma {:induction false} FlushKeepsLeases(i: Instance, left: nat)
    ensures FlushNext(i, left).leases == i.leases
    decreases left
  {
    if left != 0 && i.queue != [] && i.queue[0].Upload? && i.queue[0].path in i.leases {
      FlushKeepsLeases(i.(queue := i.queue[1..]), left - 1);
    }
  }

  lemma FlushNextKeepsLeases(i: Instance, p: Path, k: Cont)
    ensures k.ForQueue? ==> FlushNext(i, k.left).leases == i.leases
  {
    if k.ForQueue? { FlushKeepsLeases(i, k.left); }
  }

  lemma UploadDoneLease(i: Instance, p: Path, body: Body, tag: ETag, k: Cont)
    requires p in i.leases && !k.ForOpen?
    ensures var j := UploadDone(i, p, body, tag, k);
            p in j.leases && j.leases[p].base == Some(tag) && !j.leases[p].dirty
  {
    hide FlushNext;
    var h := Rebase(i.(cache := i.cache[p := tag], version := i.version[p := body]), p, Some(tag), true);
    FlushNextKeepsLeases(h, p, k);
  }

  lemma UploadFailedLease(i: Instance, p: Path, k: Cont)
    requires !k.ForOpen?
    ensures UploadFailed(i, p, k).leases == i.leases
  {
    hide FlushNext;
    FlushNextKeepsLeases(i, p, k);
  }

  // ----------------------------------------------------------- two writers ---

  /** The next event replaces content its instance neither downloaded nor uploaded. */
  predicate LosesUpdate(cfg: Config, s: System, evs: seq<Event>, ev: Event, p: Path) {
    var t, u := Run(cfg, s, evs), Run(cfg, s, evs + [ev]);
    && ev.who in t.instances && p in t.bucket.files && p in u.bucket.files
    && u.bucket.files[p] != t.bucket.files[p]
    && (p in t.instances[ev.who].version ==> t.instances[ev.who].version[p] != t.bucket.files[p])
  }

  /** Faults among the events. */
  function Faults(evs: seq<Event>): nat {
    if evs == [] then 0 else (if evs[|evs| - 1].env.fault.Faulty? then 1 else 0) + Faults(evs[..|evs| - 1])
  }

  function Set(s: System, who: InstanceId, i: Instance): System {
    s.(instances := s.instances[who := i])
  }

  lemma WriteStep(cfg: Config, s: System, who: InstanceId, p: Path, body: Body, env: Env)
    requires who in s.instances && s.instances[who].pc.Idle? && s.instances[who].leases == map[]
    ensures var i := s.instances[who];
            Exec(cfg, s, Event(who, Start(Write(p, body)), env))
            == Set(s, who, i.(local := i.local[p := body], queue := Without(i.queue, p) + [Upload(p)], pc := Idle(Done)))
  {
    hide Without;
  }

  lemma SyncStep(cfg: Config, s: System, who: InstanceId, p: Path, env: Env)
    requires who in s.instances && s.instances[who].pc.Idle? && s.instances[who].leases == map[]
    requires p in s.instances[who].local && p in s.instances[who].cache
    ensures var i := s.instances[who];
            Exec(cfg, s, Event(who, Start(SyncNow(p)), env)) == Set(s, who, i.(pc := UploadPut(p, i.local[p], IfMatch(i.cache[p]), ForSync)))
  {
  }

  lemma PutStep(cfg: Config, s: System, who: InstanceId, env: Env)
    requires who in s.instances && s.instances[who].leases == map[]
    requires s.instances[who].pc.UploadPut? && s.instances[who].pc.cond.IfMatch? && s.instances[who].pc.k.ForSync?
    requires s.instances[who].pc.path in s.bucket.files && ETag(s.bucket.files[s.instances[who].pc.path]) == s.instances[who].pc.cond.tag
    requires env.fault.NoFault? || env.fault == Faulty(false, false)
    ensures var i := s.instances[who];
            var UploadPut(p, body, cond, k) := i.pc;
            Exec(cfg, s, Event(who, Proceed, env))
            == if env.fault.Faulty? then Set(s, who, i.(pc := UploadVerify(p, body, cond, k)))
               else Set(s.(bucket := s.bucket.(files := s.bucket.files[p := body])), who,
                        i.(cache := i.cache[p := ETag(body)], version := i.version[p := body], pc := Idle(Done)))
  {
  }

  /** The HEAD finds a body that is not the base, and takes it for its own. */
  lemma HeadStep(cfg: Config, s: System, who: InstanceId, env: Env)
    requires who in s.instances && s.instances[who].leases == map[] && env.fault.NoFault?
    requires s.instances[who].pc.UploadVerify? && s.instances[who].pc.cond.IfMatch? && s.instances[who].pc.k.ForSync?
    requires s.instances[who].pc.path in s.bucket.files && ETag(s.bucket.files[s.instances[who].pc.path]) != s.instances[who].pc.cond.tag
    ensures var i := s.instances[who];
            var UploadVerify(p, body, cond, k) := i.pc;
            Exec(cfg, s, Event(who, Proceed, env))
            == Set(s, who, i.(cache := i.cache[p := ETag(s.bucket.files[p])], version := i.version[p := body], pc := Idle(Done)))
  {
  }

  lemma {:induction false} RunConcat(cfg: Config, s: System, xs: seq<Event>, ys: seq<Event>)
    ensures Run(cfg, s, xs + ys) == Run(cfg, Run(cfg, s, xs), ys)
    ensures Faults(xs + ys) == Faults(xs) + Faults(ys)
  {
    hide Exec;
    if ys == [] {
      assert xs + ys == xs;
    } else {
      var zs, ev := ys[..|ys| - 1], ys[|ys| - 1];
      RunConcat(cfg, s, xs, zs);
      assert (xs + ys)[..|xs + ys| - 1] == xs + zs;
    }
  }

  /** Write a body and push it, the PUT meeting `env`. */
  function Push(who: InstanceId, p: Path, body: Body, ok: Env, env: Env): seq<Event> {
    [Event(who, Start(Write(p, body)), ok), Event(who, Start(SyncNow(p)), ok), Event(who, Proceed, env)]
  }

  lemma PushRun(cfg: Config, s: System, who: InstanceId, p: Path, body: Body, ok: Env, env: Env)
    requires who in s.instances && s.instances[who].pc.Idle? && s.instances[who].leases == map[]
    requires p in s.instances[who].cache && p in s.bucket.files && ETag(s.bucket.files[p]) == s.instances[who].cache[p]
    requires env.fault.NoFault? || env.fault == Faulty(false, false)
    ensures var t := Run(cfg, s, Push(who, p, body, ok, env));
            var i := s.instances[who];
            && t.instances.Keys == s.instances.Keys && (forall id :: id in s.instances && id != who ==> t.instances[id] == s.instances[id])
            && t.instances[who].leases == map[] && t.instances[who].local == i.local[p := body]
            && (if env.fault.NoFault? then t.bucket.files == s.bucket.files[p := body]
                else t.bucket == s.bucket && t.instances[who].cache == i.cache
                     && t.instances[who].pc == UploadVerify(p, body, IfMatch(i.cache[p]), ForSync))
  {
    hide Exec, Without;
    var es := Push(who, p, body, ok, env);
    assert es[..2][..1] == es[..1] && es[..1][..0] == [];
    assert Run(cfg, s, es[..1]) == Exec(cfg, s, es[0]);
    assert Run(cfg, s, es[..2]) == Exec(cfg, Run(cfg, s, es[..1]), es[1]);
    WriteStep(cfg, s, who, p, body, ok);
    SyncStep(cfg, Run(cfg, s, es[..1]), who, p, ok);
    PutStep(cfg, Run(cfg, s, es[..2]), who, env);
  }

  /** From the pending HEAD to the PUT that loses the update. */
  lemma OverwriteRun(cfg: Config, s: System, who: InstanceId, p: Path, body: Body, base: ETag, env: Env)
    requires who in s.instances && s.instances[who].leases == map[] && env.fault.NoFault? && p in s.bucket.files
    requires s.instances[who].pc == UploadVerify(p, body, IfMatch(base), ForSync)
    requires p in s.instances[who].local && s.instances[who].local[p] == body && ETag(s.bucket.files[p]) != base && s.bucket.files[p] != body
    ensures LosesUpdate(cfg, s, [Event(who, Proceed, env), Event(who, Start(SyncNow(p)), env)], Event(who, Proceed, env), p)
  {
    hide Exec;
    var e1, e2 := Event(who, Proceed, env), Event(who, Start(SyncNow(p)), env);
    assert [e1, e2][..1] == [e1] && [e1][..0] == [] && ([e1, e2] + [e1])[..2] == [e1, e2];
    assert Run(cfg, s, [e1]) == Exec(cfg, s, e1);
    HeadStep(cfg, s, who, env);
    assert Run(cfg, s, [e1, e2]) == Exec(cfg, Run(cfg, s, [e1]), e2);
    SyncStep(cfg, Run(cfg, s, [e1]), who, p, env);
    PutStep(cfg, Run(cfg, s, [e1, e2]), who, env);
  }

  /** Any two idle instances with a common version of a file can get there. */
  lemma OneFaultScenario(cfg: Config, s: System, a: InstanceId, b: InstanceId, p: Path, x: Body, y: Body, ok: Env, bad: Env)
    requires a != b && a in s.instances && b in s.instances && p in s.bucket.files
    requires forall id :: id in {a, b} ==>
               var i := s.instances[id];
               i.pc.Idle? && i.leases == map[] && p in i.cache && i.cache[p] == ETag(s.bucket.files[p])
    requires x != y && s.bucket.files[p] != y && ok.fault.NoFault? && bad.fault == Faulty(false, false)
    ensures var evs := Push(a, p, x, ok, bad) + Push(b, p, y, ok, ok) + [Event(a, Proceed, ok), Event(a, Start(SyncNow(p)), ok)];
            LosesUpdate(cfg, s, evs, Event(a, Proceed, ok), p)
  {
    hide Run, Push;
    var xs, ys := Push(a, p, x, ok, bad), Push(b, p, y, ok, ok);
    var zs, ev := [Event(a, Proceed, ok), Event(a, Start(SyncNow(p)), ok)], Event(a, Proceed, ok);
    var t := Run(cfg, s, xs);
    PushRun(cfg, s, a, p, x, ok, bad);
    assert b in {a, b} && a in {a, b};
    PushRun(cfg, t, b, p, y, ok, ok);
    OverwriteRun(cfg, Run(cfg, t, ys), a, p, x, ETag(s.bucket.files[p]), ok);
    RunConcat(cfg, s, xs, ys);
    RunConcat(cfg, s, xs + ys, zs);
    RunConcat(cfg, s, xs + ys, zs + [ev]);
    assert xs + ys + (zs + [ev]) == xs + ys + zs + [ev];
  }

  lemma OneFaultCount(a: InstanceId, b: InstanceId, p: Path, x: Body, y: Body, ok: Env, bad: Env)
    requires ok.fault.NoFault? && bad.fault.Faulty?
    ensures Faults(Push(a, p, x, ok, bad) + Push(b, p, y, ok, ok) + [Event(a, Proceed, ok), Event(a, Start(SyncNow(p)), ok)]) == 1
  {
    var xs, ys, zs := Push(a, p, x, ok, bad), Push(b, p, y, ok, ok), [Event(a, Proceed, ok), Event(a, Start(SyncNow(p)), ok)];
    assert xs[..2] == [xs[0], xs[1]];
    CleanCount(xs[..2]);
    CleanCount(ys);
    CleanCount(zs);
    RunConcat(Config(0), System(Bucket(map[], map[]), map[]), xs, ys);
    RunConcat(Config(0), System(Bucket(map[], map[]), map[]), xs + ys, zs);
  }

  lemma {:induction false} CleanCount(xs: seq<Event>)
    requires Reliable(xs)
    ensures Faults(xs) == 0
  {
    if xs != [] { CleanCount(xs[..|xs| - 1]); }
  }

  /** A single lost response, and a write of another instance before the HEAD,
      lose that write. */
  lemma OneFaultLosesAnUpdate(cfg: Config)
    ensures exists s: System, evs: seq<Event>, ev: Event, p: Path ::
              Initial(s) && Faults(evs) == 1 && ev.env.fault.NoFault? && LosesUpdate(cfg, s, evs, ev, p)
  {
    var p: Path, a, b := "/f", "a", "b";
    var i := Instance(map[p := "0"], map[p := ETag("0")], map[], [], Idle(Done), map[p := "0"]);
    var s := System(Bucket(map[p := "0"], map[]), map[a := i, b := i]);
    assert a != b && Initial(s);
    var ok, bad := Env(0, 0, false, NoFault, []), Env(0, 0, false, Faulty(false, false), []);
    hide Initial, Push, LosesUpdate, Faults;
    OneFaultScenario(cfg, s, a, b, p, "x", "y", ok, bad);
    OneFaultCount(a, b, p, "x", "y", ok, bad);
  }
}
