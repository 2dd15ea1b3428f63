/** Mutual exclusion of leases on a shared clock: in a timely run no held lease
    ever expires, so no two instances hold one path. */
module LeaseExclusion {
  import opened LockRecords
  import opened ObjectStores
  import opened SyncProtocol
  import opened LockChanges
  import opened LeaseTiming

  /** Before any event: nothing held, no lock recorded for a participant. */
  predicate Unlocked(t: Timed) {
    && Initial(t.sys)
    && forall id :: id in t.sys.instances ==>
         id in t.stamps && t.stamps[id] <= t.now && OwnLocks(t.sys.bucket.locks, id) == map[]
  }

  lemma InitSound(cfg: Config, t: Timed)
    requires Unlocked(t)
    ensures SystemSound(cfg, t)
  {
    hide OwnLocks, Expires;
    forall id | id in t.sys.instances
      ensures Sound(cfg, id, t.sys.instances[id], t.sys.bucket.locks, t.stamps[id] + cfg.lease / 2, t.now)
    {
      var i := t.sys.instances[id];
      assert Fresh(i);
      assert LeaseTags(i.leases) == map[];
    }
  }

  lemma {:induction false} TimedRunIsRun(cfg: Config, t: Timed, evs: seq<Event>)
    ensures TimedRun(cfg, t, evs).sys == Run(cfg, t.sys, evs)
  {
    hide Exec;
    if evs != [] { TimedRunIsRun(cfg, t, evs[..|evs| - 1]); }
  }

  lemma {:induction false} TimedRunSound(cfg: Config, t: Timed, evs: seq<Event>)
    requires 0 < cfg.lease && Unlocked(t) && Timely(cfg, t, evs) && CleanNames(t.sys, evs)
    ensures SystemSound(cfg, TimedRun(cfg, t, evs))
  {
    hide TimedExec, SystemSound, OnTime, LockRecords.Clean, OwnLocks;
    if evs == [] {
      InitSound(cfg, t);
    } else {
      var prefix, ev := evs[..|evs| - 1], evs[|evs| - 1];
      TimedRunSound(cfg, t, prefix);
      TimedRunIsRun(cfg, t, prefix);
      RunIsOwned(cfg, t.sys, prefix);
      ReadingsPast(cfg, t, prefix, ev.who);
      TimedExecSound(cfg, TimedRun(cfg, t, prefix), prefix, ev);
    }
  }

  /** In every timely run no two instances hold one path, each lock object held
      is the holder's own record and unexpired at whatever time the next event
      happens, no renewal was ever refused, and an instance about to push its
      change at close still holds the lock. */
  lemma HoldersExclude(cfg: Config, t: Timed, evs: seq<Event>, p: Path, a: InstanceId, b: InstanceId)
    requires 0 < cfg.lease && Unlocked(t) && Timely(cfg, t, evs) && CleanNames(t.sys, evs)
    ensures var u := TimedRun(cfg, t, evs);
      a in u.sys.instances ==>
        var i := u.sys.instances[a];
        && (p in Held(i) ==>
              && p in u.sys.bucket.locks && RecordOf(u.sys.bucket.locks[p], a)
              && (forall ev :: OnTime(cfg, u, ev) ==> !IsExpired(Parse(u.sys.bucket.locks[p]).value, ev.env.wall))
              && (b in u.sys.instances && p in Held(u.sys.instances[b]) ==> a == b))
        && (p in i.leases ==> !i.leases[p].lost)
        && ((i.pc.UploadPut? || i.pc.UploadCreate? || i.pc.DeleteFile?) && i.pc.k.ForClose? && i.pc.path == p ==> p in Held(i))
  {
    hide TimedExec, OwnLocks, LockRecords.Clean, Parse;
    TimedRunSound(cfg, t, evs);
    var u := TimedRun(cfg, t, evs);
    if a in u.sys.instances {
      HolderIsRecorded(cfg, u, a, p);
      if b in u.sys.instances { HolderIsRecorded(cfg, u, b, p); }
    }
  }

  lemma HolderIsRecorded(cfg: Config, u: Timed, a: InstanceId, p: Path)
    requires 0 < cfg.lease && SystemSound(cfg, u) && a in u.sys.instances
    ensures var i := u.sys.instances[a];
      && (p in Held(i) ==>
            && p in u.sys.bucket.locks && RecordOf(u.sys.bucket.locks[p], a) && Engaged(i)
            && u.stamps[a] + cfg.lease / 2 < Parse(u.sys.bucket.locks[p]).value.expires)
      && (p in i.leases ==> !i.leases[p].lost && p in Held(i))
      && ((i.pc.UploadPut? || i.pc.UploadCreate? || i.pc.DeleteFile?) && i.pc.k.ForClose? && i.pc.path == p ==> p in i.leases)
  {
    hide Parse, Engaged;
    var i, limit := u.sys.instances[a], u.stamps[a] + cfg.lease / 2;
    assert Sound(cfg, a, i, u.sys.bucket.locks, limit, u.now);
    if p in Held(i) {
      assert p in OwnLocks(u.sys.bucket.locks, a);
      HeldIsLive(cfg, a, i, u.sys.bucket.locks, limit, u.now, p);
    }
    if p in i.leases { assert p in LeaseTags(i.leases); }
  }
}
