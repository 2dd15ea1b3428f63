/**
 * Why exclusion needs a lease longer than zero. The configuration accepts a
 * lease of zero; a record then is expired when it is written, and a second
 * instance takes it over while the first still holds it.
 */
module ZeroLease {
  import opened LockRecords
  import opened ObjectStores
  import opened SyncProtocol
  import opened LockChanges
  import opened LeaseTiming
  import opened SoloRuns

  const AT_ZERO := Env(0, 0, false, NoFault, [])

  /** One instance takes the lock of `p` as far as its first look at the file. */
  function Taking(who: InstanceId, p: Path): seq<Event> {
    [Event(who, Start(Open(p)), AT_ZERO), Event(who, Proceed, AT_ZERO), Event(who, Proceed, AT_ZERO)]
  }

  /** Everything happens at time zero. */
  predicate AtZero(t: Timed) {
    t.now == 0 && forall id :: id in t.sys.instances ==> id in t.stamps && !t.sys.instances[id].pc.RenewPut?
  }

  predicate Ready(t: Timed, who: InstanceId) {
    who in t.sys.instances && t.sys.instances[who].pc.Idle? && t.sys.instances[who].queue == []
  }

  function With(t: Timed, who: InstanceId, pc: Pc): map<InstanceId, Instance>
    requires who in t.sys.instances
  {
    t.sys.instances[who := t.sys.instances[who].(pc := pc)]
  }

  /** The record a taker writes at time zero. */
  function ZeroRecord(locks: map<Path, Body>, who: InstanceId, p: Path): LockRecord {
    TakenRecord(Config(0), who, locks, p, AT_ZERO)
  }

  function Holding(b: Bucket, who: InstanceId, p: Path): Pc {
    HeadFile(p, Some(HoldOf(Config(0), who, b, p, AT_ZERO)))
  }

  lemma Starts(t: Timed, who: InstanceId, p: Path)
    requires AtZero(t) && Ready(t, who) && p !in t.sys.instances[who].leases
    ensures var u := TimedExec(Config(0), t, Event(who, Start(Open(p)), AT_ZERO));
            && AtZero(u) && u.sys.bucket == t.sys.bucket && u.sys.instances == With(t, who, AcquireGet(p))
            && OnTime(Config(0), t, Event(who, Start(Open(p)), AT_ZERO))
  {
    hide Freshens;
  }

  /** The record to write carries time zero. */
  lemma LooksFree(t: Timed, who: InstanceId, p: Path)
    requires AtZero(t) && who in t.sys.instances && t.sys.instances[who].pc == AcquireGet(p) && Free(t.sys.bucket.locks, p, 0)
    ensures var locks := t.sys.bucket.locks;
            var u := TimedExec(Config(0), t, Event(who, Proceed, AT_ZERO));
            && AtZero(u) && u.sys.bucket == t.sys.bucket
            && u.sys.instances == With(t, who, AcquirePut(p, Seen(locks, p), ZeroRecord(locks, who, p), 0, 0))
            && OnTime(Config(0), t, Event(who, Proceed, AT_ZERO))
  {
    hide Parse, Freshens;
    assert Wrap64(0) == 0;
  }

  lemma WritesRecord(t: Timed, who: InstanceId, p: Path)
    requires AtZero(t) && who in t.sys.instances && t.sys.instances[who].queue == [] && Clean(who) && Clean(p)
    requires t.sys.instances[who].pc == AcquirePut(p, Seen(t.sys.bucket.locks, p), ZeroRecord(t.sys.bucket.locks, who, p), 0, 0)
    ensures var locks := t.sys.bucket.locks;
            var u := TimedExec(Config(0), t, Event(who, Proceed, AT_ZERO));
            && AtZero(u) && Free(u.sys.bucket.locks, p, 0) && u.sys.instances == With(t, who, Holding(t.sys.bucket, who, p))
            && OnTime(Config(0), t, Event(who, Proceed, AT_ZERO))
  {
    RoundTrip(ZeroRecord(t.sys.bucket.locks, who, p));
    hide Parse, Encode, Freshens, LockRecords.Clean;
  }

  /** Three events and the instance holds the lock, which is free again. */
  lemma Takes(t: Timed, who: InstanceId, p: Path)
    requires AtZero(t) && Ready(t, who) && p !in t.sys.instances[who].leases && Clean(who) && Clean(p)
    requires Free(t.sys.bucket.locks, p, 0)
    ensures var u := TimedRun(Config(0), t, Taking(who, p));
            && Timely(Config(0), t, Taking(who, p)) && AtZero(u) && Free(u.sys.bucket.locks, p, 0)
            && u.sys.instances == With(t, who, Holding(t.sys.bucket, who, p))
  {
    hide TimedExec, Free, AtZero, LockRecords.Clean, ZeroRecord, OnTime, Timely, TimedRun;
    var e0, e := Event(who, Start(Open(p)), AT_ZERO), Event(who, Proceed, AT_ZERO);
    Starts(t, who, p);
    TimelyOne(Config(0), t, e0);
    var t1 := TimedExec(Config(0), t, e0);
    LooksFree(t1, who, p);
    TimelyOne(Config(0), t1, e);
    var t2 := TimedExec(Config(0), t1, e);
    WritesRecord(t2, who, p);
    TimelyOne(Config(0), t2, e);
    TimelyConcat(Config(0), t, [e0], [e]);
    TimelyConcat(Config(0), t, [e0] + [e], [e]);
    assert [e0] + [e] + [e] == Taking(who, p);
  }

  lemma TimelyOne(cfg: Config, t: Timed, ev: Event)
    requires OnTime(cfg, t, ev)
    ensures Timely(cfg, t, [ev]) && TimedRun(cfg, t, [ev]) == TimedExec(cfg, t, ev)
  {
    hide TimedExec, OnTime;
    assert [ev][..0] == [];
  }

  lemma {:induction false} TimelyConcat(cfg: Config, t: Timed, xs: seq<Event>, ys: seq<Event>)
    requires Timely(cfg, t, xs) && Timely(cfg, TimedRun(cfg, t, xs), ys)
    ensures Timely(cfg, t, xs + ys) && TimedRun(cfg, t, xs + ys) == TimedRun(cfg, TimedRun(cfg, t, xs), ys)
  {
    hide TimedExec, OnTime;
    if ys == [] {
      assert xs + ys == xs;
    } else {
      TimelyConcat(cfg, t, xs, ys[..|ys| - 1]);
      assert (xs + ys)[..|xs + ys| - 1] == xs + ys[..|ys| - 1];
    }
  }

  /** With a lease of zero, two instances that open the same path in turn both hold it. */
  lemma ZeroLeaseIsShared(t: Timed, a: InstanceId, b: InstanceId, p: Path)
    requires AtZero(t) && Ready(t, a) && Ready(t, b) && a != b && Clean(a) && Clean(b) && Clean(p)
    requires t.sys.instances[a].leases == map[] && t.sys.instances[b].leases == map[] && p !in t.sys.bucket.locks
    ensures var evs := Taking(a, p) + Taking(b, p);
            var u := TimedRun(Config(0), t, evs);
            && Timely(Config(0), t, evs) && a in u.sys.instances && b in u.sys.instances
            && p in Held(u.sys.instances[a]) && p in Held(u.sys.instances[b])
  {
    hide TimedExec, LockRecords.Clean, ZeroRecord, OnTime, TimedRun, Timely, Taking;
    Takes(t, a, p);
    var mid := TimedRun(Config(0), t, Taking(a, p));
    Takes(mid, b, p);
    TimelyConcat(Config(0), t, Taking(a, p), Taking(b, p));
  }
}
