/** What an instance that takes a lock over has seen: the record it replaces was
    in the store, and expired, at the moment it looked at it and at its clock. */
module LockTakeover {
  import opened LockRecords
  import opened ObjectStores
  import opened SyncProtocol
  import opened ControlFlow
  import opened LockChanges

  /** During `evs` instance `id` read the lock of `p` with this tag while its
      clock showed `at`. */
  predicate Saw(cfg: Config, s: System, evs: seq<Event>, id: InstanceId, p: Path, tag: ETag, at: nat) {
    exists k :: 0 <= k < |evs| && evs[k].who == id && evs[k].env.wall == at
                && p in Run(cfg, s, evs[..k]).bucket.locks && ETag(Run(cfg, s, evs[..k]).bucket.locks[p]) == tag
  }

  lemma SawEarlier(cfg: Config, s: System, evs: seq<Event>, ev: Event, id: InstanceId, p: Path, tag: ETag, at: nat)
    requires Saw(cfg, s, evs, id, p, tag, at)
    ensures Saw(cfg, s, evs + [ev], id, p, tag, at)
  {
    var k :| 0 <= k < |evs| && evs[k].who == id && evs[k].env.wall == at
             && p in Run(cfg, s, evs[..k]).bucket.locks && ETag(Run(cfg, s, evs[..k]).bucket.locks[p]) == tag;
    assert (evs + [ev])[k] == evs[k] && (evs + [ev])[..k] == evs[..k];
    hide Run;
  }

  /** In every run, what an acquire is about to replace it has read, at `readAt`. */
  lemma {:induction false} AcquireHasSeen(cfg: Config, s: System, evs: seq<Event>, id: InstanceId)
    requires Initial(s) && id in Run(cfg, s, evs).instances
    requires var pc := Run(cfg, s, evs).instances[id].pc; pc.AcquirePut? && pc.seen.Some?
    ensures var pc := Run(cfg, s, evs).instances[id].pc; Saw(cfg, s, evs, id, pc.path, pc.seen.value, pc.readAt)
  {
    hide Begin, Advance, Saw;
    assert id in s.instances ==> Fresh(s.instances[id]);
    if evs != [] {
      var prefix, ev := evs[..|evs| - 1], evs[|evs| - 1];
      var t, pc := Run(cfg, s, prefix), Run(cfg, s, evs).instances[id].pc;
      assert prefix + [ev] == evs && evs[..|prefix|] == prefix;
      if t.instances[id].pc == pc {
        AcquireHasSeen(cfg, s, prefix, id);
        SawEarlier(cfg, s, prefix, ev, id, pc.path, pc.seen.value, pc.readAt);
      } else if ev.action.Start? {
        BeginPc(cfg, id, t.instances[id], ev.action.call, ev.env);
      } else {
        AdvancePc(cfg, id, t.instances[id], t.bucket, ev.env);
        SawNow(cfg, s, prefix, ev, pc.path, pc.seen.value);
      }
    }
  }

  lemma SawNow(cfg: Config, s: System, evs: seq<Event>, ev: Event, p: Path, tag: ETag)
    requires p in Run(cfg, s, evs).bucket.locks && ETag(Run(cfg, s, evs).bucket.locks[p]) == tag
    ensures Saw(cfg, s, evs + [ev], ev.who, p, tag, ev.env.wall)
  {
    hide Run;
    assert (evs + [ev])[|evs|] == ev && (evs + [ev])[..|evs|] == evs;
  }

  /** The next event replaces a readable record of another instance only if that
      very record was read before by the taker, expired on its clock as it read. */
  lemma TakerSawExpiry(cfg: Config, s: System, evs: seq<Event>, ev: Event, p: Path)
    requires Initial(s) && CleanNames(s, evs + [ev])
    ensures var t, u := Run(cfg, s, evs), Run(cfg, s, evs + [ev]);
            p in t.bucket.locks && p in u.bucket.locks && u.bucket.locks[p] != t.bucket.locks[p]
            && Parse(t.bucket.locks[p]).Some? && !RecordOf(t.bucket.locks[p], ev.who) ==>
              exists at :: Saw(cfg, s, evs, ev.who, p, ETag(t.bucket.locks[p]), at) && IsExpired(Parse(t.bucket.locks[p]).value, at)
  {
    hide Parse, LockRecords.Clean, Run, Saw;
    var t, u := Run(cfg, s, evs), Run(cfg, s, evs + [ev]);
    LocksChangeLawfully(cfg, s, evs, ev, p);
    if p in t.bucket.locks && p in u.bucket.locks && u.bucket.locks[p] != t.bucket.locks[p]
       && Parse(t.bucket.locks[p]).Some? && !RecordOf(t.bucket.locks[p], ev.who) {
      AcquireHasSeen(cfg, s, evs, ev.who);
    }
  }
}
