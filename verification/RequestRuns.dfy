/** The requests one instance makes during a run, whatever the others do between them. */
module RequestRuns {
  import opened LockRecords
  import opened ObjectStores
  import opened SyncProtocol

  /** A request: the bucket it met, the choices of its environment, the bucket it left. */
  datatype Request = Request(before: Bucket, env: Env, after: Bucket)

  /** None of these events is of `id`. */
  predicate Others(evs: seq<Event>, id: InstanceId) {
    forall k :: 0 <= k < |evs| ==> evs[k].who != id
  }

  /** Instance `id` starts no call here: it goes on with the one it is in. */
  predicate GoesOn(evs: seq<Event>, id: InstanceId) {
    forall k :: 0 <= k < |evs| && evs[k].who == id ==> evs[k].action.Proceed?
  }

  /** The requests that `id` makes during `evs`, in order. */
  function Requests(cfg: Config, s: System, evs: seq<Event>, id: InstanceId): seq<Request> {
    if evs == [] then []
    else
      var front, ev := evs[..|evs| - 1], evs[|evs| - 1];
      Requests(cfg, s, front, id)
      + if ev.who == id && IsRequest(Run(cfg, s, front), ev) then [Request(Run(cfg, s, front).bucket, ev.env, Run(cfg, s, evs).bucket)] else []
  }

  /** Making exactly these requests takes the instance from `i` to `j`. */
  ghost predicate Leads(cfg: Config, id: InstanceId, i: Instance, rs: seq<Request>, j: Instance)
    decreases |rs|
  {
    if rs == [] then j == i
    else
      && !i.pc.Idle?
      && var (k, b) := Advance(cfg, id, i, rs[0].before, rs[0].env);
      b == rs[0].after && Leads(cfg, id, k, rs[1..], j)
  }

  lemma LeadsFirst(cfg: Config, id: InstanceId, i: Instance, rs: seq<Request>, j: Instance)
    requires Leads(cfg, id, i, rs, j) && !i.pc.Idle? && j.pc.Idle?
    ensures rs != []
    ensures var (k, b) := Advance(cfg, id, i, rs[0].before, rs[0].env); b == rs[0].after && Leads(cfg, id, k, rs[1..], j)
  {
    hide Advance;
  }

  lemma {:induction false} LeadsOn(cfg: Config, id: InstanceId, i: Instance, rs: seq<Request>, j: Instance, r: Request)
    requires Leads(cfg, id, i, rs, j) && !j.pc.Idle? && Advance(cfg, id, j, r.before, r.env).1 == r.after
    ensures Leads(cfg, id, i, rs + [r], Advance(cfg, id, j, r.before, r.env).0)
    decreases |rs|
  {
    hide Advance;
    if rs == [] {
      assert (rs + [r])[1..] == [];
    } else {
      LeadsOn(cfg, id, Advance(cfg, id, i, rs[0].before, rs[0].env).0, rs[1..], j, r);
      assert (rs + [r])[1..] == rs[1..] + [r];
    }
  }

  /** While `id` goes on with its call, its requests alone decide where it gets. */
  lemma {:induction false} RunLeads(cfg: Config, s: System, evs: seq<Event>, id: InstanceId)
    requires id in s.instances && GoesOn(evs, id)
    ensures id in Run(cfg, s, evs).instances
    ensures Leads(cfg, id, s.instances[id], Requests(cfg, s, evs, id), Run(cfg, s, evs).instances[id])
  {
    hide Advance, Begin;
    if evs != [] {
      var front, ev := evs[..|evs| - 1], evs[|evs| - 1];
      RunLeads(cfg, s, front, id);
      var t, rs := Run(cfg, s, front), Requests(cfg, s, front, id);
      if ev.who == id && IsRequest(t, ev) {
        LeadsOn(cfg, id, s.instances[id], rs, t.instances[id], Request(t.bucket, ev.env, Run(cfg, s, evs).bucket));
      } else {
        assert Requests(cfg, s, evs, id) == rs;
      }
      hide Leads;
    }
  }

  lemma {:induction false} OthersKeep(cfg: Config, s: System, evs: seq<Event>, id: InstanceId)
    requires id in s.instances && Others(evs, id)
    ensures id in Run(cfg, s, evs).instances && Run(cfg, s, evs).instances[id] == s.instances[id]
  {
    hide Advance, Begin;
    if evs != [] { OthersKeep(cfg, s, evs[..|evs| - 1], id); }
  }

  lemma StartOne(cfg: Config, s: System, id: InstanceId, call: Call, env: Env)
    requires id in s.instances && s.instances[id].pc.Idle?
    ensures var t := Run(cfg, s, [Event(id, Start(call), env)]);
            id in t.instances && t.instances[id] == Begin(cfg, id, s.instances[id], call, env) && t.bucket == s.bucket
  {
    hide Begin;
    assert [Event(id, Start(call), env)][..0] == [];
  }

  // ------------------------------------------ the ends of a push, unrolled ---

  /** The one request that releases the lock at the end of a close. */
  lemma UnlockEnds(cfg: Config, id: InstanceId, i: Instance, rs: seq<Request>, j: Instance, p: Path, tag: ETag, ret: Outcome)
    requires i.pc == Unlock(p, tag, AfterClose(ret, [], Done)) && Leads(cfg, id, i, rs, j) && j.pc.Idle?
    ensures |rs| == 1 && j == i.(leases := i.leases - {p}, pc := Idle(ret))
  {
    assert rs != [];
  }

  /** A push with nothing behind it: the last release of a lease, an fsync or a queue
      that is now empty. */
  predicate LastPush(i: Instance, k: Cont) {
    k.ForSync? || (k.ForClose? && k.rest == [] && k.first == Done) || (k.ForQueue? && i.queue == [])
  }

  /** What is left of the instance once such a push is over: the lease goes if it was
      the push of a close. */
  function Settled(i: Instance, p: Path, k: Cont, ret: Outcome): Instance {
    i.(leases := if k.ForClose? then i.leases - {p} else i.leases, pc := Idle(if k.ForQueue? then Done else ret))
  }

  lemma FinishEnds(cfg: Config, id: InstanceId, i: Instance, p: Path, k: Cont, ret: Outcome, rs: seq<Request>, j: Instance)
    requires LastPush(i, k) && Leads(cfg, id, Finish(i, p, k, ret), rs, j) && j.pc.Idle?
    ensures j == Settled(i, p, k, ret) && |rs| == if k.ForClose? then 1 else 0
    ensures j.leases.Keys == i.leases.Keys - if k.ForClose? then {p} else {}
  {
    if k.ForClose? {
      UnlockEnds(cfg, id, Finish(i, p, k, ret), rs, j, p, k.tag, ret);
    } else {
      assert Finish(i, p, k, ret).pc.Idle?;
    }
  }

  /** What a refresh after a lost condition leaves: the object's bytes and tag, or no
      tag if there is no object. */
  function Refreshed(i: Instance, p: Path, files: map<Path, Body>): Instance {
    if p in files then Rebase(Download(i, p, files[p]), p, Some(ETag(files[p])), true)
    else Rebase(i.(cache := i.cache - {p}), p, None, false)
  }

  lemma RefreshedShape(i: Instance, p: Path, files: map<Path, Body>)
    ensures var j := Refreshed(i, p, files);
            && j.queue == i.queue && j.leases.Keys == i.leases.Keys && j.pc == i.pc
            && j.local == if p in files then i.local[p := files[p]] else i.local
  {
  }

  lemma RefreshOnce(cfg: Config, id: InstanceId, i: Instance, p: Path, k: Cont, b: Bucket, env: Env)
    requires i.pc == Refresh(p, k)
    ensures Advance(cfg, id, i, b, env)
            == (if env.fault.Faulty? then Finish(i, p, k, Conflict(false))
                else Finish(Refreshed(i, p, b.files), p, k, Conflict(p in b.files)), b)
  {
    hide Finish, Rebase, Download;
  }

  lemma RefreshEnds(cfg: Config, id: InstanceId, i: Instance, p: Path, k: Cont, rs: seq<Request>, j: Instance)
    requires i.pc == Refresh(p, k) && LastPush(i, k) && Leads(cfg, id, i, rs, j) && j.pc.Idle?
    ensures rs != [] && rs[0].after == rs[0].before
    ensures rs[0].env.fault.Faulty? ==> j == Settled(i, p, k, Conflict(false))
    ensures rs[0].env.fault.NoFault? ==>
              j == Settled(Refreshed(i, p, rs[0].before.files), p, k, Conflict(p in rs[0].before.files))
    ensures j.leases.Keys == i.leases.Keys - if k.ForClose? then {p} else {}
    ensures rs[0].env.fault.NoFault? ==>
              j.local == if p in rs[0].before.files then i.local[p := rs[0].before.files[p]] else i.local
  {
    hide Finish, Settled, Leads, Advance, Refreshed;
    LeadsFirst(cfg, id, i, rs, j);
    var files := rs[0].before.files;
    RefreshOnce(cfg, id, i, p, k, rs[0].before, rs[0].env);
    RefreshedShape(i, p, files);
    if rs[0].env.fault.Faulty? {
      FinishEnds(cfg, id, i, p, k, Conflict(false), rs[1..], j);
    } else {
      FinishEnds(cfg, id, Refreshed(i, p, files), p, k, Conflict(p in files), rs[1..], j);
      SettledLocal(Refreshed(i, p, files), p, k, Conflict(p in files));
    }
  }

  lemma SettledLocal(i: Instance, p: Path, k: Cont, ret: Outcome)
    ensures Settled(i, p, k, ret).local == i.local
  {
  }

  predicate AllAnswered(rs: seq<Request>) {
    forall n :: 0 <= n < |rs| ==> rs[n].env.fault.NoFault?
  }

  /** What an accepted upload leaves: the tag in the cache and on the lease. */
  function Recorded(i: Instance, p: Path, body: Body): Instance {
    Rebase(i.(cache := i.cache[p := ETag(body)], version := i.version[p := body]), p, Some(ETag(body)), true)
  }

  lemma RecordedShape(i: Instance, p: Path, body: Body)
    ensures var j := Recorded(i, p, body);
            && j.queue == i.queue && j.local == i.local && j.leases.Keys == i.leases.Keys && p in j.cache && j.cache[p] == ETag(body)
            && (p in j.leases ==> j.leases[p].base == Some(ETag(body)) && !j.leases[p].dirty)
  {
  }

  lemma UploadOnce(cfg: Config, id: InstanceId, i: Instance, p: Path, body: Body, k: Cont, b: Bucket, env: Env)
    requires env.fault.NoFault? && !k.ForOpen?
    requires i.pc.UploadCreate? || (i.pc.UploadPut? && !i.pc.cond.Unconditional?)
    requires i.pc.path == p && i.pc.body == body && i.pc.k == k
    ensures var (i1, b1) := Advance(cfg, id, i, b, env);
            var cond := if i.pc.UploadCreate? then IfNoneMatchAny else i.pc.cond;
            if CheckCond(b.files, p, cond).Accepted? then
              i1 == Finish(Recorded(i, p, body), p, k, Done) && b1.files == b.files[p := body]
            else b1 == b && i1 == i.(pc := if i.pc.UploadCreate? then Refresh(p, k)
                                           else if cond.IfNoneMatchAny? then UploadHead(p, body, k)
                                           else if p in b.files then Refresh(p, k) else UploadCreate(p, body, k))
  {
    hide Finish, Rebase;
  }

  lemma HeadOnce(cfg: Config, id: InstanceId, i: Instance, p: Path, body: Body, k: Cont, b: Bucket, env: Env)
    requires env.fault.NoFault? && i.pc == UploadHead(p, body, k)
    ensures Advance(cfg, id, i, b, env) == (i.(pc := if p in b.files then Refresh(p, k) else UploadCreate(p, body, k)), b)
  {
  }

  // --------------------------------------------------- a push comes to an end ---

  /** In a last push, or done. */
  predicate Ending(i: Instance) {
    match i.pc
    case Idle(_) => true
    case Unlock(_, _, next) => next.AfterClose? && next.rest == []
    case UploadPut(_, _, _, k) => LastPush(i, k)
    case UploadCreate(_, _, k) => LastPush(i, k)
    case UploadHead(_, _, k) => LastPush(i, k)
    case UploadVerify(_, _, _, k) => LastPush(i, k)
    case Refresh(_, k) => LastPush(i, k)
    case DeleteFile(_, _, k) => LastPush(i, k)
    case QueueDelete(_, _, _) => i.queue == []
    case _ => false
  }

  /** The most requests it can still make. */
  function Rank(pc: Pc): (n: nat)
    ensures n <= 6
  {
    match pc
    case Idle(_) => 0
    case UploadPut(_, _, _, _) => 6
    case UploadHead(_, _, _) => 5
    case UploadCreate(_, _, _) => 4
    case DeleteFile(_, _, _) => 3
    case QueueDelete(_, _, _) => 3
    case UploadVerify(_, _, _, _) => 2
    case Refresh(_, _) => 2
    case _ => 1
  }

  lemma FinishFalls(i: Instance, p: Path, k: Cont, ret: Outcome)
    requires LastPush(i, k)
    ensures var i1 := Finish(i, p, k, ret); Ending(i1) && Rank(i1.pc) <= 1
    ensures var i1 := UploadFailed(i, p, k); Ending(i1) && Rank(i1.pc) <= 1
  {
  }

  lemma UploadDoneFalls(i: Instance, p: Path, body: Body, tag: ETag, k: Cont)
    requires LastPush(i, k)
    ensures var i1 := UploadDone(i, p, body, tag, k); Ending(i1) && Rank(i1.pc) <= 1
  {
    FinishFalls(Rebase(i.(cache := i.cache[p := tag], version := i.version[p := body]), p, Some(tag), true), p, k, Done);
    hide Finish, Ending, Rank;
  }

  /** The requests that can follow a PUT. */
  lemma NextFalls(i: Instance, p: Path, body: Body, cond: Precondition, k: Cont)
    requires LastPush(i, k)
    ensures Ending(i.(pc := UploadCreate(p, body, k))) && Ending(i.(pc := UploadHead(p, body, k)))
    ensures Ending(i.(pc := UploadVerify(p, body, cond, k))) && Ending(i.(pc := Refresh(p, k)))
    ensures Rank(UploadCreate(p, body, k)) == 4 && Rank(UploadHead(p, body, k)) == 5
    ensures Rank(UploadVerify(p, body, cond, k)) == 2 && Rank(Refresh(p, k)) == 2
  {
  }

  lemma PutFalls(i: Instance, b: Bucket, env: Env, p: Path, body: Body, cond: Precondition, k: Cont)
    requires i.pc == UploadPut(p, body, cond, k) && LastPush(i, k)
    ensures var i1 := UploadStep(i, b, env).0; Ending(i1) && Rank(i1.pc) < 6
  {
    hide UploadDone, UploadFailed, Put, Ending, Rank, LastPush;
    NextFalls(i, p, body, cond, k);
    var reply := Put(b.files, p, body, cond, env.fault).1;
    if reply.Stored? { UploadDoneFalls(i, p, body, reply.tag, k); }
  }

  lemma CreateFalls(i: Instance, b: Bucket, env: Env, p: Path, body: Body, k: Cont)
    requires i.pc == UploadCreate(p, body, k) && LastPush(i, k)
    ensures var i1 := UploadStep(i, b, env).0; Ending(i1) && Rank(i1.pc) < 4
  {
    hide UploadDone, UploadFailed, Put, Ending, Rank, LastPush;
    NextFalls(i, p, body, IfNoneMatchAny, k);
    FinishFalls(i, p, k, Done);
    var reply := Put(b.files, p, body, IfNoneMatchAny, env.fault).1;
    if reply.Stored? { UploadDoneFalls(i, p, body, reply.tag, k); }
  }

  lemma LookFalls(i: Instance, b: Bucket, env: Env)
    requires (i.pc.UploadHead? || i.pc.UploadVerify?) && LastPush(i, i.pc.k)
    ensures var i1 := UploadStep(i, b, env).0; Ending(i1) && Rank(i1.pc) < if i.pc.UploadHead? then 5 else 2
  {
    var p, body, k := i.pc.path, i.pc.body, i.pc.k;
    hide UploadDone, UploadFailed, Ending, Rank, LastPush;
    NextFalls(i, p, body, IfNoneMatchAny, k);
    FinishFalls(i, p, k, Done);
    if p in b.files { UploadDoneFalls(i, p, body, ETag(b.files[p]), k); }
  }

  lemma UploadFalls(i: Instance, b: Bucket, env: Env)
    requires Ending(i) && (i.pc.UploadPut? || i.pc.UploadCreate? || i.pc.UploadHead? || i.pc.UploadVerify?)
    ensures var i1 := UploadStep(i, b, env).0; Ending(i1) && Rank(i1.pc) < Rank(i.pc)
  {
    hide UploadStep;
    match i.pc
    case UploadPut(p, body, cond, k) => PutFalls(i, b, env, p, body, cond, k);
    case UploadCreate(p, body, k) => CreateFalls(i, b, env, p, body, k);
    case _ => LookFalls(i, b, env);
  }

  lemma DeleteFalls(i: Instance, b: Bucket, env: Env)
    requires Ending(i) && (i.pc.DeleteFile? || i.pc.QueueDelete?)
    ensures var i1 := DeleteStep(i, b, env).0; Ending(i1) && Rank(i1.pc) < Rank(i.pc)
  {
    hide Finish;
    if i.pc.DeleteFile? {
      FinishFalls(i.(cache := i.cache - {i.pc.path}), i.pc.path, i.pc.k, Done);
      FinishFalls(i, i.pc.path, i.pc.k, Failed);
    }
  }

  lemma RankFalls(cfg: Config, id: InstanceId, i: Instance, b: Bucket, env: Env)
    requires Ending(i) && !i.pc.Idle?
    ensures var i1 := Advance(cfg, id, i, b, env).0; Ending(i1) && Rank(i1.pc) < Rank(i.pc)
  {
    hide Finish, UploadStep, DeleteStep, FileStep;
    match i.pc
    case Unlock(_, _, _) =>
    case Refresh(p, k) =>
      RefreshOnce(cfg, id, i, p, k, b, env);
      RefreshedShape(i, p, b.files);
      FinishFalls(i, p, k, Conflict(false));
      FinishFalls(Refreshed(i, p, b.files), p, k, Conflict(p in b.files));
      hide Refreshed;
    case DeleteFile(_, _, _) => DeleteFalls(i, b, env); hide Ending, Rank;
    case QueueDelete(_, _, _) => DeleteFalls(i, b, env); hide Ending, Rank;
    case _ => UploadFalls(i, b, env); hide Ending, Rank;
  }

  /** A push makes at most as many requests as its rank says. */
  lemma {:induction false} LeadsRank(cfg: Config, id: InstanceId, i: Instance, rs: seq<Request>, j: Instance)
    requires Ending(i) && Leads(cfg, id, i, rs, j)
    ensures |rs| + Rank(j.pc) <= Rank(i.pc)
    decreases |rs|
  {
    hide Advance, Ending, Rank;
    if rs != [] {
      RankFalls(cfg, id, i, rs[0].before, rs[0].env);
      LeadsRank(cfg, id, Advance(cfg, id, i, rs[0].before, rs[0].env).0, rs[1..], j);
    }
  }
}
