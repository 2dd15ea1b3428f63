/** The journal of append sessions on one path, and why every event keeps it.

    Every instance works on files only by sessions: open a path, append to its
    local copy any number of times, push it by fsync now and then, close it. Opens
    of one path by one instance may overlap; they share one hold, from the first
    open to the last close. A session is a hold, or the part of one up to an fsync
    that pushed, or from there on. Polls, renewals, flushes and read-through
    refreshes happen in between. The journal records each session, what it appended
    and in which order the store accepted their uploads. */
module AppendJournal {
  import opened LockRecords
  import opened ObjectStores
  import opened SyncProtocol

  /** A session on the path: what it appended, and what the fsync or the last close
      that ended it returned. */
  datatype Session = Session(owner: InstanceId, record: Body, wrote: bool, outcome: Option<Outcome>)

  /** `current` is the open session of each instance; `log` lists the sessions
      whose upload the store accepted, in that order. */
  datatype Journal = Journal(sys: System, current: map<InstanceId, nat>, sessions: seq<Session>, log: seq<nat>)

  function LocalOr(local: map<Path, Body>, p: Path): Body {
    if p in local then local[p] else ""
  }

  function Content(files: map<Path, Body>, p: Path): Body {
    if p in files then files[p] else ""
  }

  /** The events of instances that work by append sessions only. */
  predicate Disciplined(s: System, ev: Event) {
    && ev.env.fault.NoFault?
    && (ev.who in s.instances && ev.action.Start? ==>
          var i := s.instances[ev.who];
          match ev.action.call
          case Write(q, body) => q in i.leases && LocalOr(i.local, q) <= body
          case Unlink(_) => false
          case Fsync(q) => q in i.leases
          case SyncNow(_) => false
          case ReleaseAll(_) => false
          case _ => true)
  }

  /** The pending request is a PUT of `p` that the store will accept. */
  predicate Lands(i: Instance, files: map<Path, Body>, p: Path) {
    || (i.pc.UploadPut? && i.pc.path == p && CheckCond(files, p, i.pc.cond).Accepted?)
    || (i.pc.UploadCreate? && i.pc.path == p && CheckCond(files, p, IfNoneMatchAny).Accepted?)
  }

  /** The pending request is the last of an fsync of `p`: a PUT the store will
      accept, or the refresh after a refused one. It ends a session within its hold. */
  predicate Syncs(i: Instance, files: map<Path, Body>, p: Path) {
    (i.pc.UploadPut? || i.pc.Refresh?) && i.pc.path == p && i.pc.k.ForSync? && (i.pc.UploadPut? ==> Lands(i, files, p))
  }

  function Append(session: Session, more: Body): Session {
    session.(record := session.record + more, wrote := true)
  }

  function Step(cfg: Config, j: Journal, ev: Event, p: Path): Journal {
    var u := Exec(cfg, j.sys, ev);
    if ev.who !in j.sys.instances || ev.who !in u.instances then j.(sys := u)
    else
      var i, after := j.sys.instances[ev.who], u.instances[ev.who];
      if p !in i.leases && p in after.leases then
        Journal(u, j.current[ev.who := |j.sessions|], j.sessions + [Session(ev.who, "", false, None)], j.log)
      else if ev.who !in j.current || |j.sessions| <= j.current[ev.who] then j.(sys := u)
      else
        var n := j.current[ev.who];
        if p in i.leases && p !in after.leases then
          Journal(u, j.current - {ev.who}, j.sessions[n := j.sessions[n].(outcome := Some(if i.pc.Unlock? then i.pc.next.ret else Done))], j.log)
        else if ev.action.Proceed? && Syncs(i, j.sys.bucket.files, p) then
          Journal(u, j.current[ev.who := |j.sessions|],
                  j.sessions[n := j.sessions[n].(outcome := Some(if after.pc.Idle? then after.pc.ret else Failed))] + [Session(ev.who, "", false, None)],
                  if Lands(i, j.sys.bucket.files, p) then j.log + [n] else j.log)
        else if ev.action.Proceed? && Lands(i, j.sys.bucket.files, p) then Journal(u, j.current, j.sessions, j.log + [n])
        else if ev.action.Start? && ev.action.call.Write? && ev.action.call.path == p && i.pc.Idle?
                && |LocalOr(i.local, p)| <= |ev.action.call.body| then
          Journal(u, j.current, j.sessions[n := Append(j.sessions[n], ev.action.call.body[|LocalOr(i.local, p)|..])], j.log)
        else j.(sys := u)
  }

  function Play(cfg: Config, j: Journal, evs: seq<Event>, p: Path): Journal {
    if evs == [] then j else Step(cfg, Play(cfg, j, evs[..|evs| - 1], p), evs[|evs| - 1], p)
  }

  predicate AllDisciplined(cfg: Config, j: Journal, evs: seq<Event>, p: Path) {
    evs == [] || (AllDisciplined(cfg, j, evs[..|evs| - 1], p) && Disciplined(Play(cfg, j, evs[..|evs| - 1], p).sys, evs[|evs| - 1]))
  }

  /** The records of the listed sessions, one after the other. */
  function Cat(sessions: seq<Session>, log: seq<nat>): Body
    requires forall k :: 0 <= k < |log| ==> log[k] < |sessions|
  {
    if log == [] then "" else Cat(sessions, log[..|log| - 1]) + sessions[log[|log| - 1]].record
  }

  // -------------------------------------------------------- one instance ---

  /** All an instance knows about `p`. */
  datatype View = View(lease: Option<Lease>, local: Option<Body>, cached: Option<ETag>)

  function At(i: Instance, p: Path): View {
    View(if p in i.leases then Some(i.leases[p]) else None,
         if p in i.local then Some(i.local[p]) else None,
         if p in i.cache then Some(i.cache[p]) else None)
  }

  /** Local copy and cache agree, and the object exists if it is cached. */
  predicate Settled(v: View, present: bool) {
    if v.cached.None? then v.local.None? else v.local == Some(v.cached.value.of) && present
  }

  /** During a session the local copy is the pinned base plus the session's record. */
  predicate InSession(v: View, l: Lease, present: bool, record: Body, wrote: bool) {
    && 1 <= l.refs && !l.pendingDelete && l.dirty == wrote && (!wrote ==> record == "")
    && v.cached == l.base
    && (if l.base.Some? then present && v.local == Some(l.base.value.of + record)
        else v.local == if wrote then Some(record) else None)
  }

  predicate ForThisClose(k: Cont) {
    k.ForClose? && k.rest == [] && k.first.Done?
  }

  /** An upload made by a close of one path, or by an fsync. */
  predicate ForThis(k: Cont) {
    ForThisClose(k) || k.ForSync?
  }

  /** The lease of `p` is about to be given back. */
  predicate Releasing(pc: Pc, p: Path) {
    pc.Unlock? && pc.path == p && pc.next.AfterClose?
  }

  /** Leased by one open only, as it is when the last of them closes. */
  predicate LastHold(v: View) {
    v.lease.Some? && v.lease.value.refs == 1
  }

  /** Leased, and by one open only if this is a close. */
  predicate Pins(v: View, k: Cont) {
    v.lease.Some? && (k.ForClose? ==> LastHold(v))
  }

  /** What the pending request says about `p`. */
  predicate PcFits(pc: Pc, v: View, p: Path, present: bool, wrote: bool, landed: bool) {
    match pc
    case AcquireGet(q) => q == p ==> v.lease.None?
    case AcquirePut(q, _, _, _, _) => q == p ==> v.lease.None?
    case AcquireVerify(q, _, _, _) => q == p ==> v.lease.None?
    case HeadFile(q, _) => q == p ==> v.lease.None?
    case GetFile(q, _) => q == p ==> v.lease.None?
    case UploadPut(q, body, cond, k) =>
      ForThis(k) && (q == p ==> Pins(v, k) && wrote && cond == BaseCond(v.lease.value.base) && v.local == Some(body))
    case UploadCreate(q, _, k) => ForThis(k) && q != p
    case UploadHead(q, _, k) => ForThis(k) && (q == p ==> Pins(v, k) && present)
    case UploadVerify(_, _, _, _) => false
    case Refresh(q, k) => ForThis(k) && (q == p ==> Pins(v, k) && present)
    case DeleteFile(_, _, _) => false
    case QueueDelete(_, _, _) => false
    case Unlock(q, _, next) =>
      if next.AfterOpen? then q == p ==> v.lease.None?
      else next.rest == [] && next.first.Done? && (q == p ==> LastHold(v) && (landed <==> next.ret.Done? && wrote))
    case PollGet(q, _, listing) => q in listing && (v.cached.Some? ==> p in listing) && (q == p ==> v.lease.None?)
    case _ => true
  }

  predicate ViewFits(pc: Pc, v: View, p: Path, present: bool, session: Session, landed: bool) {
    && PcFits(pc, v, p, present, session.wrote, landed)
    && (if v.lease.None? || Releasing(pc, p) then Settled(v, present)
        else !landed && InSession(v, v.lease.value, present, session.record, session.wrote))
  }

  predicate NoDeletes(leases: map<Path, Lease>) {
    forall q :: q in leases ==> !leases[q].pendingDelete
  }

  predicate Fits(i: Instance, p: Path, present: bool, session: Session, landed: bool) {
    i.queue == [] && NoDeletes(i.leases) && ViewFits(i.pc, At(i, p), p, present, session, landed)
  }

  const NO_SESSION := Session("", "", false, None)

  // ------------------------------------------------------- calls keep it ---

  lemma {:induction false} PollNextFits(i: Instance, tail: seq<Path>, listing: map<Path, ETag>, p: Path, present: bool, session: Session)
    requires i.queue == [] && NoDeletes(i.leases) && ViewFits(Idle(Done), At(i, p), p, present, session, false)
    requires p in i.cache ==> p in listing
    ensures Fits(PollNext(i, tail, listing), p, present, session, false)
    ensures PollNext(i, tail, listing).leases == i.leases
    decreases |tail|
  {
    hide NoDeletes;
    if tail != [] { PollNextFits(i, tail[1..], listing, p, present, session); }
  }

  lemma {:induction false} RenewNextFits(cfg: Config, id: InstanceId, i: Instance, paths: seq<Path>, env: Env, p: Path, present: bool, session: Session)
    requires i.queue == [] && NoDeletes(i.leases) && ViewFits(Idle(Done), At(i, p), p, present, session, false)
    ensures Fits(RenewNext(cfg, id, i, paths, env), p, present, session, false)
    ensures RenewNext(cfg, id, i, paths, env).leases == i.leases
    decreases |paths|
  {
    hide NoDeletes;
    if paths != [] && paths[0] !in i.leases { RenewNextFits(cfg, id, i, paths[1..], env, p, present, session); }
  }

  /** The session after a call: an append extends its record. */
  function AfterCall(i: Instance, call: Call, p: Path, session: Session): Session {
    if call.Write? && call.path == p && |LocalOr(i.local, p)| <= |call.body|
    then Append(session, call.body[|LocalOr(i.local, p)|..]) else session
  }

  lemma NoDeletesKept(leases: map<Path, Lease>, q: Path, l: Lease)
    requires NoDeletes(leases) && !l.pendingDelete
    ensures NoDeletes(leases[q := l]) && NoDeletes(leases - {q})
  {
  }

  /** Nothing in flight concerns `p`. */
  predicate Quiet(i: Instance, p: Path, present: bool, session: Session) {
    i.queue == [] && NoDeletes(i.leases) && ViewFits(Idle(Done), At(i, p), p, present, session, false)
  }

  lemma FinishFits(h: Instance, q: Path, k: Cont, ret: Outcome, p: Path, present: bool, session: Session, landed: bool)
    requires ForThisClose(k) && h.queue == [] && NoDeletes(h.leases)
    requires if q == p then LastHold(At(h, p)) && Settled(At(h, p), present) && (landed <==> ret.Done? && session.wrote)
             else Quiet(h, p, present, session) && !landed
    ensures Fits(Finish(h, q, k, ret), p, present, session, landed)
    ensures Finish(h, q, k, ret).leases == h.leases
  {
    hide NoDeletes, InSession, Settled;
    var j := h.(pc := Unlock(q, k.tag, AfterClose(ret, k.rest, k.first)));
    assert Finish(h, q, k, ret) == j && At(j, p) == At(h, p);
  }

  /** An fsync of another path returns. */
  lemma ReturnFits(h: Instance, ret: Outcome, p: Path, present: bool, session: Session)
    requires Quiet(h, p, present, session)
    ensures Fits(Return(h, ret), p, present, session, false)
  {
    hide NoDeletes, InSession, Settled;
    assert At(Return(h, ret), p) == At(h, p);
  }

  /** The lease of `p` with what the store now has as its base. */
  lemma RestartFits(h: Instance, ret: Outcome, p: Path, session: Session)
    requires h.queue == [] && NoDeletes(h.leases) && p in h.leases && p in h.local && 1 <= h.leases[p].refs
    requires p in h.cache && h.cache[p] == ETag(h.local[p]) && h.leases[p].base == Some(h.cache[p]) && !h.leases[p].dirty
    ensures Fits(Return(h, ret), p, true, Session(session.owner, "", false, None), false)
  {
    assert h.local[p] + "" == h.local[p];
    assert !h.leases[p].pendingDelete;
    hide NoDeletes;
  }

  lemma CloseFits(i: Instance, q: Path, p: Path, present: bool, session: Session)
    requires i.pc.Idle? && Fits(i, p, present, session, false) && q in i.leases && i.leases[q].refs <= 1
    ensures var j := ReleaseNext(i, [q], Done);
            Fits(j, p, present, session, false) && (p in j.leases <==> p in i.leases)
  {
    hide NoDeletes, Finish, InSession, Settled;
    var l := i.leases[q].(releasing := true);
    var h, k := i.(leases := i.leases[q := l]), ForClose(l.tag, [], Done);
    ReleasingQuiet(i, q, p, present, session);
    assert [q][1..] == [];
    assert ReleaseNext(i, [q], Done) == FlushLease(h, q, l, k);
    hide ReleaseNext;
    CloseOneFits(h, q, l, k, p, present, session);
  }

  /** Marking the lease as being released changes nothing for the session. */
  lemma ReleasingQuiet(i: Instance, q: Path, p: Path, present: bool, session: Session)
    requires i.pc.Idle? && Fits(i, p, present, session, false) && q in i.leases
    ensures !i.leases[q].pendingDelete
    ensures Quiet(i.(leases := i.leases[q := i.leases[q].(releasing := true)]), p, present, session)
  {
    assert !i.leases[q].pendingDelete;
    NoDeletesKept(i.leases, q, i.leases[q].(releasing := true));
    hide NoDeletes;
  }

  lemma CloseOneFits(h: Instance, q: Path, l: Lease, k: Cont, p: Path, present: bool, session: Session)
    requires Quiet(h, p, present, session) && ForThisClose(k) && !l.pendingDelete
    requires q in h.leases && h.leases[q] == l && l.refs <= 1
    ensures var j := FlushLease(h, q, l, k);
            Fits(j, p, present, session, false) && (p in j.leases <==> p in h.leases)
  {
    hide NoDeletes, Finish;
    if !l.dirty {
      if q == p && l.base.Some? { assert l.base.value.of + "" == l.base.value.of; }
      FinishFits(h, q, k, Done, p, present, session, false);
    } else if q !in h.local {
      FinishFits(h, q, k, Failed, p, present, session, false);
    } else {
      assert At(h.(pc := UploadPut(q, h.local[q], BaseCond(l.base), k)), p) == At(h, p);
    }
  }

  lemma AppendFits(i: Instance, q: Path, body: Body, p: Path, present: bool, session: Session)
    requires i.pc.Idle? && Fits(i, p, present, session, false) && q in i.leases && LocalOr(i.local, q) <= body
    ensures var j := Return(EnqueueUpload(i.(local := i.local[q := body]), q), Done);
            Fits(j, p, present, AfterCall(i, Write(q, body), p, session), false) && (p in j.leases <==> p in i.leases)
  {
    NoDeletesKept(i.leases, q, i.leases[q].(dirty := true, pendingDelete := false));
    hide NoDeletes, Without;
    if q == p {
      var l := i.leases[p];
      var more := body[|LocalOr(i.local, p)|..];
      assert body == LocalOr(i.local, p) + more;
      if l.base.Some? { assert l.base.value.of + session.record + more == l.base.value.of + (session.record + more); }
    }
  }

  lemma BeginFits(cfg: Config, s: System, ev: Event, p: Path, present: bool, session: Session)
    requires ev.action.Start? && ev.who in s.instances && Disciplined(s, ev)
    requires s.instances[ev.who].pc.Idle? && Fits(s.instances[ev.who], p, present, session, false)
    ensures var i := s.instances[ev.who];
            var j := Begin(cfg, ev.who, i, ev.action.call, ev.env);
            Fits(j, p, present, AfterCall(i, ev.action.call, p, session), false) && (p in j.leases <==> p in i.leases)
  {
    hide NoDeletes, RenewNext, DuePaths, EnqueueUpload, ReleaseNext, FlushLease;
    var i := s.instances[ev.who];
    match ev.action.call
    case Write(q, body) => AppendFits(i, q, body, p, present, session);
    case Renew(paths) => RenewNextFits(cfg, ev.who, i, DuePaths(cfg, i, paths, ev.env.mono), ev.env, p, present, session);
    case Close(q) =>
      if q in i.leases {
        if 1 < i.leases[q].refs { RefsFit(i, q, i.leases[q].refs - 1, p, present, session); }
        else { CloseFits(i, q, p, present, session); }
      }
    case Open(q) =>
      if q in i.leases { RefsFit(i, q, i.leases[q].refs + 1, p, present, session); }
      else { PlainFits(cfg, ev.who, i, ev.action.call, ev.env, p, present, session); }
    case Fsync(q) => FsyncFits(i, q, p, present, session);
    case Poll => PlainFits(cfg, ev.who, i, Poll, ev.env, p, present, session);
    case ReadThrough(q) => PlainFits(cfg, ev.who, i, ReadThrough(q), ev.env, p, present, session);
    case Check(q) => PlainFits(cfg, ev.who, i, Check(q), ev.env, p, present, session);
    case Flush(batch) => PlainFits(cfg, ev.who, i, Flush(batch), ev.env, p, present, session);
    case _ =>
  }

  /** Calls that change nothing before their first request. */
  lemma PlainFits(cfg: Config, id: InstanceId, i: Instance, call: Call, env: Env, p: Path, present: bool, session: Session)
    requires i.pc.Idle? && Fits(i, p, present, session, false)
    requires call.Poll? || call.ReadThrough? || call.Check? || call.Flush? || (call.Open? && call.path !in i.leases)
    ensures var j := Begin(cfg, id, i, call, env);
            Fits(j, p, present, session, false) && j.leases == i.leases
  {
    hide NoDeletes, InSession, Settled;
    var j := Begin(cfg, id, i, call, env);
    assert j == i.(pc := j.pc);
    assert At(j, p) == At(i, p);
  }

  lemma FsyncFits(i: Instance, q: Path, p: Path, present: bool, session: Session)
    requires i.pc.Idle? && Fits(i, p, present, session, false) && q in i.leases
    ensures var j := if i.leases[q].dirty || i.leases[q].pendingDelete then FlushLease(i, q, i.leases[q], ForSync) else Return(i, Done);
            Fits(j, p, present, session, false) && (p in j.leases <==> p in i.leases)
  {
    assert !i.leases[q].pendingDelete;
    hide NoDeletes;
    ReturnFits(i, Done, p, present, session);
    ReturnFits(i, Failed, p, present, session);
    if i.leases[q].dirty && q in i.local {
      assert At(i.(pc := UploadPut(q, i.local[q], BaseCond(i.leases[q].base), ForSync)), p) == At(i, p);
    }
  }

  /** Sharing a hold, or leaving it to others, is no concern of the session. */
  lemma RefsFit(i: Instance, q: Path, refs: nat, p: Path, present: bool, session: Session)
    requires i.pc.Idle? && Fits(i, p, present, session, false) && q in i.leases && 1 <= refs
    ensures var j := Return(i.(leases := i.leases[q := i.leases[q].(refs := refs)]), Done);
            Fits(j, p, present, session, false) && (p in j.leases <==> p in i.leases)
  {
    NoDeletesKeptAt(i.leases, q, i.leases[q].(refs := refs));
    hide NoDeletes;
  }

  lemma NoDeletesLess(leases: map<Path, Lease>, q: Path)
    requires NoDeletes(leases)
    ensures NoDeletes(leases - {q})
  {
  }

  lemma NoDeletesKeptAt(leases: map<Path, Lease>, q: Path, l: Lease)
    requires NoDeletes(leases) && q in leases && l.pendingDelete == leases[q].pendingDelete
    ensures NoDeletes(leases[q := l])
  {
  }

  // ------------------------------------------------------- steps keep it ---

  predicate StepFits(i: Instance, files: map<Path, Body>, j: Instance, after: map<Path, Body>, p: Path, session: Session, landed: bool) {
    && (p in files ==> p in after)
    && (if p !in i.leases && p in j.leases then Fits(j, p, p in after, Session(session.owner, "", false, None), false)
        else if p in i.leases && p !in j.leases then Releasing(i.pc, p) && Fits(j, p, p in after, NO_SESSION, false)
        else if Syncs(i, files, p) then
          && Fits(j, p, p in after, Session(session.owner, "", false, None), false) && p in j.leases
          && j.pc == Idle(if Lands(i, files, p) then Done else Conflict(true))
        else if Lands(i, files, p) then Fits(j, p, p in after, session, true) && p in j.leases
        else Fits(j, p, p in after, session, landed))
    && (if Lands(i, files, p) then p in after && after[p] == Content(files, p) + session.record
        else p in after ==> p in files && after[p] == files[p])
  }

  /** A step about another path. */
  lemma OffPath(i: Instance, files: map<Path, Body>, j: Instance, after: map<Path, Body>, p: Path, session: Session)
    requires Fits(i, p, p in files, session, false) && Fits(j, p, p in files, session, false)
    requires (p in j.leases <==> p in i.leases) && !Lands(i, files, p) && !Syncs(i, files, p)
    requires (p in after <==> p in files) && (p in files ==> after[p] == files[p])
    ensures StepFits(i, files, j, after, p, session, false)
  {
    hide Fits, Lands, Syncs;
  }

  lemma AcquireStepShape(cfg: Config, id: InstanceId, i: Instance, b: Bucket, env: Env)
    requires (i.pc.AcquireGet? || i.pc.AcquirePut? || i.pc.AcquireVerify?) && i.queue == []
    ensures var (j, c) := AcquireStep(cfg, id, i, b, env);
            && j == i.(pc := j.pc) && c.files == b.files
            && (j.pc.Idle? || ((j.pc.AcquirePut? || j.pc.AcquireGet? || j.pc.AcquireVerify? || j.pc.HeadFile?) && j.pc.path == i.pc.path))
  {
    hide Parse, Encode, Wrap64;
  }

  lemma AcquireStepFits(cfg: Config, id: InstanceId, i: Instance, b: Bucket, env: Env, p: Path, session: Session)
    requires (i.pc.AcquireGet? || i.pc.AcquirePut? || i.pc.AcquireVerify?) && env.fault.NoFault?
    requires Fits(i, p, p in b.files, session, false)
    ensures var (j, c) := AcquireStep(cfg, id, i, b, env);
            StepFits(i, b.files, j, c.files, p, session, false)
  {
    hide AcquireStep, InSession, Settled, NoDeletes, StepFits;
    AcquireStepShape(cfg, id, i, b, env);
    var (j, c) := AcquireStep(cfg, id, i, b, env);
    assert At(j, p) == At(i, p);
    OffPath(i, b.files, j, c.files, p, session);
  }

  lemma HeadDoneFits(h: Instance, q: Path, opening: Option<Hold>, base: Option<ETag>, p: Path, present: bool, session: Session)
    requires Quiet(h, p, present, session) && (q == p ==> At(h, p).lease.None? && base == At(h, p).cached)
    ensures var j := HeadDone(h, q, opening, base);
            && Fits(j, p, present, if q == p && opening.Some? then Session(session.owner, "", false, None) else session, false)
            && (p in j.leases <==> (p in h.leases || (q == p && opening.Some?)))
  {
    var j := HeadDone(h, q, opening, base);
    if opening.Some? { NoDeletesKept(h.leases, q, j.leases[q]); }
    hide NoDeletes;
    if base.Some? { assert base.value.of + "" == base.value.of; }
  }

  lemma HeadStepFits(i: Instance, b: Bucket, env: Env, p: Path, session: Session)
    requires (i.pc.HeadFile? || i.pc.GetFile?) && env.fault.NoFault?
    requires Fits(i, p, p in b.files, session, false)
    ensures var (j, c) := FileStep(i, b, env);
            StepFits(i, b.files, j, c.files, p, session, false)
  {
    hide NoDeletes, HeadDone, HeadFailed, InSession;
    var q, opening := i.pc.path, i.pc.opening;
    if q !in b.files {
      HeadDoneFits(i, q, opening, None, p, p in b.files, session);
    } else if i.pc.HeadFile? {
      if q in i.cache && i.cache[q] == ETag(b.files[q]) {
        HeadDoneFits(i, q, opening, Some(ETag(b.files[q])), p, p in b.files, session);
      } else {
        assert At(i.(pc := GetFile(q, opening)), p) == At(i, p);
      }
    } else {
      HeadDoneFits(Download(i, q, b.files[q]), q, opening, Some(ETag(b.files[q])), p, p in b.files, session);
    }
  }

  lemma UploadDoneFits(i: Instance, q: Path, body: Body, k: Cont, p: Path, present: bool, session: Session)
    requires ForThis(k) && i.queue == [] && NoDeletes(i.leases)
    requires if q == p then k.ForClose? && LastHold(At(i, p)) && At(i, p).local == Some(body) && session.wrote && present
             else Quiet(i, p, present, session)
    ensures var j := UploadDone(i, q, body, ETag(body), k);
            Fits(j, p, present, session, q == p) && (p in j.leases <==> p in i.leases)
  {
    var h := Rebase(i.(cache := i.cache[q := ETag(body)], version := i.version[q := body]), q, Some(ETag(body)), true);
    if q in i.leases { NoDeletesKept(i.leases, q, h.leases[q]); }
    hide NoDeletes, Finish;
    if q != p { assert At(h, p) == At(i, p); }
    if k.ForClose? { FinishFits(h, q, k, Done, p, present, session, q == p); }
    else { SyncFinishes(h, q, Done); ReturnFits(h, Done, p, present, session); }
  }

  lemma SyncFinishes(h: Instance, q: Path, ret: Outcome)
    ensures Finish(h, q, ForSync, ret) == Return(h, ret)
  {
  }

  /** An fsync of `p` has been stored: what follows is a new session. */
  lemma SyncDoneFits(i: Instance, body: Body, p: Path, session: Session)
    requires i.queue == [] && NoDeletes(i.leases) && p in i.leases && 1 <= i.leases[p].refs && p in i.local && i.local[p] == body
    ensures var j := UploadDone(i, p, body, ETag(body), ForSync);
            Fits(j, p, true, Session(session.owner, "", false, None), false) && p in j.leases && j.pc == Idle(Done)
  {
    var h := Rebase(i.(cache := i.cache[p := ETag(body)], version := i.version[p := body]), p, Some(ETag(body)), true);
    NoDeletesKept(i.leases, p, h.leases[p]);
    SyncFinishes(h, p, Done);
    RestartFits(h, Done, p, session);
    hide NoDeletes, Finish, InSession;
  }

  lemma UploadPutFits(i: Instance, b: Bucket, env: Env, p: Path, session: Session)
    requires i.pc.UploadPut? && env.fault.NoFault?
    requires Fits(i, p, p in b.files, session, false)
    ensures var (j, c) := UploadStep(i, b, env);
            StepFits(i, b.files, j, c.files, p, session, false)
  {
    hide NoDeletes, UploadDone, Settled;
    var UploadPut(q, body, cond, k) := i.pc;
    if CheckCond(b.files, q, cond).Accepted? {
      PutStoredFits(i, b, env, p, session);
    } else {
      assert At(UploadStep(i, b, env).0, p) == At(i, p);
    }
  }

  /** The store takes the record. */
  lemma PutStoredFits(i: Instance, b: Bucket, env: Env, p: Path, session: Session)
    requires i.pc.UploadPut? && env.fault.NoFault? && CheckCond(b.files, i.pc.path, i.pc.cond).Accepted?
    requires Fits(i, p, p in b.files, session, false)
    ensures var (j, c) := UploadStep(i, b, env);
            StepFits(i, b.files, j, c.files, p, session, false)
  {
    hide NoDeletes, UploadDone;
    var UploadPut(q, body, cond, k) := i.pc;
    if q == p && k.ForSync? { SyncDoneFits(i, body, p, session); }
    else { UploadDoneFits(i, q, body, k, p, p in b.files[q := body], session); }
    assert UploadStep(i, b, env) == (UploadDone(i, q, body, ETag(body), k), b.(files := b.files[q := body]));
    hide UploadStep, Settled;
  }

  lemma UploadRetryFits(i: Instance, b: Bucket, env: Env, p: Path, session: Session)
    requires (i.pc.UploadCreate? || i.pc.UploadHead?) && env.fault.NoFault?
    requires Fits(i, p, p in b.files, session, false)
    ensures var (j, c) := UploadStep(i, b, env);
            StepFits(i, b.files, j, c.files, p, session, false)
  {
    hide NoDeletes, UploadDone, InSession, Settled;
    var q := i.pc.path;
    if i.pc.UploadCreate? && q !in b.files {
      UploadDoneFits(i, q, i.pc.body, i.pc.k, p, p in b.files, session);
    } else {
      assert At(UploadStep(i, b, env).0, p) == At(i, p);
    }
  }

  lemma RefreshStepFits(i: Instance, b: Bucket, env: Env, p: Path, session: Session)
    requires i.pc.Refresh? && env.fault.NoFault?
    requires Fits(i, p, p in b.files, session, false)
    ensures var (j, c) := FileStep(i, b, env);
            StepFits(i, b.files, j, c.files, p, session, false)
  {
    hide Finish, NoDeletes, Rebase, StepFits;
    var Refresh(q, k) := i.pc;
    var h := if q in b.files then Rebase(Download(i, q, b.files[q]), q, Some(ETag(b.files[q])), true)
             else Rebase(i.(cache := i.cache - {q}), q, None, false);
    var ret := Conflict(q in b.files);
    RefreshedFits(i, q, b.files, p, session);
    var j := FileStep(i, b, env).0;
    assert j == Finish(h, q, k, ret);
    hide FileStep;
    if k.ForClose? {
      FinishFits(h, q, k, ret, p, p in b.files, session, false);
      SameFilesFits(i, b.files, j, p, session);
    } else {
      SyncFinishes(h, q, ret);
      if q == p {
        RestartFits(h, ret, p, session);
        SyncEndsFits(i, b.files, j, p, session);
      } else {
        ReturnFits(h, ret, p, p in b.files, session);
        SameFilesFits(i, b.files, j, p, session);
      }
    }
  }

  /** A refresh that leaves the files and the leases alone. */
  lemma SameFilesFits(i: Instance, files: map<Path, Body>, j: Instance, p: Path, session: Session)
    requires i.pc.Refresh? && !Syncs(i, files, p) && Fits(j, p, p in files, session, false) && (p in j.leases <==> p in i.leases)
    ensures StepFits(i, files, j, files, p, session, false)
  {
    hide Fits;
  }

  lemma SyncEndsFits(i: Instance, files: map<Path, Body>, j: Instance, p: Path, session: Session)
    requires i.pc.Refresh? && Syncs(i, files, p) && p in i.leases && p in j.leases && j.pc == Idle(Conflict(true))
    requires Fits(j, p, p in files, Session(session.owner, "", false, None), false)
    ensures StepFits(i, files, j, files, p, session, false)
  {
    hide Fits;
  }

  /** The refreshed instance: settled on the path itself, as before elsewhere. */
  lemma RefreshedFits(i: Instance, q: Path, files: map<Path, Body>, p: Path, session: Session)
    requires i.pc.Refresh? && i.pc.path == q && Fits(i, p, p in files, session, false)
    ensures var h := if q in files then Rebase(Download(i, q, files[q]), q, Some(ETag(files[q])), true)
                     else Rebase(i.(cache := i.cache - {q}), q, None, false);
            && h.queue == [] && NoDeletes(h.leases) && h.leases.Keys == i.leases.Keys
            && (if q == p then
                  && p in files && p in h.leases && 1 <= h.leases[p].refs && p in h.local && p in h.cache
                  && h.cache[p] == ETag(h.local[p]) && h.leases[p].base == Some(h.cache[p]) && !h.leases[p].dirty
                  && Pins(At(h, p), i.pc.k) && Settled(At(h, p), p in files)
                else Quiet(h, p, p in files, session))
  {
    var h := if q in files then Rebase(Download(i, q, files[q]), q, Some(ETag(files[q])), true)
             else Rebase(i.(cache := i.cache - {q}), q, None, false);
    if q in i.leases { NoDeletesKept(i.leases, q, h.leases[q]); }
    hide NoDeletes;
    if q != p { assert At(h, p) == At(i, p); }
  }

  lemma UnlockFits(cfg: Config, id: InstanceId, i: Instance, b: Bucket, env: Env, p: Path, session: Session, landed: bool)
    requires i.pc.Unlock? && env.fault.NoFault? && (landed ==> p in i.leases)
    requires Fits(i, p, p in b.files, session, landed)
    ensures var (j, c) := LockStep(cfg, id, i, b, env);
            StepFits(i, b.files, j, c.files, p, session, landed)
  {
    hide NoDeletes, InSession;
    var q := i.pc.path;
    NoDeletesLess(i.leases, q);
    var j := LockStep(cfg, id, i, b, env).0;
    assert j.leases == if i.pc.next.AfterClose? then i.leases - {q} else i.leases;
    if q != p { assert At(j, p) == At(i, p); }
    else if i.pc.next.AfterClose? { assert At(j, p) == At(i, p).(lease := None); }
  }

  /** Renewing a lease does not touch what a session needs of it. */
  lemma RenewedFits(i: Instance, q: Path, l: Lease, p: Path, present: bool, session: Session)
    requires Quiet(i, p, present, session) && q in i.leases
    requires l == i.leases[q].(tag := l.tag, expiresAt := l.expiresAt, lost := l.lost)
    ensures Quiet(i.(leases := i.leases[q := l]), p, present, session)
  {
    NoDeletesKeptAt(i.leases, q, l);
    hide NoDeletes;
  }

  lemma RenewPutFits(cfg: Config, id: InstanceId, i: Instance, b: Bucket, env: Env, p: Path, session: Session)
    requires i.pc.RenewPut? && env.fault.NoFault?
    requires Fits(i, p, p in b.files, session, false)
    ensures var (j, c) := LockStep(cfg, id, i, b, env);
            StepFits(i, b.files, j, c.files, p, session, false)
  {
    var RenewPut(q, tag, record, expiresAt, rest) := i.pc;
    hide Encode, RenewNext, StepFits, NoDeletes, InSession, Settled;
    var reply := Put(b.locks, q, Encode(record), IfMatch(tag), env.fault).1;
    var h := i;
    if q in i.leases && !reply.PutBroken? {
      var l := if reply.Stored? then i.leases[q].(tag := reply.tag, expiresAt := expiresAt) else i.leases[q].(lost := true);
      RenewedFits(i, q, l, p, p in b.files, session);
      h := i.(leases := i.leases[q := l]);
    }
    RenewNextFits(cfg, id, h, rest, env, p, p in b.files, session);
    OffPath(i, b.files, RenewNext(cfg, id, h, rest, env), b.files, p, session);
  }

  lemma PollStepFits(i: Instance, b: Bucket, env: Env, p: Path, session: Session)
    requires (i.pc.PollList? || i.pc.PollGet?) && env.fault.NoFault?
    requires Fits(i, p, p in b.files, session, false)
    ensures var (j, c) := PollStep(i, b, env);
            StepFits(i, b.files, j, c.files, p, session, false)
  {
    hide PollNext, NoDeletes, StepFits;
    match i.pc {
      case PollList => PollNextFits(i, env.order, map q | q in b.files :: ETag(b.files[q]), p, p in b.files, session);
      case PollGet(q, tail, listing) =>
        if q in b.files { PollNextFits(Download(i, q, b.files[q]), tail, listing, p, p in b.files, session); }
        else { PollNextFits(i, tail, listing, p, p in b.files, session); }
    }
    OffPath(i, b.files, PollStep(i, b, env).0, b.files, p, session);
  }

  lemma AdvanceFits(cfg: Config, id: InstanceId, i: Instance, b: Bucket, env: Env, p: Path, session: Session, landed: bool)
    requires !i.pc.Idle? && env.fault.NoFault? && (landed ==> p in i.leases)
    requires Fits(i, p, p in b.files, session, landed)
    ensures var (j, c) := Advance(cfg, id, i, b, env);
            StepFits(i, b.files, j, c.files, p, session, landed)
  {
    hide StepFits, AcquireStep, FileStep, UploadStep, DeleteStep, LockStep, PollStep, InSession, Settled, NoDeletes;
    if i.pc.Unlock? { UnlockFits(cfg, id, i, b, env, p, session, landed); }
    else if i.pc.AcquireGet? || i.pc.AcquirePut? || i.pc.AcquireVerify? { AcquireStepFits(cfg, id, i, b, env, p, session); }
    else if i.pc.HeadFile? || i.pc.GetFile? { HeadStepFits(i, b, env, p, session); }
    else if i.pc.Refresh? { RefreshStepFits(i, b, env, p, session); }
    else if i.pc.UploadPut? { UploadPutFits(i, b, env, p, session); }
    else if i.pc.UploadCreate? || i.pc.UploadHead? { UploadRetryFits(i, b, env, p, session); }
    else if i.pc.RenewPut? { RenewPutFits(cfg, id, i, b, env, p, session); }
    else { PollStepFits(i, b, env, p, session); }
  }

  lemma FitsLater(i: Instance, p: Path, before: bool, present: bool, session: Session, landed: bool)
    requires Fits(i, p, before, session, landed) && (before ==> present)
    ensures Fits(i, p, present, session, landed)
  {
    hide NoDeletes;
  }

  // ---------------------------------------------------------- the journal ---

  predicate Distinct(log: seq<nat>) {
    forall a, b :: 0 <= a < b < |log| ==> log[a] != log[b]
  }

  predicate LogFits(sessions: seq<Session>, log: seq<nat>) {
    Distinct(log) && forall k :: 0 <= k < |log| ==> log[k] < |sessions|
  }

  /** Closed sessions are in the log exactly when they wrote and returned Ok. */
  predicate ClosedFits(sessions: seq<Session>, log: seq<nat>, current: map<InstanceId, nat>) {
    forall n :: 0 <= n < |sessions| ==>
      match sessions[n].outcome
      case Some(ret) => n in log <==> ret.Done? && sessions[n].wrote
      case None => sessions[n].owner in current && current[sessions[n].owner] == n
  }

  predicate InstanceFits(j: Journal, id: InstanceId, p: Path)
    requires id in j.sys.instances
  {
    var i, present := j.sys.instances[id], p in j.sys.bucket.files;
    if p in i.leases then
      && id in j.current && j.current[id] < |j.sessions|
      && j.sessions[j.current[id]].owner == id && j.sessions[j.current[id]].outcome.None?
      && Fits(i, p, present, j.sessions[j.current[id]], j.current[id] in j.log)
    else id !in j.current && Fits(i, p, present, NO_SESSION, false)
  }

  predicate JournalFits(j: Journal, p: Path, initial: Body) {
    && LogFits(j.sessions, j.log)
    && ClosedFits(j.sessions, j.log, j.current)
    && j.current.Keys <= j.sys.instances.Keys
    && (forall id :: id in j.sys.instances ==> InstanceFits(j, id, p))
    && Content(j.sys.bucket.files, p) == initial + Cat(j.sessions, j.log)
    && (p !in j.sys.bucket.files ==> j.log == [] && initial == "")
  }

  lemma {:induction false} CatStable(sessions: seq<Session>, others: seq<Session>, log: seq<nat>)
    requires forall k :: 0 <= k < |log| ==> log[k] < |sessions| && log[k] < |others| && sessions[log[k]].record == others[log[k]].record
    ensures Cat(sessions, log) == Cat(others, log)
  {
    if log != [] { CatStable(sessions, others, log[..|log| - 1]); }
  }

  lemma LandLog(sessions: seq<Session>, log: seq<nat>, current: map<InstanceId, nat>, n: nat, initial: Body)
    requires LogFits(sessions, log) && ClosedFits(sessions, log, current) && n < |sessions| && n !in log && sessions[n].outcome.None?
    ensures LogFits(sessions, log + [n]) && ClosedFits(sessions, log + [n], current)
    ensures initial + Cat(sessions, log + [n]) == initial + Cat(sessions, log) + sessions[n].record
  {
    assert (log + [n])[..|log|] == log;
    assert Cat(sessions, log + [n]) == Cat(sessions, log) + sessions[n].record;
    hide Cat;
  }

  /** An open session outside the log may change its record freely. */
  lemma AppendLog(sessions: seq<Session>, log: seq<nat>, current: map<InstanceId, nat>, n: nat, session: Session)
    requires LogFits(sessions, log) && ClosedFits(sessions, log, current) && n < |sessions| && n !in log
    requires sessions[n].outcome.None? && session.outcome.None? && session.owner == sessions[n].owner
    ensures LogFits(sessions[n := session], log) && ClosedFits(sessions[n := session], log, current)
    ensures Cat(sessions[n := session], log) == Cat(sessions, log)
  {
    CatStable(sessions, sessions[n := session], log);
  }

  lemma CloseLog(sessions: seq<Session>, log: seq<nat>, current: map<InstanceId, nat>, id: InstanceId, ret: Outcome)
    requires LogFits(sessions, log) && ClosedFits(sessions, log, current) && id in current && current[id] < |sessions|
    requires current[id] in log <==> ret.Done? && sessions[current[id]].wrote
    ensures var n := current[id];
            var after := sessions[n := sessions[n].(outcome := Some(ret))];
            && LogFits(after, log) && ClosedFits(after, log, current - {id}) && Cat(after, log) == Cat(sessions, log)
  {
    var n := current[id];
    CatStable(sessions, sessions[n := sessions[n].(outcome := Some(ret))], log);
  }

  lemma OtherFits(j: Journal, k: Journal, id: InstanceId, p: Path)
    requires id in j.sys.instances && InstanceFits(j, id, p)
    requires id in k.sys.instances && k.sys.instances[id] == j.sys.instances[id]
    requires p in j.sys.bucket.files ==> p in k.sys.bucket.files
    requires if id in j.current then id in k.current && k.current[id] == j.current[id] else id !in k.current
    requires id in j.current && j.current[id] < |j.sessions| ==>
               var n := j.current[id]; n < |k.sessions| && k.sessions[n] == j.sessions[n] && (n in k.log <==> n in j.log)
    ensures InstanceFits(k, id, p)
  {
    hide Fits;
    var i := j.sys.instances[id];
    var session := if p in i.leases then j.sessions[j.current[id]] else NO_SESSION;
    FitsLater(i, p, p in j.sys.bucket.files, p in k.sys.bucket.files, session, p in i.leases && j.current[id] in j.log);
  }

  /** What an event does to its own instance and to the object. */
  predicate EventFits(i: Instance, files: map<Path, Body>, a: Instance, after: map<Path, Body>, ev: Event, p: Path, session: Session, landed: bool) {
    if ev.action.Proceed? && !i.pc.Idle? then StepFits(i, files, a, after, p, session, landed)
    else if ev.action.Start? && i.pc.Idle? then
      after == files && (p in a.leases <==> p in i.leases) && Fits(a, p, p in files, AfterCall(i, ev.action.call, p, session), false)
    else a == i && after == files
  }

  lemma ExecFits(cfg: Config, j: Journal, ev: Event, p: Path)
    requires ev.who in j.sys.instances && InstanceFits(j, ev.who, p) && Disciplined(j.sys, ev)
    ensures var u := Exec(cfg, j.sys, ev);
            var i := j.sys.instances[ev.who];
            var session := if p in i.leases then j.sessions[j.current[ev.who]] else NO_SESSION;
            var landed := p in i.leases && j.current[ev.who] in j.log;
            && u.instances.Keys == j.sys.instances.Keys
            && EventFits(i, j.sys.bucket.files, u.instances[ev.who], u.bucket.files, ev, p, session, landed)
            && (forall id :: id in j.sys.instances && id != ev.who ==> u.instances[id] == j.sys.instances[id])
  {
    hide Begin, Advance, Fits, StepFits;
    var i := j.sys.instances[ev.who];
    var session := if p in i.leases then j.sessions[j.current[ev.who]] else NO_SESSION;
    var landed := p in i.leases && j.current[ev.who] in j.log;
    if ev.action.Proceed? {
      if !i.pc.Idle? { AdvanceFits(cfg, ev.who, i, j.sys.bucket, ev.env, p, session, landed); }
    } else if i.pc.Idle? {
      IdleNotLanded(i, p, p in j.sys.bucket.files, session, landed);
      BeginFits(cfg, j.sys, ev, p, p in j.sys.bucket.files, session);
    }
  }

  lemma IdleNotLanded(i: Instance, p: Path, present: bool, session: Session, landed: bool)
    requires Fits(i, p, present, session, landed) && i.pc.Idle? && (landed ==> p in i.leases)
    ensures !landed
  {
  }

  /** A landing never concerns a session that is in the log already. */
  lemma LandsNotYet(i: Instance, files: map<Path, Body>, p: Path, session: Session, landed: bool)
    requires Fits(i, p, p in files, session, landed) && Lands(i, files, p)
    ensures p in i.leases && !landed && session.wrote
  {
  }

  lemma OpenKeeps(cfg: Config, j: Journal, ev: Event, p: Path, initial: Body)
    requires JournalFits(j, p, initial) && Disciplined(j.sys, ev) && ev.who in j.sys.instances
    requires p !in j.sys.instances[ev.who].leases && ev.who in Exec(cfg, j.sys, ev).instances && p in Exec(cfg, j.sys, ev).instances[ev.who].leases
    ensures JournalFits(Step(cfg, j, ev, p), p, initial)
  {
    hide Exec, Fits, Lands, Disciplined, Cat, InstanceFits, LogFits, ClosedFits;
    var k := Step(cfg, j, ev, p);
    OpenerFits(cfg, j, ev, p);
    hide Step;
    OpenLog(j.sessions, j.log, j.current, ev.who);
    forall id | id in k.sys.instances ensures InstanceFits(k, id, p) {
      if id != ev.who {
        assert InstanceFits(j, id, p);
        UnlessCurrent(j, id, p);
        OtherFits(j, k, id, p);
      }
    }
  }

  lemma UnlessCurrent(j: Journal, id: InstanceId, p: Path)
    requires id in j.sys.instances && InstanceFits(j, id, p)
    ensures id in j.current ==> j.current[id] < |j.sessions|
  {
    hide Fits;
  }

  /** A new session, empty and open, joins those there are. */
  lemma OpenLog(sessions: seq<Session>, log: seq<nat>, current: map<InstanceId, nat>, id: InstanceId)
    requires LogFits(sessions, log) && ClosedFits(sessions, log, current) && id !in current
    ensures var more := sessions + [Session(id, "", false, None)];
            LogFits(more, log) && ClosedFits(more, log, current[id := |sessions|]) && Cat(more, log) == Cat(sessions, log)
            && |sessions| !in log
  {
    CatStable(sessions, sessions + [Session(id, "", false, None)], log);
    hide Cat;
  }

  /** What the event that takes the hold does, and that its instance fits after it. */
  lemma OpenerFits(cfg: Config, j: Journal, ev: Event, p: Path)
    requires ev.who in j.sys.instances && InstanceFits(j, ev.who, p) && Disciplined(j.sys, ev) && LogFits(j.sessions, j.log)
    requires p !in j.sys.instances[ev.who].leases && ev.who in Exec(cfg, j.sys, ev).instances && p in Exec(cfg, j.sys, ev).instances[ev.who].leases
    ensures var k := Step(cfg, j, ev, p);
            && k == Journal(Exec(cfg, j.sys, ev), j.current[ev.who := |j.sessions|], j.sessions + [Session(ev.who, "", false, None)], j.log)
            && ev.who !in j.current && k.sys.instances.Keys == j.sys.instances.Keys && InstanceFits(k, ev.who, p)
            && (forall id :: id in j.sys.instances && id != ev.who ==> k.sys.instances[id] == j.sys.instances[id])
            && (p in j.sys.bucket.files <==> p in k.sys.bucket.files)
            && Content(k.sys.bucket.files, p) == Content(j.sys.bucket.files, p)
  {
    hide Exec, Fits, Disciplined;
    ExecFits(cfg, j, ev, p);
    var k := Step(cfg, j, ev, p);
    assert k == Journal(Exec(cfg, j.sys, ev), j.current[ev.who := |j.sessions|], j.sessions + [Session(ev.who, "", false, None)], j.log);
    hide Step;
    assert |j.sessions| !in j.log;
    NotLanding(j.sys.instances[ev.who], j.sys.bucket.files, p);
    hide Lands;
    SameFits(k.sys.instances[ev.who], p, p in k.sys.bucket.files, Session("", "", false, None), Session(ev.who, "", false, None), false);
  }

  lemma NotLanding(i: Instance, files: map<Path, Body>, p: Path)
    requires p !in i.leases && Fits(i, p, p in files, NO_SESSION, false)
    ensures !Lands(i, files, p) && !Syncs(i, files, p)
  {
  }

  /** Only the record and the flag of a session matter to its instance. */
  lemma SameFits(i: Instance, p: Path, present: bool, session: Session, other: Session, landed: bool)
    requires session.record == other.record && session.wrote == other.wrote
    ensures Fits(i, p, present, session, landed) <==> Fits(i, p, present, other, landed)
  {
    hide NoDeletes;
  }

  lemma CloseKeeps(cfg: Config, j: Journal, ev: Event, p: Path, initial: Body)
    requires JournalFits(j, p, initial) && Disciplined(j.sys, ev) && ev.who in j.sys.instances
    requires p in j.sys.instances[ev.who].leases && ev.who in Exec(cfg, j.sys, ev).instances && p !in Exec(cfg, j.sys, ev).instances[ev.who].leases
    ensures JournalFits(Step(cfg, j, ev, p), p, initial)
  {
    hide Exec, Fits, Lands, Disciplined, Cat, LogFits, ClosedFits;
    ExecFits(cfg, j, ev, p);
    assert InstanceFits(j, ev.who, p);
    var i, k, n := j.sys.instances[ev.who], Step(cfg, j, ev, p), j.current[ev.who];
    ReleasingLanded(i, p, j.sys.bucket.files, j.sessions[n], n in j.log);
    assert k.log == j.log && k.sessions == j.sessions[n := j.sessions[n].(outcome := Some(i.pc.next.ret))] && k.current == j.current - {ev.who};
    hide Step;
    CloseLog(j.sessions, j.log, j.current, ev.who, i.pc.next.ret);
    forall id | id in k.sys.instances ensures InstanceFits(k, id, p) {
      if id != ev.who { OtherFits(j, k, id, p); }
    }
  }

  lemma ReleasingLanded(i: Instance, p: Path, files: map<Path, Body>, session: Session, landed: bool)
    requires Fits(i, p, p in files, session, landed) && Releasing(i.pc, p)
    ensures landed <==> i.pc.next.ret.Done? && session.wrote
    ensures !Lands(i, files, p) && !Syncs(i, files, p)
  {
  }

  lemma LandShape(cfg: Config, j: Journal, ev: Event, p: Path)
    requires Disciplined(j.sys, ev) && ev.who in j.sys.instances && InstanceFits(j, ev.who, p)
    requires ev.action.Proceed? && Lands(j.sys.instances[ev.who], j.sys.bucket.files, p) && !Syncs(j.sys.instances[ev.who], j.sys.bucket.files, p)
    ensures var i, k := j.sys.instances[ev.who], Step(cfg, j, ev, p);
            && p in i.leases && j.current[ev.who] !in j.log
            && k == Journal(Exec(cfg, j.sys, ev), j.current, j.sessions, j.log + [j.current[ev.who]])
            && ev.who in k.sys.instances && p in k.sys.instances[ev.who].leases && p in k.sys.bucket.files
            && Fits(k.sys.instances[ev.who], p, true, j.sessions[j.current[ev.who]], true)
            && k.sys.bucket.files[p] == Content(j.sys.bucket.files, p) + j.sessions[j.current[ev.who]].record
  {
    var i := j.sys.instances[ev.who];
    assert !i.pc.Idle?;
    hide Exec, Fits, Lands, Syncs, Disciplined, StepFits;
    ExecFits(cfg, j, ev, p);
    var n := if p in i.leases then j.current[ev.who] else 0;
    var session := if p in i.leases then j.sessions[n] else NO_SESSION;
    LandsNotYet(i, j.sys.bucket.files, p, session, p in i.leases && n in j.log);
    LandsStaysLeased(i, j.sys.bucket.files, Exec(cfg, j.sys, ev).instances[ev.who], Exec(cfg, j.sys, ev).bucket.files, p, session);
  }

  lemma LandOthers(j: Journal, k: Journal, who: InstanceId, id: InstanceId, p: Path)
    requires who in j.sys.instances && id in j.sys.instances && id != who && InstanceFits(j, who, p) && InstanceFits(j, id, p)
    requires p in j.sys.instances[who].leases && k == Journal(k.sys, j.current, j.sessions, j.log + [j.current[who]])
    requires id in k.sys.instances && k.sys.instances[id] == j.sys.instances[id] && p in k.sys.bucket.files
    ensures InstanceFits(k, id, p)
  {
    hide Fits;
    OtherFits(j, k, id, p);
  }

  lemma LandKeeps(cfg: Config, j: Journal, ev: Event, p: Path, initial: Body)
    requires JournalFits(j, p, initial) && Disciplined(j.sys, ev) && ev.who in j.sys.instances
    requires ev.action.Proceed? && Lands(j.sys.instances[ev.who], j.sys.bucket.files, p) && !Syncs(j.sys.instances[ev.who], j.sys.bucket.files, p)
    ensures JournalFits(Step(cfg, j, ev, p), p, initial)
  {
    hide Exec, Fits, Lands, Disciplined, Cat, LogFits, ClosedFits, Step;
    assert InstanceFits(j, ev.who, p);
    LandShape(cfg, j, ev, p);
    ExecFitsKeys(cfg, j.sys, ev);
    var k, n := Step(cfg, j, ev, p), j.current[ev.who];
    LandLog(j.sessions, j.log, j.current, n, initial);
    forall id | id in k.sys.instances ensures InstanceFits(k, id, p) {
      assert InstanceFits(j, id, p);
      if id != ev.who {
        ExecKeepsOthers(cfg, j.sys, ev, id);
        LandOthers(j, k, ev.who, id, p);
      }
    }
  }

  lemma ExecKeepsOthers(cfg: Config, s: System, ev: Event, id: InstanceId)
    requires id in s.instances && id != ev.who
    ensures id in Exec(cfg, s, ev).instances && Exec(cfg, s, ev).instances[id] == s.instances[id]
  {
    hide Begin, Advance;
  }

  lemma LandsStaysLeased(i: Instance, files: map<Path, Body>, a: Instance, after: map<Path, Body>, p: Path, session: Session)
    requires StepFits(i, files, a, after, p, session, false) && Lands(i, files, p) && !Syncs(i, files, p) && p in i.leases
    ensures p in a.leases && Fits(a, p, p in after, session, true) && p in after && after[p] == Content(files, p) + session.record
  {
    hide Fits;
  }

  /** The journal after an append, or after an event that opens, closes and lands nothing. */
  lemma OtherShape(cfg: Config, j: Journal, ev: Event, p: Path)
    requires Disciplined(j.sys, ev) && ev.who in j.sys.instances && ev.who in Exec(cfg, j.sys, ev).instances && InstanceFits(j, ev.who, p)
    requires p in j.sys.instances[ev.who].leases <==> p in Exec(cfg, j.sys, ev).instances[ev.who].leases
    requires ev.action.Proceed? ==> !Lands(j.sys.instances[ev.who], j.sys.bucket.files, p) && !Syncs(j.sys.instances[ev.who], j.sys.bucket.files, p)
    ensures var i, k := j.sys.instances[ev.who], Step(cfg, j, ev, p);
            && k.sys == Exec(cfg, j.sys, ev) && k.current == j.current && k.log == j.log
            && (if p in i.leases && ev.action.Start? && i.pc.Idle?
                then k.sessions == j.sessions[j.current[ev.who] := AfterCall(i, ev.action.call, p, j.sessions[j.current[ev.who]])]
                else k.sessions == j.sessions)
  {
    hide Exec, Fits, Lands;
  }

  lemma OtherKeeps(cfg: Config, j: Journal, ev: Event, p: Path, initial: Body)
    requires JournalFits(j, p, initial) && Disciplined(j.sys, ev) && ev.who in j.sys.instances && ev.who in Exec(cfg, j.sys, ev).instances
    requires p in j.sys.instances[ev.who].leases <==> p in Exec(cfg, j.sys, ev).instances[ev.who].leases
    requires ev.action.Proceed? ==> !Lands(j.sys.instances[ev.who], j.sys.bucket.files, p) && !Syncs(j.sys.instances[ev.who], j.sys.bucket.files, p)
    ensures JournalFits(Step(cfg, j, ev, p), p, initial)
  {
    hide Exec, Fits, Lands, Cat, Step, Disciplined, LogFits, ClosedFits;
    ExecFits(cfg, j, ev, p);
    OtherShape(cfg, j, ev, p);
    assert InstanceFits(j, ev.who, p);
    var i, k := j.sys.instances[ev.who], Step(cfg, j, ev, p);
    if p in i.leases && ev.action.Start? && i.pc.Idle? {
      var n := j.current[ev.who];
      IdleNotLanded(i, p, p in j.sys.bucket.files, j.sessions[n], n in j.log);
      AppendLog(j.sessions, j.log, j.current, n, AfterCall(i, ev.action.call, p, j.sessions[n]));
    }
    forall id | id in k.sys.instances ensures InstanceFits(k, id, p) {
      if id != ev.who { assert InstanceFits(j, id, p); OtherFits(j, k, id, p); }
      else if p !in i.leases && ev.action.Start? && i.pc.Idle? {
        UnleasedFits(k.sys.instances[id], p, p in k.sys.bucket.files, AfterCall(i, ev.action.call, p, NO_SESSION), NO_SESSION);
      }
    }
  }

  /** What the event that ends an fsync does, and that its instance fits after it. */
  lemma SyncShape(cfg: Config, j: Journal, ev: Event, p: Path)
    requires Disciplined(j.sys, ev) && ev.who in j.sys.instances && InstanceFits(j, ev.who, p)
    requires ev.action.Proceed? && Syncs(j.sys.instances[ev.who], j.sys.bucket.files, p)
    ensures var i, k := j.sys.instances[ev.who], Step(cfg, j, ev, p);
            var lands := Lands(i, j.sys.bucket.files, p);
            && p in i.leases && ev.who in j.current && j.current[ev.who] < |j.sessions| && j.current[ev.who] !in j.log
            && var n := j.current[ev.who];
            && k == Journal(Exec(cfg, j.sys, ev), j.current[ev.who := |j.sessions|],
                            j.sessions[n := j.sessions[n].(outcome := Some(if lands then Done else Conflict(true)))] + [Session(ev.who, "", false, None)],
                            if lands then j.log + [n] else j.log)
            && ev.who in k.sys.instances && p in k.sys.instances[ev.who].leases && (p in j.sys.bucket.files ==> p in k.sys.bucket.files)
            && Fits(k.sys.instances[ev.who], p, p in k.sys.bucket.files, Session(ev.who, "", false, None), false)
            && (lands ==> j.sessions[n].wrote && p in k.sys.bucket.files)
            && Content(k.sys.bucket.files, p) == Content(j.sys.bucket.files, p) + (if lands then j.sessions[n].record else "")
            && (!lands && p !in j.sys.bucket.files ==> p !in k.sys.bucket.files)
  {
    var i, u := j.sys.instances[ev.who], Exec(cfg, j.sys, ev);
    assert !i.pc.Idle?;
    SyncsLeased(j, ev.who, p);
    hide Exec, Fits, Disciplined, InstanceFits;
    ExecFits(cfg, j, ev, p);
    var n := j.current[ev.who];
    SyncedFits(i, j.sys.bucket.files, u.instances[ev.who], u.bucket.files, p, j.sessions[n]);
    hide StepFits, Lands;
    SameFits(u.instances[ev.who], p, p in u.bucket.files, Session(j.sessions[n].owner, "", false, None), Session(ev.who, "", false, None), false);
  }

  lemma SyncsLeased(j: Journal, id: InstanceId, p: Path)
    requires id in j.sys.instances && InstanceFits(j, id, p) && Syncs(j.sys.instances[id], j.sys.bucket.files, p)
    ensures p in j.sys.instances[id].leases && id in j.current && j.current[id] < |j.sessions| && j.current[id] !in j.log
    ensures Lands(j.sys.instances[id], j.sys.bucket.files, p) ==> j.sessions[j.current[id]].wrote
  {
  }

  lemma SyncedFits(i: Instance, files: map<Path, Body>, a: Instance, after: map<Path, Body>, p: Path, session: Session)
    requires StepFits(i, files, a, after, p, session, false) && Syncs(i, files, p) && p in i.leases
    ensures p in a.leases && Fits(a, p, p in after, Session(session.owner, "", false, None), false)
    ensures a.pc == Idle(if Lands(i, files, p) then Done else Conflict(true))
    ensures if Lands(i, files, p) then p in after && after[p] == Content(files, p) + session.record
            else Content(after, p) == Content(files, p) && (p in after ==> p in files)
  {
    hide Fits;
  }

  /** A session that ends within its hold: in the log if its push was stored, and
      an empty one takes its place. */
  lemma SyncLog(sessions: seq<Session>, log: seq<nat>, current: map<InstanceId, nat>, id: InstanceId, lands: bool, initial: Body)
    requires LogFits(sessions, log) && ClosedFits(sessions, log, current) && id in current && current[id] < |sessions|
    requires current[id] !in log && sessions[current[id]].outcome.None? && (lands ==> sessions[current[id]].wrote)
    ensures var n := current[id];
            var more := sessions[n := sessions[n].(outcome := Some(if lands then Done else Conflict(true)))] + [Session(id, "", false, None)];
            var logged := if lands then log + [n] else log;
            && LogFits(more, logged) && ClosedFits(more, logged, current[id := |sessions|]) && |sessions| !in logged
            && initial + Cat(more, logged) == initial + Cat(sessions, log) + (if lands then sessions[n].record else "")
  {
    hide ClosedFits, LogFits, Cat;
    var n := current[id];
    var logged := if lands then log + [n] else log;
    var ended := sessions[n := sessions[n].(outcome := Some(if lands then Done else Conflict(true)))];
    assert initial + Cat(sessions, log) + "" == initial + Cat(sessions, log) by { LogIndices(sessions, log); }
    if lands { LandLog(sessions, log, current, n, initial); }
    CloseLog(sessions, logged, current, id, if lands then Done else Conflict(true));
    OpenLog(ended, logged, current - {id}, id);
    assert (current - {id})[id := |sessions|] == current[id := |sessions|];
  }

  lemma LogIndices(sessions: seq<Session>, log: seq<nat>)
    requires LogFits(sessions, log)
    ensures forall k :: 0 <= k < |log| ==> log[k] < |sessions|
  {
  }

  lemma SyncKeeps(cfg: Config, j: Journal, ev: Event, p: Path, initial: Body)
    requires JournalFits(j, p, initial) && Disciplined(j.sys, ev) && ev.who in j.sys.instances
    requires ev.action.Proceed? && Syncs(j.sys.instances[ev.who], j.sys.bucket.files, p)
    ensures JournalFits(Step(cfg, j, ev, p), p, initial)
  {
    hide Exec, Fits, Lands, Syncs, Disciplined, Cat, LogFits, ClosedFits, Step, InstanceFits;
    SyncShape(cfg, j, ev, p);
    ExecFitsKeys(cfg, j.sys, ev);
    var k, n := Step(cfg, j, ev, p), j.current[ev.who];
    OpenOutcome(j, ev.who, p);
    SyncLog(j.sessions, j.log, j.current, ev.who, Lands(j.sys.instances[ev.who], j.sys.bucket.files, p), initial);
    forall id | id in k.sys.instances ensures InstanceFits(k, id, p) {
      assert InstanceFits(j, id, p);
      if id != ev.who {
        ExecKeepsOthers(cfg, j.sys, ev, id);
        SyncOthers(j, k, ev.who, id, p);
      } else {
        RestartedFits(k, id, p);
      }
    }
  }

  lemma OpenOutcome(j: Journal, id: InstanceId, p: Path)
    requires id in j.sys.instances && InstanceFits(j, id, p) && p in j.sys.instances[id].leases
    ensures id in j.current && j.current[id] < |j.sessions| && j.sessions[j.current[id]].outcome.None? && j.sessions[j.current[id]].owner == id
  {
    hide Fits;
  }

  lemma RestartedFits(k: Journal, id: InstanceId, p: Path)
    requires id in k.sys.instances && p in k.sys.instances[id].leases && id in k.current && k.current[id] < |k.sessions|
    requires k.sessions[k.current[id]] == Session(id, "", false, None) && k.current[id] !in k.log
    requires Fits(k.sys.instances[id], p, p in k.sys.bucket.files, Session(id, "", false, None), false)
    ensures InstanceFits(k, id, p)
  {
    hide Fits;
  }

  lemma SyncOthers(j: Journal, k: Journal, who: InstanceId, id: InstanceId, p: Path)
    requires who in j.sys.instances && id in j.sys.instances && id != who && InstanceFits(j, who, p) && InstanceFits(j, id, p)
    requires p in j.sys.instances[who].leases && who in j.current && j.current[who] < |j.sessions|
    requires id in k.sys.instances && k.sys.instances[id] == j.sys.instances[id] && (p in j.sys.bucket.files ==> p in k.sys.bucket.files)
    requires k.current == j.current[who := |j.sessions|] && |k.sessions| == |j.sessions| + 1
    requires forall n :: 0 <= n < |j.sessions| && n != j.current[who] ==> k.sessions[n] == j.sessions[n]
    requires k.log == j.log || k.log == j.log + [j.current[who]]
    ensures InstanceFits(k, id, p)
  {
    hide Fits;
    OtherFits(j, k, id, p);
  }

  lemma UnleasedFits(i: Instance, p: Path, present: bool, session: Session, other: Session)
    requires p !in i.leases && Fits(i, p, present, session, false)
    ensures Fits(i, p, present, other, false)
  {
    hide NoDeletes;
  }

  lemma StepKeeps(cfg: Config, j: Journal, ev: Event, p: Path, initial: Body)
    requires JournalFits(j, p, initial) && Disciplined(j.sys, ev)
    ensures JournalFits(Step(cfg, j, ev, p), p, initial)
  {
    if ev.who in j.sys.instances {
      hide Exec, Fits, Lands, Syncs, Disciplined, Cat, JournalFits;
      ExecFitsKeys(cfg, j.sys, ev);
      var i, a := j.sys.instances[ev.who], Exec(cfg, j.sys, ev).instances[ev.who];
      if p !in i.leases && p in a.leases { OpenKeeps(cfg, j, ev, p, initial); }
      else if p in i.leases && p !in a.leases { CloseKeeps(cfg, j, ev, p, initial); }
      else if ev.action.Proceed? && Syncs(i, j.sys.bucket.files, p) { SyncKeeps(cfg, j, ev, p, initial); }
      else if ev.action.Proceed? && Lands(i, j.sys.bucket.files, p) { LandKeeps(cfg, j, ev, p, initial); }
      else { OtherKeeps(cfg, j, ev, p, initial); }
    }
  }

  lemma ExecFitsKeys(cfg: Config, s: System, ev: Event)
    ensures Exec(cfg, s, ev).instances.Keys == s.instances.Keys
  {
    hide Begin, Advance;
  }
}
