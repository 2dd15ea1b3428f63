/** Open-append-close sessions never lose, duplicate or reorder a record.

    Clocks, expiry and takeover are arbitrary, the store fails only by rejecting
    conditions. One path is followed, over the runs of the sync protocol. */
module AppendSessions {
  import opened LockRecords
  import opened ObjectStores
  import opened SyncProtocol
  import opened AppendJournal

  /** Where a run starts: each local copy is absent or a version read from the
      bucket earlier, and the followed object exists if anybody has read it. */
  predicate Starts(s: System, p: Path) {
    && Initial(s)
    && forall id :: id in s.instances ==> Settled(At(s.instances[id], p), p in s.bucket.files)
  }

  lemma {:induction false} PlayFits(cfg: Config, s: System, evs: seq<Event>, p: Path)
    requires Starts(s, p) && AllDisciplined(cfg, Journal(s, map[], [], []), evs, p)
    ensures JournalFits(Play(cfg, Journal(s, map[], [], []), evs, p), p, Content(s.bucket.files, p))
  {
    var j := Journal(s, map[], [], []);
    if evs == [] {
      forall id | id in s.instances ensures InstanceFits(j, id, p) {
        assert Fresh(s.instances[id]);
      }
    } else {
      hide Exec, JournalFits, Step, Starts;
      var prefix, ev := evs[..|evs| - 1], evs[|evs| - 1];
      PlayFits(cfg, s, prefix, p);
      StepKeeps(cfg, Play(cfg, j, prefix, p), ev, p, Content(s.bucket.files, p));
    }
  }

  lemma {:induction false} PlayIsRun(cfg: Config, j: Journal, evs: seq<Event>, p: Path)
    ensures Play(cfg, j, evs, p).sys == Run(cfg, j.sys, evs)
  {
    hide Exec;
    if evs != [] { PlayIsRun(cfg, j, evs[..|evs| - 1], p); }
  }

  /** At every point of every disciplined run the object is its initial content
      followed by the records of the sessions in the log, in the order of their
      PUTs and each once; of the ended sessions exactly those that appended and
      whose fsync or last close returned Ok are in the log, and an open session in
      the log is one whose close is about to return Ok. */
  lemma ContentIsConcatenation(cfg: Config, s: System, evs: seq<Event>, p: Path)
    requires Starts(s, p) && AllDisciplined(cfg, Journal(s, map[], [], []), evs, p)
    ensures var j := Play(cfg, Journal(s, map[], [], []), evs, p);
            && j.sys == Run(cfg, s, evs)
            && LogFits(j.sessions, j.log)
            && Content(j.sys.bucket.files, p) == Content(s.bucket.files, p) + Cat(j.sessions, j.log)
            && (forall n :: 0 <= n < |j.sessions| ==>
                  var session := j.sessions[n];
                  match session.outcome
                  case Some(ret) => n in j.log <==> ret.Done? && session.wrote
                  case None =>
                    && session.owner in j.sys.instances
                    && (n in j.log ==> var pc := j.sys.instances[session.owner].pc; Releasing(pc, p) && pc.next.ret.Done?))
  {
    PlayIsRun(cfg, Journal(s, map[], [], []), evs, p);
    PlayFits(cfg, s, evs, p);
    var j := Play(cfg, Journal(s, map[], [], []), evs, p);
    hide Play, Run, Cat, Fits, AllDisciplined, Starts;
    forall n | 0 <= n < |j.sessions| && j.sessions[n].outcome.None?
      ensures j.sessions[n].owner in j.sys.instances
      ensures n in j.log ==> var pc := j.sys.instances[j.sessions[n].owner].pc; Releasing(pc, p) && pc.next.ret.Done?
    {
      OpenInLog(j, n, p, Content(s.bucket.files, p));
    }
  }

  lemma OpenInLog(j: Journal, n: nat, p: Path, initial: Body)
    requires JournalFits(j, p, initial) && n < |j.sessions| && j.sessions[n].outcome.None?
    ensures j.sessions[n].owner in j.sys.instances
    ensures n in j.log ==> var pc := j.sys.instances[j.sessions[n].owner].pc; Releasing(pc, p) && pc.next.ret.Done?
  {
    hide Cat, InSession, Settled, NoDeletes;
    var id := j.sessions[n].owner;
    assert id in j.current && j.current[id] == n;
    assert InstanceFits(j, id, p);
  }

  // ------------------------------------------------- what Ok of a close means ---

  /** The event lets a close of `p` return Ok: the close of an open that shares
      its hold with others, at once, or the last one, after its upload. */
  predicate ClosesOk(t: System, ev: Event, p: Path) {
    && ev.who in t.instances && p in t.instances[ev.who].leases
    && var i := t.instances[ev.who];
    match ev.action
    case Start(call) => call == Close(p) && i.pc.Idle? && 1 < i.leases[p].refs
    case Proceed => Releasing(i.pc, p) && i.pc.next.ret.Done?
  }

  /** In every such run, when a close of `p` returns Ok and something was appended
      during the session, then the record is in the object if and only if this was
      the last of the opens sharing the hold. An earlier close sends nothing. */
  lemma OkMeansStored(cfg: Config, s: System, evs: seq<Event>, ev: Event, p: Path)
    requires Starts(s, p) && AllDisciplined(cfg, Journal(s, map[], [], []), evs + [ev], p)
    requires ClosesOk(Run(cfg, s, evs), ev, p)
    ensures var j := Play(cfg, Journal(s, map[], [], []), evs, p);
            var k := Play(cfg, Journal(s, map[], [], []), evs + [ev], p);
            && ev.who in j.current && j.current[ev.who] < |j.sessions| && j.current[ev.who] < |k.sessions|
            && j.sessions[j.current[ev.who]].owner == ev.who
            && (j.sessions[j.current[ev.who]].wrote ==>
                  (j.current[ev.who] in k.log <==> Run(cfg, s, evs).instances[ev.who].leases[p].refs == 1))
            && k.sys.bucket.files == j.sys.bucket.files
  {
    hide Exec, Fits, Cat, AllDisciplined, Starts, Run;
    var j0 := Journal(s, map[], [], []);
    assert (evs + [ev])[..|evs|] == evs && (evs + [ev])[|evs|] == ev;
    assert AllDisciplined(cfg, j0, evs, p) by { DisciplinedPrefix(cfg, j0, evs, ev, p); }
    PlayFits(cfg, s, evs, p);
    PlayIsRun(cfg, j0, evs, p);
    var j := Play(cfg, j0, evs, p);
    assert InstanceFits(j, ev.who, p);
    var i, n := j.sys.instances[ev.who], j.current[ev.who];
    CloseEvent(cfg, j, ev, p, i, n);
  }

  /** In every such run, when an fsync that had something to push returns, what was
      appended since the session began is in the object if and only if it returned
      Ok, and an empty session takes its place in the same hold. */
  lemma FsyncOkMeansStored(cfg: Config, s: System, evs: seq<Event>, ev: Event, p: Path)
    requires Starts(s, p) && AllDisciplined(cfg, Journal(s, map[], [], []), evs + [ev], p)
    requires var t := Run(cfg, s, evs);
             ev.who in t.instances && ev.action.Proceed? && Syncs(t.instances[ev.who], t.bucket.files, p)
    ensures var j := Play(cfg, Journal(s, map[], [], []), evs, p);
            var k := Play(cfg, Journal(s, map[], [], []), evs + [ev], p);
            && ev.who in j.current && ev.who in k.current && j.current[ev.who] < |k.sessions| && k.current[ev.who] < |k.sessions|
            && ev.who in k.sys.instances && k.sys.instances[ev.who].pc.Idle?
            && k.sessions[j.current[ev.who]].outcome == Some(k.sys.instances[ev.who].pc.ret)
            && (j.current[ev.who] in k.log <==> k.sys.instances[ev.who].pc.ret.Done?)
            && k.sessions[k.current[ev.who]] == Session(ev.who, "", false, None)
  {
    hide Exec, Fits, Cat, AllDisciplined, Starts, Run, Syncs, Lands;
    var j0 := Journal(s, map[], [], []);
    assert (evs + [ev])[..|evs|] == evs && (evs + [ev])[|evs|] == ev;
    DisciplinedPrefix(cfg, j0, evs, ev, p);
    PlayFits(cfg, s, evs, p);
    PlayIsRun(cfg, j0, evs, p);
    var j := Play(cfg, j0, evs, p);
    assert InstanceFits(j, ev.who, p) && Disciplined(j.sys, ev) by { DisciplinedLast(cfg, j0, evs, ev, p); }
    SyncShape(cfg, j, ev, p);
    SyncReturns(cfg, j, ev, p);
  }

  lemma DisciplinedLast(cfg: Config, j: Journal, evs: seq<Event>, ev: Event, p: Path)
    requires AllDisciplined(cfg, j, evs + [ev], p)
    ensures Disciplined(Play(cfg, j, evs, p).sys, ev)
  {
    assert (evs + [ev])[..|evs + [ev]| - 1] == evs;
    hide Play, Disciplined;
  }

  lemma SyncReturns(cfg: Config, j: Journal, ev: Event, p: Path)
    requires Disciplined(j.sys, ev) && ev.who in j.sys.instances && InstanceFits(j, ev.who, p)
    requires ev.action.Proceed? && Syncs(j.sys.instances[ev.who], j.sys.bucket.files, p)
    ensures ev.who in Exec(cfg, j.sys, ev).instances
    ensures Exec(cfg, j.sys, ev).instances[ev.who].pc == Idle(if Lands(j.sys.instances[ev.who], j.sys.bucket.files, p) then Done else Conflict(true))
  {
    assert !j.sys.instances[ev.who].pc.Idle?;
    SyncsLeased(j, ev.who, p);
    hide Exec, Fits, Disciplined, InstanceFits, Lands;
    ExecFits(cfg, j, ev, p);
    var u := Exec(cfg, j.sys, ev);
    SyncedFits(j.sys.instances[ev.who], j.sys.bucket.files, u.instances[ev.who], u.bucket.files, p, j.sessions[j.current[ev.who]]);
  }

  lemma DisciplinedPrefix(cfg: Config, j: Journal, evs: seq<Event>, ev: Event, p: Path)
    requires AllDisciplined(cfg, j, evs + [ev], p)
    ensures AllDisciplined(cfg, j, evs, p)
  {
    assert (evs + [ev])[..|evs + [ev]| - 1] == evs;
    hide Play, Disciplined;
  }

  /** The two kinds of closing events, one by one. */
  lemma CloseEvent(cfg: Config, j: Journal, ev: Event, p: Path, i: Instance, n: nat)
    requires ClosesOk(j.sys, ev, p) && i == j.sys.instances[ev.who] && ev.who in j.current && n == j.current[ev.who] < |j.sessions|
    requires Fits(i, p, p in j.sys.bucket.files, j.sessions[n], n in j.log)
    ensures var k := Step(cfg, j, ev, p);
            && n < |k.sessions| && k.log == j.log && k.sys.bucket.files == j.sys.bucket.files
            && (j.sessions[n].wrote ==> (n in j.log <==> i.leases[p].refs == 1))
  {
    if ev.action.Start? {
      IdleNotLanded(i, p, p in j.sys.bucket.files, j.sessions[n], n in j.log);
    } else {
      ReleasingLanded(i, p, j.sys.bucket.files, j.sessions[n], n in j.log);
      assert LastHold(At(i, p));
    }
    hide NoDeletes, InSession, Settled, ReleaseNext;
  }
}
