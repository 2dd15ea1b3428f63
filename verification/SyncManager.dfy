/** The queue, flush and poll loops of one sync manager, over a store that no
    other instance touches during a call and whose requests may fail. */
module SyncManagers {
  import opened LockRecords
  import opened ObjectStores
  import opened SyncProtocol
  import opened OutboundQueue

  /** The files of an in-memory bucket, with a queue of faults to inject. */
  class FileBucket {
    var files: map<Path, Body>
    var failNext: seq<Fault>

    constructor (files: map<Path, Body>, failNext: seq<Fault>)
      ensures this.files == files && this.failNext == failNext
    {
      this.files := files;
      this.failNext := failNext;
    }

    ghost function Fate(): Fault
      reads this
    {
      if failNext == [] then NoFault else failNext[0]
    }

    method TakeFault() returns (fault: Fault)
      modifies this`failNext
      ensures fault == old(Fate()) && failNext == old(if failNext == [] then [] else failNext[1..])
    {
      fault := NoFault;
      if failNext != [] {
        fault, failNext := failNext[0], failNext[1..];
      }
    }

    method GetFile(p: Path) returns (reply: GetReply)
      modifies this`failNext
      ensures reply == Get(files, p, old(Fate())) && failNext == old(if failNext == [] then [] else failNext[1..])
    {
      var fault := TakeFault();
      if fault.Faulty? {
        reply := GetBroken;
      } else if p in files {
        reply := Found(files[p]);
      } else {
        reply := Absent;
      }
    }

    method PutFile(p: Path, body: Body, cond: Precondition) returns (reply: PutReply)
      modifies this
      ensures (files, reply) == Put(old(files), p, body, cond, old(Fate()))
      ensures failNext == old(if failNext == [] then [] else failNext[1..])
    {
      var fault := TakeFault();
      var verdict := CheckCond(files, p, cond);
      if verdict.Accepted? && (fault.NoFault? || fault.landed) {
        files := files[p := body];
      }
      reply := match fault
        case Faulty(_, as412) => if as412 then PutRejected else PutBroken
        case NoFault => match verdict case Accepted => Stored(ETag(body)) case Rejected => PutRejected case Missing => PutMissing;
    }

    method DeleteFile(p: Path, cond: Precondition) returns (reply: DeleteReply)
      modifies this
      ensures (files, reply) == Remove(old(files), p, cond, old(Fate()))
      ensures failNext == old(if failNext == [] then [] else failNext[1..])
    {
      var fault := TakeFault();
      var accepted := CheckCond(files, p, cond) != Rejected;
      if accepted && (fault.NoFault? || fault.landed) {
        files := files - {p};
      }
      reply := match fault
        case Faulty(_, as412) => if as412 then DeleteRejected else DeleteBroken
        case NoFault => if accepted then Deleted else DeleteRejected;
    }

    /** Every file once, in some order. */
    method ListFiles() returns (ok: bool, paths: seq<Path>)
      modifies this`failNext
      ensures ok == old(Fate()).NoFault? && failNext == old(if failNext == [] then [] else failNext[1..])
      ensures forall p :: p in paths <==> p in files
      ensures forall a, b :: 0 <= a < b < |paths| ==> paths[a] != paths[b]
    {
      var fault := TakeFault();
      ok, paths := fault.NoFault?, [];
      var todo := files.Keys;
      while todo != {}
        invariant todo <= files.Keys
        invariant forall p :: p in paths <==> p in files && p !in todo
        invariant forall a, b :: 0 <= a < b < |paths| ==> paths[a] != paths[b]
        decreases todo
      {
        var p :| p in todo;
        paths, todo := paths + [p], todo - {p};
      }
    }
  }

  /** Leased, or with an operation in the queue: polling leaves it alone. */
  predicate Off(leases: map<Path, Lease>, queue: seq<SyncOp>, p: Path) {
    p in leases || Pending(queue, p)
  }

  /** Both maps say the same about `p`. */
  predicate Agree<T(==)>(m: map<Path, T>, n: map<Path, T>, p: Path) {
    (p in m <==> p in n) && (p in m ==> m[p] == n[p])
  }

  predicate AgreeBut<T(==)>(m: map<Path, T>, n: map<Path, T>, p: Path) {
    m - {p} == n - {p}
  }

  /** The lease of `p`, if there is one, on a new base. */
  function Rebased(leases: map<Path, Lease>, p: Path, base: Option<ETag>, clean: bool): (r: map<Path, Lease>)
    ensures r.Keys == leases.Keys
  {
    if p in leases then leases[p := leases[p].(base := base, dirty := leases[p].dirty && !clean)] else leases
  }

  lemma AgreeElsewhere<T>(m: map<Path, T>, n: map<Path, T>, p: Path, q: Path)
    requires AgreeBut(m, n, p) && q != p
    ensures Agree(m, n, q)
  {
    assert q in m - {p} <==> q in n - {p};
    if q in m { assert (m - {p})[q] == (n - {p})[q]; }
  }

  datatype Upload = Uploaded | UploadRejected | UploadFailed

  class SyncManager {
    const store: FileBucket
    var local: map<Path, Body>
    var cache: map<Path, ETag>
    var leases: map<Path, Lease>
    var queue: seq<SyncOp>

    constructor (store: FileBucket, local: map<Path, Body>, cache: map<Path, ETag>)
      ensures this.store == store && this.local == local && this.cache == cache && leases == map[] && queue == []
    {
      this.store := store;
      this.local := local;
      this.cache := cache;
      leases := map[];
      queue := [];
    }

    /** Drop every operation on `p` from the queue. */
    method Retain(p: Path)
      modifies this`queue
      ensures queue == Without(old(queue), p)
    {
      var kept := [];
      for k := 0 to |queue|
        invariant queue == old(queue)
        invariant kept == Without(queue[..k], p)
      {
        WithoutSnoc(queue[..k], queue[k], p);
        assert queue[..k + 1] == queue[..k] + [queue[k]];
        if queue[k].path != p {
          kept := kept + [queue[k]];
        }
      }
      assert queue[..|queue|] == queue;
      queue := kept;
    }

    method EnqueueUpload(p: Path)
      requires Orderly(queue, leases)
      modifies this`queue, this`leases
      ensures Orderly(queue, leases) && leases.Keys == old(leases).Keys
      ensures if p in leases then queue == old(queue) && leases == old(leases)[p := old(leases)[p].(dirty := true, pendingDelete := false)]
              else leases == old(leases) && queue == Without(old(queue), p) + [SyncOp.Upload(p)]
    {
      if p in leases {
        leases := leases[p := leases[p].(dirty := true, pendingDelete := false)];
        SameKeysOrderly(queue, old(leases), leases);
      } else {
        ReplaceOrderly(queue, SyncOp.Upload(p), leases);
        Retain(p);
        queue := queue + [SyncOp.Upload(p)];
      }
    }

    method EnqueueDelete(p: Path)
      requires Orderly(queue, leases)
      modifies this`queue, this`leases, this`cache
      ensures Orderly(queue, leases) && leases.Keys == old(leases).Keys
      ensures if p in leases then queue == old(queue) && cache == old(cache) && leases == old(leases)[p := old(leases)[p].(dirty := false, pendingDelete := true)]
              else leases == old(leases) && cache == old(cache) - {p}
                   && queue == Without(old(queue), p) + [Delete(p, if p in old(cache) then Some(old(cache)[p]) else None)]
    {
      if p in leases {
        leases := leases[p := leases[p].(dirty := false, pendingDelete := true)];
        SameKeysOrderly(queue, old(leases), leases);
      } else {
        var known := if p in cache then Some(cache[p]) else None;
        cache := cache - {p};
        ReplaceOrderly(queue, Delete(p, known), leases);
        Retain(p);
        queue := queue + [Delete(p, known)];
      }
    }

    /** The operation has been carried out: local copy and object agree, or the
        object is gone. */
    ghost predicate CarriedOut(op: SyncOp)
      reads this`local, store`files
    {
      var p := op.path;
      if p in store.files then p in local && local[p] == store.files[p] else op.Delete?
    }

    method RecordUpload(p: Path, tag: ETag)
      modifies this`cache, this`leases
      ensures cache == old(cache)[p := tag] && leases == Rebased(old(leases), p, Some(tag), true)
    {
      cache := cache[p := tag];
      if p in leases {
        leases := leases[p := leases[p].(base := Some(tag), dirty := false)];
      }
    }

    /** A conditional upload with its retries. Without faults it is rejected
        exactly when the store's object does not meet the condition, and else
        stores the local copy and records its tag; an object that has gone is
        created anew. */
    method UploadWithCond(p: Path, cond: Precondition) returns (r: Upload)
      modifies this`cache, this`leases, store
      ensures leases.Keys == old(leases).Keys && AgreeBut(old(store.files), store.files, p)
      ensures old(store.failNext) == [] ==>
        && store.failNext == []
        && match r
           case Uploaded =>
             && p in local && store.files == old(store.files)[p := local[p]] && cache == old(cache)[p := ETag(local[p])]
             && leases == Rebased(old(leases), p, Some(ETag(local[p])), true)
           case _ => store.files == old(store.files) && cache == old(cache) && leases == old(leases)
      ensures old(store.failNext) == [] ==>
        && (r.UploadFailed? <==> p !in local)
        && (r.UploadRejected? <==> p in local && CheckCond(old(store.files), p, cond).Rejected?)
    {
      if p !in local {
        return UploadFailed;
      }
      var body := local[p];
      var reply := store.PutFile(p, body, cond);
      match reply {
        case Stored(tag) =>
          RecordUpload(p, tag);
          return Uploaded;
        case PutMissing =>
          if cond.IfMatch? {
            var again := store.PutFile(p, body, IfNoneMatchAny);
            r := FinishCreate(p, again);
            return;
          }
        case PutRejected =>
          if !cond.IfNoneMatchAny? {
            return UploadRejected;
          }
          var head := store.GetFile(p);
          match head {
            case Found(_) => return UploadRejected;
            case GetBroken => return UploadFailed;
            case Absent =>
              var again := store.PutFile(p, body, IfNoneMatchAny);
              r := FinishCreate(p, again);
              return;
          }
        case PutBroken =>
      }
      var head := store.GetFile(p);
      if head.Found? && (cond.IfNoneMatchAny? || (cond.IfMatch? && ETag(head.body) != cond.tag)) {
        RecordUpload(p, ETag(head.body));
        return Uploaded;
      }
      return UploadFailed;
    }

    method FinishCreate(p: Path, again: PutReply) returns (r: Upload)
      modifies this`cache, this`leases
      ensures leases.Keys == old(leases).Keys
      ensures if again.Stored? then r.Uploaded? && cache == old(cache)[p := again.tag] && leases == Rebased(old(leases), p, Some(again.tag), true)
              else cache == old(cache) && leases == old(leases) && r == if again.PutRejected? then UploadRejected else UploadFailed
    {
      match again {
        case Stored(tag) =>
          RecordUpload(p, tag);
          r := Uploaded;
        case PutRejected => r := UploadRejected;
        case _ => r := UploadFailed;
      }
    }

    /** Replace the local copy by the remote one. */
    method RefreshLocal(p: Path)
      modifies this`local, this`cache, this`leases, store`failNext
      ensures leases.Keys == old(leases).Keys
      ensures AgreeBut(old(local), local, p)
      ensures old(store.failNext) == [] ==>
        && store.failNext == []
        && if p in store.files then Fetched(p) && leases == Rebased(old(leases), p, Some(ETag(store.files[p])), true)
           else local == old(local) && cache == old(cache) - {p} && leases == Rebased(old(leases), p, None, false)
    {
      var reply := store.GetFile(p);
      match reply {
        case Found(body) =>
          local, cache := local[p := body], cache[p := ETag(body)];
          if p in leases { leases := leases[p := leases[p].(base := Some(ETag(body)), dirty := false)]; }
        case Absent =>
          cache := cache - {p};
          if p in leases { leases := leases[p := leases[p].(base := None)]; }
        case GetBroken =>
      }
    }

    method FlushDelete(p: Path, known: Option<ETag>)
      modifies this`local, this`cache, this`leases, store
      ensures leases.Keys == old(leases).Keys && AgreeBut(old(store.files), store.files, p)
      ensures AgreeBut(old(local), local, p)
      ensures old(store.failNext) == [] ==>
        && store.failNext == []
        && if p in old(store.files) && known.Some? && ETag(old(store.files)[p]) != known.value
           then store.files == old(store.files) && Fetched(p)
           else store.files == old(store.files) - {p} && local == old(local)
    {
      var reply := store.DeleteFile(p, if known.Some? then IfMatch(known.value) else Unconditional);
      if reply.DeleteRejected? {
        RefreshLocal(p);
      }
    }

    /** One operation taken from the queue. Only an upload can fail. */
    method FlushOne(op: SyncOp) returns (ok: bool)
      requires op.Upload? ==> op.path !in leases
      modifies this`local, this`cache, this`leases, store
      ensures leases.Keys == old(leases).Keys && (!ok ==> op.Upload?)
      ensures AgreeBut(old(local), local, op.path) && AgreeBut(old(store.files), store.files, op.path)
      ensures old(store.failNext) == [] ==> store.failNext == [] && (ok ==> CarriedOut(op))
    {
      match op
      case Delete(p, known) =>
        FlushDelete(p, known);
        ok := true;
      case Upload(p) =>
        var cond := if p in cache then IfMatch(cache[p]) else IfNoneMatchAny;
        var up := UploadWithCond(p, cond);
        if up.UploadRejected? {
          RefreshLocal(p);
        }
        ok := !up.UploadFailed?;
    }

    /** Flush at most `batch` operations. A result counts them all; a failed
        upload goes to the back of the queue and ends the flush. */
    method FlushOutbound(batch: nat) returns (r: Option<nat>)
      requires Orderly(queue, leases)
      modifies this`local, this`cache, this`leases, this`queue, store
      ensures Orderly(queue, leases) && leases.Keys == old(leases).Keys
      ensures r.Some? ==> r.value == (if batch < |old(queue)| then batch else |old(queue)|) && queue == old(queue)[r.value..]
      ensures r.None? ==> exists k :: 0 <= k < |old(queue)| && k < batch && old(queue)[k].Upload? && queue == old(queue)[k + 1..] + [old(queue)[k]]
      ensures old(store.failNext) == [] && r.Some? ==>
        store.failNext == [] && forall k :: 0 <= k < r.value ==> CarriedOut(old(queue)[k])
      ensures forall p :: !Pending(old(queue), p) ==> Agree(old(local), local, p) && Agree(old(store.files), store.files, p)
    {
      var processed := 0;
      ghost var clean, all := store.failNext == [], queue;
      for n := 0 to batch
        invariant processed == (if n < |all| then n else |all|)
        invariant queue == all[processed..]
        invariant Orderly(queue, leases) && leases.Keys == old(leases).Keys
        invariant clean ==> store.failNext == [] && forall k :: 0 <= k < processed ==> CarriedOut(all[k])
        invariant forall p :: !Pending(all, p) ==> Agree(old(local), local, p) && Agree(old(store.files), store.files, p)
      {
        if queue == [] {
          return Some(processed);
        }
        PopOrderly(queue, leases);
        var op := queue[0];
        assert op == all[processed];
        queue := queue[1..];
        assert queue == all[processed + 1..];
        if op.Delete? || op.path !in leases {
          ghost var before, local0, files0 := leases, local, store.files;
          var ok := FlushOne(op);
          SameKeysOrderly(queue, before, leases);
          forall p | p != op.path ensures Agree(local0, local, p) && Agree(files0, store.files, p) {
            AgreeElsewhere(local0, local, op.path, p);
            AgreeElsewhere(files0, store.files, op.path, p);
          }
          forall k | 0 <= k < processed ensures clean && ok ==> CarriedOut(all[k]) {
            assert Agree(local0, local, all[k].path) && Agree(files0, store.files, all[k].path);
          }
          forall p | !Pending(all, p) ensures Agree(old(local), local, p) && Agree(old(store.files), store.files, p) {
            assert p != op.path;
            assert Agree(local0, local, p) && Agree(files0, store.files, p);
          }
          if !ok {
            AppendOrderly(queue, op, leases);
            queue := queue + [op];
            return None;
          }
          processed := processed + 1;
        }
      }
      return Some(processed);
    }

    /** Flush until the queue is empty. Terminates because a flush that does
        not fail shortens the queue, which takes a batch of at least one unless
        the queue is empty to begin with. */
    method ForceFlush(batch: nat) returns (r: Option<nat>)
      requires Orderly(queue, leases) && (1 <= batch || queue == [])
      modifies this`local, this`cache, this`leases, this`queue, store
      ensures Orderly(queue, leases) && leases.Keys == old(leases).Keys
      ensures r.Some? ==> r.value == |old(queue)| && queue == []
      ensures r.None? ==> 0 < |queue| <= |old(queue)|
      ensures old(store.failNext) == [] && r.Some? ==> forall k :: 0 <= k < |old(queue)| ==> CarriedOut(old(queue)[k])
    {
      var total: nat := 0;
      ghost var clean, all := store.failNext == [], queue;
      while queue != []
        invariant Orderly(queue, leases) && leases.Keys == old(leases).Keys
        invariant total <= |all| && queue == all[total..]
        invariant clean ==> store.failNext == [] && forall k :: 0 <= k < total ==> CarriedOut(all[k])
        decreases |queue|
      {
        ghost var before := queue;
        forall k | 0 <= k < total ensures !Pending(before, all[k].path) {
          forall j | 0 <= j < |before| ensures before[j].path != all[k].path { assert before[j] == all[total + j]; }
        }
        ghost var local0, files0 := local, store.files;
        var flushed := FlushOutbound(batch);
        forall k | 0 <= k < total ensures clean && flushed.Some? ==> CarriedOut(all[k]) {
          assert Agree(local0, local, all[k].path) && Agree(files0, store.files, all[k].path);
        }
        if flushed.None? {
          return None;
        }
        assert queue == all[total..][flushed.value..];
        total := total + flushed.value;
      }
      return Some(total);
    }

    /** The loop of `ForceFlush`, any number of rounds: with a batch of zero the
        queue never changes, so the loop over a queue that is not empty never ends. */
    method FlushRounds(batch: nat, rounds: nat)
      requires Orderly(queue, leases)
      modifies this`local, this`cache, this`leases, this`queue, store
      ensures batch == 0 ==> queue == old(queue)
    {
      for k := 0 to rounds
        invariant Orderly(queue, leases) && (batch == 0 ==> queue == old(queue))
      {
        var flushed := FlushOutbound(batch);
      }
    }

    method HasPending(p: Path) returns (b: bool)
      ensures b == Pending(queue, p)
    {
      b := false;
      for k := 0 to |queue|
        invariant b == exists j :: 0 <= j < k && queue[j].path == p
      {
        if queue[k].path == p { b := true; }
      }
    }

    /** Each cached tag is that of a local copy. */
    ghost predicate Honest()
      reads this`local, this`cache
    {
      forall p :: p in cache ==> p in local && cache[p] == ETag(local[p])
    }

    /** Local copy and cached tag are those of the object. */
    ghost predicate Fetched(p: Path)
      reads this`local, this`cache, store`files
    {
      && p in store.files && p in local && local[p] == store.files[p]
      && p in cache && cache[p] == ETag(store.files[p])
    }

    /** Everything a poll looks after equals the bucket. */
    ghost predicate InSync()
      reads this`local, this`cache, this`leases, this`queue, store`files
    {
      && (forall p :: p in store.files && !Off(leases, queue, p) ==> Fetched(p))
      && (forall p :: p in cache && p !in store.files ==> Off(leases, queue, p))
    }

    /** Fetch one listed path when its tag is news and nothing local is at stake. */
    method DownloadOne(p: Path, tag: ETag) returns (downloaded: nat)
      requires p in store.files && tag == ETag(store.files[p])
      modifies this`local, this`cache, store`failNext
      ensures forall q :: q != p || Off(leases, queue, q) ==> Agree(old(local), local, q) && Agree(old(cache), cache, q)
      ensures old(Honest()) ==> Honest()
      ensures old(store.failNext) == [] ==> store.failNext == [] && (old(Honest()) && !Off(leases, queue, p) ==> Fetched(p))
      ensures Off(leases, queue, p) || (p in old(cache) && old(cache)[p] == tag) ==>
                downloaded == 0 && local == old(local) && cache == old(cache)
    {
      downloaded := 0;
      var pending := HasPending(p);
      if (p !in cache || cache[p] != tag) && p !in leases && !pending {
        var reply := store.GetFile(p);
        if reply.Found? {
          local, cache := local[p := reply.body], cache[p := ETag(reply.body)];
          downloaded := 1;
        }
      }
    }

    method DownloadListed(paths: seq<Path>, tags: map<Path, ETag>) returns (downloaded: nat)
      requires forall p :: p in paths ==> p in tags && p in store.files && tags[p] == ETag(store.files[p])
      modifies this`local, this`cache, store`failNext
      ensures forall p :: Off(leases, queue, p) || p !in paths ==> Agree(old(local), local, p) && Agree(old(cache), cache, p)
      ensures old(Honest()) ==> Honest()
      ensures old(store.failNext) == [] && old(Honest()) ==>
        store.failNext == [] && (forall p :: p in paths && !Off(leases, queue, p) ==> Fetched(p))
      ensures old(store.failNext) == [] && (forall p :: p in paths && !Off(leases, queue, p) ==> p in old(cache) && old(cache)[p] == tags[p]) ==>
        downloaded == 0 && local == old(local) && cache == old(cache)
    {
      downloaded := 0;
      ghost var honest, clean := Honest(), store.failNext == [];
      ghost var calm := clean && forall p :: p in paths && !Off(leases, queue, p) ==> p in cache && cache[p] == tags[p];
      for k := 0 to |paths|
        invariant forall p :: Off(leases, queue, p) || p !in paths[..k] ==> Agree(old(local), local, p) && Agree(old(cache), cache, p)
        invariant honest ==> Honest()
        invariant clean ==> store.failNext == []
        invariant clean && honest ==> forall j :: 0 <= j < k && !Off(leases, queue, paths[j]) ==> Fetched(paths[j])
        invariant calm ==> downloaded == 0 && local == old(local) && cache == old(cache)
      {
        assert paths[..k + 1] == paths[..k] + [paths[k]];
        ghost var local0, cache0 := local, cache;
        var more := DownloadOne(paths[k], tags[paths[k]]);
        forall p | Off(leases, queue, p) || p !in paths[..k + 1] ensures Agree(old(local), local, p) && Agree(old(cache), cache, p) {
          assert Agree(local0, local, p) && Agree(cache0, cache, p);
        }
        forall j | 0 <= j < k && !Off(leases, queue, paths[j]) ensures clean && honest ==> Fetched(paths[j]) {
          if paths[j] != paths[k] { assert Agree(local0, local, paths[j]) && Agree(cache0, cache, paths[j]); }
        }
        downloaded := downloaded + more;
      }
    }

    method DeleteUnlisted(listed: set<Path>) returns (deleted: nat)
      modifies this`local, this`cache
      ensures forall p :: Off(leases, queue, p) || p in listed ==> Agree(old(local), local, p) && Agree(old(cache), cache, p)
      ensures old(Honest()) ==> Honest() && (forall p :: p in cache && p !in listed ==> Off(leases, queue, p))
      ensures (forall p :: p in old(cache) && p !in listed ==> Off(leases, queue, p)) ==> deleted == 0 && local == old(local) && cache == old(cache)
    {
      deleted := 0;
      var todo := cache.Keys;
      while todo != {}
        invariant todo <= old(cache).Keys
        invariant forall p :: Off(leases, queue, p) || p in listed || p in todo || p !in old(cache) ==> Agree(old(local), local, p) && Agree(old(cache), cache, p)
        invariant old(Honest()) ==> Honest() && (forall p :: p in cache && p !in listed && p !in todo ==> Off(leases, queue, p))
        invariant (forall p :: p in old(cache) && p !in listed ==> Off(leases, queue, p)) ==> deleted == 0 && local == old(local) && cache == old(cache)
        decreases todo
      {
        var p :| p in todo;
        todo := todo - {p};
        var pending := HasPending(p);
        if p !in listed && p !in leases && !pending && p in local {
          local, cache := local - {p}, cache - {p};
          deleted := deleted + 1;
        }
      }
    }

    /** One poll. It never changes the local copy of a leased or pending path;
        without faults, starting from honest cached tags, everything else ends
        equal to the bucket, and polling an equal state does nothing. */
    method PollInbound() returns (ok: bool, downloaded: nat, deleted: nat)
      modifies this`local, this`cache, store`failNext
      ensures forall p :: Off(leases, queue, p) ==> Agree(old(local), local, p) && Agree(old(cache), cache, p)
      ensures old(Honest()) ==> Honest()
      ensures old(store.failNext) == [] && old(Honest()) ==> ok && InSync()
      ensures old(store.failNext) == [] && old(InSync()) ==>
        downloaded == 0 && deleted == 0 && local == old(local) && cache == old(cache)
    {
      downloaded, deleted := 0, 0;
      var paths;
      ok, paths := store.ListFiles();
      if !ok {
        return;
      }
      var tags := map p | p in store.files :: ETag(store.files[p]);
      downloaded := DownloadListed(paths, tags);
      deleted := DeleteUnlisted(set p | p in paths);
    }
  }

  lemma {:induction false} WithoutSnoc(q: seq<SyncOp>, op: SyncOp, p: Path)
    ensures Without(q + [op], p) == Without(q, p) + if op.path == p then [] else [op]
  {
    if q == [] {
      assert q + [op] == [op] && [op][1..] == [];
    } else {
      WithoutSnoc(q[1..], op, p);
      assert (q + [op])[1..] == q[1..] + [op];
    }
  }
}
