/** The object store: compare-and-swap on content tags, and the key layout on top. */
module ObjectStores {

  /** Content-derived, so equal bodies have equal tags, and injective on content. */
  datatype ETag = ETag(of: string)

  datatype Precondition = Unconditional | IfMatch(tag: ETag) | IfNoneMatchAny

  /** `Missing` is the answer to an `If-Match` PUT of a key that does not exist. */
  datatype Verdict = Accepted | Rejected | Missing

  function CheckCond(objects: map<string, string>, key: string, cond: Precondition): Verdict {
    match cond
    case Unconditional => Accepted
    case IfNoneMatchAny => if key in objects then Rejected else Accepted
    case IfMatch(tag) =>
      if key !in objects then Missing
      else if ETag(objects[key]) == tag then Accepted else Rejected
  }

  /** A call may lose its response: it then reports a transport error or a
      spurious 412, whether or not its effect took place. */
  datatype Fault = NoFault | Faulty(landed: bool, as412: bool)

  datatype PutReply = Stored(tag: ETag) | PutRejected | PutMissing | PutBroken

  function Put(objects: map<string, string>, key: string, body: string, cond: Precondition, fault: Fault)
    : (r: (map<string, string>, PutReply))
  {
    var verdict := CheckCond(objects, key, cond);
    var after := if verdict.Accepted? then objects[key := body] else objects;
    match fault
    case Faulty(landed, as412) => (if landed then after else objects, if as412 then PutRejected else PutBroken)
    case NoFault => (after, match verdict case Accepted => Stored(ETag(body)) case Rejected => PutRejected case Missing => PutMissing)
  }

  datatype DeleteReply = Deleted | DeleteRejected | DeleteBroken

  /** Deleting a missing key succeeds, with or without `If-Match`. */
  function Remove(objects: map<string, string>, key: string, cond: Precondition, fault: Fault)
    : (r: (map<string, string>, DeleteReply))
  {
    var accepted := CheckCond(objects, key, cond) != Rejected;
    var after := if accepted then objects - {key} else objects;
    match fault
    case Faulty(landed, as412) => (if landed then after else objects, if as412 then DeleteRejected else DeleteBroken)
    case NoFault => (after, if accepted then Deleted else DeleteRejected)
  }

  datatype GetReply = Found(body: string) | Absent | GetBroken

  /** GET; a HEAD sees only the tag of the body it finds. */
  function Get(objects: map<string, string>, key: string, fault: Fault): (r: GetReply) {
    if fault.Faulty? then GetBroken else if key in objects then Found(objects[key]) else Absent
  }

  // ------------------------------------------------------------ key layout ---

  function TrimSlashesStart(s: string): string {
    if s != "" && s[0] == '/' then TrimSlashesStart(s[1..]) else s
  }

  function TrimSlashesEnd(s: string): string {
    if s != "" && s[|s| - 1] == '/' then TrimSlashesEnd(s[..|s| - 1]) else s
  }

  const FILES_PREFIX := "files/"
  const LOCKS_PREFIX := "locks/"

  function FileKey(path: string): string {
    FILES_PREFIX + TrimSlashesStart(path)
  }

  function DirMarkerKey(path: string): string {
    FileKey(TrimSlashesEnd(path)) + "/"
  }

  function LockKey(path: string): string {
    LOCKS_PREFIX + TrimSlashesStart(path)
  }

  datatype Entry = NoEntry | Entry(path: string, isDir: bool)

  function PathFromFileKey(key: string): Entry {
    if !(FILES_PREFIX <= key) then NoEntry
    else
      var rest := key[|FILES_PREFIX|..];
      var trimmed := TrimSlashesEnd(rest);
      if trimmed == "" then NoEntry
      else Entry("/" + trimmed, rest[|rest| - 1] == '/')
  }

  /** A path in the one spelling that listing the bucket gives back. */
  predicate Canonical(path: string) {
    2 <= |path| && path[0] == '/' && path[1] != '/' && path[|path| - 1] != '/'
  }

  lemma {:induction false} TrimSlashesEndFacts(s: string)
    ensures TrimSlashesEnd(s) <= s
    ensures TrimSlashesEnd(s) == "" || TrimSlashesEnd(s)[|TrimSlashesEnd(s)| - 1] != '/'
    ensures s != "" && s[|s| - 1] == '/' <==> TrimSlashesEnd(s) != s
  {
    if s != "" && s[|s| - 1] == '/' {
      TrimSlashesEndFacts(s[..|s| - 1]);
    }
  }

  lemma {:induction false} TrimSlashesStartFacts(s: string)
    ensures TrimSlashesStart(s) == "" || TrimSlashesStart(s)[0] != '/'
    ensures TrimSlashesStart(s) == "" || TrimSlashesStart(s)[|TrimSlashesStart(s)| - 1] == s[|s| - 1]
    ensures |TrimSlashesStart(s)| <= |s|
  {
    if s != "" && s[0] == '/' {
      TrimSlashesStartFacts(s[1..]);
    }
  }

  /** Listing inverts the file key exactly on canonical paths, so two canonical
      paths never share an object. */
  lemma FileKeyRoundTrip(path: string)
    ensures PathFromFileKey(FileKey(path)) == Entry(path, false) <==> Canonical(path)
  {
    var rest := TrimSlashesStart(path);
    var key := FileKey(path);
    assert key[|FILES_PREFIX|..] == rest;
    assert FILES_PREFIX <= key;
    TrimSlashesEndFacts(rest);
    TrimSlashesStartFacts(path);
    if Canonical(path) {
      assert path[1..] == TrimSlashesStart(path[1..]) == rest;
      assert path == "/" + rest;
    }
  }

  /** A directory marker comes back as its directory. */
  lemma DirMarkerRoundTrip(path: string)
    requires Canonical(path)
    ensures PathFromFileKey(DirMarkerKey(path)) == Entry(path, true)
  {
    TrimSlashesEndFacts(path);
    assert path[1..] == TrimSlashesStart(path[1..]);
    var key := DirMarkerKey(path);
    assert key == FILES_PREFIX + (path[1..] + "/");
    var rest := key[|FILES_PREFIX|..];
    assert rest == path[1..] + "/";
    assert rest[..|rest| - 1] == path[1..];
    TrimSlashesEndFacts(path[1..]);
    assert path == "/" + path[1..];
  }

  /** Files, directory markers and locks never share a key. */
  lemma NamespacesDisjoint(p: string, q: string)
    requires Canonical(p)
    ensures FileKey(p) != LockKey(q) && DirMarkerKey(p) != LockKey(q)
    ensures Canonical(q) ==> FileKey(p) != DirMarkerKey(q)
    ensures Canonical(q) && p != q ==> FileKey(p) != FileKey(q) && LockKey(p) != LockKey(q) && DirMarkerKey(p) != DirMarkerKey(q)
  {
    assert FileKey(p)[0] == 'f' && DirMarkerKey(p)[0] == 'f' && LockKey(q)[0] == 'l';
    FileKeyRoundTrip(p);
    DirMarkerRoundTrip(p);
    if Canonical(q) {
      FileKeyRoundTrip(q);
      DirMarkerRoundTrip(q);
      if LockKey(p) == LockKey(q) {
        assert LockKey(p)[|LOCKS_PREFIX|..] == TrimSlashesStart(p);
        assert LockKey(q)[|LOCKS_PREFIX|..] == TrimSlashesStart(q);
      }
    }
  }
}
