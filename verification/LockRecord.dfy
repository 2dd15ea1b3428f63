/** The lease record stored under `locks/<path>`: its text form and its reader.

    A record is written as four `key=value` lines and read back line by line.
    Bodies are text here; a body that is not UTF-8 is read as no record at all,
    exactly like the unparsable text bodies below. */
module LockRecords {

  datatype Option<+T> = None | Some(value: T)

  const U64_MAX: nat := 0xFFFF_FFFF_FFFF_FFFF

  /** `expires` is in wall-clock milliseconds. */
  datatype LockRecord = LockRecord(instance: string, epoch: nat, expires: nat, path: string)

  /** Inclusive of the deadline. */
  predicate IsExpired(r: LockRecord, now: nat) {
    r.expires <= now
  }

  // ---------------------------------------------------------------- text ---

  /** Characters with the Unicode property White_Space. */
  predicate IsSpace(c: char) {
    || '\t' <= c <= '\r'
    || c in {' ', '\U{85}', '\U{A0}', '\U{1680}', '\U{2028}', '\U{2029}', '\U{202F}', '\U{205F}', '\U{3000}'}
    || '\U{2000}' <= c <= '\U{200A}'
  }

  function TrimStart(s: string): string {
    if s != "" && IsSpace(s[0]) then TrimStart(s[1..]) else s
  }

  function TrimEnd(s: string): string {
    if s != "" && IsSpace(s[|s| - 1]) then TrimEnd(s[..|s| - 1]) else s
  }

  function Trim(s: string): string {
    TrimEnd(TrimStart(s))
  }

  /** Index of the first `c`, or the length when there is none. */
  function IndexOf(s: string, c: char): (i: nat)
    ensures i <= |s|
    ensures c !in s[..i]
    ensures i < |s| ==> s[i] == c
  {
    if s == "" || s[0] == c then 0 else 1 + IndexOf(s[1..], c)
  }

  /** Lines without their `\n` or `\r\n`; the final terminator is optional. */
  function Lines(s: string): seq<string> {
    var i := IndexOf(s, '\n');
    if s == "" then []
    else if i == |s| then [s]
    else [if 0 < i && s[i - 1] == '\r' then s[..i - 1] else s[..i]] + Lines(s[i + 1..])
  }

  function Decimal(n: nat): (s: string)
    ensures s != "" && AllDigits(s)
  {
    var last := ['0' + (n % 10) as char];
    if n < 10 then last else Decimal(n / 10) + last
  }

  predicate AllDigits(s: string) {
    forall i :: 0 <= i < |s| ==> '0' <= s[i] <= '9'
  }

  function DigitsValue(s: string): nat
    requires AllDigits(s)
  {
    if s == "" then 0 else 10 * DigitsValue(s[..|s| - 1]) + (s[|s| - 1] - '0') as nat
  }

  /** Rust's `u64::from_str`: an optional `+`, then digits, no overflow. */
  function ParseU64(s: string): Option<nat> {
    var digits := if s != "" && s[0] == '+' then s[1..] else s;
    if digits == "" || !AllDigits(digits) || U64_MAX < DigitsValue(digits) then None
    else Some(DigitsValue(digits))
  }

  // ------------------------------------------------------- encode / parse ---

  datatype Key = InstanceKey | EpochKey | ExpiresKey | PathKey

  function KeyText(k: Key): string {
    match k
    case InstanceKey => "instance"
    case EpochKey => "epoch"
    case ExpiresKey => "expires"
    case PathKey => "path"
  }

  /** `key=value` lines. */
  function Fold(kvs: seq<(Key, string)>): string {
    if kvs == [] then "" else KeyText(kvs[0].0) + "=" + kvs[0].1 + "\n" + Fold(kvs[1..])
  }

  function RecordFields(r: LockRecord): seq<(Key, string)> {
    [(InstanceKey, r.instance), (EpochKey, Decimal(r.epoch)), (ExpiresKey, Decimal(r.expires)), (PathKey, r.path)]
  }

  function Encode(r: LockRecord): string {
    Fold(RecordFields(r))
  }

  /** What the reader has collected so far. */
  datatype Fields = Fields(instance: Option<string>, epoch: Option<nat>, expires: Option<nat>, path: Option<string>)

  const NO_FIELDS := Fields(None, None, None, None)

  function Assign(f: Fields, k: Key, value: string): Fields {
    match k
    case InstanceKey => f.(instance := Some(value))
    case EpochKey => f.(epoch := ParseU64(value))
    case ExpiresKey => f.(expires := ParseU64(value))
    case PathKey => f.(path := Some(value))
  }

  function ReadLine(f: Fields, line: string): Fields {
    var i := IndexOf(line, '=');
    if i == |line| then f
    else
      var key, value := Trim(line[..i]), Trim(line[i + 1..]);
      if key == KeyText(InstanceKey) then Assign(f, InstanceKey, value)
      else if key == KeyText(EpochKey) then Assign(f, EpochKey, value)
      else if key == KeyText(ExpiresKey) then Assign(f, ExpiresKey, value)
      else if key == KeyText(PathKey) then Assign(f, PathKey, value)
      else f
  }

  function ReadLines(f: Fields, lines: seq<string>): Fields
    decreases |lines|
  {
    if lines == [] then f else ReadLines(ReadLine(f, lines[0]), lines[1..])
  }

  function Complete(f: Fields): Option<LockRecord> {
    if f.instance.None? || f.epoch.None? || f.expires.None? then None
    else Some(LockRecord(f.instance.value, f.epoch.value, f.expires.value,
                         if f.path.Some? then f.path.value else ""))
  }

  function Parse(body: string): Option<LockRecord> {
    Complete(ReadLines(NO_FIELDS, Lines(body)))
  }

  /** The reader as the loop over lines that it is. */
  method ParseLoop(body: string) returns (r: Option<LockRecord>)
    ensures r == Parse(body)
  {
    var lines := Lines(body);
    var f := NO_FIELDS;
    for k := 0 to |lines|
      invariant ReadLines(f, lines[k..]) == ReadLines(NO_FIELDS, lines)
    {
      assert lines[k..][1..] == lines[k + 1..];
      f := ReadLine(f, lines[k]);
    }
    assert lines[|lines|..] == [];
    r := Complete(f);
  }

  // ------------------------------------------------------------ properties ---

  /** Text that survives one line of the record: no newline, no blank ends. */
  predicate Clean(s: string) {
    '\n' !in s && Trim(s) == s
  }

  predicate Representable(r: LockRecord) {
    Clean(r.instance) && Clean(r.path) && r.epoch <= U64_MAX && r.expires <= U64_MAX
  }

  lemma TrimmedEnds(s: string)
    requires s == "" || (!IsSpace(s[0]) && !IsSpace(s[|s| - 1]))
    ensures Trim(s) == s
  {
  }

  lemma {:induction false} TrimStartFacts(s: string)
    ensures exists i :: 0 <= i <= |s| && TrimStart(s) == s[i..]
    ensures TrimStart(s) == "" || !IsSpace(TrimStart(s)[0])
  {
    if s != "" && IsSpace(s[0]) {
      TrimStartFacts(s[1..]);
      var i :| 0 <= i <= |s[1..]| && TrimStart(s[1..]) == s[1..][i..];
      assert s[1..][i..] == s[i + 1..];
    } else {
      assert s == s[0..];
    }
  }

  lemma {:induction false} TrimEndFacts(s: string)
    ensures TrimEnd(s) <= s
    ensures TrimEnd(s) == "" || !IsSpace(TrimEnd(s)[|TrimEnd(s)| - 1])
  {
    if s != "" && IsSpace(s[|s| - 1]) {
      TrimEndFacts(s[..|s| - 1]);
    }
  }

  lemma TrimIsClean(s: string)
    requires '\n' !in s
    ensures Clean(Trim(s))
  {
    TrimStartFacts(s);
    TrimEndFacts(TrimStart(s));
    TrimmedEnds(Trim(s));
  }

  lemma {:induction false} TrimmedHasNoEdgeSpace(s: string)
    requires Trim(s) == s
    ensures s == "" || (!IsSpace(s[0]) && !IsSpace(s[|s| - 1]))
  {
    TrimStartFacts(s);
    TrimEndFacts(TrimStart(s));
  }

  lemma {:induction false} DecimalValue(n: nat)
    ensures DigitsValue(Decimal(n)) == n
  {
    if 10 <= n {
      DecimalValue(n / 10);
      var d := Decimal(n);
      assert d[..|d| - 1] == Decimal(n / 10);
    }
  }

  lemma DecimalParses(n: nat)
    requires n <= U64_MAX
    ensures Trim(Decimal(n)) == Decimal(n) && '\n' !in Decimal(n) && ParseU64(Decimal(n)) == Some(n)
  {
    DecimalValue(n);
    TrimmedEnds(Decimal(n));
  }

  lemma {:induction false} IndexOfPrefix(a: string, c: char, b: string)
    requires c !in a
    ensures IndexOf(a + [c] + b, c) == |a|
  {
    if a != "" {
      IndexOfPrefix(a[1..], c, b);
      assert (a + [c] + b)[1..] == a[1..] + [c] + b;
    }
  }

  lemma LinesCons(line: string, rest: string)
    requires '\n' !in line
    requires line == "" || line[|line| - 1] != '\r'
    ensures Lines(line + "\n" + rest) == [line] + Lines(rest)
  {
    IndexOfPrefix(line, '\n', rest);
    var s := line + "\n" + rest;
    assert s[..|line|] == line && s[|line| + 1..] == rest;
  }

  lemma KeyTextPlain(k: Key)
    ensures '=' !in KeyText(k) && '\n' !in KeyText(k) && Trim(KeyText(k)) == KeyText(k)
    ensures forall j: Key :: KeyText(j) == KeyText(k) ==> j == k
  {
    TrimmedEnds(KeyText(k));
    assert KeyText(InstanceKey)[0] == 'i' && KeyText(PathKey)[0] == 'p';
    assert KeyText(EpochKey)[1] == 'p' && KeyText(ExpiresKey)[1] == 'x';
    assert KeyText(EpochKey)[0] == 'e' && KeyText(ExpiresKey)[0] == 'e';
  }

  lemma ReadOneField(f: Fields, k: Key, value: string)
    requires Clean(value)
    ensures ReadLine(f, KeyText(k) + "=" + value) == Assign(f, k, value)
  {
    KeyTextPlain(k);
    var key := KeyText(k);
    var line := key + "=" + value;
    IndexOfPrefix(key, '=', value);
    assert line[..|key|] == key && line[|key| + 1..] == value;
  }

  function AssignAll(f: Fields, kvs: seq<(Key, string)>): Fields
    decreases |kvs|
  {
    if kvs == [] then f else AssignAll(Assign(f, kvs[0].0, kvs[0].1), kvs[1..])
  }

  lemma {:induction false} ReadFolded(f: Fields, kvs: seq<(Key, string)>)
    requires forall i :: 0 <= i < |kvs| ==> Clean(kvs[i].1)
    ensures ReadLines(f, Lines(Fold(kvs))) == AssignAll(f, kvs)
    decreases |kvs|
  {
    if kvs != [] {
      var (k, value) := kvs[0];
      var line := KeyText(k) + "=" + value;
      KeyTextPlain(k);
      TrimmedHasNoEdgeSpace(value);
      LinesCons(line, Fold(kvs[1..]));
      ReadOneField(f, k, value);
      ReadFolded(Assign(f, k, value), kvs[1..]);
      assert ([line] + Lines(Fold(kvs[1..])))[1..] == Lines(Fold(kvs[1..]));
    }
  }

  lemma RecordFieldsAssign(r: LockRecord)
    requires Representable(r)
    ensures forall i :: 0 <= i < |RecordFields(r)| ==> Clean(RecordFields(r)[i].1)
    ensures Complete(AssignAll(NO_FIELDS, RecordFields(r))) == Some(r)
  {
    hide Decimal, ParseU64, Trim;
    DecimalParses(r.epoch);
    DecimalParses(r.expires);
    var kvs := RecordFields(r);
    var f1 := Assign(NO_FIELDS, InstanceKey, r.instance);
    var f2 := Assign(f1, EpochKey, Decimal(r.epoch));
    var f3 := Assign(f2, ExpiresKey, Decimal(r.expires));
    assert kvs[1..][1..][1..] == [kvs[3]] && kvs[1..][1..] == [kvs[2], kvs[3]] && kvs[1..] == [kvs[1], kvs[2], kvs[3]];
    var f4 := Assign(f3, PathKey, r.path);
    assert [kvs[3]][1..] == [];
    assert AssignAll(f3, [kvs[3]]) == f4;
    assert AssignAll(f2, kvs[1..][1..]) == AssignAll(f3, [kvs[3]]);
    assert AssignAll(f1, kvs[1..]) == AssignAll(f2, kvs[1..][1..]);
    assert AssignAll(NO_FIELDS, kvs) == AssignAll(f1, kvs[1..]);
  }

  // ---- whatever is read back is clean, so the round trip is exact ----

  predicate FieldsClean(f: Fields) {
    && (f.instance.Some? ==> Clean(f.instance.value))
    && (f.path.Some? ==> Clean(f.path.value))
    && (f.epoch.Some? ==> f.epoch.value <= U64_MAX)
    && (f.expires.Some? ==> f.expires.value <= U64_MAX)
  }

  lemma {:induction false} LinesHaveNoNewline(s: string)
    ensures forall l :: l in Lines(s) ==> '\n' !in l
  {
    var i := IndexOf(s, '\n');
    if i < |s| {
      LinesHaveNoNewline(s[i + 1..]);
      if 0 < i { assert s[..i - 1] == s[..i][..i - 1]; }
    } else {
      assert s[..i] == s;
    }
  }

  lemma {:induction false} ReadLinesClean(f: Fields, lines: seq<string>)
    requires FieldsClean(f) && forall l :: l in lines ==> '\n' !in l
    ensures FieldsClean(ReadLines(f, lines))
    decreases |lines|
  {
    if lines != [] {
      var line := lines[0];
      assert line in lines;
      var i := IndexOf(line, '=');
      if i < |line| { TrimIsClean(line[i + 1..]); }
      ReadLinesClean(ReadLine(f, line), lines[1..]);
    }
  }

  lemma ParseYieldsRepresentable(body: string)
    ensures Parse(body).Some? ==> Representable(Parse(body).value)
  {
    LinesHaveNoNewline(body);
    ReadLinesClean(NO_FIELDS, Lines(body));
    TrimmedEnds("");
  }

  /** A record survives the trip through the store exactly when its strings
      are newline-free and trimmed and its numbers fit 64 bits. */
  lemma RoundTrip(r: LockRecord)
    ensures Parse(Encode(r)) == Some(r) <==> Representable(r)
  {
    if Representable(r) {
      RecordFieldsAssign(r);
      ReadFolded(NO_FIELDS, RecordFields(r));
    } else {
      ParseYieldsRepresentable(Encode(r));
    }
  }
}
