/**
 Token usage from the transcripts on one machine: a scan that keeps one record
 per response however often and in whatever order it was logged, its totals per
 day and bucket, and the merge that keeps the fullest copy of every day.
 */
module ClaudeUsage {
  import opened Wrappers
  import opened Sums

  /** One response: its message and request identifiers, either of which a line may lack. */
  datatype Key = Key(messageID: Option<string>, requestID: Option<string>)

  datatype Usage = Usage(
    input: nat, output: nat, cacheRead: nat, fast: bool,
    write1h: nat, write5m: nat, cacheCreation: nat)

  /** A transcript line as the parser sees it; `Unreadable` is one that is not JSON. */
  datatype Line =
    | Unreadable
    | Line(key: Key, isAssistant: bool, inRepo: bool, isSidechain: bool, day: string, model: string, usage: Option<Usage>)

  /** A transcript file: whether its directory is the repository's, and whether it is a subagent's. */
  datatype File = File(wholeDir: bool, subagents: bool, lines: Option<seq<Line>>)

  datatype Rec = Rec(
    day: string, model: string, fast: bool, subagent: bool,
    input: nat, output: nat, cacheRead: nat, write5m: nat, write1h: nat)

  datatype Logged = Logged(key: Key, record: Rec)

  datatype Counter = Counter(
    requests: nat, input: nat, output: nat, cacheRead: nat, write5m: nat, write1h: nat, subagentRequests: nat)

  type Models = map<string, Counter>
  type Days = map<string, Models>

  // ---- The scan ----

  function RecordOf(file: File, line: Line): Option<Logged> {
    if line.Unreadable? || !line.isAssistant || (!file.wholeDir && !line.inRepo) then None
    else if line.usage.None? || line.model == "" || line.model[0] == '<' then None
    else
      var u := line.usage.value;
      var write5m := if u.write1h == 0 && u.write5m == 0 then u.cacheCreation else u.write5m;
      Some(Logged(line.key, Rec(line.day, line.model, u.fast, line.isSidechain || file.subagents,
                                u.input, u.output, u.cacheRead, write5m, u.write1h)))
  }

  function LinesLogged(file: File, lines: seq<Line>): seq<Logged> {
    if lines == [] then []
    else
      var before := LinesLogged(file, lines[..|lines| - 1]);
      var last := RecordOf(file, lines[|lines| - 1]);
      if last.Some? then before + [last.value] else before
  }

  function AllLogged(files: seq<File>): seq<Logged> {
    if files == [] then []
    else
      var file := files[|files| - 1];
      AllLogged(files[..|files| - 1]) + (if file.lines.Some? then LinesLogged(file, file.lines.value) else [])
  }

  function Keep(seen: map<Key, Rec>, entry: Logged): map<Key, Rec> {
    if entry.key !in seen || entry.record.output >= seen[entry.key].output then seen[entry.key := entry.record] else seen
  }

  function SeenOf(log: seq<Logged>): map<Key, Rec> {
    if log == [] then map[] else Keep(SeenOf(log[..|log| - 1]), log[|log| - 1])
  }

  lemma {:induction false} SeenConcat(a: seq<Logged>, x: Logged)
    ensures SeenOf(a + [x]) == Keep(SeenOf(a), x)
  {
    assert (a + [x])[..|a|] == a;
  }

  /** Reads one file's lines into what has been seen; `before` is what was logged so far. */
  method CollectLines(file: File, lines: seq<Line>, start: map<Key, Rec>, ghost before: seq<Logged>) returns (seen: map<Key, Rec>)
    requires start == SeenOf(before)
    ensures seen == SeenOf(before + LinesLogged(file, lines))
  {
    seen := start;
    assert before + [] == before;
    for j := 0 to |lines|
      invariant seen == SeenOf(before + LinesLogged(file, lines[..j]))
    {
      assert lines[..j + 1][..j] == lines[..j];
      var entry := RecordOf(file, lines[j]);
      if entry.None? {
        continue;
      }
      var x := entry.value;
      SeenConcat(before + LinesLogged(file, lines[..j]), x);
      assert before + (LinesLogged(file, lines[..j]) + [x]) == before + LinesLogged(file, lines[..j]) + [x];
      if x.key !in seen || x.record.output >= seen[x.key].output {
        seen := seen[x.key := x.record];
      }
    }
    assert lines[..|lines|] == lines;
  }

  method Collect(files: seq<File>) returns (seen: map<Key, Rec>)
    ensures seen == SeenOf(AllLogged(files)) && KeptFrom(files, seen)
  {
    seen := map[];
    for i := 0 to |files|
      invariant seen == SeenOf(AllLogged(files[..i]))
    {
      assert files[..i + 1][..i] == files[..i];
      if files[i].lines.None? {
        assert AllLogged(files[..i]) + [] == AllLogged(files[..i]);
        continue;
      }
      seen := CollectLines(files[i], files[i].lines.value, seen, AllLogged(files[..i]));
    }
    assert files[..|files|] == files;
    SeenIsKeptFrom(files);
  }

  // ---- What is kept of each response ----

  ghost function KeysIn(log: seq<Logged>): set<Key> {
    set x <- log :: x.key
  }

  /** Nothing logged for `x`'s response reports more output than `x` does. */
  ghost predicate IsMax(log: seq<Logged>, x: Logged) {
    x in log && forall y <- log :: y.key == x.key ==> y.record.output <= x.record.output
  }

  /** The scan keeps one record for every response key, one that reports that key's largest output. */
  lemma {:induction false} KeepsTheMaximum(log: seq<Logged>)
    ensures SeenOf(log).Keys == KeysIn(log)
    ensures forall k <- SeenOf(log) :: IsMax(log, Logged(k, SeenOf(log)[k]))
  {
    if log != [] {
      var init, last := log[..|log| - 1], log[|log| - 1];
      KeepsTheMaximum(init);
      assert log == init + [last];
      assert forall y <- log :: y in init || y == last;
    }
  }

  // ---- What the lines say ----

  /** A line that counts: a readable answer of the repository's, with usage, by a real model. */
  predicate Counts(file: File, line: Line) {
    && line.Line? && line.isAssistant && (file.wholeDir || line.inRepo)
    && line.usage.Some? && |line.model| > 0 && line.model[0] != '<'
  }

  /** The record is what the line reports; its five-minute writes are the undivided count when both divided ones are 0. */
  predicate Reports(file: File, line: Line, k: Key, r: Rec) {
    && Counts(file, line) && line.key == k
    && r.day == line.day && r.model == line.model && (r.subagent <==> line.isSidechain || file.subagents)
    && var u := line.usage.value;
       && r.fast == u.fast && r.input == u.input && r.output == u.output && r.cacheRead == u.cacheRead
       && r.write1h == u.write1h
       && r.write5m == (if u.write5m != 0 || u.write1h != 0 then u.write5m else u.cacheCreation)
  }

  /** Line `l` of file `f` can be read, and counts. */
  predicate CountsAt(files: seq<File>, f: nat, l: nat) {
    && f < |files| && files[f].lines.Some? && l < |files[f].lines.value|
    && Counts(files[f], files[f].lines.value[l])
  }

  ghost predicate ReportedIn(files: seq<File>, k: Key, r: Rec) {
    exists f: nat, l: nat :: CountsAt(files, f, l) && Reports(files[f], files[f].lines.value[l], k, r)
  }

  /** Every response of a line that counts is kept, with what one of its lines of largest output reports; and no other. */
  ghost predicate KeptFrom(files: seq<File>, seen: map<Key, Rec>) {
    && (forall f: nat, l: nat :: CountsAt(files, f, l) ==>
          var line := files[f].lines.value[l];
          line.key in seen && line.usage.value.output <= seen[line.key].output)
    && (forall k <- seen :: ReportedIn(files, k, seen[k]))
  }

  lemma RecordIsReported(file: File, line: Line, x: Logged)
    ensures RecordOf(file, line) == Some(x) <==> Reports(file, line, x.key, x.record)
  {
  }

  lemma {:induction false} LinesLoggedAre(file: File, lines: seq<Line>, x: Logged)
    ensures x in LinesLogged(file, lines) <==> exists l :: 0 <= l < |lines| && Reports(file, lines[l], x.key, x.record)
  {
    if lines != [] {
      LinesLoggedAre(file, lines[..|lines| - 1], x);
      RecordIsReported(file, lines[|lines| - 1], x);
    }
  }

  lemma {:induction false} AllLoggedAre(files: seq<File>, x: Logged)
    ensures x in AllLogged(files) <==> ReportedIn(files, x.key, x.record)
  {
    if files != [] {
      var n := |files| - 1;
      AllLoggedAre(files[..n], x);
      if ReportedIn(files[..n], x.key, x.record) {
        var f: nat, l: nat :| CountsAt(files[..n], f, l) && Reports(files[..n][f], files[..n][f].lines.value[l], x.key, x.record);
        assert CountsAt(files, f, l);
      }
      if files[n].lines.Some? {
        LinesLoggedAre(files[n], files[n].lines.value, x);
        if l :| 0 <= l < |files[n].lines.value| && Reports(files[n], files[n].lines.value[l], x.key, x.record) {
          assert CountsAt(files, n, l);
        }
      }
      if ReportedIn(files, x.key, x.record) {
        var f: nat, l: nat :| CountsAt(files, f, l) && Reports(files[f], files[f].lines.value[l], x.key, x.record);
        assert f < n ==> CountsAt(files[..n], f, l);
      }
    }
  }

  lemma SeenIsKeptFrom(files: seq<File>)
    ensures KeptFrom(files, SeenOf(AllLogged(files)))
  {
    var log := AllLogged(files);
    KeepsTheMaximum(log);
    forall f: nat, l: nat | CountsAt(files, f, l)
      ensures var line := files[f].lines.value[l];
              line.key in SeenOf(log) && line.usage.value.output <= SeenOf(log)[line.key].output
    {
      var x := RecordOf(files[f], files[f].lines.value[l]).value;
      RecordIsReported(files[f], files[f].lines.value[l], x);
      AllLoggedAre(files, x);
      assert IsMax(log, Logged(x.key, SeenOf(log)[x.key]));
    }
    forall k | k in SeenOf(log) ensures ReportedIn(files, k, SeenOf(log)[k]) {
      AllLoggedAre(files, Logged(k, SeenOf(log)[k]));
    }
  }

  // ---- Order ----

  ghost predicate SameLog(a: seq<Logged>, b: seq<Logged>) {
    multiset(a) == multiset(b)
  }

  lemma SameEntries(a: seq<Logged>, b: seq<Logged>)
    requires SameLog(a, b)
    ensures forall x :: x in a <==> x in b
  {
    forall x ensures x in a <==> x in b {
      assert x in a <==> x in multiset(a);
      assert x in b <==> x in multiset(b);
    }
  }

  /** In whatever order files and lines come, the same responses are kept, each with the same output. */
  lemma OrderKeepsOutputs(a: seq<Logged>, b: seq<Logged>)
    requires SameLog(a, b)
    ensures SeenOf(a).Keys == SeenOf(b).Keys
    ensures forall k <- SeenOf(a) :: SeenOf(a)[k].output == SeenOf(b)[k].output
  {
    SameEntries(a, b);
    KeepsTheMaximum(a);
    KeepsTheMaximum(b);
    forall k | k in SeenOf(a) ensures SeenOf(a)[k].output == SeenOf(b)[k].output {
      assert IsMax(a, Logged(k, SeenOf(a)[k]));
      assert IsMax(b, Logged(k, SeenOf(b)[k]));
    }
  }

  /** All records of a response that report its largest output are the same record. */
  ghost predicate MaximaAgree(log: seq<Logged>) {
    forall x, y :: IsMax(log, x) && IsMax(log, y) && x.key == y.key ==> x == y
  }

  lemma MoveLast(log: seq<Logged>, x: Logged) returns (moved: seq<Logged>)
    requires IsMax(log, x)
    ensures SameLog(log, moved) && x.key in SeenOf(moved) && SeenOf(moved)[x.key] == x.record
  {
    var i :| 0 <= i < |log| && log[i] == x;
    var rest := log[..i] + log[i + 1..];
    moved := rest + [x];
    assert log == log[..i] + [x] + log[i + 1..];
    SeenConcat(rest, x);
    KeepsTheMaximum(rest);
    if x.key in SeenOf(rest) {
      assert IsMax(rest, Logged(x.key, SeenOf(rest)[x.key]));
      assert Logged(x.key, SeenOf(rest)[x.key]) in log;
    }
  }

  lemma AgreeingMaximumIsKept(log: seq<Logged>, other: seq<Logged>, k: Key)
    requires MaximaAgree(log) && SameLog(log, other)
    requires k in SeenOf(log) && k in SeenOf(other)
    ensures SeenOf(other)[k] == SeenOf(log)[k]
  {
    SameEntries(log, other);
    KeepsTheMaximum(log);
    KeepsTheMaximum(other);
    assert IsMax(log, Logged(k, SeenOf(log)[k]));
    assert IsMax(other, Logged(k, SeenOf(other)[k]));
    assert IsMax(log, Logged(k, SeenOf(other)[k]));
  }

  lemma AgreeingMaximaAreKept(log: seq<Logged>, other: seq<Logged>)
    requires MaximaAgree(log) && SameLog(log, other)
    ensures SeenOf(other) == SeenOf(log)
  {
    OrderKeepsOutputs(log, other);
    forall k | k in SeenOf(log) ensures SeenOf(other)[k] == SeenOf(log)[k] {
      AgreeingMaximumIsKept(log, other, k);
    }
  }

  /** The whole of what is kept is independent of the order exactly when the largest records of each response agree. */
  lemma OrderFreeIffMaximaAgree(log: seq<Logged>)
    ensures (forall other :: SameLog(log, other) ==> SeenOf(other) == SeenOf(log)) <==> MaximaAgree(log)
  {
    if MaximaAgree(log) {
      forall other | SameLog(log, other) ensures SeenOf(other) == SeenOf(log) {
        AgreeingMaximaAreKept(log, other);
      }
    } else {
      var x, y :| IsMax(log, x) && IsMax(log, y) && x.key == y.key && x != y;
      var xs := MoveLast(log, x);
      var ys := MoveLast(log, y);
      assert SeenOf(xs) != SeenOf(ys);
    }
  }

  lemma {:induction false} DropFile(files: seq<File>, i: nat)
    requires i < |files|
    ensures multiset(AllLogged(files)) == multiset(AllLogged(files[..i] + files[i + 1..])) + multiset(AllLogged([files[i]]))
  {
    var last := |files| - 1;
    assert [files[i]][..0] == [] && files == files[..last] + [files[last]];
    if i == last {
      assert files[..i] + files[i + 1..] == files[..last];
    } else {
      DropFile(files[..last], i);
      var rest := files[..i] + files[i + 1..];
      assert rest[..|rest| - 1] == files[..last][..i] + files[..last][i + 1..];
      assert rest[|rest| - 1] == files[last];
    }
  }

  /** Files in another order log the same entries in another order. */
  lemma {:induction false} FilesInAnyOrder(files: seq<File>, other: seq<File>)
    requires multiset(files) == multiset(other)
    ensures SameLog(AllLogged(files), AllLogged(other))
    decreases |files|
  {
    if files == [] {
      assert |other| == |multiset(other)| == 0;
    } else {
      assert files[0] in multiset(other);
      var i :| 0 <= i < |other| && other[i] == files[0];
      var rest := other[..i] + other[i + 1..];
      assert other == other[..i] + [other[i]] + other[i + 1..];
      assert files == [files[0]] + files[1..];
      assert multiset(files) == multiset{files[0]} + multiset(files[1..]);
      assert multiset(other) == multiset(rest) + multiset{files[0]};
      assert multiset(rest) == multiset(files) - multiset{files[0]};
      FilesInAnyOrder(files[1..], rest);
      DropFile(files, 0);
      assert files[..0] + files[1..] == files[1..];
      DropFile(other, i);
    }
  }

  // ---- Totals per day and bucket ----

  function Bucket(r: Rec): string {
    var long := "claude-haiku-5-5" <= r.model && r.input + r.cacheRead + r.write5m + r.write1h > 100_000;
    r.model + (if long then "@long" else "") + (if r.fast then "@fast" else "")
  }

  const NO_USE := Counter(0, 0, 0, 0, 0, 0, 0)

  function AddTo(c: Counter, r: Rec): Counter {
    Counter(c.requests + 1, c.input + r.input, c.output + r.output, c.cacheRead + r.cacheRead,
            c.write5m + r.write5m, c.write1h + r.write1h, c.subagentRequests + (if r.subagent then 1 else 0))
  }

  function ModelsAt(days: Days, day: string): Models {
    if day in days then days[day] else map[]
  }

  function CounterAt(days: Days, day: string, bucket: string): Counter {
    if bucket in ModelsAt(days, day) then ModelsAt(days, day)[bucket] else NO_USE
  }

  function AddRecord(days: Days, r: Rec): Days {
    days[r.day := ModelsAt(days, r.day)[Bucket(r) := AddTo(CounterAt(days, r.day, Bucket(r)), r)]]
  }

  datatype Field = Requests | Input | Output | CacheRead | Write5m | Write1h | SubagentRequests

  function Value(f: Field, r: Rec): nat {
    match f
    case Requests => 1
    case Input => r.input
    case Output => r.output
    case CacheRead => r.cacheRead
    case Write5m => r.write5m
    case Write1h => r.write1h
    case SubagentRequests => if r.subagent then 1 else 0
  }

  function Get(f: Field, c: Counter): nat {
    match f
    case Requests => c.requests
    case Input => c.input
    case Output => c.output
    case CacheRead => c.cacheRead
    case Write5m => c.write5m
    case Write1h => c.write1h
    case SubagentRequests => c.subagentRequests
  }

  /** The values of the kept records of one day and bucket. */
  ghost function Shares(seen: map<Key, Rec>, day: string, bucket: string, f: Field): map<Key, int> {
    map k <- seen | seen[k].day == day && Bucket(seen[k]) == bucket :: Value(f, seen[k])
  }

  ghost predicate HasRecord(seen: map<Key, Rec>, day: string, bucket: string) {
    exists k <- seen :: seen[k].day == day && Bucket(seen[k]) == bucket
  }

  predicate Listed(days: Days, day: string, bucket: string) {
    day in days && bucket in days[day]
  }

  /** Every day and bucket that has a record, and no other, holds the sums over exactly its records. */
  ghost predicate Tallies(days: Days, seen: map<Key, Rec>) {
    && (forall day: string, bucket: string :: Listed(days, day, bucket) <==> HasRecord(seen, day, bucket))
    && (forall day <- days :: days[day] != map[])
    && (forall day: string, bucket: string, f: Field ::
          Get(f, CounterAt(days, day, bucket)) == Sum(Shares(seen, day, bucket, f)))
  }

  lemma RecordGrows(seen: map<Key, Rec>, k: Key, r: Rec, day: string, bucket: string)
    requires k !in seen
    ensures HasRecord(seen[k := r], day, bucket) <==> HasRecord(seen, day, bucket) || (r.day == day && Bucket(r) == bucket)
  {
    var grown := seen[k := r];
    assert k in grown && grown[k] == r;
    if HasRecord(seen, day, bucket) {
      var j :| j in seen && seen[j].day == day && Bucket(seen[j]) == bucket;
      assert j in grown && grown[j] == seen[j];
    }
  }

  lemma SharesGain(seen: map<Key, Rec>, k: Key, r: Rec, f: Field)
    requires k !in seen
    ensures Shares(seen[k := r], r.day, Bucket(r), f) == Shares(seen, r.day, Bucket(r), f)[k := Value(f, r)]
  {
  }

  lemma SharesStay(seen: map<Key, Rec>, k: Key, r: Rec, day: string, bucket: string, f: Field)
    requires k !in seen && !(r.day == day && Bucket(r) == bucket)
    ensures Shares(seen[k := r], day, bucket, f) == Shares(seen, day, bucket, f)
  {
  }

  lemma ShareGrows(seen: map<Key, Rec>, k: Key, r: Rec, day: string, bucket: string, f: Field)
    requires k !in seen
    ensures Sum(Shares(seen[k := r], day, bucket, f))
         == Sum(Shares(seen, day, bucket, f)) + (if r.day == day && Bucket(r) == bucket then Value(f, r) else 0)
  {
    if r.day == day && Bucket(r) == bucket {
      SharesGain(seen, k, r, f);
    } else {
      SharesStay(seen, k, r, day, bucket, f);
    }
    SumSet(Shares(seen, day, bucket, f), k, Value(f, r));
  }

  lemma AddRecordAt(days: Days, r: Rec, day: string, bucket: string, f: Field)
    ensures Listed(AddRecord(days, r), day, bucket) <==> Listed(days, day, bucket) || (r.day == day && Bucket(r) == bucket)
    ensures Get(f, CounterAt(AddRecord(days, r), day, bucket))
         == Get(f, CounterAt(days, day, bucket)) + (if r.day == day && Bucket(r) == bucket then Value(f, r) else 0)
  {
  }

  lemma TalliesGrow(days: Days, seen: map<Key, Rec>, k: Key, r: Rec)
    requires Tallies(days, seen) && k !in seen
    ensures Tallies(AddRecord(days, r), seen[k := r])
  {
    forall day: string, bucket: string
      ensures Listed(AddRecord(days, r), day, bucket) <==> HasRecord(seen[k := r], day, bucket)
    {
      RecordGrows(seen, k, r, day, bucket);
      AddRecordAt(days, r, day, bucket, Requests);
    }
    forall day: string, bucket: string, f: Field
      ensures Get(f, CounterAt(AddRecord(days, r), day, bucket)) == Sum(Shares(seen[k := r], day, bucket, f))
    {
      ShareGrows(seen, k, r, day, bucket, f);
      AddRecordAt(days, r, day, bucket, f);
    }
  }

  lemma TalliesNothing()
    ensures Tallies(map[], map[])
  {
    forall day: string, bucket: string, f: Field
      ensures Get(f, CounterAt(map[], day, bucket)) == Sum(Shares(map[], day, bucket, f))
    {
      SumZero(Shares(map[], day, bucket, f));
    }
  }

  lemma MoveOver<K, V>(seen: map<K, V>, done: map<K, V>, rest: map<K, V>, k: K)
    requires done.Keys !! rest.Keys && done + rest == seen && k in rest
    ensures done[k := rest[k]].Keys !! (rest - {k}).Keys && done[k := rest[k]] + (rest - {k}) == seen
  {
  }

  method Tally(seen: map<Key, Rec>) returns (days: Days)
    ensures Tallies(days, seen)
  {
    days := map[];
    var rest := seen;
    ghost var done: map<Key, Rec> := map[];
    TalliesNothing();
    while rest != map[]
      invariant Tallies(days, done)
      invariant done.Keys !! rest.Keys && done + rest == seen
      decreases |rest|
    {
      var k :| k in rest;
      TalliesGrow(days, done, k, rest[k]);
      MoveOver(seen, done, rest, k);
      days := AddRecord(days, rest[k]);
      done := done[k := rest[k]];
      rest := rest - {k};
    }
    assert done == seen;
  }

  /** The sum of one count over the kept records of a day and bucket. */
  ghost function SumOf(seen: map<Key, Rec>, day: string, bucket: string, count: Rec -> nat): int {
    Sum(map k <- seen | seen[k].day == day && Bucket(seen[k]) == bucket :: count(seen[k]))
  }

  lemma SharesAre(seen: map<Key, Rec>, day: string, bucket: string, f: Field, count: Rec -> nat)
    requires forall r :: count(r) == Value(f, r)
    ensures Sum(Shares(seen, day, bucket, f)) == SumOf(seen, day, bucket, count)
  {
    assert Shares(seen, day, bucket, f)
        == map k <- seen | seen[k].day == day && Bucket(seen[k]) == bucket :: count(seen[k]);
  }

  /** Column by column: each count of the table is the sum of that very count. */
  lemma ColumnsAre(days: Days, seen: map<Key, Rec>, day: string, bucket: string)
    requires Tallies(days, seen)
    ensures var c := CounterAt(days, day, bucket);
            && c.requests == SumOf(seen, day, bucket, (r: Rec) => 1)
            && c.input == SumOf(seen, day, bucket, (r: Rec) => r.input)
            && c.output == SumOf(seen, day, bucket, (r: Rec) => r.output)
            && c.cacheRead == SumOf(seen, day, bucket, (r: Rec) => r.cacheRead)
            && c.write5m == SumOf(seen, day, bucket, (r: Rec) => r.write5m)
            && c.write1h == SumOf(seen, day, bucket, (r: Rec) => r.write1h)
            && c.subagentRequests == SumOf(seen, day, bucket, (r: Rec) => if r.subagent then 1 else 0)
  {
    var c := CounterAt(days, day, bucket);
    SharesAre(seen, day, bucket, Requests, (r: Rec) => 1);
    SharesAre(seen, day, bucket, Input, (r: Rec) => r.input);
    SharesAre(seen, day, bucket, Output, (r: Rec) => r.output);
    SharesAre(seen, day, bucket, CacheRead, (r: Rec) => r.cacheRead);
    SharesAre(seen, day, bucket, Write5m, (r: Rec) => r.write5m);
    SharesAre(seen, day, bucket, Write1h, (r: Rec) => r.write1h);
    SharesAre(seen, day, bucket, SubagentRequests, (r: Rec) => if r.subagent then 1 else 0);
    assert forall f: Field :: Get(f, c) == Sum(Shares(seen, day, bucket, f));
    assert Get(Requests, c) == c.requests && Get(Input, c) == c.input && Get(Output, c) == c.output;
    assert Get(CacheRead, c) == c.cacheRead && Get(Write5m, c) == c.write5m && Get(Write1h, c) == c.write1h;
    assert Get(SubagentRequests, c) == c.subagentRequests;
  }

  /** A request priced as a long one: over 100 000 tokens read, by the one model that has such a price. */
  predicate IsLong(r: Rec) {
    && |r.model| >= 16 && r.model[..16] == "claude-haiku-5-5"
    && r.input + r.cacheRead + r.write5m + r.write1h > 100_000
  }

  predicate IsTail(x: string) {
    x == "" || x[0] == '@'
  }

  function UpToAt(s: string): string {
    if s == "" || s[0] == '@' then "" else [s[0]] + UpToAt(s[1..])
  }

  lemma {:induction false} UpToAtIs(a: string, x: string)
    requires '@' !in a && IsTail(x)
    ensures UpToAt(a + x) == a
  {
    if a == "" {
      assert a + x == x;
    } else {
      assert (a + x)[1..] == a[1..] + x && a[0] in a;
      UpToAtIs(a[1..], x);
    }
  }

  /** A bucket tells the model, whether it is long and whether it is fast, and nothing else. */
  lemma BucketTells(r: Rec, q: Rec)
    requires '@' !in r.model && '@' !in q.model
    ensures Bucket(r) == Bucket(q) <==> r.model == q.model && IsLong(r) == IsLong(q) && r.fast == q.fast
    ensures r.model <= Bucket(r) && (Bucket(r) == r.model <==> !IsLong(r) && !r.fast)
  {
    TailIs(r);
    TailIs(q);
    UpToAtIs(r.model, Tail(r));
    UpToAtIs(q.model, Tail(q));
    assert Tail(r) == Bucket(r)[|r.model|..] && Tail(q) == Bucket(q)[|q.model|..];
  }

  function Tail(r: Rec): string {
    if IsLong(r) then (if r.fast then "@long@fast" else "@long") else if r.fast then "@fast" else ""
  }

  lemma TailIs(r: Rec)
    ensures Bucket(r) == r.model + Tail(r) && IsTail(Tail(r))
  {
    assert "claude-haiku-5-5" <= r.model <==> |r.model| >= 16 && r.model[..16] == "claude-haiku-5-5";
    assert r.model + "@long" + "@fast" == r.model + ("@long" + "@fast");
    assert "@long" + "@fast" == "@long@fast";
    assert r.model + "" == r.model;
  }

  // ---- Grand totals ----

  ghost function DayFields(models: Models, f: Field): map<string, int> {
    map bucket <- models :: Get(f, models[bucket])
  }

  ghost function DayTotal(models: Models, f: Field): int {
    Sum(DayFields(models, f))
  }

  ghost function DayTotals(days: Days, f: Field): map<string, int> {
    map day <- days :: DayTotal(days[day], f)
  }

  ghost function GrandTotal(days: Days, f: Field): int {
    Sum(DayTotals(days, f))
  }

  ghost function Values(seen: map<Key, Rec>, f: Field): map<Key, int> {
    map k <- seen :: Value(f, seen[k])
  }

  /** Days built record by record, to compare with whatever tallies the same records. */
  ghost function DaysOf(seen: map<Key, Rec>): Days
    decreases |seen|
  {
    if seen == map[] then map[]
    else
      var k :| k in seen;
      AddRecord(DaysOf(seen - {k}), seen[k])
  }

  lemma {:induction false} DaysOfTallies(seen: map<Key, Rec>)
    ensures Tallies(DaysOf(seen), seen)
    decreases |seen|
  {
    if seen == map[] {
      TalliesNothing();
    } else {
      var k :| k in seen && DaysOf(seen) == AddRecord(DaysOf(seen - {k}), seen[k]);
      DaysOfTallies(seen - {k});
      TalliesGrow(DaysOf(seen - {k}), seen - {k}, k, seen[k]);
      assert (seen - {k})[k := seen[k]] == seen;
    }
  }

  lemma SameCounter(c: Counter, d: Counter)
    requires forall f: Field :: Get(f, c) == Get(f, d)
    ensures c == d
  {
    assert Get(Requests, c) == Get(Requests, d) && Get(Input, c) == Get(Input, d) && Get(Output, c) == Get(Output, d);
    assert Get(CacheRead, c) == Get(CacheRead, d) && Get(Write5m, c) == Get(Write5m, d);
    assert Get(Write1h, c) == Get(Write1h, d) && Get(SubagentRequests, c) == Get(SubagentRequests, d);
  }

  lemma SameDays(a: Days, b: Days)
    requires forall day: string, bucket: string :: Listed(a, day, bucket) <==> Listed(b, day, bucket)
    requires forall day: string, bucket: string :: Listed(a, day, bucket) ==> CounterAt(a, day, bucket) == CounterAt(b, day, bucket)
    requires (forall day <- a :: a[day] != map[]) && (forall day <- b :: b[day] != map[])
    ensures a == b
  {
    forall day: string ensures day in a <==> day in b {
      if day in a { var bucket :| bucket in a[day]; assert Listed(a, day, bucket); }
      if day in b { var bucket :| bucket in b[day]; assert Listed(b, day, bucket); }
    }
    forall day: string | day in a ensures a[day] == b[day] {
      forall bucket: string ensures bucket in a[day] <==> bucket in b[day] {
        assert Listed(a, day, bucket) <==> Listed(b, day, bucket);
      }
      forall bucket: string | bucket in a[day] ensures a[day][bucket] == b[day][bucket] {
        assert Listed(a, day, bucket);
      }
    }
  }

  /** The tally of a set of records is one value, whatever order they were added in. */
  lemma TallyIsUnique(a: Days, b: Days, seen: map<Key, Rec>)
    requires Tallies(a, seen) && Tallies(b, seen)
    ensures a == b
  {
    forall day: string, bucket: string ensures CounterAt(a, day, bucket) == CounterAt(b, day, bucket) {
      forall f: Field ensures Get(f, CounterAt(a, day, bucket)) == Get(f, CounterAt(b, day, bucket)) {
        assert Get(f, CounterAt(a, day, bucket)) == Sum(Shares(seen, day, bucket, f));
      }
      SameCounter(CounterAt(a, day, bucket), CounterAt(b, day, bucket));
    }
    forall day: string, bucket: string ensures Listed(a, day, bucket) <==> Listed(b, day, bucket) {
      assert Listed(a, day, bucket) <==> HasRecord(seen, day, bucket);
    }
    SameDays(a, b);
  }

  lemma NothingIsZero(f: Field)
    ensures DayTotal(map[], f) == 0 && Get(f, NO_USE) == 0
  {
    SumZero(DayFields(map[], f));
  }

  lemma DayTotalSet(models: Models, bucket: string, c: Counter, f: Field)
    ensures DayTotal(models[bucket := c], f)
         == DayTotal(models, f) + Get(f, c) - (if bucket in models then Get(f, models[bucket]) else 0)
  {
    var fields := DayFields(models, f);
    assert DayFields(models[bucket := c], f) == fields[bucket := Get(f, c)];
    SumSet(fields, bucket, Get(f, c));
  }

  lemma GrandTotalSet(days: Days, day: string, models: Models, f: Field)
    ensures GrandTotal(days[day := models], f) == GrandTotal(days, f) + DayTotal(models, f) - DayTotal(ModelsAt(days, day), f)
  {
    var totals := DayTotals(days, f);
    assert DayTotals(days[day := models], f) == totals[day := DayTotal(models, f)];
    SumSet(totals, day, DayTotal(models, f));
    NothingIsZero(f);
  }

  lemma AddToField(c: Counter, r: Rec, f: Field)
    ensures Get(f, AddTo(c, r)) == Get(f, c) + Value(f, r)
  {
  }

  lemma AddRecordTotal(days: Days, r: Rec, f: Field)
    ensures GrandTotal(AddRecord(days, r), f) == GrandTotal(days, f) + Value(f, r)
  {
    var c := CounterAt(days, r.day, Bucket(r));
    AddToField(c, r, f);
    NothingIsZero(f);
    DayTotalSet(ModelsAt(days, r.day), Bucket(r), AddTo(c, r), f);
    GrandTotalSet(days, r.day, ModelsAt(days, r.day)[Bucket(r) := AddTo(c, r)], f);
  }

  lemma ValuesLess(seen: map<Key, Rec>, k: Key, f: Field)
    requires k in seen
    ensures Sum(Values(seen, f)) == Value(f, seen[k]) + Sum(Values(seen - {k}, f))
  {
    SumLess(Values(seen, f), k);
    assert Values(seen, f) - {k} == Values(seen - {k}, f);
  }

  lemma {:induction false} DaysOfTotal(seen: map<Key, Rec>, f: Field)
    ensures GrandTotal(DaysOf(seen), f) == Sum(Values(seen, f))
    decreases |seen|
  {
    if seen == map[] {
      SumZero(DayTotals(map[], f));
      SumZero(Values(seen, f));
    } else {
      var k :| k in seen && DaysOf(seen) == AddRecord(DaysOf(seen - {k}), seen[k]);
      DaysOfTotal(seen - {k}, f);
      AddRecordTotal(DaysOf(seen - {k}), seen[k], f);
      ValuesLess(seen, k, f);
    }
  }

  /** Nothing is lost or counted twice between the records and the table: each column sums to the records' own total. */
  lemma TallyConserves(days: Days, seen: map<Key, Rec>, f: Field)
    requires Tallies(days, seen)
    ensures GrandTotal(days, f) == Sum(Values(seen, f))
  {
    DaysOfTallies(seen);
    TallyIsUnique(days, DaysOf(seen), seen);
    DaysOfTotal(seen, f);
  }

  /** The largest output any line reports for the response. */
  function MaxOutput(log: seq<Logged>, k: Key): nat {
    if log == [] then 0
    else
      var rest, last := MaxOutput(log[..|log| - 1], k), log[|log| - 1];
      if last.key == k && last.record.output > rest then last.record.output else rest
  }

  lemma {:induction false} MaxOutputIsKept(log: seq<Logged>, k: Key)
    ensures MaxOutput(log, k) == if k in SeenOf(log) then SeenOf(log)[k].output else 0
  {
    if log != [] {
      MaxOutputIsKept(log[..|log| - 1], k);
    }
  }

  lemma {:induction false} OnesCount(m: map<Key, int>)
    requires forall k <- m :: m[k] == 1
    ensures Sum(m) == |m|
    decreases |m|
  {
    if m != map[] {
      var k :| k in m;
      SumLess(m, k);
      OnesCount(m - {k});
    }
  }

  ghost function MaxOutputs(log: seq<Logged>): map<Key, int> {
    map k <- KeysIn(log) :: MaxOutput(log, k)
  }

  lemma CountOfRequests(seen: map<Key, Rec>)
    ensures Sum(Values(seen, Requests)) == |seen|
  {
    OnesCount(Values(seen, Requests));
    assert Values(seen, Requests).Keys == seen.Keys;
  }

  lemma OutputsAreMaxima(log: seq<Logged>)
    ensures Values(SeenOf(log), Output) == MaxOutputs(log)
  {
    KeepsTheMaximum(log);
    forall k | k in SeenOf(log) ensures MaxOutput(log, k) == SeenOf(log)[k].output { MaxOutputIsKept(log, k); }
  }

  /**
   What a scan returns, whatever order the files and lines come in: as many requests
   as there are distinct responses, and the sum of each response's largest output.
   */
  lemma ScanTotals(log: seq<Logged>, days: Days)
    requires Tallies(days, SeenOf(log))
    ensures GrandTotal(days, Requests) == |KeysIn(log)|
    ensures GrandTotal(days, Output) == Sum(MaxOutputs(log))
  {
    KeepsTheMaximum(log);
    TallyConserves(days, SeenOf(log), Requests);
    TallyConserves(days, SeenOf(log), Output);
    CountOfRequests(SeenOf(log));
    OutputsAreMaxima(log);
  }

  /** The table of what the lines report: one record a response, and totals that are those of the kept records. */
  ghost predicate TableOf(files: seq<File>, seen: map<Key, Rec>, days: Days) {
    && KeptFrom(files, seen) && Tallies(days, seen)
    && GrandTotal(days, Requests) == |seen|
    && (forall f: Field :: GrandTotal(days, f) == Sum(Values(seen, f)))
  }

  method Scan(files: seq<File>) returns (days: Days)
    ensures Tallies(days, SeenOf(AllLogged(files)))
    ensures GrandTotal(days, Requests) == |KeysIn(AllLogged(files))|
    ensures GrandTotal(days, Output) == Sum(MaxOutputs(AllLogged(files)))
    ensures exists seen :: TableOf(files, seen, days)
  {
    var seen := Collect(files);
    days := Tally(seen);
    ScanTotals(AllLogged(files), days);
    forall f: Field { TallyConserves(days, seen, f); }
    CountOfRequests(seen);
    assert TableOf(files, seen, days);
  }

  /** Every response of `a` is in `b`, with no less output. */
  predicate AtMost(a: map<Key, Rec>, b: map<Key, Rec>) {
    forall k <- a :: k in b && a[k].output <= b[k].output
  }

  lemma KeptAtMost(files: seq<File>, seen: map<Key, Rec>, other: map<Key, Rec>)
    requires KeptFrom(files, seen) && KeptFrom(files, other)
    ensures AtMost(seen, other)
  {
    forall k | k in seen ensures k in other && seen[k].output <= other[k].output {
      var f: nat, l: nat :| CountsAt(files, f, l) && Reports(files[f], files[f].lines.value[l], k, seen[k]);
    }
  }

  lemma SameOutputs(seen: map<Key, Rec>, other: map<Key, Rec>)
    requires AtMost(seen, other) && AtMost(other, seen)
    ensures seen.Keys == other.Keys && Values(seen, Output) == Values(other, Output)
  {
  }

  /** Two tables of the same lines, whatever order they were read in, have as many requests and the same output in all. */
  lemma TablesAgree(files: seq<File>, seen: map<Key, Rec>, days: Days, other: map<Key, Rec>, otherDays: Days)
    requires TableOf(files, seen, days) && TableOf(files, other, otherDays)
    ensures GrandTotal(days, Requests) == GrandTotal(otherDays, Requests)
    ensures GrandTotal(days, Output) == GrandTotal(otherDays, Output)
  {
    KeptAtMost(files, seen, other);
    KeptAtMost(files, other, seen);
    SameOutputs(seen, other);
    assert |seen| == |seen.Keys| && |other| == |other.Keys|;
    assert GrandTotal(days, Output) == Sum(Values(seen, Output)) && GrandTotal(otherDays, Output) == Sum(Values(other, Output));
  }

  lemma OrderKeepsMaxima(log: seq<Logged>, other: seq<Logged>)
    requires SameLog(log, other)
    ensures KeysIn(log) == KeysIn(other) && MaxOutputs(log) == MaxOutputs(other)
  {
    OrderKeepsOutputs(log, other);
    KeepsTheMaximum(log);
    KeepsTheMaximum(other);
    forall k | k in KeysIn(log) ensures MaxOutput(log, k) == MaxOutput(other, k) {
      MaxOutputIsKept(log, k);
      MaxOutputIsKept(other, k);
    }
  }

  /** Scanning the same files in another order gives the same request and output totals. */
  lemma ScanOrderKeepsTotals(files: seq<File>, other: seq<File>, days: Days, otherDays: Days)
    requires multiset(files) == multiset(other)
    requires Tallies(days, SeenOf(AllLogged(files))) && Tallies(otherDays, SeenOf(AllLogged(other)))
    ensures GrandTotal(days, Requests) == GrandTotal(otherDays, Requests)
    ensures GrandTotal(days, Output) == GrandTotal(otherDays, Output)
  {
    FilesInAnyOrder(files, other);
    OrderKeepsMaxima(AllLogged(files), AllLogged(other));
    ScanTotals(AllLogged(files), days);
    ScanTotals(AllLogged(other), otherDays);
  }
}
