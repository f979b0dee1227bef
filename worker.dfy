/** A worker process: takes month jobs off the work queue, streams each month's
    records from the search index, writes the CSV summary and the JSONL export
    files, and reports the final count on the results queue. The file system
    is a value; which directories and files it refuses is a parameter. */
module Worker {
  import opened Py
  import opened Serializer
  import opened OpenSearch

  /** A work-queue item: the month and the count the index reported for it. */
  datatype Job = Job(year: int, month: int, count: int)

  datatype Status = Expected | Final

  /** A results-queue item. */
  datatype Event = Event(year: int, month: int, count: int, status: Status)

  /** A line written to an output file. */
  datatype Line = CsvHeader | CsvRow(row: Record) | JsonLine(doc: Json)

  datatype Disk = Disk(dirs: set<string>, files: map<string, seq<Line>>)

  /** The directories the file system cannot create and the files it cannot open. */
  datatype Faults = Faults(noMkdir: set<string>, noOpen: set<string>)

  /** How one job ends: its final count, `FatalWorkerError`, or an exception the
      worker does not catch. */
  datatype JobEnd = Completed(count: nat) | Fatal | Crashed(error: PyError)

  /** The lines written so far to the open CSV and JSONL files. */
  datatype Written = Written(csv: seq<Line>, json: seq<Line>)

  /** Where the record loop stopped: what it wrote and the exception, if any. */
  datatype Progress = Progress(written: Written, error: Option<PyError>)

  function OutputDir(root: string, year: int, month: int): string {
    root + "/dois/updated_" + IntToString(year) + "-" + PadInt(month, 2)
  }

  function JsonPath(root: string, year: int, month: int, index: int): string {
    OutputDir(root, year, month) + "/part_" + PadInt(index, 4) + ".jsonl.gz"
  }

  function CsvPath(root: string, year: int, month: int): string {
    OutputDir(root, year, month) + "/" + IntToString(year) + "-" + PadInt(month, 2) + ".csv.gz"
  }

  /** A month's output directory, its first JSONL part and its CSV file. */
  datatype Paths = Paths(dir: string, json: string, csv: string)

  function MonthPaths(root: string, year: int, month: int): (p: Paths)
    ensures p.json != p.csv
  {
    var p := Paths(OutputDir(root, year, month), JsonPath(root, year, month, 0), CsvPath(root, year, month));
    PathsDistinct(root, year, month, 0);
    p
  }

  /** The JSONL and CSV files of a month are different files. */
  lemma PathsDistinct(root: string, year: int, month: int, index: int)
    ensures JsonPath(root, year, month, index) != CsvPath(root, year, month)
  {
    NamesDiffer(OutputDir(root, year, month), PadInt(index, 4), IntToString(year), PadInt(month, 2));
  }

  /** After the directory, a part file's name starts `part_`, a CSV file's with
      the year. */
  lemma NamesDiffer(dir: string, part: string, year: string, month: string)
    requires |year| >= 1 && year[0] != 'p'
    ensures dir + "/part_" + part + ".jsonl.gz" != dir + "/" + year + "-" + month + ".csv.gz"
  {
    assert (dir + "/part_" + part + ".jsonl.gz")[|dir| + 1] == 'p';
    assert (dir + "/" + year + "-" + month + ".csv.gz")[|dir| + 1] == year[0];
  }

  /** `result.aasm_state == "findable"`. */
  predicate Findable(h: Hit) {
    "aasm_state" in h.source && h.source["aasm_state"] == JStr("findable")
  }

  /** What the serializers make of one record: its CSV row, whether it is
      findable, and its document (only computed, and only relevant, when it is). */
  datatype Serialized = Serialized(row: Result<Record>, findable: bool, doc: Result<Json>)

  function SerializeHit(h: Hit, camel: string -> string): (o: Serialized)
    requires IsKeyRenaming(camel)
    ensures o.row == CsvSerialize(h.source)
    ensures o.findable == Findable(h)
    ensures o.findable ==> o.doc == JsonSerialize(h.source, camel)
  {
    Serialized(CsvSerialize(h.source), Findable(h),
               if Findable(h) then JsonSerialize(h.source, camel) else Ok(JNull))
  }

  function SerializeAll(hits: seq<Hit>, camel: string -> string): (outs: seq<Serialized>)
    requires IsKeyRenaming(camel)
    ensures |outs| == |hits| && forall i :: 0 <= i < |hits| ==> outs[i] == SerializeHit(hits[i], camel)
  {
    seq(|hits|, i requires 0 <= i < |hits| => SerializeHit(hits[i], camel))
  }

  /** A record the loop cannot get through: its CSV row or its document raises. */
  predicate Fails(o: Serialized) {
    o.row.Err? || (o.findable && o.doc.Err?)
  }

  /** The JSON line a record adds: its document when it is findable. */
  function DocLine(o: Serialized): (l: seq<Line>)
    requires !Fails(o)
    ensures o.findable ==> l == [JsonLine(o.doc.value)]
    ensures !o.findable ==> l == []
  {
    if o.findable then [JsonLine(o.doc.value)] else []
  }

  /** The body of `for result in results`, for the record that brings the
      count to `n`: a CSV row, a JSON line if findable, and, every 10000
      records, the rotation that closes and reopens the JSONL file. */
  function FeedOne(o: Serialized, n: nat, w: Written): Progress {
    if o.row.Err? then Progress(w, Some(o.row.error))
    else
      var csv := w.csv + [CsvRow(o.row.value)];
      if o.findable && o.doc.Err? then Progress(Written(csv, w.json), Some(o.doc.error))
      else
        var json := w.json + DocLine(o);
        Progress(Written(csv, if n % 10000 == 0 then [] else json), None)
  }

  /** The record loop from `done` records on: stops at the first exception. */
  function Feed(outs: seq<Serialized>, done: nat, w: Written): Progress
    decreases |outs|
  {
    if outs == [] then Progress(w, None)
    else
      var p := FeedOne(outs[0], done + 1, w);
      if p.error.Some? then p else Feed(outs[1..], done + 1, p.written)
  }

  /** The JSON lines of the findable records among `outs`, in order. */
  function Docs(outs: seq<Serialized>): seq<Line>
    requires NoneFails(outs)
  {
    if outs == [] then [] else DocLine(outs[0]) + Docs(outs[1..])
  }

  /** The CSV rows of `outs`, in order. */
  function Rows(outs: seq<Serialized>): (rows: seq<Line>)
    requires NoneFails(outs)
    ensures |rows| == |outs| && forall i :: 0 <= i < |outs| ==> rows[i] == CsvRow(outs[i].row.value)
  {
    if outs == [] then [] else [CsvRow(outs[0].row.value)] + Rows(outs[1..])
  }

  /** Where the first record that fails is in `outs`, or `|outs|` when none does. */
  function FirstFail(outs: seq<Serialized>): (i: nat)
    ensures i <= |outs|
    ensures i < |outs| ==> Fails(outs[i])
    ensures forall j :: 0 <= j < i ==> !Fails(outs[j])
    decreases |outs|
  {
    if outs == [] || Fails(outs[0]) then 0
    else
      var i := 1 + FirstFail(outs[1..]);
      assert forall j :: 1 <= j < i ==> outs[j] == outs[1..][j - 1];
      i
  }

  /** The exception a failing record raises: its CSV row's, else its document's. */
  function ErrorOf(o: Serialized): PyError
    requires Fails(o)
  {
    if o.row.Err? then o.row.error else o.doc.error
  }

  /** The loop raises exactly when some record fails, and then with the first
      such record's exception. */
  lemma {:induction false} FeedFails(outs: seq<Serialized>, done: nat, w: Written)
    ensures Feed(outs, done, w).error.Some? <==> FirstFail(outs) < |outs|
    ensures Feed(outs, done, w).error.Some? ==> Feed(outs, done, w).error.value == ErrorOf(outs[FirstFail(outs)])
    decreases |outs|
  {
    if outs != [] && !Fails(outs[0]) {
      var p := FeedOne(outs[0], done + 1, w);
      FeedFails(outs[1..], done + 1, p.written);
      if FirstFail(outs) < |outs| {
        assert outs[FirstFail(outs)] == outs[1..][FirstFail(outs[1..])];
      }
    }
  }

  /** A loop that ends without an exception met no failing record. */
  lemma FeedNoError(outs: seq<Serialized>, done: nat, w: Written)
    requires Feed(outs, done, w).error.None?
    ensures NoneFails(outs)
  {
    FeedFails(outs, done, w);
  }

  /** The record that brings the count to `done + j` triggers a rotation. */
  predicate Rotates(done: nat, j: nat) {
    (done + j) % 10000 == 0
  }

  /** How many of the `n` records after `done` come up to and including the
      last rotation among them (0 when none of them triggers one). */
  function LastRotation(done: nat, n: nat): (k: nat)
    ensures k <= n
    ensures k > 0 ==> Rotates(done, k)
    ensures forall j: nat :: k < j <= n ==> !Rotates(done, j)
  {
    var last := (done + n) / 10000 * 10000;
    if last > done then last - done else 0
  }

  /** `LastRotation` one record at a time. */
  lemma LastRotationStep(done: nat, n: nat)
    requires n > 0
    ensures LastRotation(done + 1, n - 1) > 0 ==> LastRotation(done, n) == LastRotation(done + 1, n - 1) + 1
    ensures LastRotation(done + 1, n - 1) == 0 && (done + 1) % 10000 == 0 ==> LastRotation(done, n) == 1
    ensures LastRotation(done + 1, n - 1) == 0 && (done + 1) % 10000 != 0 ==> LastRotation(done, n) == 0
  {
    var last := (done + n) / 10000 * 10000;
    assert last <= done + n < last + 10000;
    assert last % 10000 == 0;
  }

  /** The loop from record `i` on: the record's own step, then the rest. */
  lemma FeedStep(outs: seq<Serialized>, i: nat, w: Written)
    requires i < |outs|
    ensures var p := FeedOne(outs[i], i + 1, w);
      Feed(outs[i..], i, w) == if p.error.Some? then p else Feed(outs[i + 1..], i + 1, p.written)
  {
    assert outs[i..][0] == outs[i] && outs[i..][1..] == outs[i + 1..];
  }

  /** No record fails. */
  predicate NoneFails(outs: seq<Serialized>) {
    forall i :: 0 <= i < |outs| ==> !Fails(outs[i])
  }

  /** Without a failing record, the loop runs to the end and every record gets
      its CSV row, in order. */
  lemma {:induction false} FeedRows(outs: seq<Serialized>, done: nat, w: Written)
    requires NoneFails(outs)
    ensures Feed(outs, done, w).error.None?
    ensures Feed(outs, done, w).written.csv == w.csv + Rows(outs)
    decreases |outs|
  {
    if outs != [] {
      var rest := outs[1..];
      var p := FeedOne(outs[0], done + 1, w);
      assert !Fails(outs[0]);
      assert NoneFails(rest) by {
        forall i | 0 <= i < |rest| ensures !Fails(rest[i]) {
          assert rest[i] == outs[i + 1];
        }
      }
      FeedRows(rest, done + 1, p.written);
      AppendAssoc(w.csv, [CsvRow(outs[0].row.value)], Rows(rest));
    }
  }

  /** Without a failing record, the JSONL file ends up with the findable records
      after the last rotation, or with what it held plus all of them when no
      rotation happens. */
  lemma {:induction false} FeedJson(outs: seq<Serialized>, done: nat, w: Written)
    requires NoneFails(outs)
    ensures var cut := LastRotation(done, |outs|);
      Feed(outs, done, w).written.json == (if cut == 0 then w.json + Docs(outs) else Docs(outs[cut..]))
    decreases |outs|
  {
    if outs != [] {
      var rest := outs[1..];
      assert NoneFails(rest) by {
        forall i | 0 <= i < |rest| ensures !Fails(rest[i]) {
          assert rest[i] == outs[i + 1];
        }
      }
      var p := FeedOne(outs[0], done + 1, w);
      FeedJson(rest, done + 1, p.written);
      LastRotationStep(done, |outs|);
      JsonStep(outs, done, w, Feed(rest, done + 1, p.written).written.json,
               LastRotation(done, |outs|), LastRotation(done + 1, |rest|));
    }
  }

  /** The inductive step of `FeedJson`, given what the rest of the loop writes
      (`json`) and where the last rotation falls in `outs` (`cut`) and in its
      tail (`cut'`). */
  lemma JsonStep(outs: seq<Serialized>, done: nat, w: Written, json: seq<Line>, cut: nat, cut': nat)
    requires NoneFails(outs) && outs != [] && cut <= |outs| && cut' < |outs|
    requires var p := FeedOne(outs[0], done + 1, w);
      json == (if cut' == 0 then p.written.json + Docs(outs[1..]) else Docs(outs[1..][cut'..]))
    requires cut' > 0 ==> cut == cut' + 1
    requires cut' == 0 && (done + 1) % 10000 == 0 ==> cut == 1
    requires cut' == 0 && (done + 1) % 10000 != 0 ==> cut == 0
    ensures json == (if cut == 0 then w.json + Docs(outs) else Docs(outs[cut..]))
  {
    if cut' > 0 {
      LaterRotation(outs, cut');
    } else if (done + 1) % 10000 == 0 {
      assert outs[1..][0..] == outs[1..];
    } else {
      NoRotation(outs, done, w);
    }
  }

  lemma LaterRotation(outs: seq<Serialized>, cut': nat)
    requires NoneFails(outs) && 0 < cut' < |outs|
    ensures Docs(outs[1..][cut'..]) == Docs(outs[cut' + 1..])
  {
    assert outs[1..][cut'..] == outs[cut' + 1..];
  }

  lemma NoRotation(outs: seq<Serialized>, done: nat, w: Written)
    requires NoneFails(outs) && outs != [] && (done + 1) % 10000 != 0
    ensures FeedOne(outs[0], done + 1, w).written.json + Docs(outs[1..]) == w.json + Docs(outs)
  {
    AppendAssoc(w.json, DocLine(outs[0]), Docs(outs[1..]));
  }

  // ---------------------------------------------------------------------------
  // One job

  /** The outcome of one job for `month`, whose files are at `paths`, in the
      code's order: the output directory, the query (an invalid month raises
      `ValueError`, which the worker does not catch), the two output files,
      then the record loop over what the serializers make of the streamed
      records (`outs`). Any exception while streaming or writing, including
      the stream's `TooManyFailures`, becomes `FatalWorkerError`. */
  function JobOn(paths: Paths, month: int, outs: seq<Serialized>, outcome: Outcome, disk: Disk,
                 faults: Faults): (Disk, JobEnd)
  {
    if paths.dir !in disk.dirs && paths.dir in faults.noMkdir then (disk, Fatal)
    else
      var d1 := disk.(dirs := disk.dirs + {paths.dir});
      if !(1 <= month <= 12) then (d1, Crashed(ValueError))
      else if paths.json in faults.noOpen then (d1, Fatal)
      else
        var d2 := d1.(files := d1.files[paths.json := []]);
        if paths.csv in faults.noOpen then (d2, Fatal)
        else
          var p := Feed(outs, 0, Written([CsvHeader], []));
          var d3 := d2.(files := d2.files[paths.json := p.written.json][paths.csv := p.written.csv]);
          if p.error.Some? || outcome != Exhausted then (d3, Fatal)
          else (d3, Completed(|outs|))
  }

  /** One job whose query the index answers with `script`. */
  function JobSpec(root: string, job: Job, script: seq<Response>, disk: Disk, faults: Faults,
                   camel: string -> string): (Disk, JobEnd)
    requires IsKeyRenaming(camel)
  {
    var s := Run(script, None, 0, 0);
    JobOn(MonthPaths(root, job.year, job.month), job.month, SerializeAll(s.hits, camel), s.outcome, disk, faults)
  }

  /** One pass of the `while True` body of `month_worker` for a job. The
      search client is a fresh object; the file system is the value `disk`. */
  method RunJob(root: string, job: Job, script: seq<Response>, disk: Disk, faults: Faults,
                camel: string -> string) returns (after: Disk, end: JobEnd)
    requires IsKeyRenaming(camel)
    ensures (after, end) == JobSpec(root, job, script, disk, faults, camel)
  {
    var paths := MonthPaths(root, job.year, job.month);
    after := disk;
    if paths.dir !in after.dirs {
      if paths.dir in faults.noMkdir {
        return after, Fatal;
      }
      after := after.(dirs := after.dirs + {paths.dir});
    }
    assert after == disk.(dirs := disk.dirs + {paths.dir});

    var client := new OpenSearchClient();
    client.BuildQuery();
    client.FilterFields();
    var err := client.AddMonthFilter(job.year, job.month);
    if err.Some? {
      return after, Crashed(err.value);
    }

    if paths.json in faults.noOpen {
      return after, Fatal;
    }
    after := after.(files := after.files[paths.json := []]);
    if paths.csv in faults.noOpen {
      return after, Fatal;
    }

    var stream := client.ReturnAllResults(script);
    var csv, json, failure, _ := WriteRecords(stream.hits, camel);
    after := after.(files := after.files[paths.json := json][paths.csv := csv]);
    if failure.Some? || stream.outcome != Exhausted {
      return after, Fatal;
    }
    end := Completed(|stream.hits|);
  }

  /** The `for result in results` loop of a job: the CSV row of every record,
      the JSON line of every findable one, and a rotation of the JSONL file
      every 10000 records; it stops at the first exception. The lines each
      file holds at the end, and the exception, are what `Feed` says. */
  method WriteRecords(hits: seq<Hit>, camel: string -> string)
    returns (csv: seq<Line>, json: seq<Line>, failure: Option<PyError>, fileIndex: nat)
    requires IsKeyRenaming(camel)
    ensures Progress(Written(csv, json), failure) == Feed(SerializeAll(hits, camel), 0, Written([CsvHeader], []))
    ensures failure.None? ==> fileIndex == |hits| / 10000
  {
    ghost var outs := SerializeAll(hits, camel);
    var resultsCount := 0;
    fileIndex := 0;
    csv, json := [CsvHeader], [];
    var i := 0;
    while i < |hits|
      invariant 0 <= i <= |hits| && resultsCount == i
      invariant fileIndex == i / 10000
      invariant Feed(outs, 0, Written([CsvHeader], [])) == Feed(outs[i..], i, Written(csv, json))
    {
      FeedStep(outs, i, Written(csv, json));
      ghost var step := FeedOne(outs[i], i + 1, Written(csv, json));
      var hit := hits[i];
      resultsCount := resultsCount + 1;
      var row := CsvSerialize(hit.source);
      if row.Err? {
        return csv, json, Some(row.error), fileIndex;
      }
      csv := csv + [CsvRow(row.value)];
      if Findable(hit) {
        var doc := JsonSerialize(hit.source, camel);
        if doc.Err? {
          return csv, json, Some(doc.error), fileIndex;
        }
        json := json + [JsonLine(doc.value)];
      }
      if resultsCount % 10000 == 0 {
        // The next part's index is computed, but the same path is reopened.
        fileIndex := fileIndex + 1;
        json := [];
      }
      assert step == Progress(Written(csv, json), None);
      i := i + 1;
    }
    failure := None;
  }

  /** The CSV file of a month whose records all serialize: the header, then
      one row per record. */
  function CsvFile(outs: seq<Serialized>): seq<Line>
    requires NoneFails(outs)
  {
    [CsvHeader] + Rows(outs)
  }

  /** The JSONL file of such a month: the documents of the findable records
      after the last rotation. */
  function JsonFile(outs: seq<Serialized>): seq<Line>
    requires NoneFails(outs)
  {
    Docs(outs[LastRotation(0, |outs|)..])
  }

  /** A completed job reports the number of records streamed; it leaves its
      output directory in place and changes no file but its own two: the CSV
      file holds the header and one row per record, in order; the JSONL file
      holds only the findable records after the last multiple of 10000,
      because each rotation reopens (and so truncates) the same `part_0000`
      path. */
  lemma JobCompleted(paths: Paths, month: int, outs: seq<Serialized>, outcome: Outcome, disk: Disk,
                     faults: Faults)
    requires paths.json != paths.csv
    requires JobOn(paths, month, outs, outcome, disk, faults).1.Completed?
    ensures var (after, end) := JobOn(paths, month, outs, outcome, disk, faults);
      && end.count == |outs|
      && outcome == Exhausted
      && NoneFails(outs)
      && after.dirs == disk.dirs + {paths.dir}
      && after.files == disk.files[paths.json := JsonFile(outs)][paths.csv := CsvFile(outs)]
  {
    FeedNoError(outs, 0, Written([CsvHeader], []));
    FeedRows(outs, 0, Written([CsvHeader], []));
    FeedJson(outs, 0, Written([CsvHeader], []));
    assert outs[0..] == outs;
    var p := Feed(outs, 0, Written([CsvHeader], []));
    assert p.written.csv == CsvFile(outs);
    assert p.written.json == JsonFile(outs);
    OverwriteTwice(disk.files, paths.json, paths.csv, [], p.written.json, p.written.csv);
  }

  lemma OverwriteTwice<K, V>(m: map<K, V>, a: K, b: K, x: V, y: V, z: V)
    ensures m[a := x][a := y][b := z] == m[a := y][b := z]
  {
  }

  /** Once its files are open, a job fails with `FatalWorkerError` exactly when
      the stream gives up or some record cannot be serialized. */
  lemma JobFatal(paths: Paths, month: int, outs: seq<Serialized>, outcome: Outcome, disk: Disk,
                 faults: Faults)
    requires 1 <= month <= 12
    requires paths.dir !in faults.noMkdir && paths.json !in faults.noOpen && paths.csv !in faults.noOpen
    ensures JobOn(paths, month, outs, outcome, disk, faults).1 == Fatal <==>
      (outcome != Exhausted || exists i :: 0 <= i < |outs| && Fails(outs[i]))
  {
    FeedFails(outs, 0, Written([CsvHeader], []));
  }

  // ---------------------------------------------------------------------------
  // The worker loop

  /** How `month_worker` ends: the `None` sentinel, `FatalWorkerError`, an
      exception it does not catch, or waiting forever on an empty queue. */
  datatype WorkerExit = Stopped | FatalWorkerError | Uncaught(error: PyError) | Waiting

  /** The queue items a worker takes, the results it reports, and the file system after. */
  datatype WorkerRun = WorkerRun(taken: nat, events: seq<Event>, exit: WorkerExit, disk: Disk)

  /** `month_worker` on the queue items it takes in turn. `backend` gives the
      index's responses to a job's query. */
  function Work(root: string, queue: seq<Option<Job>>, backend: Job -> seq<Response>, disk: Disk,
                faults: Faults, camel: string -> string): (r: WorkerRun)
    requires IsKeyRenaming(camel)
    ensures r.taken <= |queue|
    decreases |queue|
  {
    if queue == [] then WorkerRun(0, [], Waiting, disk)
    else if queue[0].None? then WorkerRun(1, [], Stopped, disk)
    else
      var job := queue[0].value;
      var (after, end) := JobSpec(root, job, backend(job), disk, faults, camel);
      match end
      case Completed(n) =>
        var r := Work(root, queue[1..], backend, after, faults, camel);
        r.(taken := r.taken + 1, events := [Event(job.year, job.month, n, Final)] + r.events)
      case Fatal => WorkerRun(1, [], FatalWorkerError, after)
      case Crashed(e) => WorkerRun(1, [], Uncaught(e), after)
  }

  method MonthWorker(root: string, queue: seq<Option<Job>>, backend: Job -> seq<Response>, disk: Disk,
                     faults: Faults, camel: string -> string) returns (r: WorkerRun)
    requires IsKeyRenaming(camel)
    ensures r == Work(root, queue, backend, disk, faults, camel)
  {
    var taken := 0;
    var events: seq<Event> := [];
    var current := disk;
    while true
      invariant 0 <= taken <= |queue|
      invariant Work(root, queue, backend, disk, faults, camel)
             == Then(taken, events, Work(root, queue[taken..], backend, current, faults, camel))
      decreases |queue| - taken
    {
      if taken == |queue| {
        return WorkerRun(taken, events, Waiting, current);
      }
      WorkStep(root, queue, taken, backend, current, faults, camel);
      var job := queue[taken];
      taken := taken + 1;
      if job.None? {
        return WorkerRun(taken, events, Stopped, current);
      }
      var after, end := RunJob(root, job.value, backend(job.value), current, faults, camel);
      current := after;
      match end {
        case Completed(n) =>
          ThenThen(taken - 1, events, [Event(job.value.year, job.value.month, n, Final)],
                   Work(root, queue[taken..], backend, current, faults, camel));
          events := events + [Event(job.value.year, job.value.month, n, Final)];
        case Fatal =>
          return WorkerRun(taken, events, FatalWorkerError, current);
        case Crashed(e) =>
          return WorkerRun(taken, events, Uncaught(e), current);
      }
    }
  }

  /** A worker run that first took `taken` items and reported `events`. */
  function Then(taken: nat, events: seq<Event>, r: WorkerRun): WorkerRun {
    r.(taken := taken + r.taken, events := events + r.events)
  }

  lemma ThenThen(taken: nat, events: seq<Event>, more: seq<Event>, r: WorkerRun)
    ensures Then(taken, events, Then(1, more, r)) == Then(taken + 1, events + more, r)
  {
    AppendAssoc(events, more, r.events);
  }

  /** `Work` from the queue item at `i`: that item, then the rest. */
  lemma WorkStep(root: string, queue: seq<Option<Job>>, i: nat, backend: Job -> seq<Response>, disk: Disk,
                 faults: Faults, camel: string -> string)
    requires IsKeyRenaming(camel) && i < |queue|
    ensures queue[i].None? ==> Work(root, queue[i..], backend, disk, faults, camel) == WorkerRun(1, [], Stopped, disk)
    ensures queue[i].Some? ==>
      var job := queue[i].value;
      var (after, end) := JobSpec(root, job, backend(job), disk, faults, camel);
      Work(root, queue[i..], backend, disk, faults, camel) ==
        match end
        case Completed(n) =>
          Then(1, [Event(job.year, job.month, n, Final)], Work(root, queue[i + 1..], backend, after, faults, camel))
        case Fatal => WorkerRun(1, [], FatalWorkerError, after)
        case Crashed(e) => WorkerRun(1, [], Uncaught(e), after)
  {
    assert queue[i..][0] == queue[i] && queue[i..][1..] == queue[i + 1..];
  }

  /** The worker reports one final event per job it completed, in queue order,
      each with the count its stream yielded, and it takes no item after the
      sentinel. */
  lemma {:induction false} WorkerReports(root: string, queue: seq<Option<Job>>, backend: Job -> seq<Response>,
                                         disk: Disk, faults: Faults, camel: string -> string)
    requires IsKeyRenaming(camel)
    ensures Reports(queue, backend, Work(root, queue, backend, disk, faults, camel))
    decreases |queue|
  {
    if queue != [] && queue[0].Some? {
      var job := queue[0].value;
      var (after, end) := JobSpec(root, job, backend(job), disk, faults, camel);
      if end.Completed? {
        WorkerReports(root, queue[1..], backend, after, faults, camel);
        JobCount(root, job, backend(job), disk, faults, camel);
        ReportsCons(queue, backend, Work(root, queue[1..], backend, after, faults, camel), end.count);
      }
    }
  }

  /** What `WorkerReports` states of a run `r` of the worker over `queue`: how
      many items it took for each way of ending, and one final event per
      completed job, in queue order, with the count its stream yielded. */
  predicate Reports(queue: seq<Option<Job>>, backend: Job -> seq<Response>, r: WorkerRun) {
    && r.taken <= |queue|
    && (r.exit == Stopped ==> r.taken >= 1 && queue[r.taken - 1].None? && |r.events| == r.taken - 1)
    && (r.exit == Waiting ==> r.taken == |queue| && |r.events| == r.taken)
    && (r.exit != Stopped && r.exit != Waiting ==>
          r.taken >= 1 && queue[r.taken - 1].Some? && |r.events| == r.taken - 1)
    && (forall i :: 0 <= i < |r.events| ==>
          && queue[i].Some?
          && r.events[i] == Event(queue[i].value.year, queue[i].value.month,
                                  |Run(backend(queue[i].value), None, 0, 0).hits|, Final))
  }

  /** A completed job's count is the number of records its stream yielded. */
  lemma JobCount(root: string, job: Job, script: seq<Response>, disk: Disk, faults: Faults,
                 camel: string -> string)
    requires IsKeyRenaming(camel)
    ensures JobSpec(root, job, script, disk, faults, camel).1.Completed? ==>
      JobSpec(root, job, script, disk, faults, camel).1.count == |Run(script, None, 0, 0).hits|
  {
  }

  /** A completed first job in front of a run over the rest of the queue. */
  lemma ReportsCons(queue: seq<Option<Job>>, backend: Job -> seq<Response>, r: WorkerRun, n: nat)
    requires queue != [] && queue[0].Some?
    requires Reports(queue[1..], backend, r)
    requires n == |Run(backend(queue[0].value), None, 0, 0).hits|
    ensures Reports(queue, backend,
      r.(taken := r.taken + 1, events := [Event(queue[0].value.year, queue[0].value.month, n, Final)] + r.events))
  {
    assert forall i :: 0 <= i < |queue| - 1 ==> queue[1..][i] == queue[i + 1];
  }
}
