/** The main process: it seeds the work queue with one job per month bucket
    of the index's date histogram (and the results queue with the expected
    counts), then a sentinel per worker; the results thread collects the
    expected and final counts per month and, on its own sentinel, writes
    `results.csv`. Queues are modelled as the sequence of items in the order
    they are taken. */
module Orchestrator {
  import opened Py
  import opened Worker

  // ---------------------------------------------------------------------------
  // Month keys

  /** `f"{year}-{month}"`: the month is not zero-padded. */
  function MonthKey(year: int, month: int): string {
    IntToString(year) + "-" + IntToString(month)
  }

  /** A result as the thread files it: under its month's key. */
  datatype Entry = Entry(key: string, status: Status, count: int)

  function Filed(e: Event): Entry {
    Entry(MonthKey(e.year, e.month), e.status, e.count)
  }

  lemma NoDashAfterSign(n: int, i: int)
    requires 1 <= i < |IntToString(n)|
    ensures IntToString(n)[i] != '-'
  {
    if n < 0 {
      assert IntToString(n)[i] == NatToString(-n)[i - 1];
    }
  }

  lemma DashAfter(x: string, y: string)
    ensures (x + "-" + y)[|x|] == '-'
  {
  }

  lemma CharBefore(x: string, y: string, i: int)
    requires 0 <= i < |x|
    ensures (x + "-" + y)[i] == x[i]
  {
  }

  /** Where neither left part holds a dash after its first character, the
      first such dash separates the parts. */
  lemma SplitAtDash(a: string, b: string, c: string, d: string)
    requires |a| >= 1 && |c| >= 1
    requires forall i :: 1 <= i < |a| ==> a[i] != '-'
    requires forall i :: 1 <= i < |c| ==> c[i] != '-'
    requires a + "-" + b == c + "-" + d
    ensures a == c && b == d
  {
    var s := a + "-" + b;
    if |a| < |c| {
      DashAfter(a, b);
      CharBefore(c, d, |a|);
      assert false;
    } else if |c| < |a| {
      DashAfter(c, d);
      CharBefore(a, b, |c|);
      assert false;
    }
    assert a == s[..|a|];
    assert c == (c + "-" + d)[..|c|];
    assert b == s[|a| + 1..];
    assert d == (c + "-" + d)[|c| + 1..];
  }

  /** Different months never share a key, so their counts never mix. */
  lemma MonthKeyInjective(y1: int, m1: int, y2: int, m2: int)
    requires MonthKey(y1, m1) == MonthKey(y2, m2)
    ensures y1 == y2 && m1 == m2
  {
    forall i | 1 <= i < |IntToString(y1)| ensures IntToString(y1)[i] != '-' {
      NoDashAfterSign(y1, i);
    }
    forall i | 1 <= i < |IntToString(y2)| ensures IntToString(y2)[i] != '-' {
      NoDashAfterSign(y2, i);
    }
    SplitAtDash(IntToString(y1), IntToString(m1), IntToString(y2), IntToString(m2));
    IntToStringRoundTrip(y1);
    IntToStringRoundTrip(y2);
    IntToStringRoundTrip(m1);
    IntToStringRoundTrip(m2);
  }

  // ---------------------------------------------------------------------------
  // The results table

  /** The `results` dict: its keys in insertion order and, per key, the count
      last reported for each status. */
  datatype Table = Table(keys: seq<string>, counts: map<string, map<Status, int>>)

  /** One result: a new key gets an empty dict, then the status is (over)written. */
  function Put(t: Table, e: Entry): Table {
    var k := e.key;
    if k !in t.counts then Table(t.keys + [k], t.counts[k := map[e.status := e.count]])
    else Table(t.keys, t.counts[k := t.counts[k][e.status := e.count]])
  }

  /** The table after `entries`, in arrival order. */
  function Aggregate(entries: seq<Entry>): (t: Table)
    ensures forall k :: k in t.keys <==> k in t.counts
    decreases |entries|
  {
    if entries == [] then Table([], map[])
    else Put(Aggregate(entries[..|entries| - 1]), entries[|entries| - 1])
  }

  /** The count a table holds for a key and status, if any. */
  function Lookup(t: Table, k: string, s: Status): Option<int> {
    if k in t.counts && s in t.counts[k] then Some(t.counts[k][s]) else None
  }

  /** The count of the last event for month key `k` with status `s`. */
  function LastCount(entries: seq<Entry>, k: string, s: Status): Option<int>
    decreases |entries|
  {
    if entries == [] then None
    else
      var e := entries[|entries| - 1];
      if e.key == k && e.status == s then Some(e.count) else LastCount(entries[..|entries| - 1], k, s)
  }

  predicate SameCell(a: Entry, b: Entry) {
    a.key == b.key && a.status == b.status
  }

  /** `LastCount` is the count of the latest matching event. */
  lemma {:induction false} LastCountIsLast(entries: seq<Entry>, k: string, s: Status)
    ensures LastCount(entries, k, s).Some? <==>
      exists i :: 0 <= i < |entries| && entries[i].key == k && entries[i].status == s
    ensures LastCount(entries, k, s).Some? ==>
      exists i :: 0 <= i < |entries| && entries[i].key == k && entries[i].status == s &&
        entries[i].count == LastCount(entries, k, s).value &&
        forall j :: i < j < |entries| ==> !(entries[j].key == k && entries[j].status == s)
    decreases |entries|
  {
    if entries != [] {
      var init := entries[..|entries| - 1];
      var e := entries[|entries| - 1];
      LastCountIsLast(init, k, s);
      if e.key == k && e.status == s {
        assert entries[|entries| - 1].count == LastCount(entries, k, s).value;
      } else {
        if exists i :: 0 <= i < |entries| && entries[i].key == k && entries[i].status == s {
          var i :| 0 <= i < |entries| && entries[i].key == k && entries[i].status == s;
          assert init[i] == entries[i];
        }
        if LastCount(init, k, s).Some? {
          var i :| 0 <= i < |init| && init[i].key == k && init[i].status == s &&
            init[i].count == LastCount(init, k, s).value &&
            forall j :: i < j < |init| ==> !(init[j].key == k && init[j].status == s);
          assert entries[i] == init[i];
          assert forall j :: i < j < |entries| - 1 ==> entries[j] == init[j];
          assert forall j :: i < j < |entries| ==> !(entries[j].key == k && entries[j].status == s);
        }
      }
    }
  }

  /** Filing one more entry: one `Put` and at most one warning. */
  lemma FileStep(entries: seq<Entry>, e: Entry)
    ensures Aggregate(entries + [e]) == Put(Aggregate(entries), e)
    ensures Warnings(entries + [e]) == Warnings(entries) + Warned(Aggregate(entries), e)
  {
    assert (entries + [e])[..|entries|] == entries;
  }

  /** Last write wins: the table holds, for every month and status, the count
      of the last result reported for them, and nothing for a pair never
      reported. */
  lemma {:induction false} AggregateLookup(entries: seq<Entry>, k: string, s: Status)
    ensures Lookup(Aggregate(entries), k, s) == LastCount(entries, k, s)
    decreases |entries|
  {
    if entries != [] {
      AggregateLookup(entries[..|entries| - 1], k, s);
    }
  }

  /** The index of the first entry under key `k`; `|entries|` when there is none. */
  function FirstWith(entries: seq<Entry>, k: string): (i: nat)
    ensures i <= |entries|
    ensures i < |entries| ==> entries[i].key == k
    ensures forall j :: 0 <= j < i ==> entries[j].key != k
    decreases |entries|
  {
    if entries == [] then 0
    else if entries[0].key == k then 0
    else
      var i := 1 + FirstWith(entries[1..], k);
      assert forall j :: 1 <= j < i ==> entries[j] == entries[1..][j - 1];
      i
  }

  lemma {:induction false} FirstWithSnoc(entries: seq<Entry>, e: Entry, k: string)
    ensures FirstWith(entries + [e], k) ==
      if FirstWith(entries, k) < |entries| then FirstWith(entries, k)
      else if e.key == k then |entries| else |entries| + 1
    decreases |entries|
  {
    if entries != [] {
      assert (entries + [e])[1..] == entries[1..] + [e];
      FirstWithSnoc(entries[1..], e, k);
    }
  }

  /** The table has a row for exactly the months reported. */
  lemma {:induction false} AggregateSeen(entries: seq<Entry>, k: string)
    ensures k in Aggregate(entries).counts <==> FirstWith(entries, k) < |entries|
    decreases |entries|
  {
    if entries != [] {
      var init := entries[..|entries| - 1];
      var e := entries[|entries| - 1];
      assert entries == init + [e];
      AggregateSeen(init, k);
      FileStep(init, e);
      FirstWithSnoc(init, e, k);
    }
  }

  /** The table's keys come in the order in which their months were first
      reported (and hence each once). */
  lemma {:induction false} AggregateOrder(entries: seq<Entry>)
    ensures var t := Aggregate(entries);
      forall i, j :: 0 <= i < j < |t.keys| ==> FirstWith(entries, t.keys[i]) < FirstWith(entries, t.keys[j])
    decreases |entries|
  {
    if entries != [] {
      var init := entries[..|entries| - 1];
      var e := entries[|entries| - 1];
      assert entries == init + [e];
      AggregateOrder(init);
      FileStep(init, e);
      var t0 := Aggregate(init);
      var t := Aggregate(entries);
      assert t.keys == if e.key in t0.counts then t0.keys else t0.keys + [e.key];
      forall i, j | 0 <= i < j < |t.keys|
        ensures FirstWith(entries, t.keys[i]) < FirstWith(entries, t.keys[j])
      {
        var x := t.keys[i];
        assert x == t0.keys[i] && x in t0.keys;
        AggregateSeen(init, x);
        FirstWithSnoc(init, e, x);
        var y := t.keys[j];
        FirstWithSnoc(init, e, y);
        if j < |t0.keys| {
          assert y == t0.keys[j] && y in t0.keys;
          AggregateSeen(init, y);
        } else {
          assert e.key !in t0.counts && j == |t0.keys|;
          assert y == e.key;
          AggregateSeen(init, y);
        }
      }
    }
  }

  // ---------------------------------------------------------------------------
  // Duplicate warnings

  /** `Duplicate status {status} for {key}. Old value: {previous}, new value: {current}`. */
  datatype Warning = Warning(key: string, status: Status, previous: int, current: int)

  /** The warning logged when `e` is filed into `t`: one when its month
      already has a count for its status. */
  function Warned(t: Table, e: Entry): seq<Warning> {
    match Lookup(t, e.key, e.status)
    case Some(before) => [Warning(e.key, e.status, before, e.count)]
    case None => []
  }

  /** The warnings logged while `entries` are filed, in order. */
  function Warnings(entries: seq<Entry>): seq<Warning>
    decreases |entries|
  {
    if entries == [] then []
    else Warnings(entries[..|entries| - 1]) + Warned(Aggregate(entries[..|entries| - 1]), entries[|entries| - 1])
  }

  /** Each warning reports the count last seen for its month and status. */
  lemma WarningsStep(entries: seq<Entry>, e: Entry)
    ensures Warnings(entries + [e]) == Warnings(entries) +
      match LastCount(entries, e.key, e.status)
      case Some(before) => [Warning(e.key, e.status, before, e.count)]
      case None => []
  {
    assert (entries + [e])[..|entries|] == entries;
    AggregateLookup(entries, e.key, e.status);
  }

  /** No warning is logged exactly when no month reports the same status twice. */
  lemma {:induction false} WarningsIffDuplicates(entries: seq<Entry>)
    ensures Warnings(entries) == [] <==>
      forall i, j :: 0 <= i < j < |entries| ==> !SameCell(entries[i], entries[j])
    decreases |entries|
  {
    if entries != [] {
      var init := entries[..|entries| - 1];
      var e := entries[|entries| - 1];
      assert entries == init + [e];
      WarningsIffDuplicates(init);
      WarningsStep(init, e);
      LastCountIsLast(init, e.key, e.status);
      if Warnings(entries) == [] {
        forall i, j | 0 <= i < j < |entries| ensures !SameCell(entries[i], entries[j]) {
          if j == |entries| - 1 {
            assert init[i] == entries[i];
          } else {
            assert init[i] == entries[i] && init[j] == entries[j];
          }
        }
      }
    }
  }

  // ---------------------------------------------------------------------------
  // results.csv

  /** What the `with open('results.csv', 'w')` block writes before it ends or
      raises. */
  datatype Report = Report(lines: seq<string>, error: Option<PyError>)

  function ReportLine(key: string, expected: int, final: int): string {
    key + "," + IntToString(expected) + "," + IntToString(final) + "\n"
  }

  predicate Complete(v: map<Status, int>) {
    Expected in v && Final in v
  }

  /** One line per key in insertion order; `value['expected']` and then
      `value['final']` raise `KeyError` for a month that lacks them. */
  function ReportOf(keys: seq<string>, counts: map<string, map<Status, int>>): Report
    requires forall k :: k in keys ==> k in counts
    decreases |keys|
  {
    if keys == [] then Report([], None)
    else
      var v := counts[keys[0]];
      if Expected !in v then Report([], Some(KeyError("expected")))
      else if Final !in v then Report([], Some(KeyError("final")))
      else
        var rest := ReportOf(keys[1..], counts);
        Report([ReportLine(keys[0], v[Expected], v[Final])] + rest.lines, rest.error)
  }

  /** The file holds a line for each complete month, in key order, up to the
      first incomplete one, and a line for every month when writing does not
      stop. */
  lemma {:induction false} ReportLines(keys: seq<string>, counts: map<string, map<Status, int>>)
    requires forall k :: k in keys ==> k in counts
    ensures var r := ReportOf(keys, counts);
      && |r.lines| <= |keys|
      && (r.error.None? ==> |r.lines| == |keys|)
      && (forall i :: 0 <= i < |r.lines| ==>
            Complete(counts[keys[i]]) &&
            r.lines[i] == ReportLine(keys[i], counts[keys[i]][Expected], counts[keys[i]][Final]))
    decreases |keys|
  {
    if keys != [] && Complete(counts[keys[0]]) {
      var rest := keys[1..];
      ReportLines(rest, counts);
      var r := ReportOf(keys, counts);
      var r' := ReportOf(rest, counts);
      assert r.lines == [ReportLine(keys[0], counts[keys[0]][Expected], counts[keys[0]][Final])] + r'.lines;
      forall i | 0 <= i < |r.lines|
        ensures Complete(counts[keys[i]]) &&
          r.lines[i] == ReportLine(keys[i], counts[keys[i]][Expected], counts[keys[i]][Final])
      {
        if i > 0 {
          assert r.lines[i] == r'.lines[i - 1] && keys[i] == rest[i - 1];
        }
      }
    }
  }

  /** Writing stops exactly when some month is incomplete, and then at the
      first one, with `KeyError` for `expected` if it lacks that count and for
      `final` otherwise. */
  lemma {:induction false} ReportStops(keys: seq<string>, counts: map<string, map<Status, int>>)
    requires forall k :: k in keys ==> k in counts
    ensures var r := ReportOf(keys, counts);
      && (r.error.None? <==> forall k :: k in keys ==> Complete(counts[k]))
      && (r.error.Some? ==>
            && |r.lines| < |keys|
            && !Complete(counts[keys[|r.lines|]])
            && r.error.value == KeyError(if Expected !in counts[keys[|r.lines|]] then "expected" else "final"))
    decreases |keys|
  {
    if keys != [] && Complete(counts[keys[0]]) {
      var rest := keys[1..];
      ReportStops(rest, counts);
      var r := ReportOf(keys, counts);
      var r' := ReportOf(rest, counts);
      assert |r.lines| == 1 + |r'.lines| && r.error == r'.error;
      if r.error.Some? {
        assert keys[|r.lines|] == rest[|r'.lines|];
      }
      if forall k :: k in rest ==> Complete(counts[k]) {
        assert forall k :: k in keys ==> k == keys[0] || k in rest;
      }
    }
  }

  /** The `for key, value in results.items()` loop. */
  method WriteReport(t: Table) returns (r: Report)
    requires forall k :: k in t.keys ==> k in t.counts
    ensures r == ReportOf(t.keys, t.counts)
  {
    var lines: seq<string> := [];
    var i := 0;
    while i < |t.keys|
      invariant 0 <= i <= |t.keys|
      invariant ReportOf(t.keys, t.counts) == After(lines, ReportOf(t.keys[i..], t.counts))
    {
      assert t.keys[i..][0] == t.keys[i] && t.keys[i..][1..] == t.keys[i + 1..];
      var key := t.keys[i];
      var value := t.counts[key];
      if Expected !in value {
        return Report(lines, Some(KeyError("expected")));
      }
      if Final !in value {
        return Report(lines, Some(KeyError("final")));
      }
      var line := ReportLine(key, value[Expected], value[Final]);
      AppendAssoc(lines, [line], ReportOf(t.keys[i + 1..], t.counts).lines);
      lines := lines + [line];
      i := i + 1;
    }
    r := Report(lines, None);
  }

  /** A report preceded by lines already written. */
  function After(lines: seq<string>, r: Report): Report {
    Report(lines + r.lines, r.error)
  }

  // ---------------------------------------------------------------------------
  // The results thread

  /** How `results_thread` ends: blocked on an empty queue, or after writing
      the report on the `None` sentinel. */
  datatype ResultsEnd = Blocked | Wrote(report: Report)

  /** The results taken before the first `None`. */
  function Taken(items: seq<Option<Event>>): seq<Event>
    decreases |items|
  {
    if items == [] || items[0].None? then [] else [items[0].value] + Taken(items[1..])
  }

  /** The entries filed for `events`, in order. */
  function FiledAll(events: seq<Event>): (entries: seq<Entry>)
    ensures |entries| == |events|
    ensures forall i :: 0 <= i < |events| ==> entries[i] == Filed(events[i])
  {
    seq(|events|, i requires 0 <= i < |events| => Filed(events[i]))
  }

  /** Filing results logs no warning exactly when no month reports the same
      status twice — as for the expected counts seeded from the histogram,
      one per month. */
  lemma NoWarningsIffDistinct(events: seq<Event>)
    ensures Warnings(FiledAll(events)) == [] <==>
      forall i, j :: 0 <= i < j < |events| ==>
        (events[i].year, events[i].month, events[i].status) != (events[j].year, events[j].month, events[j].status)
  {
    var entries := FiledAll(events);
    WarningsIffDuplicates(entries);
    forall i, j | 0 <= i < j < |events|
      ensures SameCell(entries[i], entries[j]) <==>
        (events[i].year, events[i].month, events[i].status) == (events[j].year, events[j].month, events[j].status)
    {
      if SameCell(entries[i], entries[j]) {
        MonthKeyInjective(events[i].year, events[i].month, events[j].year, events[j].month);
      }
    }
  }

  /** Results as queue items. */
  function AsItems(events: seq<Event>): (items: seq<Option<Event>>)
    ensures |items| == |events|
    ensures forall j :: 0 <= j < |events| ==> items[j] == Some(events[j])
  {
    seq(|events|, j requires 0 <= j < |events| => Some(events[j]))
  }

  lemma {:induction false} TakenPrefix(items: seq<Option<Event>>, taken: seq<Event>, i: nat)
    requires i <= |items| && |taken| == i
    requires forall j :: 0 <= j < i ==> items[j] == Some(taken[j])
    requires i == |items| || items[i].None?
    ensures Taken(items) == taken
    decreases i
  {
    if i > 0 {
      TakenPrefix(items[1..], taken[1..], i - 1);
    }
  }

  /** The results taken are those before the first sentinel, if there is one. */
  lemma TakenUpTo(items: seq<Option<Event>>, taken: seq<Event>, i: nat)
    requires i <= |items| && items[..i] == AsItems(taken)
    requires i == |items| || items[i].None?
    ensures Taken(items) == taken
    ensures None in items <==> i < |items|
  {
    assert forall j :: 0 <= j < i ==> items[j] == items[..i][j];
    TakenPrefix(items, taken, i);
  }

  lemma TakeOne(items: seq<Option<Event>>, taken: seq<Event>, i: nat)
    requires i < |items| && items[i].Some? && items[..i] == AsItems(taken)
    ensures items[..i + 1] == AsItems(taken + [items[i].value])
    ensures FiledAll(taken + [items[i].value]) == FiledAll(taken) + [Filed(items[i].value)]
  {
    assert items[..i + 1] == items[..i] + [items[i]];
    var more := taken + [items[i].value];
    assert forall j :: 0 <= j < |taken| ==> more[j] == taken[j];
  }

  /** One pass of the `results_thread` loop on a result. */
  method File(t: Table, warnings: seq<Warning>, result: Event) returns (t': Table, warnings': seq<Warning>)
    ensures t' == Put(t, Filed(result))
    ensures warnings' == warnings + Warned(t, Filed(result))
  {
    var key := MonthKey(result.year, result.month);
    t', warnings' := t, warnings;
    if key !in t'.counts {
      t' := t'.(keys := t'.keys + [key], counts := t'.counts[key := map[]]);
    } else if result.status in t'.counts[key] {
      warnings' := warnings' + [Warning(key, result.status, t'.counts[key][result.status], result.count)];
    }
    t' := t'.(counts := t'.counts[key := t'.counts[key][result.status := result.count]]);
    assert key !in t.counts ==> t'.counts == t.counts[key := map[result.status := result.count]];
  }

  /** `results_thread` on the results queue's items in the order taken. */
  method ResultsThread(items: seq<Option<Event>>) returns (t: Table, warnings: seq<Warning>, end: ResultsEnd)
    ensures t == Aggregate(FiledAll(Taken(items)))
    ensures warnings == Warnings(FiledAll(Taken(items)))
    ensures end == if None in items then Wrote(ReportOf(t.keys, t.counts)) else Blocked
  {
    t := Table([], map[]);
    warnings := [];
    ghost var taken: seq<Event> := [];
    var i := 0;
    while i < |items| && items[i].Some?
      invariant 0 <= i <= |items| && |taken| == i
      invariant items[..i] == AsItems(taken)
      invariant t == Aggregate(FiledAll(taken)) && warnings == Warnings(FiledAll(taken))
    {
      var result := items[i].value;
      TakeOne(items, taken, i);
      ghost var entry := Filed(result);
      FileStep(FiledAll(taken), entry);
      t, warnings := File(t, warnings, result);
      taken := taken + [result];
      i := i + 1;
    }
    TakenUpTo(items, taken, i);
    if i == |items| {
      end := Blocked;
    } else {
      var report := WriteReport(t);
      end := Wrote(report);
    }
  }

  /** When every month reported has both its expected and its final count, the
      report is written in full: one line per month, in order of first report,
      holding the last counts reported for it. */
  lemma ReportComplete(entries: seq<Entry>)
    requires forall i :: 0 <= i < |entries| ==>
      LastCount(entries, entries[i].key, Expected).Some? && LastCount(entries, entries[i].key, Final).Some?
    ensures var t := Aggregate(entries);
      var r := ReportOf(t.keys, t.counts);
      && r.error.None?
      && |r.lines| == |t.keys|
      && forall i :: 0 <= i < |t.keys| ==>
           && LastCount(entries, t.keys[i], Expected).Some?
           && LastCount(entries, t.keys[i], Final).Some?
           && r.lines[i] == ReportLine(t.keys[i], LastCount(entries, t.keys[i], Expected).value,
                                       LastCount(entries, t.keys[i], Final).value)
  {
    var t := Aggregate(entries);
    forall k | k in t.keys
      ensures LastCount(entries, k, Expected).Some? && LastCount(entries, k, Final).Some?
      ensures Complete(t.counts[k])
      ensures t.counts[k][Expected] == LastCount(entries, k, Expected).value
      ensures t.counts[k][Final] == LastCount(entries, k, Final).value
    {
      AggregateSeen(entries, k);
      var i := FirstWith(entries, k);
      assert entries[i].key == k;
      AggregateLookup(entries, k, Expected);
      AggregateLookup(entries, k, Final);
    }
    ReportLines(t.keys, t.counts);
    ReportStops(t.keys, t.counts);
    forall i | 0 <= i < |t.keys| ensures t.keys[i] in t.keys {
    }
  }

  // ---------------------------------------------------------------------------
  // Seeding the queues

  /** A bucket of the monthly date histogram: its `yyyy-MM` key and count. */
  datatype Bucket = Bucket(keyAsString: string, docCount: int)

  /** `s.split(sep)`. */
  function Split(s: string, sep: char): (parts: seq<string>)
    ensures |parts| >= 1
    decreases |s|
  {
    if s == [] then [""]
    else if s[0] == sep then [""] + Split(s[1..], sep)
    else
      var rest := Split(s[1..], sep);
      [[s[0]] + rest[0]] + rest[1..]
  }

  predicate Without(s: string, c: char) {
    forall i :: 0 <= i < |s| ==> s[i] != c
  }

  lemma {:induction false} SplitPrefix(a: string, t: string, sep: char)
    requires Without(a, sep)
    ensures Split(a + t, sep) == [a + Split(t, sep)[0]] + Split(t, sep)[1..]
    decreases |a|
  {
    if a != [] {
      var rest := a[1..];
      assert (a + t)[1..] == rest + t;
      assert (a + t)[0] == a[0];
      SplitPrefix(rest, t, sep);
      assert [a[0]] + (rest + Split(t, sep)[0]) == a + Split(t, sep)[0];
    } else {
      assert a + t == t;
      assert a + Split(t, sep)[0] == Split(t, sep)[0];
      assert [Split(t, sep)[0]] + Split(t, sep)[1..] == Split(t, sep);
    }
  }

  /** Splitting `a-b` on `-`, where neither part holds a dash, gives the parts back. */
  lemma SplitTwo(a: string, b: string)
    requires Without(a, '-') && Without(b, '-')
    ensures Split(a + "-" + b, '-') == [a, b]
  {
    assert a + "-" + b == a + ("-" + b);
    SplitPrefix(a, "-" + b, '-');
    assert ("-" + b)[0] == '-' && ("-" + b)[1..] == b;
    assert Split("-" + b, '-') == [""] + Split(b, '-');
    assert b + "" == b;
    SplitPrefix(b, "", '-');
    assert Split(b, '-') == [b];
    assert a + "" == a;
  }

  /** `year, month = bucket.key_as_string.split('-')` and `int(...)` of each
      part: anything but exactly two integer parts is a `ValueError`. */
  function ParseBucket(b: Bucket): Result<Job> {
    var parts := Split(b.keyAsString, '-');
    if |parts| != 2 then Err(ValueError)
    else
      var year :- ParseInt(parts[0]);
      var month :- ParseInt(parts[1]);
      Ok(Job(year, month, b.docCount))
  }

  /** The `yyyy-MM` key the index gives a month. */
  function MonthLabel(year: nat, month: nat): string {
    PadInt(year, 4) + "-" + PadInt(month, 2)
  }

  lemma PaddedWithoutDash(n: nat, w: nat)
    ensures Without(PadInt(n, w), '-')
  {
    var d := NatToString(n);
    var z := if |d| < w then Zeros(w - |d|) else [];
    assert PadInt(n, w) == z + d;
    forall i | 0 <= i < |z + d| ensures (z + d)[i] != '-' {
      if i < |z| {
        assert (z + d)[i] == z[i];
      } else {
        assert (z + d)[i] == d[i - |z|];
      }
    }
  }

  /** A month's key is read back as that month. */
  lemma LabelRoundTrip(year: nat, month: nat, count: int)
    ensures ParseBucket(Bucket(MonthLabel(year, month), count)) == Ok(Job(year, month, count))
  {
    PaddedWithoutDash(year, 4);
    PaddedWithoutDash(month, 2);
    SplitTwo(PadInt(year, 4), PadInt(month, 2));
    PadIntRoundTrip(year, 4);
    PadIntRoundTrip(month, 2);
  }

  /** What the main process has put on the two queues, and the exception that
      stopped it, if any. */
  datatype Seeding = Seeding(jobs: seq<Option<Job>>, expected: seq<Event>, error: Option<PyError>)

  function Sentinels(n: nat): (s: seq<Option<Job>>)
    ensures |s| == n && forall i :: 0 <= i < n ==> s[i].None?
  {
    if n == 0 then [] else Sentinels(n - 1) + [None]
  }

  /** A job and an expected result per bucket, then a `None` per worker; a
      bucket that does not parse raises, leaving what was queued before it. */
  function Seed(buckets: seq<Bucket>, workers: nat): Seeding
    decreases |buckets|
  {
    if buckets == [] then Seeding(Sentinels(workers), [], None)
    else
      match ParseBucket(buckets[0])
      case Err(e) => Seeding([], [], Some(e))
      case Ok(job) =>
        var rest := Seed(buckets[1..], workers);
        Seeding([Some(job)] + rest.jobs, [ExpectedOf(job)] + rest.expected,
                rest.error)
  }

  /** The seeding loops of the main process. */
  method SeedQueues(buckets: seq<Bucket>, workers: nat) returns (s: Seeding)
    ensures s == Seed(buckets, workers)
  {
    var jobs: seq<Option<Job>> := [];
    var expected: seq<Event> := [];
    for i := 0 to |buckets|
      invariant Seed(buckets, workers) == Queued(jobs, expected, Seed(buckets[i..], workers))
    {
      assert buckets[i..][0] == buckets[i] && buckets[i..][1..] == buckets[i + 1..];
      var parsed := ParseBucket(buckets[i]);
      if parsed.Err? {
        return Seeding(jobs, expected, Some(parsed.error));
      }
      var job := parsed.value;
      var rest := Seed(buckets[i + 1..], workers);
      AppendAssoc(jobs, [Some(job)], rest.jobs);
      AppendAssoc(expected, [Event(job.year, job.month, job.count, Expected)], rest.expected);
      jobs := jobs + [Some(job)];
      expected := expected + [Event(job.year, job.month, job.count, Expected)];
    }
    assert buckets[|buckets|..] == [];
    for i := 0 to workers
      invariant jobs + Sentinels(workers - i) == Seed(buckets, workers).jobs
    {
      assert Sentinels(workers - i) == [None] + Sentinels(workers - i - 1) by {
        SentinelsCons(workers - i);
      }
      AppendAssoc(jobs, [None], Sentinels(workers - i - 1));
      jobs := jobs + [None];
    }
    s := Seeding(jobs, expected, None);
  }

  lemma SentinelsCons(n: nat)
    requires n > 0
    ensures Sentinels(n) == [None] + Sentinels(n - 1)
  {
    assert Sentinels(n)[1..] == Sentinels(n - 1);
  }

  /** A seeding preceded by items already queued. */
  function Queued(jobs: seq<Option<Job>>, expected: seq<Event>, s: Seeding): Seeding {
    Seeding(jobs + s.jobs, expected + s.expected, s.error)
  }

  /** The expected result queued for a job. */
  function ExpectedOf(job: Job): Event {
    Event(job.year, job.month, job.count, Expected)
  }

  /** Seeding queues a job and an expected result for each bucket, in order,
      up to the first bucket that does not parse; it succeeds, and queues one
      sentinel per worker, exactly when every bucket parses, and otherwise
      fails with that bucket's exception and queues no sentinel. */
  lemma {:induction false} SeedShape(buckets: seq<Bucket>, workers: nat)
    ensures var s := Seed(buckets, workers);
      var n := |s.expected|;
      && n <= |buckets|
      && (forall i :: 0 <= i < n ==>
            && ParseBucket(buckets[i]).Ok?
            && s.expected[i] == ExpectedOf(ParseBucket(buckets[i]).value))
      && |s.jobs| == n + (if s.error.None? then workers else 0)
      && (forall i :: 0 <= i < |s.jobs| ==>
            s.jobs[i] == if i < n then Some(ParseBucket(buckets[i]).value) else None)
      && (s.error.None? <==> n == |buckets|)
      && (s.error.Some? ==> ParseBucket(buckets[n]) == Err(s.error.value))
    decreases |buckets|
  {
    if buckets != [] && ParseBucket(buckets[0]).Ok? {
      var rest := buckets[1..];
      SeedShape(rest, workers);
      var s := Seed(buckets, workers);
      var r := Seed(rest, workers);
      assert s.jobs == [Some(ParseBucket(buckets[0]).value)] + r.jobs;
      assert s.expected == [ExpectedOf(ParseBucket(buckets[0]).value)] + r.expected;
      forall i | 1 <= i < |buckets| ensures buckets[i] == rest[i - 1] {
      }
    }
  }
}
