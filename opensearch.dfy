/** The search-index client: the query a worker sends (base filters, the field
    list, the month filter) and the `search_after` paging loop with its retry
    counters. The backend is a script of responses, one per `execute()` call. */
module OpenSearch {
  import opened Py
  import opened Serializer

  /** One hit of a result page: its `_source` record and its sort values. */
  datatype Hit = Hit(source: Record, sort: Json)

  /** What one `execute()` call gives: a response flagged `timed_out`, an
      exception, or a page of hits. */
  datatype Response = TimedOut | Raised | Page(hits: seq<Hit>)

  datatype Filter =
    | Terms(field: string, values: seq<string>)
    | Range(field: string, gte: string, lte: string)

  /** The parts of the search request the code sets. The query part is always
      `match_all`; `includes` is the `_source` field list. */
  datatype Query = Query(
    filters: seq<Filter>,
    sortKeys: seq<string>,
    size: nat,
    trackTotalHits: bool,
    includes: Option<seq<string>>,
    searchAfter: Option<Json>)

  /** The exceptions `return_all_results` raises. */
  datatype GiveUp = TooManyTimeouts | TooManyFailures

  datatype Outcome = Exhausted | GaveUp(reason: GiveUp)

  /** What the generator did: the hits it yielded in order, the `search_after`
      value of every request it sent, how it ended, and its two counters. */
  datatype Stream = Stream(
    hits: seq<Hit>,
    cursors: seq<Option<Json>>,
    outcome: Outcome,
    timeouts: nat,
    failures: nat)

  /** `build_query`: DataCite DOIs that are findable or registered, sorted by
      `updated` then `uid`, 1000 per page, without a total count. */
  const BaseQuery: Query :=
    Query([Terms("agency", ["DataCite", "datacite"]), Terms("aasm_state", ["findable", "registered"])],
          ["updated", "uid"], 1000, false, None, None)

  /** The `_source` fields `filter_fields` asks for. */
  const FieldList: seq<string> :=
    ["uid", "prefix", "suffix", "identifiers", "creators", "titles", "publisher_obj"] +
    ["container", "publication_year", "subjects", "contributors", "dates", "language"] +
    ["types", "related_identifiers", "related_items", "sizes", "formats", "version_info"] +
    ["rights_list", "descriptions", "geo_locations", "funding_references", "url"] +
    ["content_url", "metadata_version", "schema_version", "source", "is_active"] +
    ["aasm_state", "reason", "view_count", "views_over_time", "download_count"] +
    ["downloads_over_time", "reference_count", "citation_count", "citations_over_time"] +
    ["part_count", "part_of_count", "version_count", "version_of_count", "created"] +
    ["registered", "published", "updated"] +
    ["client_id", "provider_id", "media_ids", "reference_ids", "citation_ids", "part_ids",
     "part_of_ids", "version_ids", "version_of_ids"]

  /** `if not self.query: self.build_query()`. */
  function OrBase(q: Option<Query>): Query {
    if q.Some? then q.value else BaseQuery
  }

  // ---------------------------------------------------------------------------
  // The calendar

  predicate IsLeapYear(year: int) {
    year % 4 == 0 && (year % 100 != 0 || year % 400 == 0)
  }

  /** `calendar.monthrange(year, month)[1]`, for a month in 1..12. */
  function DaysInMonth(year: int, month: int): (d: int)
    requires 1 <= month <= 12
    ensures 28 <= d <= 31
    ensures d == 29 <==> month == 2 && IsLeapYear(year)
    ensures d == 28 <==> month == 2 && !IsLeapYear(year)
    ensures d == 31 <==> month in {1, 3, 5, 7, 8, 10, 12}
  {
    if month == 2 then (if IsLeapYear(year) then 29 else 28)
    else if month in {4, 6, 9, 11} then 30
    else 31
  }

  /** `f"{year}-{month:02d}-"`, the prefix of both bounds of the month filter. */
  function MonthPrefix(year: int, month: int): string {
    IntToString(year) + "-" + PadInt(month, 2) + "-"
  }

  /** The `updated` range of `add_month_filter`: from the first second of the
      month to the last second of its last day. */
  function MonthRange(year: int, month: int): (f: Filter)
    requires 1 <= month <= 12
    ensures f.Range? && f.field == "updated"
  {
    Range("updated", MonthPrefix(year, month) + "01T00:00:00Z",
          MonthPrefix(year, month) + IntToString(DaysInMonth(year, month)) + "T23:59:59Z")
  }

  /** Both bounds name the same year and month, the upper one its last day:
      reading the digits back gives the year, the month and the day count. */
  lemma MonthRangeBounds(year: int, month: int)
    requires 1 <= month <= 12
    ensures var f := MonthRange(year, month); var p := MonthPrefix(year, month);
      && f.gte == p + "01T00:00:00Z"
      && f.lte == p + IntToString(DaysInMonth(year, month)) + "T23:59:59Z"
      && |IntToString(DaysInMonth(year, month))| == 2
      && ParseInt(IntToString(year)) == Ok(year)
      && ParseInt(PadInt(month, 2)) == Ok(month) && |PadInt(month, 2)| == 2
      && ParseInt(IntToString(DaysInMonth(year, month))) == Ok(DaysInMonth(year, month))
  {
    IntToStringRoundTrip(year);
    PadIntRoundTrip(month, 2);
    IntToStringRoundTrip(DaysInMonth(year, month));
    TwoDigits(DaysInMonth(year, month));
    TwoDigits(month + 10);
    assert |PadInt(month, 2)| == 2 by {
      if month < 10 {
        assert NatToString(month) == [DigitChar(month)];
      } else {
        assert NatToString(month) == NatToString(month / 10) + [DigitChar(month % 10)];
        assert NatToString(month / 10) == [DigitChar(month / 10)];
      }
    }
  }

  lemma TwoDigits(n: nat)
    requires 10 <= n < 100
    ensures |IntToString(n)| == 2
  {
    assert NatToString(n) == NatToString(n / 10) + [DigitChar(n % 10)];
    assert NatToString(n / 10) == [DigitChar(n / 10)];
  }

  // ---------------------------------------------------------------------------
  // The client

  class OpenSearchClient {
    /** The `Search` object; `None` until a query is built. */
    var query: Option<Query>

    constructor ()
      ensures query == None
    {
      query := None;
    }

    /** `build_query`: replaces the query with the base query. */
    method BuildQuery()
      modifies this
      ensures query == Some(BaseQuery)
    {
      query := Some(BaseQuery);
    }

    /** `filter_fields`: builds the query if there is none, then asks for the
      `_source` fields of `FieldList` only. */
    method FilterFields()
      modifies this
      ensures query == Some(OrBase(old(query)).(includes := Some(FieldList)))
    {
      if query.None? {
        BuildQuery();
      }
      query := Some(query.value.(includes := Some(FieldList)));
    }

    /** `add_month_filter`: builds the query if there is none, then adds the
        month's `updated` range. A month outside 1..12 makes `calendar.monthrange`
        raise `ValueError` before the query is replaced. */
    method AddMonthFilter(year: int, month: int) returns (err: Option<PyError>)
      modifies this
      ensures err.Some? <==> !(1 <= month <= 12)
      ensures err.Some? ==> err.value == ValueError && query == Some(OrBase(old(query)))
      ensures err.None? ==>
        var q := OrBase(old(query));
        query == Some(q.(filters := q.filters + [MonthRange(year, month)]))
    {
      if query.None? {
        BuildQuery();
      }
      if !(1 <= month <= 12) {
        return Some(ValueError);
      }
      var q := query.value;
      query := Some(q.(filters := q.filters + [MonthRange(year, month)]));
      err := None;
    }

    /** `return_all_results`, run to the end against the backend's responses
        `script` (once the script is used up the backend answers an empty page).
        The query keeps the `search_after` of the last request. */
    method ReturnAllResults(script: seq<Response>) returns (s: Stream)
      modifies this
      ensures s == Run(script, OrBase(old(query)).searchAfter, 0, 0)
      ensures s.cursors != []
      ensures query == Some(OrBase(old(query)).(searchAfter := s.cursors[|s.cursors| - 1]))
    {
      if query.None? {
        BuildQuery();
      }
      var q0 := query.value;
      var rest := script;
      var hits: seq<Hit> := [];
      var cursors: seq<Option<Json>> := [];
      var timeouts, failures := 0, 0;
      while true
        invariant query.Some? && query.value == q0.(searchAfter := query.value.searchAfter)
        invariant failures <= 10
        invariant Prepend(hits, cursors, Run(rest, query.value.searchAfter, timeouts, failures))
                  == Run(script, q0.searchAfter, 0, 0)
        decreases |rest|
      {
        var cursor := query.value.searchAfter;
        ghost var done := Prepend(hits, cursors, Run(rest, cursor, timeouts, failures));
        if rest == [] || rest[0] == Page([]) {
          s := Stream(hits, cursors + [cursor], Exhausted, timeouts, failures);
          assert s == done by { assert hits + [] == hits; }
          return;
        }
        var response := rest[0];
        rest := rest[1..];
        if response.Page? {
          var page := response.hits;
          query := Some(query.value.(searchAfter := Some(page[|page| - 1].sort)));
          PrependAssoc(hits, cursors, page, [cursor], Run(rest, query.value.searchAfter, timeouts, failures));
          hits, cursors := hits + page, cursors + [cursor];
        } else {
          if response.TimedOut? {
            timeouts := timeouts + 1;
          }
          if response.Raised? || timeouts > 10 {
            // TooManyTimeouts is raised inside the `try` and caught as a failure.
            failures := failures + 1;
            if failures > 10 {
              s := Stream(hits, cursors + [cursor], GaveUp(TooManyFailures), timeouts, failures);
              assert s == done by { assert hits + [] == hits; }
              return;
            }
          }
          PrependAssoc(hits, cursors, [], [cursor], Run(rest, cursor, timeouts, failures));
          cursors := cursors + [cursor];
          assert hits + [] == hits;
        }
      }
    }
  }

  // ---------------------------------------------------------------------------
  // The paging loop as a function

  /** A stream whose first requests yielded `hits` and used `cursors`. */
  function Prepend(hits: seq<Hit>, cursors: seq<Option<Json>>, s: Stream): Stream {
    s.(hits := hits + s.hits, cursors := cursors + s.cursors)
  }

  lemma PrependAssoc(h: seq<Hit>, c: seq<Option<Json>>, h': seq<Hit>, c': seq<Option<Json>>, s: Stream)
    ensures Prepend(h, c, Prepend(h', c', s)) == Prepend(h + h', c + c', s)
  {
    assert h + (h' + s.hits) == (h + h') + s.hits;
    assert c + (c' + s.cursors) == (c + c') + s.cursors;
  }

  /** The requests `return_all_results` sends from the request whose
      `search_after` is `cursor` on, with `tc` timeouts and `fc` failures so far. */
  function Run(rest: seq<Response>, cursor: Option<Json>, tc: nat, fc: nat): Stream
    decreases |rest|, 0
  {
    if rest == [] then Stream([], [cursor], Exhausted, tc, fc)
    else match rest[0]
      case Page(hits) =>
        if hits == [] then Stream([], [cursor], Exhausted, tc, fc)
        else Prepend(hits, [cursor], Run(rest[1..], Some(hits[|hits| - 1].sort), tc, fc))
      case TimedOut =>
        if tc + 1 > 10 then Failure(rest[1..], cursor, tc + 1, fc)
        else Prepend([], [cursor], Run(rest[1..], cursor, tc + 1, fc))
      case Raised => Failure(rest[1..], cursor, tc, fc)
  }

  /** The `except` branch: count the failure, give up past ten, else retry the
      same request. */
  function Failure(rest: seq<Response>, cursor: Option<Json>, tc: nat, fc: nat): Stream
    decreases |rest|, 1
  {
    if fc + 1 > 10 then Stream([], [cursor], GaveUp(TooManyFailures), tc, fc + 1)
    else Prepend([], [cursor], Run(rest, cursor, tc, fc + 1))
  }

  // ---------------------------------------------------------------------------
  // Properties of the paging loop

  /** How many of `rs` are `x`. */
  function Count(rs: seq<Response>, x: Response): (n: nat)
    ensures n <= |rs|
  {
    if rs == [] then 0 else (if rs[0] == x then 1 else 0) + Count(rs[1..], x)
  }

  /** Where the first empty page is in `rs`, or `|rs|` when there is none. */
  function FirstEmptyPage(rs: seq<Response>): (k: nat)
    ensures k <= |rs|
    ensures forall i :: 0 <= i < k ==> rs[i] != Page([])
    ensures k < |rs| ==> rs[k] == Page([])
  {
    if rs == [] || rs[0] == Page([]) then 0 else 1 + FirstEmptyPage(rs[1..])
  }

  /** The hits of the pages among `rs`, in order. */
  function PageHits(rs: seq<Response>): seq<Hit> {
    if rs == [] then [] else (if rs[0].Page? then rs[0].hits else []) + PageHits(rs[1..])
  }

  /** How many of `n` more timeouts, after `tc`, are past the tenth. */
  function LateTimeouts(tc: nat, n: nat): nat {
    (if tc + n > 10 then tc + n - 10 else 0) - (if tc > 10 then tc - 10 else 0)
  }

  /** The stream never ends with `TooManyTimeouts`: the code raises it inside the
      `try`, whose `except Exception` counts it as a failure. */
  lemma {:induction false} TimeoutsNeverEscape(rest: seq<Response>, cursor: Option<Json>, tc: nat, fc: nat)
    ensures Run(rest, cursor, tc, fc).outcome != GaveUp(TooManyTimeouts)
    decreases |rest|
  {
    if rest != [] {
      match rest[0]
      case Page(hits) =>
        if hits != [] {
          TimeoutsNeverEscape(rest[1..], Some(hits[|hits| - 1].sort), tc, fc);
        }
      case TimedOut =>
        if tc + 1 > 10 {
          if fc + 1 <= 10 {
            TimeoutsNeverEscape(rest[1..], cursor, tc + 1, fc + 1);
          }
        } else {
          TimeoutsNeverEscape(rest[1..], cursor, tc + 1, fc);
        }
      case Raised =>
        if fc + 1 <= 10 {
          TimeoutsNeverEscape(rest[1..], cursor, tc, fc + 1);
        }
    }
  }

  /** Paging: the first request carries `cursor`, and the last request carries
      the sort values of the last hit yielded (or `cursor` if none was). */
  lemma {:induction false} RunResumes(rest: seq<Response>, cursor: Option<Json>, tc: nat, fc: nat)
    ensures Resumes(Run(rest, cursor, tc, fc), cursor)
    decreases |rest|
  {
    if rest != [] {
      match rest[0]
      case Page(hits) =>
        if hits != [] {
          var next := Some(hits[|hits| - 1].sort);
          RunResumes(rest[1..], next, tc, fc);
          ResumesAfter(hits, cursor, next, Run(rest[1..], next, tc, fc));
        }
      case TimedOut =>
        if tc + 1 > 10 {
          if fc + 1 <= 10 {
            RunResumes(rest[1..], cursor, tc + 1, fc + 1);
            ResumesAfter([], cursor, cursor, Run(rest[1..], cursor, tc + 1, fc + 1));
          }
        } else {
          RunResumes(rest[1..], cursor, tc + 1, fc);
          ResumesAfter([], cursor, cursor, Run(rest[1..], cursor, tc + 1, fc));
        }
      case Raised =>
        if fc + 1 <= 10 {
          RunResumes(rest[1..], cursor, tc, fc + 1);
          ResumesAfter([], cursor, cursor, Run(rest[1..], cursor, tc, fc + 1));
        }
    }
  }

  /** What `RunResumes` states of a stream that started from `cursor`. */
  predicate Resumes(s: Stream, cursor: Option<Json>) {
    && |s.cursors| >= 1 && s.cursors[0] == cursor
    && s.cursors[|s.cursors| - 1] == (if s.hits == [] then cursor else Some(s.hits[|s.hits| - 1].sort))
  }

  /** One request with `cursor` that yields `hits`, followed by a stream that
      starts from the cursor it leaves (`next`). */
  lemma ResumesAfter(hits: seq<Hit>, cursor: Option<Json>, next: Option<Json>, s: Stream)
    requires next == if hits == [] then cursor else Some(hits[|hits| - 1].sort)
    requires Resumes(s, next)
    ensures Resumes(Prepend(hits, [cursor], s), cursor)
  {
    var p := Prepend(hits, [cursor], s);
    assert p.cursors[|p.cursors| - 1] == s.cursors[|s.cursors| - 1];
    if s.hits != [] {
      assert p.hits[|p.hits| - 1] == s.hits[|s.hits| - 1];
    } else {
      assert p.hits == hits;
    }
  }

  /** The `search_after` in force after the responses `rs` to requests that
      started from `c`: the sort values of the last hit of the last non-empty
      page among them, or `c` when there is none. */
  function CursorAfter(rs: seq<Response>, c: Option<Json>): Option<Json> {
    if rs == [] then c
    else
      var r := rs[|rs| - 1];
      if r.Page? && r.hits != [] then Some(r.hits[|r.hits| - 1].sort)
      else CursorAfter(rs[..|rs| - 1], c)
  }

  /** The cursor one response leaves behind. */
  function NextCursor(r: Response, c: Option<Json>): Option<Json> {
    if r.Page? && r.hits != [] then Some(r.hits[|r.hits| - 1].sort) else c
  }

  lemma {:induction false} CursorAfterCons(r: Response, rs: seq<Response>, c: Option<Json>)
    ensures CursorAfter([r] + rs, c) == CursorAfter(rs, NextCursor(r, c))
    decreases |rs|
  {
    if rs != [] {
      var rs' := rs[..|rs| - 1];
      assert ([r] + rs)[..|rs|] == [r] + rs';
      CursorAfterCons(r, rs', c);
    }
  }

  /** Each request is answered by the response at its position in the script:
      request `i` carries the cursor the first `i` responses leave behind. */
  predicate CursorsFollow(s: Stream, rest: seq<Response>, cursor: Option<Json>) {
    && 1 <= |s.cursors| <= |rest| + 1
    && forall i :: 0 <= i < |s.cursors| ==> s.cursors[i] == CursorAfter(rest[..i], cursor)
  }

  /** One request with `cursor` answered by `r`, followed by a stream that
      starts from the cursor `r` leaves behind. */
  lemma CursorsFollowStep(r: Response, rest: seq<Response>, cursor: Option<Json>, hits: seq<Hit>, s: Stream)
    requires CursorsFollow(s, rest, NextCursor(r, cursor))
    ensures CursorsFollow(Prepend(hits, [cursor], s), [r] + rest, cursor)
  {
    var p := Prepend(hits, [cursor], s);
    forall i | 0 <= i < |p.cursors|
      ensures p.cursors[i] == CursorAfter(([r] + rest)[..i], cursor)
    {
      if i > 0 {
        assert ([r] + rest)[..i] == [r] + rest[..i - 1];
        CursorAfterCons(r, rest[..i - 1], cursor);
      }
    }
  }

  /** Request `i` carries the cursor the first `i` responses of the script
      leave behind: `search_after` changes only after a non-empty page. */
  lemma {:induction false} RunCursors(rest: seq<Response>, cursor: Option<Json>, tc: nat, fc: nat)
    ensures CursorsFollow(Run(rest, cursor, tc, fc), rest, cursor)
    decreases |rest|
  {
    if rest != [] {
      var r := rest[0];
      assert rest == [r] + rest[1..];
      match r
      case Page(hits) =>
        if hits != [] {
          RunCursors(rest[1..], NextCursor(r, cursor), tc, fc);
          CursorsFollowStep(r, rest[1..], cursor, hits, Run(rest[1..], NextCursor(r, cursor), tc, fc));
        }
      case TimedOut =>
        if tc + 1 > 10 {
          if fc + 1 <= 10 {
            RunCursors(rest[1..], cursor, tc + 1, fc + 1);
            CursorsFollowStep(r, rest[1..], cursor, [], Run(rest[1..], cursor, tc + 1, fc + 1));
          }
        } else {
          RunCursors(rest[1..], cursor, tc + 1, fc);
          CursorsFollowStep(r, rest[1..], cursor, [], Run(rest[1..], cursor, tc + 1, fc));
        }
      case Raised =>
        if fc + 1 <= 10 {
          RunCursors(rest[1..], cursor, tc, fc + 1);
          CursorsFollowStep(r, rest[1..], cursor, [], Run(rest[1..], cursor, tc, fc + 1));
        }
    }
  }

  /** Consecutive requests: after a non-empty page the next request carries
      the sort values of that page's last hit; after a timeout or an exception
      it is retried with the same `search_after`. */
  lemma RunRetries(rest: seq<Response>, cursor: Option<Json>, tc: nat, fc: nat)
    ensures var s := Run(rest, cursor, tc, fc);
      && |s.cursors| <= |rest| + 1
      && (forall i :: 0 <= i < |s.cursors| - 1 && rest[i].Page? && rest[i].hits != [] ==>
            s.cursors[i + 1] == Some(rest[i].hits[|rest[i].hits| - 1].sort))
      && (forall i :: 0 <= i < |s.cursors| - 1 && !rest[i].Page? ==> s.cursors[i + 1] == s.cursors[i])
  {
    var s := Run(rest, cursor, tc, fc);
    RunCursors(rest, cursor, tc, fc);
    forall i | 0 <= i < |s.cursors| - 1
      ensures s.cursors[i + 1] == NextCursor(rest[i], s.cursors[i])
    {
      assert rest[..i + 1][..i] == rest[..i];
      assert rest[..i + 1][i] == rest[i];
    }
  }

  /** The counters are never reset. Up to the first empty page, every raised
      response and every timeout past the tenth is a failure; the stream runs
      to the end exactly when those failures stay within ten, and it then yields
      every page's hits in order. */
  lemma {:induction false} RunCounts(rest: seq<Response>, cursor: Option<Json>, tc: nat, fc: nat)
    requires fc <= 10
    ensures CountsMatch(Run(rest, cursor, tc, fc), rest[..FirstEmptyPage(rest)], tc, fc)
    decreases |rest|, 1
  {
    if rest != [] && rest[0] != Page([]) {
      PrefixStep(rest);
      match rest[0]
      case Page(hits) => PageCounts(rest, cursor, tc, fc);
      case TimedOut => TimeoutCounts(rest, cursor, tc, fc);
      case Raised => RaisedCounts(rest, cursor, tc, fc);
    }
  }

  /** What `RunCounts` states of a stream `s` and the responses `p` before the
      first empty page. */
  predicate CountsMatch(s: Stream, p: seq<Response>, tc: nat, fc: nat) {
    var f := fc + Count(p, Raised) + LateTimeouts(tc, Count(p, TimedOut));
    && (s.outcome == Exhausted <==> f <= 10)
    && (s.outcome == Exhausted ==>
          && s.hits == PageHits(p) && |s.cursors| == |p| + 1
          && s.timeouts == tc + Count(p, TimedOut) && s.failures == f)
  }

  lemma {:induction false} PageCounts(rest: seq<Response>, cursor: Option<Json>, tc: nat, fc: nat)
    requires fc <= 10 && rest != [] && rest[0].Page? && rest[0].hits != []
    ensures CountsMatch(Run(rest, cursor, tc, fc), rest[..FirstEmptyPage(rest)], tc, fc)
    decreases |rest|, 0
  {
    var hits := rest[0].hits;
    PrefixStep(rest);
    RunCounts(rest[1..], Some(hits[|hits| - 1].sort), tc, fc);
  }

  lemma {:induction false} TimeoutCounts(rest: seq<Response>, cursor: Option<Json>, tc: nat, fc: nat)
    requires fc <= 10 && rest != [] && rest[0] == TimedOut
    ensures CountsMatch(Run(rest, cursor, tc, fc), rest[..FirstEmptyPage(rest)], tc, fc)
    decreases |rest|, 0
  {
    PrefixStep(rest);
    if tc + 1 > 10 {
      if fc + 1 <= 10 {
        RunCounts(rest[1..], cursor, tc + 1, fc + 1);
      }
    } else {
      RunCounts(rest[1..], cursor, tc + 1, fc);
    }
  }

  lemma {:induction false} RaisedCounts(rest: seq<Response>, cursor: Option<Json>, tc: nat, fc: nat)
    requires fc <= 10 && rest != [] && rest[0] == Raised
    ensures CountsMatch(Run(rest, cursor, tc, fc), rest[..FirstEmptyPage(rest)], tc, fc)
    decreases |rest|, 0
  {
    PrefixStep(rest);
    if fc + 1 <= 10 {
      RunCounts(rest[1..], cursor, tc, fc + 1);
    }
  }

  /** The responses before the first empty page, one response at a time. */
  lemma PrefixStep(rest: seq<Response>)
    requires rest != [] && rest[0] != Page([])
    ensures var p := rest[..FirstEmptyPage(rest)];
      var p' := rest[1..][..FirstEmptyPage(rest[1..])];
      && |p| == |p'| + 1
      && Count(p, Raised) == (if rest[0] == Raised then 1 else 0) + Count(p', Raised)
      && Count(p, TimedOut) == (if rest[0] == TimedOut then 1 else 0) + Count(p', TimedOut)
      && PageHits(p) == (if rest[0].Page? then rest[0].hits else []) + PageHits(p')
  {
    var p := rest[..FirstEmptyPage(rest)];
    var p' := rest[1..][..FirstEmptyPage(rest[1..])];
    assert p[1..] == p';
  }

  /** Whole-stream form of `RunCounts`, from fresh counters: the generator
      finishes exactly when, before the first empty page, the raised responses
      plus the timeouts beyond the tenth number at most ten. */
  lemma StreamFinishes(script: seq<Response>, cursor: Option<Json>)
    ensures var s := Run(script, cursor, 0, 0);
      var p := script[..FirstEmptyPage(script)];
      var late := if Count(p, TimedOut) > 10 then Count(p, TimedOut) - 10 else 0;
      && (s.outcome == Exhausted <==> Count(p, Raised) + late <= 10)
      && (s.outcome != Exhausted ==> s.outcome == GaveUp(TooManyFailures))
      && (s.outcome == Exhausted ==> s.hits == PageHits(p))
  {
    RunCounts(script, cursor, 0, 0);
    assert LateTimeouts(0, Count(script[..FirstEmptyPage(script)], TimedOut))
        == (if Count(script[..FirstEmptyPage(script)], TimedOut) > 10 then Count(script[..FirstEmptyPage(script)], TimedOut) - 10 else 0);
    TimeoutsNeverEscape(script, cursor, 0, 0);
    var s := Run(script, cursor, 0, 0);
    if s.outcome != Exhausted {
      assert s.outcome.reason != TooManyTimeouts;
    }
  }

  /** `n` timeouts in a row. */
  function Timeouts(n: nat): (rs: seq<Response>)
    ensures |rs| == n && forall i :: 0 <= i < n ==> rs[i] == TimedOut
  {
    if n == 0 then [] else [TimedOut] + Timeouts(n - 1)
  }

  /** From `tc` timeouts and `fc` failures, a backend that only times out is
      asked `Left(tc, fc)` more times before the generator gives up. */
  function Left(tc: nat, fc: nat): nat
    requires fc <= 10
  {
    (if tc < 10 then 10 - tc else 0) + (11 - fc)
  }

  lemma {:induction false} TimeoutsGiveUp(n: nat, cursor: Option<Json>, tc: nat, fc: nat)
    requires fc <= 10 && n >= Left(tc, fc)
    ensures var s := Run(Timeouts(n), cursor, tc, fc);
      && s.outcome == GaveUp(TooManyFailures) && s.hits == []
      && |s.cursors| == Left(tc, fc) && s.failures == 11
      && s.timeouts == tc + Left(tc, fc)
    decreases n
  {
    assert Timeouts(n)[1..] == Timeouts(n - 1);
    if tc + 1 > 10 {
      if fc + 1 <= 10 {
        TimeoutsGiveUp(n - 1, cursor, tc + 1, fc + 1);
      }
    } else {
      TimeoutsGiveUp(n - 1, cursor, tc + 1, fc);
    }
  }

  /** A backend that always times out is asked 21 times: ten timeouts are
      retried, the next eleven each count as a failure, and the eleventh
      failure ends the stream with `TooManyFailures`. */
  lemma TwentyOneTimeouts(n: nat, cursor: Option<Json>)
    requires n >= 21
    ensures var s := Run(Timeouts(n), cursor, 0, 0);
      && s.outcome == GaveUp(TooManyFailures) && |s.cursors| == 21 && s.hits == []
  {
    TimeoutsGiveUp(n, cursor, 0, 0);
  }

  /** The fields the client fetches include every key the two serializers
      read: the keys `json_serialize` pops, the four CSV fields, and the source
      field of every key the normalisation chain reads. */
  lemma FieldListCoversSerializers()
    ensures forall k :: k in PoppedKeys ==> k in FieldList
    ensures forall k :: k in CsvSourceFields ==> k in FieldList
    ensures forall k :: k in ChainKeys ==> SourceName(k) in FieldList
  {
  }
}
