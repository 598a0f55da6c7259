// The ramping HTTP load tester (EC2/Scripts/LoadTester.py): the shared test
// state, its status machine, the result categories, the end-of-test summary
// and the ten-second aggregator. Threads are modelled as a sequence of the
// steps they take under the state lock; HTTP requests, sleeps and the clock
// are left out, so a request result is an input.

module RampingLoadTester {
  import opened Common

  datatype Status = Idle | Ramping | Running | Stopping | Finished

  /** The two statuses in which users keep sending requests. */
  predicate Active(s: Status) {
    s == Ramping || s == Running
  }

  // ---------------------------------------------------------------------
  // Categories

  datatype Category = Success | RateLimit | ClientError | ServerError | NetworkError | OtherError

  /** `categorize_result`: a missing status code is a network error; 429 is checked before other 4xx. */
  function Categorize(code: Option<int>): (c: Category)
    ensures c == NetworkError <==> code.None?
    ensures c == Success <==> code.Some? && 200 <= code.value < 300
    ensures c == RateLimit <==> code == Some(429)
    ensures c == ClientError <==> code.Some? && 400 <= code.value < 500 && code.value != 429
    ensures c == ServerError <==> code.Some? && 500 <= code.value < 600
    ensures c == OtherError <==> code.Some? && !(200 <= code.value < 300) && !(400 <= code.value < 600)
  {
    match code
    case None => NetworkError
    case Some(v) =>
      if 200 <= v < 300 then Success
      else if v == 429 then RateLimit
      else if 400 <= v < 500 then ClientError
      else if 500 <= v < 600 then ServerError
      else OtherError
  }

  /** One request as the worker reports it: no status code when the request or its body failed. */
  datatype RequestResult = RequestResult(statusCode: Option<int>, duration: real, error: Option<string>)

  /** How many results fall into category `c`. */
  function CountOf(results: seq<RequestResult>, c: Category): (n: nat)
    ensures n <= |results|
  {
    if |results| == 0 then 0
    else CountOf(results[..|results| - 1], c) + (if Categorize(results[|results| - 1].statusCode) == c then 1 else 0)
  }

  /** Every result is in exactly one category, so the six counts add up to the total. */
  lemma {:induction false} CountsPartition(results: seq<RequestResult>)
    ensures CountOf(results, Success) + CountOf(results, RateLimit) + CountOf(results, ClientError)
            + CountOf(results, ServerError) + CountOf(results, NetworkError) + CountOf(results, OtherError) == |results|
  {
    if |results| > 0 {
      CountsPartition(results[..|results| - 1]);
    }
  }

  /** A category has count zero exactly when no result falls into it. */
  lemma {:induction false} CountZero(results: seq<RequestResult>, c: Category)
    ensures CountOf(results, c) == 0 <==> forall i :: 0 <= i < |results| ==> Categorize(results[i].statusCode) != c
  {
    if |results| > 0 {
      var init := results[..|results| - 1];
      CountZero(init, c);
      assert forall i :: 0 <= i < |init| ==> init[i] == results[i];
    }
  }

  // ---------------------------------------------------------------------
  // Sorting, minimum, maximum

  predicate Sorted(s: seq<real>) {
    forall i, j :: 0 <= i < j < |s| ==> s[i] <= s[j]
  }

  function Insert(x: real, s: seq<real>): (r: seq<real>)
    requires Sorted(s)
    ensures Sorted(r)
    ensures multiset(r) == multiset(s) + multiset{x}
  {
    if |s| == 0 then [x]
    else if x <= s[0] then
      ConsSorted(x, s);
      [x] + s
    else
      var t := Insert(x, s[1..]);
      assert s == [s[0]] + s[1..];
      assert multiset(t) == multiset(s[1..] + [x]);
      LowerBoundKept(s[0], s[1..] + [x], t);
      ConsSorted(s[0], t);
      [s[0]] + t
  }

  /** A sorted sequence stays sorted behind a head no greater than its first element. */
  lemma ConsSorted(h: real, t: seq<real>)
    requires Sorted(t) && (|t| > 0 ==> h <= t[0])
    ensures Sorted([h] + t)
  {
    var u := [h] + t;
    forall i, j | 0 <= i < j < |u| ensures u[i] <= u[j] {
      if i > 0 {
        assert u[i] == t[i - 1] && u[j] == t[j - 1];
      } else {
        assert u[j] == t[j - 1];
        SortedMono(t, 0, j - 1);
      }
    }
  }

  /** A lower bound of every element carries over to a permutation. */
  lemma LowerBoundKept(b: real, a: seq<real>, c: seq<real>)
    requires multiset(c) == multiset(a) && forall i :: 0 <= i < |a| ==> b <= a[i]
    ensures forall i :: 0 <= i < |c| ==> b <= c[i]
  {
    forall i | 0 <= i < |c| ensures b <= c[i] {
      assert c[i] in multiset(a);
    }
  }

  /** `list.sort()` on reals: a sorted permutation. */
  function SortReals(s: seq<real>): (r: seq<real>)
    ensures Sorted(r)
    ensures multiset(r) == multiset(s)
  {
    if |s| == 0 then []
    else
      assert s == [s[0]] + s[1..];
      Insert(s[0], SortReals(s[1..]))
  }

  function SeqMin(s: seq<real>): (m: real)
    requires |s| > 0
    ensures m in s
    ensures forall i :: 0 <= i < |s| ==> m <= s[i]
  {
    if |s| == 1 then s[0]
    else
      var m := SeqMin(s[1..]);
      assert forall i :: 1 <= i < |s| ==> s[i] == s[1..][i - 1];
      if s[0] <= m then s[0] else m
  }

  function SeqMax(s: seq<real>): (m: real)
    requires |s| > 0
    ensures m in s
    ensures forall i :: 0 <= i < |s| ==> s[i] <= m
  {
    if |s| == 1 then s[0]
    else
      var m := SeqMax(s[1..]);
      assert forall i :: 1 <= i < |s| ==> s[i] == s[1..][i - 1];
      if s[0] >= m then s[0] else m
  }

  /** The ends of a sorted permutation are the minimum and the maximum. */
  lemma SortedEnds(s: seq<real>, t: seq<real>)
    requires |s| > 0 && Sorted(t) && multiset(t) == multiset(s)
    ensures |t| == |s| && t[0] == SeqMin(s) && t[|t| - 1] == SeqMax(s)
  {
    assert |t| == |multiset(t)| == |s|;
    SortedFirstIsMin(s, t);
    SortedLastIsMax(s, t);
  }

  lemma SortedFirstIsMin(s: seq<real>, t: seq<real>)
    requires |s| > 0 && |t| > 0 && Sorted(t) && multiset(t) == multiset(s)
    ensures t[0] == SeqMin(s)
  {
    var lo := SeqMin(s);
    assert lo in multiset(t);
    var a :| 0 <= a < |t| && t[a] == lo;
    SortedMono(t, 0, a);
    SortedIndexIn(s, t, 0);
  }

  lemma SortedLastIsMax(s: seq<real>, t: seq<real>)
    requires |s| > 0 && |t| > 0 && Sorted(t) && multiset(t) == multiset(s)
    ensures t[|t| - 1] == SeqMax(s)
  {
    var hi := SeqMax(s);
    assert hi in multiset(t);
    var b :| 0 <= b < |t| && t[b] == hi;
    SortedMono(t, b, |t| - 1);
    SortedIndexIn(s, t, |t| - 1);
  }

  // ---------------------------------------------------------------------
  // The end-of-test summary (calculate_summary)

  /** The durations of the successful results, in order. */
  function SuccessTimes(results: seq<RequestResult>): (t: seq<real>)
    ensures |t| == CountOf(results, Success)
  {
    if |results| == 0 then []
    else
      var last := results[|results| - 1];
      SuccessTimes(results[..|results| - 1]) + (if Categorize(last.statusCode) == Success then [last.duration] else [])
  }

  /** Python's `int(n * p)` for p = pct/100, taken exactly. */
  function PercentileIndex(n: nat, pct: nat): nat {
    n * pct / 100
  }

  lemma PercentileIndexBounds(n: nat)
    requires n > 0
    ensures PercentileIndex(n, 50) <= PercentileIndex(n, 95) <= PercentileIndex(n, 99) < n
  {
    assert n * 50 <= n * 95 <= n * 99 < n * 100;
  }

  datatype Distribution = Distribution(success: nat, rateLimit: nat, clientError: nat, serverError: nat, networkError: nat)

  datatype Timing = Timing(minTime: real, maxTime: real, p50: real, p95: real, p99: real)

  /** `{}` for no results; the total, the five-way distribution and, when something succeeded, the timing. */
  datatype Summary = NoSummary | Summary(totalRequests: nat, distribution: Distribution, timing: Option<Timing>)

  function DistributionTotal(d: Distribution): nat {
    d.success + d.rateLimit + d.clientError + d.serverError + d.networkError
  }

  function TimingOf(times: seq<real>): (t: Timing)
    requires |times| > 0
  {
    var sorted := SortReals(times);
    var n := |times|;
    PercentileIndexBounds(n);
    assert |sorted| == |multiset(sorted)| == n;
    Timing(SeqMin(times), SeqMax(times),
           sorted[PercentileIndex(n, 50)], sorted[PercentileIndex(n, 95)], sorted[PercentileIndex(n, 99)])
  }

  function CalculateSummary(results: seq<RequestResult>): (s: Summary)
    ensures s.NoSummary? <==> |results| == 0
    ensures s.Summary? ==> s.totalRequests == |results|
    ensures s.Summary? ==> s.distribution == Distribution(CountOf(results, Success), CountOf(results, RateLimit),
      CountOf(results, ClientError), CountOf(results, ServerError), CountOf(results, NetworkError))
    ensures s.Summary? ==> (s.timing.Some? <==> CountOf(results, Success) > 0)
  {
    if |results| == 0 then NoSummary
    else
      var times := SuccessTimes(results);
      Summary(|results|,
              Distribution(CountOf(results, Success), CountOf(results, RateLimit), CountOf(results, ClientError),
                           CountOf(results, ServerError), CountOf(results, NetworkError)),
              if |times| > 0 then Some(TimingOf(times)) else None)
  }

  /** The distribution leaves out other_error: it reaches the total exactly when there was none. */
  lemma DistributionBound(results: seq<RequestResult>)
    requires |results| > 0
    ensures DistributionTotal(CalculateSummary(results).distribution) <= |results|
    ensures DistributionTotal(CalculateSummary(results).distribution) == |results|
            <==> forall i :: 0 <= i < |results| ==> Categorize(results[i].statusCode) != OtherError
  {
    CountsPartition(results);
    CountZero(results, OtherError);
  }

  /** Every reported time is a success time, and min <= p50 <= p95 <= p99 <= max. */
  lemma TimingOrdered(times: seq<real>)
    requires |times| > 0
    ensures var t := TimingOf(times);
      t.minTime <= t.p50 <= t.p95 <= t.p99 <= t.maxTime
      && t.p50 in times && t.p95 in times && t.p99 in times
      && (forall i :: 0 <= i < |times| ==> t.minTime <= times[i] <= t.maxTime)
  {
    var sorted := SortReals(times);
    var n := |times|;
    SortedEnds(times, sorted);
    PercentileIndexBounds(n);
    var i50, i95, i99 := PercentileIndex(n, 50), PercentileIndex(n, 95), PercentileIndex(n, 99);
    SortedMono(sorted, 0, i50);
    SortedMono(sorted, i50, i95);
    SortedMono(sorted, i95, i99);
    SortedMono(sorted, i99, n - 1);
    SortedIndexIn(times, sorted, i50);
    SortedIndexIn(times, sorted, i95);
    SortedIndexIn(times, sorted, i99);
  }

  lemma SortedMono(s: seq<real>, i: nat, j: nat)
    requires Sorted(s) && i <= j < |s|
    ensures s[i] <= s[j]
  {
  }

  lemma SortedIndexIn(s: seq<real>, t: seq<real>, k: nat)
    requires multiset(t) == multiset(s) && k < |t|
    ensures t[k] in s
  {
    assert t[k] in multiset(t);
  }

  // ---------------------------------------------------------------------
  // Form parameters and request headers

  /** A form value after start_test's conversion. */
  datatype Param = FloatParam(f: real) | IntParam(i: int) | TextParam(s: string)

  /** float() when the value holds a '.', int() otherwise; the text itself when the conversion fails. */
  function ParseParam(value: string): (p: Param)
    ensures p.FloatParam? <==> Contains(value, ".") && FloatText(Strip(value)).Some?
    ensures p.FloatParam? ==> FloatText(Strip(value)) == Some(p.f)
    ensures p.IntParam? <==> !Contains(value, ".") && ParseInt(value).Some?
    ensures p.IntParam? ==> ParseInt(value) == Some(p.i)
    ensures p.TextParam? ==> p.s == value
  {
    if Contains(value, ".") then
      match FloatText(Strip(value))
      case Some(f) => FloatParam(f)
      case None => TextParam(value)
    else
      match ParseInt(value)
      case Some(i) => IntParam(i)
      case None => TextParam(value)
  }

  /** A number written by str() comes back as the same int. */
  lemma ParseParamOfInt(i: int)
    ensures ParseParam(IntToString(i)) == IntParam(i)
  {
    ParseIntOfIntToString(i);
    var s := IntToString(i);
    var d := NatToString(if i < 0 then -i else i);
    assert Free(d, '.');
    if i < 0 {
      FreeConcat("-", d, '.');
    }
    FreeNotContains(s, '.');
  }

  /** An exponent form with a '.' is a number, as float() reads it: '1.5e3' is 1500.0. */
  lemma ParseParamExponent()
    ensures ParseParam("1.5e3") == FloatParam(1500.0)
  {
    var v := "1.5e3";
    StripUnchanged(v);
    FloatTextExponent();
    assert OccursAt(v, ".", 1);
    assert Contains(v, ".");
  }

  /** An underscore form with a '.' is a number, as float() reads it: '1_0.5' is 10.5. */
  lemma ParseParamUnderscore()
    ensures ParseParam("1_0.5") == FloatParam(10.5)
  {
    var v := "1_0.5";
    StripUnchanged(v);
    FloatTextUnderscore();
    assert OccursAt(v, ".", 3);
    assert Contains(v, ".");
  }

  predicate HasColon(line: string) {
    IndexOf(line, ':') >= 0
  }

  /** The text before the first ':', stripped. */
  function HeaderKey(line: string): string
    requires HasColon(line)
  {
    Strip(line[..IndexOf(line, ':')])
  }

  /** The text after the first ':', stripped. */
  function HeaderValue(line: string): string
    requires HasColon(line)
  {
    Strip(line[IndexOf(line, ':') + 1..])
  }

  /** The dict comprehension over the header lines: later lines override earlier ones. */
  function HeadersOf(lines: seq<string>): map<string, string> {
    if |lines| == 0 then map[]
    else
      var m := HeadersOf(lines[..|lines| - 1]);
      var line := lines[|lines| - 1];
      if HasColon(line) then m[HeaderKey(line) := HeaderValue(line)] else m
  }

  /** Line `i` holds a colon and names header `k`. */
  predicate NamesHeader(lines: seq<string>, i: int, k: string) {
    0 <= i < |lines| && HasColon(lines[i]) && HeaderKey(lines[i]) == k
  }

  /** The index of the last line naming header `k`, or -1. */
  function LastNaming(lines: seq<string>, k: string): (r: int)
    ensures -1 <= r < |lines|
    ensures r >= 0 ==> NamesHeader(lines, r, k)
    ensures forall j :: r < j < |lines| ==> !NamesHeader(lines, j, k)
  {
    if |lines| == 0 then -1
    else if NamesHeader(lines, |lines| - 1, k) then |lines| - 1
    else
      var init := lines[..|lines| - 1];
      NamesInPrefix(lines, k);
      LastNaming(init, k)
  }

  /** Dropping the last line changes no earlier line. */
  lemma NamesInPrefix(lines: seq<string>, k: string)
    requires |lines| > 0
    ensures forall j :: 0 <= j < |lines| - 1 ==> (NamesHeader(lines[..|lines| - 1], j, k) <==> NamesHeader(lines, j, k))
  {
    forall j | 0 <= j < |lines| - 1
      ensures NamesHeader(lines[..|lines| - 1], j, k) <==> NamesHeader(lines, j, k)
    {
      assert lines[..|lines| - 1][j] == lines[j];
    }
  }

  /** The headers are the keys of lines with a colon, each with the value of its last such line. */
  lemma {:induction false} HeadersOfSpec(lines: seq<string>, k: string)
    ensures k in HeadersOf(lines) <==> LastNaming(lines, k) >= 0
    ensures k in HeadersOf(lines) ==> HeadersOf(lines)[k] == HeaderValue(lines[LastNaming(lines, k)])
  {
    if |lines| > 0 {
      var init := lines[..|lines| - 1];
      HeadersOfSpec(init, k);
      if !NamesHeader(lines, |lines| - 1, k) {
        assert LastNaming(lines, k) == LastNaming(init, k);
        if LastNaming(init, k) >= 0 {
          assert init[LastNaming(init, k)] == lines[LastNaming(init, k)];
        }
      }
    }
  }

  /** Some line with a colon names `k` exactly when its last such line does. */
  lemma LastNamingExists(lines: seq<string>, k: string)
    ensures LastNaming(lines, k) >= 0 <==> exists i :: NamesHeader(lines, i, k)
  {
    var r := LastNaming(lines, k);
    if r < 0 {
      assert forall i :: !NamesHeader(lines, i, k);
    }
  }

  /**
   * The headers run_load_test sends: the `headers` parameter stripped and
   * split into lines; a non-text parameter makes `.strip()` raise, which
   * gives no headers.
   */
  function ParseHeaders(params: map<string, Param>): (h: map<string, string>)
    ensures "headers" !in params ==> h == map[]
    ensures "headers" in params && !params["headers"].TextParam? ==> h == map[]
    ensures "headers" in params && params["headers"].TextParam? ==> h == HeadersOf(Split(Strip(params["headers"].s), "\n"))
  {
    if "headers" !in params then HeadersOf([""])
    else
      match params["headers"]
      case TextParam(t) => HeadersOf(Split(Strip(t), "\n"))
      case _ => map[]
  }

  /**
   * The number of users run_load_test starts, or None when `users` is not an
   * int or `ramp_up` is not a number: the comparisons or `range()` raise and
   * the run thread dies with the status left at ramping.
   */
  function UserCount(params: map<string, Param>): (r: Option<int>)
    ensures r.Some? <==> ("users" !in params || params["users"].IntParam?)
                         && ("ramp_up" !in params || !params["ramp_up"].TextParam?)
    ensures r.Some? && "users" !in params ==> r.value == 1
    ensures r.Some? && "users" in params ==> r.value == params["users"].i
  {
    var users := if "users" in params then params["users"] else IntParam(1);
    var rampOk := "ramp_up" !in params || !params["ramp_up"].TextParam?;
    if users.IntParam? && rampOk then Some(users.i) else None
  }

  // ---------------------------------------------------------------------
  // The shared test state

  /** `live_stats`: `{"total": 0}` after a start, `{}` when nothing can be reported, else the counts. */
  datatype LiveStats = ZeroTotal | NoStats | Live(success: nat, errors: nat, total: nat)

  function LiveStatsOf(results: seq<RequestResult>, startTimeSet: bool): (l: LiveStats)
    ensures l.Live? <==> |results| > 0 && startTimeSet
    ensures l.Live? ==> l.total == |results| && l.success == CountOf(results, Success)
    ensures l.Live? ==> l.success + l.errors == l.total
  {
    if |results| > 0 && startTimeSet then
      Live(CountOf(results, Success), |results| - CountOf(results, Success), |results|)
    else NoStats
  }

  /** The errors reported live are exactly the results of every category but success. */
  lemma LiveErrors(results: seq<RequestResult>)
    requires |results| > 0
    ensures LiveStatsOf(results, true).errors == CountOf(results, RateLimit) + CountOf(results, ClientError)
            + CountOf(results, ServerError) + CountOf(results, NetworkError) + CountOf(results, OtherError)
  {
    CountsPartition(results);
  }

  /** The summary of one ten-second window. */
  datatype IntervalPoint = IntervalPoint(timestamp: string, requests: nat, successTimes: seq<real>)

  /** The form, converted key by key. */
  method ParseForm(form: map<string, string>) returns (params: map<string, Param>)
    ensures params.Keys == form.Keys
    ensures forall k :: k in form ==> params[k] == ParseParam(form[k])
  {
    params := map[];
    var todo := form.Keys;
    while todo != {}
      invariant todo <= form.Keys
      invariant params.Keys == form.Keys - todo
      invariant forall k :: k in params ==> params[k] == ParseParam(form[k])
      decreases todo
    {
      var k :| k in todo;
      params := params[k := ParseParam(form[k])];
      todo := todo - {k};
    }
  }

  /** `test_state`: one instance stands for the process-wide dictionary. */
  class LoadTest {
    var status: Status
    var params: map<string, Param>
    var liveStats: LiveStats
    var results: seq<RequestResult>
    var summary: Summary
    var timeSeries: seq<IntervalPoint>
    /** Whether a run has ever stored `start_time`; the key is never removed afterwards. */
    var startTimeSet: bool

    constructor()
      ensures status == Idle && params == map[] && liveStats == ZeroTotal && results == []
      ensures summary == NoSummary && timeSeries == [] && !startTimeSet
    {
      status := Idle;
      params := map[];
      liveStats := ZeroTotal;
      results := [];
      summary := NoSummary;
      timeSeries := [];
      startTimeSet := false;
    }

    /** start_test: 409 while ramping or running; otherwise a full reset and a redirect (the run thread is started separately). */
    method StartTest(form: map<string, string>) returns (code: int)
      modifies this
      ensures Active(old(status)) ==> (code == 409 && status == old(status) && params == old(params)
        && liveStats == old(liveStats) && results == old(results) && summary == old(summary)
        && timeSeries == old(timeSeries))
      ensures !Active(old(status)) ==> (code == 302 && status == Idle && results == [] && summary == NoSummary
        && liveStats == ZeroTotal && timeSeries == []
        && params.Keys == form.Keys && (forall k :: k in form ==> params[k] == ParseParam(form[k])))
      ensures startTimeSet == old(startTimeSet)
    {
      if Active(status) {
        return 409;
      }
      var p := ParseForm(form);
      params := p;
      status := Idle;
      results := [];
      summary := NoSummary;
      liveStats := ZeroTotal;
      timeSeries := [];
      code := 302;
    }

    /** stop_test: only ramping and running move to stopping. */
    method StopTest()
      modifies this`status
      ensures status == if Active(old(status)) then Stopping else old(status)
    {
      if Active(status) {
        status := Stopping;
      }
    }

    /**
     * The first steps of run_load_test: record the start time, parse the
     * headers, set ramping, and work out how many users to start (None: the
     * thread raises here and the status stays ramping).
     */
    method BeginRun() returns (headers: map<string, string>, users: Option<int>)
      modifies this`status, this`startTimeSet
      ensures startTimeSet && status == Ramping
      ensures headers == ParseHeaders(params) && users == UserCount(params)
    {
      startTimeSet := true;
      headers := ParseHeaders(params);
      status := Ramping;
      users := UserCount(params);
    }

    /** Whether a user thread, or the ramp loop, may go on. */
    function MayContinue(): (b: bool)
      reads this
      ensures b <==> status == Ramping || status == Running
    {
      Active(status)
    }

    /** After every user has been started: ramping becomes running, any other status stays. */
    method EndRamp()
      modifies this`status
      ensures status == if old(status) == Ramping then Running else old(status)
    {
      if status == Ramping {
        status := Running;
      }
    }

    /** After every user thread has ended: the summary of all results, and finished whatever the status was. */
    method FinishRun()
      modifies this`summary, this`status
      ensures summary == CalculateSummary(results) && status == Finished
    {
      summary := CalculateSummary(results);
      status := Finished;
    }

    /** user_simulation keeps a result only while the test is ramping or running. */
    method RecordResult(r: RequestResult)
      modifies this`results
      ensures results == if Active(status) then old(results) + [r] else old(results)
    {
      if Active(status) {
        results := results + [r];
      }
    }

    /** get_status refreshes the live statistics from the results. */
    method GetStatus()
      modifies this`liveStats
      ensures liveStats == LiveStatsOf(results, startTimeSet)
    {
      liveStats := LiveStatsOf(results, startTimeSet);
    }
  }

  /** Python's `s[k:]`: empty once `k` is past the end. */
  function SliceFrom<T>(s: seq<T>, k: nat): (r: seq<T>)
    ensures k <= |s| ==> r == s[k..]
    ensures k >= |s| ==> r == []
  {
    if k <= |s| then s[k..] else []
  }

  /** The point added for a non-empty window of new results. */
  function IntervalOf(timestamp: string, window: seq<RequestResult>): (p: IntervalPoint)
    ensures p.requests == |window| && |p.successTimes| == CountOf(window, Success)
  {
    IntervalPoint(timestamp, |window|, SuccessTimes(window))
  }

  /** data_aggregator: its index into the results survives between ticks. */
  class Aggregator {
    var lastProcessed: nat

    constructor()
      ensures lastProcessed == 0
    {
      lastProcessed := 0;
    }

    /**
     * One tick: outside ramping/running the index and the series are reset;
     * otherwise the results after the index form the window, the index moves
     * to the end, and a non-empty window adds a point.
     */
    method Tick(test: LoadTest, timestamp: string) returns (window: seq<RequestResult>)
      modifies this, test`timeSeries
      ensures !Active(test.status) ==> lastProcessed == 0 && test.timeSeries == [] && window == []
      ensures Active(test.status) ==> (window == SliceFrom(test.results, old(lastProcessed))
        && lastProcessed == |test.results|
        && test.timeSeries == old(test.timeSeries) + (if window == [] then [] else [IntervalOf(timestamp, window)]))
    {
      if !Active(test.status) {
        lastProcessed := 0;
        test.timeSeries := [];
        return [];
      }
      window := SliceFrom(test.results, lastProcessed);
      lastProcessed := |test.results|;
      if window != [] {
        test.timeSeries := test.timeSeries + [IntervalOf(timestamp, window)];
      }
    }
  }

  /** Two ticks over growing results see consecutive windows, so nothing is counted twice or missed. */
  lemma WindowsConsecutive(r1: seq<RequestResult>, r2: seq<RequestResult>, last: nat)
    requires last <= |r1| <= |r2| && r1 == r2[..|r1|]
    ensures r2[..last] + SliceFrom(r1, last) + SliceFrom(r2, |r1|) == r2
  {
    assert r2[..last] + r1[last..] == r2[..|r1|];
  }
}
