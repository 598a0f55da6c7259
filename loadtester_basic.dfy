// The single-file load tester (EC2/Scripts/load_tester.py): worker threads
// loop until a stop event, every request adds a (status code, time) sample,
// and the control endpoints drive idle/running/stopping/finished. Threads,
// the HTTP session and the clock are left out: a sample, the current time and
// which threads are still alive are inputs.

module BasicLoadTester {
  import opened Common

  datatype Status = Idle | Running | Stopping | Finished

  /** One request: its status code, -1 when the request raised, and its duration in seconds. */
  datatype Sample = Sample(code: int, responseTime: real)

  /** What a worker appends: the response's status code, or -1 when the request raised. */
  function SampleOf(response: Option<int>, elapsed: real): (s: Sample)
    ensures response.None? ==> s.code == -1
    ensures response.Some? ==> s.code == response.value
    ensures s.responseTime == elapsed
  {
    Sample(if response.Some? then response.value else -1, elapsed)
  }

  // ---------------------------------------------------------------------
  // Counting

  /** The samples whose request succeeded, i.e. whose code is not -1. */
  function SuccessCount(samples: seq<Sample>): (n: nat)
    ensures n <= |samples|
  {
    if |samples| == 0 then 0
    else SuccessCount(samples[..|samples| - 1]) + (if samples[|samples| - 1].code != -1 then 1 else 0)
  }

  /** How many samples carry status code `c`. */
  function CodeCount(samples: seq<Sample>, c: int): (n: nat)
    ensures n <= |samples|
  {
    if |samples| == 0 then 0
    else CodeCount(samples[..|samples| - 1], c) + (if samples[|samples| - 1].code == c then 1 else 0)
  }

  /** The failures counted as total - success are exactly the samples with code -1. */
  lemma {:induction false} FailuresAreMinusOne(samples: seq<Sample>)
    ensures |samples| - SuccessCount(samples) == CodeCount(samples, -1)
  {
    if |samples| > 0 {
      FailuresAreMinusOne(samples[..|samples| - 1]);
    }
  }

  /** `Counter(status_codes)`, built one sample at a time. */
  function CodeCounts(samples: seq<Sample>): (m: map<int, nat>)
  {
    if |samples| == 0 then map[]
    else
      var m := CodeCounts(samples[..|samples| - 1]);
      var c := samples[|samples| - 1].code;
      m[c := (if c in m then m[c] else 0) + 1]
  }

  /** The counter has a key for each code that occurs, holding its number of samples. */
  lemma {:induction false} CodeCountsExact(samples: seq<Sample>, c: int)
    ensures c in CodeCounts(samples) <==> exists i :: 0 <= i < |samples| && samples[i].code == c
    ensures c in CodeCounts(samples) ==> CodeCounts(samples)[c] == CodeCount(samples, c)
    ensures c !in CodeCounts(samples) ==> CodeCount(samples, c) == 0
  {
    if |samples| > 0 {
      var init := samples[..|samples| - 1];
      CodeCountsExact(init, c);
      assert forall i :: 0 <= i < |init| ==> init[i] == samples[i];
    }
  }

  /** The status codes in sample order. */
  function Codes(samples: seq<Sample>): (codes: seq<int>)
    ensures |codes| == |samples|
  {
    if |samples| == 0 then [] else Codes(samples[..|samples| - 1]) + [samples[|samples| - 1].code]
  }

  function Get(m: map<int, nat>, k: int): nat {
    if k in m then m[k] else 0
  }

  /** The sum of the counts stored under `keys`. */
  function SumOver(m: map<int, nat>, keys: seq<int>): nat {
    if |keys| == 0 then 0 else SumOver(m, keys[..|keys| - 1]) + Get(m, keys[|keys| - 1])
  }

  lemma {:induction false} SumOverUpdate(m: map<int, nat>, keys: seq<int>, c: int, v: nat)
    requires NoDuplicates(keys)
    ensures SumOver(m[c := v], keys) == SumOver(m, keys) + (if c in keys then v - Get(m, c) else 0)
  {
    if |keys| > 0 {
      var init := keys[..|keys| - 1];
      assert NoDuplicates(init);
      SumOverUpdate(m, init, c, v);
      assert keys == init + [keys[|keys| - 1]];
      assert c in keys <==> c in init || c == keys[|keys| - 1];
      assert c in init ==> c != keys[|keys| - 1];
    }
  }

  /** Only codes that occur are counted. */
  lemma {:induction false} CountedCodesOccur(samples: seq<Sample>, c: int)
    ensures c in CodeCounts(samples) ==> c in Codes(samples)
  {
    if |samples| > 0 {
      CountedCodesOccur(samples[..|samples| - 1], c);
    }
  }

  /**
   * Summed over the distinct codes in first-occurrence order (the counter's
   * insertion order), the counts add up to the number of samples.
   */
  lemma {:induction false} CodeCountsTotal(samples: seq<Sample>)
    ensures SumOver(CodeCounts(samples), Dedup(Codes(samples))) == |samples|
  {
    if |samples| > 0 {
      var init := samples[..|samples| - 1];
      var m := CodeCounts(init);
      var c := samples[|samples| - 1].code;
      var codes := Codes(samples);
      var keys := Dedup(Codes(init));
      var m' := m[c := Get(m, c) + 1];
      assert CodeCounts(samples) == m';
      CodeCountsTotal(init);
      DedupProperties(Codes(init));
      assert codes[..|codes| - 1] == Codes(init) && codes[|codes| - 1] == c;
      SumOverUpdate(m, keys, c, Get(m, c) + 1);
      if c in Codes(init) {
        assert Dedup(codes) == keys;
      } else {
        CountedCodesOccur(init, c);
        assert Dedup(codes) == keys + [c];
        assert (keys + [c])[..|keys|] == keys;
        assert SumOver(m', keys + [c]) == SumOver(m', keys) + 1;
      }
    }
  }

  // ---------------------------------------------------------------------
  // get_status

  /** The integer part of the summary; the averages, extremes and rate are floating point and left out. */
  datatype Summary = Summary(totalRequests: nat, successRequests: nat, failedRequests: nat, statusCodeCounts: map<int, nat>)

  function SummaryOf(samples: seq<Sample>): (s: Summary)
    ensures s.totalRequests == |samples| && s.successRequests == SuccessCount(samples)
    ensures s.successRequests + s.failedRequests == s.totalRequests
    ensures s.statusCodeCounts == CodeCounts(samples)
  {
    Summary(|samples|, SuccessCount(samples), |samples| - SuccessCount(samples), CodeCounts(samples))
  }

  /** The failed requests are those with code -1, and the per-code counts sum to the total. */
  lemma SummaryConsistent(samples: seq<Sample>)
    ensures SummaryOf(samples).failedRequests == CodeCount(samples, -1)
    ensures SumOver(SummaryOf(samples).statusCodeCounts, Dedup(Codes(samples))) == SummaryOf(samples).totalRequests
  {
    FailuresAreMinusOne(samples);
    CodeCountsTotal(samples);
  }

  /** `int(request.form.get('numUsers', 10))`: the default, the parsed text, or None when int() raises. */
  function NumUsers(numUsers: Option<string>): (r: Option<int>)
    ensures numUsers.None? ==> r == Some(10)
    ensures numUsers.Some? ==> r == ParseInt(numUsers.value)
  {
    if numUsers.None? then Some(10) else ParseInt(numUsers.value)
  }

  /** `test_state` and `stop_event`: one instance stands for the process-wide globals. */
  class TestState {
    var status: Status
    /** The number of worker threads started by the current test. */
    var threads: nat
    var results: seq<Sample>
    var startTime: Option<real>
    var stopEvent: bool

    constructor()
      ensures status == Idle && threads == 0 && results == [] && startTime == None && !stopEvent
    {
      status := Idle;
      threads := 0;
      results := [];
      startTime := None;
      stopEvent := false;
    }

    /**
     * start_test: 409 only while running. Otherwise the state is set to
     * running and cleared first; then a non-integer user count raises (500),
     * a missing or empty URL answers 400, and only then are the workers
     * started. Both error answers leave the status running with no threads.
     */
    method StartTest(targetHost: Option<string>, numUsers: Option<string>, now: real) returns (code: int)
      modifies this
      ensures old(status) == Running ==> (code == 409 && status == old(status) && threads == old(threads)
        && results == old(results) && startTime == old(startTime) && stopEvent == old(stopEvent))
      ensures old(status) != Running ==> (status == Running && results == [] && startTime == Some(now) && !stopEvent)
      ensures old(status) != Running && NumUsers(numUsers).None? ==> code == 500 && threads == 0
      ensures old(status) != Running && NumUsers(numUsers).Some? && (targetHost.None? || targetHost.value == "")
        ==> code == 400 && threads == 0
      ensures old(status) != Running && NumUsers(numUsers).Some? && targetHost.Some? && targetHost.value != ""
        ==> code == 200 && threads == (if NumUsers(numUsers).value < 0 then 0 else NumUsers(numUsers).value)
    {
      if status == Running {
        return 409;
      }
      stopEvent := false;
      status := Running;
      threads := 0;
      results := [];
      startTime := Some(now);
      var n := NumUsers(numUsers);
      if n.None? {
        return 500;
      }
      if targetHost.None? || targetHost.value == "" {
        return 400;
      }
      var i := 0;
      while i < n.value
        invariant 0 <= i && threads == i
        invariant n.value >= 0 ==> i <= n.value
        invariant n.value < 0 ==> i == 0
        modifies this`threads
      {
        threads := threads + 1;
        i := i + 1;
      }
      code := 200;
    }

    /** A worker thread appends every sample it takes, whatever the status. */
    method RecordSample(s: Sample)
      modifies this`results
      ensures results == old(results) + [s]
    {
      results := results + [s];
    }

    /** Whether a worker goes on with another request. */
    function WorkerContinues(): (b: bool)
      reads this
      ensures b <==> !stopEvent
    {
      !stopEvent
    }

    /** stop_test: only running moves to stopping, and then the stop event is set. */
    method StopTest()
      modifies this`status, this`stopEvent
      ensures old(status) == Running ==> status == Stopping && stopEvent
      ensures old(status) != Running ==> status == old(status) && stopEvent == old(stopEvent)
    {
      if status != Running {
        return;
      }
      status := Stopping;
      stopEvent := true;
    }

    /** force_reset: from any status, idle with nothing recorded and the stop event set. */
    method ForceReset()
      modifies this
      ensures status == Idle && threads == 0 && results == [] && startTime == None && stopEvent
    {
      stopEvent := true;
      status := Idle;
      threads := 0;
      results := [];
      startTime := None;
    }

    /**
     * get_status: a running test none of whose threads is alive becomes
     * finished (stopping is never advanced); a summary comes only with results
     * and a running or finished status.
     */
    method GetStatus(alive: set<nat>) returns (reported: Status, summary: Option<Summary>)
      modifies this`status
      ensures var anyAlive := exists t :: 0 <= t < threads && t in alive;
        status == (if old(status) == Running && !anyAlive then Finished else old(status))
      ensures reported == status
      ensures summary.Some? <==> |results| > 0 && (status == Running || status == Finished)
      ensures summary.Some? ==> summary.value == SummaryOf(results)
    {
      if status == Running && !(exists t :: 0 <= t < threads && t in alive) {
        status := Finished;
      }
      reported := status;
      if |results| > 0 && (reported == Running || reported == Finished) {
        summary := Some(SummaryOf(results));
      } else {
        summary := None;
      }
    }
  }
}
