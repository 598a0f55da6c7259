// The JMeter control server (EC2/Scripts/JmeterServer.py): the parser for
// JMeter's last summariser line, the assembly of the JMeter command line
// from the upload form, the process bookkeeping of upload_and_start, and the
// S3 key and content-type rules of the report upload. Running JMeter, the
// file system, S3 and the clock are left out; their answers are inputs.

module JmeterServer {
  import opened Common

  // ---------------------------------------------------------------------
  // Finding the last summary line

  const SummaryMarker := "INFO o.a.j.r.Summariser: summary "

  /** The index of the last line holding the summariser marker, or -1 (the reversed search). */
  function LastSummaryIndex(lines: seq<string>): (r: int)
    ensures -1 <= r < |lines|
    ensures r >= 0 ==> Contains(lines[r], SummaryMarker)
    ensures forall j :: r < j < |lines| ==> !Contains(lines[j], SummaryMarker)
  {
    if |lines| == 0 then -1
    else if Contains(lines[|lines| - 1], SummaryMarker) then |lines| - 1
    else
      var init := lines[..|lines| - 1];
      assert forall j :: 0 <= j < |init| ==> init[j] == lines[j];
      LastSummaryIndex(init)
  }

  // ---------------------------------------------------------------------
  // The two summary patterns, matched left to right
  //
  // Every run in the patterns is followed by text that cannot start with a
  // character of the run (`\d+` by `\s*` and a letter or `(`, `[\d.]+` by
  // `/s` or `%)`, `\s*` by a literal), so greedy matching without
  // backtracking finds exactly the matches the regular expressions find.

  /** The non-capturing parts: `\s*` and literal text. */
  datatype Filler = Spaces | Lit(text: string)

  /** The capturing groups: `(\d+)`, `([\d\.]+)` and `(\d{2}:\d{2}:\d{2})`. */
  datatype Group = DigitGroup | NumberGroup | ClockGroup

  /** Fillers leading up to one group. */
  datatype Step = Step(lead: seq<Filler>, group: Group)

  datatype Pattern = Pattern(steps: seq<Step>, trailer: seq<Filler>)

  function FinalPattern(): Pattern {
    Pattern([Step([Lit("summary"), Spaces, Lit("="), Spaces], DigitGroup),
             Step([Spaces, Lit("in"), Spaces], ClockGroup),
             Step([Spaces, Lit("="), Spaces], NumberGroup),
             Step([Lit("/s"), Spaces, Lit("Avg:"), Spaces], DigitGroup),
             Step([Spaces, Lit("Min:"), Spaces], DigitGroup),
             Step([Spaces, Lit("Max:"), Spaces], DigitGroup),
             Step([Spaces, Lit("Err:"), Spaces], DigitGroup),
             Step([Spaces, Lit("(")], NumberGroup)],
            [Lit("%)")])
  }

  function IncrementalPattern(): Pattern {
    Pattern([Step([Lit("summary"), Spaces, Lit("+"), Spaces], DigitGroup),
             Step([Spaces, Lit("in"), Spaces], ClockGroup),
             Step([Spaces, Lit("="), Spaces], NumberGroup),
             Step([Lit("/s"), Spaces, Lit("Avg:"), Spaces], DigitGroup),
             Step([Spaces, Lit("Min:"), Spaces], DigitGroup),
             Step([Spaces, Lit("Max:"), Spaces], DigitGroup),
             Step([Spaces, Lit("Err:"), Spaces], DigitGroup),
             Step([Spaces, Lit("(")], NumberGroup),
             Step([Lit("%)"), Spaces, Lit("Active:"), Spaces], DigitGroup),
             Step([Spaces, Lit("Started:"), Spaces], DigitGroup),
             Step([Spaces, Lit("Finished:"), Spaces], DigitGroup)],
            [])
  }

  predicate InNumber(c: char) {
    IsDigit(c) || c == '.'
  }

  /** The end of the longest run of spaces from `i`. */
  function SpacesEnd(s: string, i: nat): (j: nat)
    requires i <= |s|
    ensures i <= j <= |s|
    ensures forall k :: i <= k < j ==> IsSpace(s[k])
    ensures j < |s| ==> !IsSpace(s[j])
    decreases |s| - i
  {
    if i < |s| && IsSpace(s[i]) then SpacesEnd(s, i + 1) else i
  }

  /** The end of the longest run of digits (or, with `dots`, digits and '.') from `i`. */
  function RunEnd(s: string, i: nat, dots: bool): (j: nat)
    requires i <= |s|
    ensures i <= j <= |s|
    ensures forall k :: i <= k < j ==> IsDigit(s[k]) || (dots && s[k] == '.')
    ensures j < |s| ==> !(IsDigit(s[j]) || (dots && s[j] == '.'))
    decreases |s| - i
  {
    if i < |s| && (IsDigit(s[i]) || (dots && s[i] == '.')) then RunEnd(s, i + 1, dots) else i
  }

  predicate IsClock(c: string) {
    |c| == 8 && IsDigit(c[0]) && IsDigit(c[1]) && c[2] == ':' && IsDigit(c[3]) && IsDigit(c[4])
    && c[5] == ':' && IsDigit(c[6]) && IsDigit(c[7])
  }

  /** What a group may capture. */
  predicate Fits(text: string, g: Group) {
    match g
    case DigitGroup => |text| > 0 && AllDigits(text)
    case NumberGroup => |text| > 0 && forall k :: 0 <= k < |text| ==> InNumber(text[k])
    case ClockGroup => IsClock(text)
  }

  /** Where the fillers matched from `i` end. */
  function MatchFillers(s: string, i: nat, fs: seq<Filler>): (r: Option<nat>)
    requires i <= |s|
    ensures r.Some? ==> i <= r.value <= |s|
    decreases |fs|
  {
    if |fs| == 0 then Some(i)
    else
      var j := match fs[0]
        case Spaces => Some(SpacesEnd(s, i))
        case Lit(t) => if i + |t| <= |s| && s[i..i + |t|] == t then Some(i + |t|) else None;
      if j.None? then None else MatchFillers(s, j.value, fs[1..])
  }

  /** Where a group matched at `i` ends, and what it captured. */
  function MatchGroup(s: string, i: nat, g: Group): (r: Option<(nat, string)>)
    requires i <= |s|
    ensures r.Some? ==> i <= r.value.0 <= |s| && r.value.1 == s[i..r.value.0] && Fits(r.value.1, g)
  {
    match g
    case ClockGroup => if i + 8 <= |s| && IsClock(s[i..i + 8]) then Some((i + 8, s[i..i + 8])) else None
    case _ =>
      var j := RunEnd(s, i, g.NumberGroup?);
      if j == i then None else Some((j, s[i..j]))
  }

  /** The groups captured by matching the steps and then the trailer at `i`, or None. */
  function MatchSteps(s: string, i: nat, steps: seq<Step>, trailer: seq<Filler>): (r: Option<seq<string>>)
    requires i <= |s|
    ensures r.Some? ==> |r.value| == |steps| && forall g :: 0 <= g < |steps| ==> Fits(r.value[g], steps[g].group)
    decreases |steps|
  {
    if |steps| == 0 then (if MatchFillers(s, i, trailer).Some? then Some([]) else None)
    else
      match MatchFillers(s, i, steps[0].lead)
      case None => None
      case Some(j) =>
        match MatchGroup(s, j, steps[0].group)
        case None => None
        case Some((k, text)) =>
          match MatchSteps(s, k, steps[1..], trailer)
          case None => None
          case Some(rest) => Some([text] + rest)
  }

  /** `re.search`: the groups of the match at the leftmost position where the pattern matches. */
  function Search(s: string, i: nat, p: Pattern): (r: Option<seq<string>>)
    requires i <= |s|
    ensures r.Some? ==> exists k :: i <= k <= |s| && MatchSteps(s, k, p.steps, p.trailer) == r
    ensures r.None? ==> forall k :: i <= k <= |s| ==> MatchSteps(s, k, p.steps, p.trailer).None?
    ensures r.Some? ==> |r.value| == |p.steps| && forall g :: 0 <= g < |p.steps| ==> Fits(r.value[g], p.steps[g].group)
    decreases |s| - i
  {
    match MatchSteps(s, i, p.steps, p.trailer)
    case Some(g) => Some(g)
    case None => if i == |s| then None else Search(s, i + 1, p)
  }

  // ---------------------------------------------------------------------
  // The parsed summary

  datatype SummaryKind = FinalSummary | IncrementalSummary

  datatype LogSummary = LogSummary(
    kind: Option<SummaryKind>, samples: Option<nat>, timeSegmentSeconds: Option<nat>,
    throughputRps: Option<real>, avgResponseTimeMs: Option<nat>, minResponseTimeMs: Option<nat>,
    maxResponseTimeMs: Option<nat>, errorsCount: Option<nat>, errorsPercentage: Option<real>,
    activeThreads: Option<nat>, startedThreads: Option<nat>, finishedThreads: Option<nat>,
    rawLine: Option<string>, parsedTimestamp: Option<string>)

  function EmptySummary(): LogSummary {
    LogSummary(None, None, None, None, None, None, None, None, None, None, None, None, None, None)
  }

  /** `h, m, s = map(int, clock.split(':'))` and `h * 3600 + m * 60 + s`. */
  function ClockSeconds(c: string): nat
    requires IsClock(c)
  {
    DigitsValue(c[0..2]) * 3600 + DigitsValue(c[3..5]) * 60 + DigitsValue(c[6..8])
  }

  function TwoDigits(n: nat): (r: string)
    requires n < 100
    ensures |r| == 2 && IsDigit(r[0]) && IsDigit(r[1])
  {
    [DigitChar(n / 10), DigitChar(n % 10)]
  }

  /** The `hh:mm:ss` text of a duration below 100 hours. */
  function ClockText(h: nat, m: nat, s: nat): (c: string)
    requires h < 100 && m < 100 && s < 100
    ensures IsClock(c)
  {
    TwoDigits(h) + ":" + TwoDigits(m) + ":" + TwoDigits(s)
  }

  lemma TwoDigitsValue(n: nat)
    requires n < 100
    ensures DigitsValue(TwoDigits(n)) == n
  {
    var r := TwoDigits(n);
    assert r[..1] == [DigitChar(n / 10)] && r[..1][..0] == [];
    assert DigitsValue(r[..1]) == n / 10;
  }

  /** Reading the clock text back gives the seconds it stands for. */
  lemma ClockRoundTrip(h: nat, m: nat, s: nat)
    requires h < 100 && m < 100 && s < 100
    ensures ClockSeconds(ClockText(h, m, s)) == h * 3600 + m * 60 + s
  {
    var c := ClockText(h, m, s);
    assert c[0..2] == TwoDigits(h);
    assert c[3..5] == TwoDigits(m);
    assert c[6..8] == TwoDigits(s);
    TwoDigitsValue(h);
    TwoDigitsValue(m);
    TwoDigitsValue(s);
  }

  function PatternOf(kind: SummaryKind): Pattern {
    if kind == FinalSummary then FinalPattern() else IncrementalPattern()
  }

  /** Which group of the two patterns captures what. */
  lemma PatternGroups(kind: SummaryKind)
    ensures var st := PatternOf(kind).steps;
      st[0].group == DigitGroup && st[1].group == ClockGroup && st[2].group == NumberGroup
      && st[3].group == DigitGroup && st[4].group == DigitGroup && st[5].group == DigitGroup
      && st[6].group == DigitGroup && st[7].group == NumberGroup
      && (kind == FinalSummary ==> |st| == 8)
      && (kind == IncrementalSummary ==> (|st| == 11 && st[8].group == DigitGroup && st[9].group == DigitGroup
          && st[10].group == DigitGroup))
  {
  }

  /** What a match of `kind`'s pattern captures: 8 groups, or 11 with the thread counts. */
  predicate GroupsFit(kind: SummaryKind, groups: seq<string>) {
    |groups| == (if kind == FinalSummary then 8 else 11)
    && Fits(groups[0], DigitGroup) && Fits(groups[1], ClockGroup) && Fits(groups[2], NumberGroup)
    && Fits(groups[3], DigitGroup) && Fits(groups[4], DigitGroup) && Fits(groups[5], DigitGroup)
    && Fits(groups[6], DigitGroup) && Fits(groups[7], NumberGroup)
    && (kind == IncrementalSummary ==> Fits(groups[8], DigitGroup) && Fits(groups[9], DigitGroup) && Fits(groups[10], DigitGroup))
  }

  /** Every match of a summary pattern has the groups GroupsFit describes. */
  lemma MatchFits(kind: SummaryKind, groups: seq<string>)
    requires |groups| == |PatternOf(kind).steps|
    requires forall g :: 0 <= g < |groups| ==> Fits(groups[g], PatternOf(kind).steps[g].group)
    ensures GroupsFit(kind, groups)
  {
    PatternGroups(kind);
    assert Fits(groups[0], DigitGroup) && Fits(groups[1], ClockGroup) && Fits(groups[2], NumberGroup);
    assert Fits(groups[3], DigitGroup) && Fits(groups[4], DigitGroup) && Fits(groups[5], DigitGroup);
    assert Fits(groups[6], DigitGroup) && Fits(groups[7], NumberGroup);
    if kind == IncrementalSummary {
      assert Fits(groups[8], DigitGroup) && Fits(groups[9], DigitGroup) && Fits(groups[10], DigitGroup);
    }
  }

  /** The summary with the groups of a match filled in; a float group that float() rejects leaves every number unset. */
  function FromGroups(base: LogSummary, kind: SummaryKind, groups: seq<string>): (r: LogSummary)
    requires GroupsFit(kind, groups)
    ensures r.kind == base.kind && r.rawLine == base.rawLine && r.parsedTimestamp == base.parsedTimestamp
    ensures DecimalText(groups[2]).None? || DecimalText(groups[7]).None? ==> r == base
    ensures DecimalText(groups[2]).Some? && DecimalText(groups[7]).Some? ==> (r.samples == Some(DigitsValue(groups[0]))
      && r.timeSegmentSeconds == Some(ClockSeconds(groups[1]))
      && r.throughputRps == DecimalText(groups[2]) && r.errorsPercentage == DecimalText(groups[7])
      && r.avgResponseTimeMs == Some(DigitsValue(groups[3])) && r.minResponseTimeMs == Some(DigitsValue(groups[4]))
      && r.maxResponseTimeMs == Some(DigitsValue(groups[5])) && r.errorsCount == Some(DigitsValue(groups[6]))
      && (kind == FinalSummary ==> r.activeThreads == Some(0))
      && (kind == IncrementalSummary ==> (r.activeThreads == Some(DigitsValue(groups[8]))
          && r.startedThreads == Some(DigitsValue(groups[9])) && r.finishedThreads == Some(DigitsValue(groups[10])))))
  {
    match (DecimalText(groups[2]), DecimalText(groups[7]))
    case (Some(rps), Some(pct)) =>
      var filled := base.(samples := Some(DigitsValue(groups[0])), throughputRps := Some(rps),
                          avgResponseTimeMs := Some(DigitsValue(groups[3])), minResponseTimeMs := Some(DigitsValue(groups[4])),
                          maxResponseTimeMs := Some(DigitsValue(groups[5])), errorsCount := Some(DigitsValue(groups[6])),
                          errorsPercentage := Some(pct), timeSegmentSeconds := Some(ClockSeconds(groups[1])));
      if kind == IncrementalSummary then
        filled.(activeThreads := Some(DigitsValue(groups[8])), startedThreads := Some(DigitsValue(groups[9])),
                finishedThreads := Some(DigitsValue(groups[10])))
      else filled.(activeThreads := Some(0))
    case _ => base
  }

  /**
   * One summary line: its kind by the first marker it contains, and the
   * numbers when the kind's pattern matches somewhere in it.
   */
  function ParseSummaryLine(line: string): (r: LogSummary)
    ensures r.rawLine == Some(line) && r.parsedTimestamp == Some(Split(line, " INFO")[0])
    ensures r.kind == Some(FinalSummary) <==> Contains(line, "summary =")
    ensures r.kind == Some(IncrementalSummary) <==> !Contains(line, "summary =") && Contains(line, "summary +")
    ensures r.kind.None? ==> r.samples.None?
    ensures r.samples.Some? ==> r.timeSegmentSeconds.Some? && r.activeThreads.Some?
    ensures r.kind == Some(FinalSummary) && r.samples.Some? ==> r.activeThreads == Some(0)
  {
    var base := EmptySummary().(rawLine := Some(line), parsedTimestamp := Some(Split(line, " INFO")[0]));
    var kind := if Contains(line, "summary =") then Some(FinalSummary)
      else if Contains(line, "summary +") then Some(IncrementalSummary) else None;
    match kind
    case None => base
    case Some(k) =>
      MatchSummary(base.(kind := kind), k, line)
  }

  /** re.search with the kind's pattern; the numbers are filled in only when it matches. */
  function MatchSummary(b: LogSummary, k: SummaryKind, line: string): (r: LogSummary)
    ensures r.kind == b.kind && r.rawLine == b.rawLine && r.parsedTimestamp == b.parsedTimestamp
    requires b.samples.None?
    ensures r.samples.Some? ==> r.timeSegmentSeconds.Some? && r.activeThreads.Some?
    ensures k == FinalSummary && r.samples.Some? ==> r.activeThreads == Some(0)
  {
    match Search(line, 0, PatternOf(k))
    case None => b
    case Some(groups) =>
      MatchFits(k, groups);
      FilledSummary(b, k, groups);
      FromGroups(b, k, groups)
  }

  /** A filled-in summary always has its time segment and active-thread count; a final one has no threads left. */
  lemma FilledSummary(b: LogSummary, k: SummaryKind, groups: seq<string>)
    requires GroupsFit(k, groups) && b.samples.None?
    ensures FromGroups(b, k, groups).samples.Some? ==>
      (FromGroups(b, k, groups).timeSegmentSeconds.Some? && FromGroups(b, k, groups).activeThreads.Some?)
    ensures k == FinalSummary && FromGroups(b, k, groups).samples.Some? ==> FromGroups(b, k, groups).activeThreads == Some(0)
  {
  }

  /** parse_jmeter_log_summary over the log's lines. */
  function ParseLogSummary(lines: seq<string>): (r: LogSummary)
    ensures LastSummaryIndex(lines) < 0 ==> r == EmptySummary()
    ensures LastSummaryIndex(lines) >= 0 ==> (r.rawLine == Some(lines[LastSummaryIndex(lines)])
      && r.parsedTimestamp == Some(Split(lines[LastSummaryIndex(lines)], " INFO")[0]))
    ensures r.kind == Some(FinalSummary) <==> LastSummaryIndex(lines) >= 0 && Contains(lines[LastSummaryIndex(lines)], "summary =")
    ensures r.kind == Some(IncrementalSummary) <==> (LastSummaryIndex(lines) >= 0
      && !Contains(lines[LastSummaryIndex(lines)], "summary =") && Contains(lines[LastSummaryIndex(lines)], "summary +"))
    ensures r.samples.Some? ==> r.timeSegmentSeconds.Some? && r.activeThreads.Some?
    ensures r.kind == Some(FinalSummary) && r.samples.Some? ==> r.activeThreads == Some(0)
  {
    var k := LastSummaryIndex(lines);
    if k < 0 then EmptySummary() else ParseSummaryLine(lines[k])
  }

  // ---------------------------------------------------------------------
  // JMeter properties (add_jmeter_prop)

  /** A `-J` property on the command line. */
  datatype Prop = Prop(name: string, value: string)

  /** add_jmeter_prop's choice: the trimmed value if not blank, else the trimmed default, else nothing. */
  function PropValue(value: Option<string>, default: Option<string>): (r: Option<string>)
    ensures value.Some? && Strip(value.value) != "" ==> r == Some(Strip(value.value))
    ensures (value.None? || Strip(value.value) == "") ==> r == (if default.Some? then Some(Strip(default.value)) else None)
  {
    if value.Some? && Strip(value.value) != "" then Some(Strip(value.value))
    else if default.Some? then Some(Strip(default.value))
    else None
  }

  function RenderProp(p: Prop): string {
    "-J" + p.name + "=" + p.value
  }

  /** Reads a `-Jname=value` argument back, splitting at the first '='. */
  function ParseProp(arg: string): Option<Prop> {
    if StartsWith(arg, "-J") && IndexOf(arg[2..], '=') >= 0 then
      var rest := arg[2..];
      var i := IndexOf(rest, '=');
      Some(Prop(rest[..i], rest[i + 1..]))
    else None
  }

  /** A property whose name has no '=' is read back as itself. */
  lemma PropRoundTrip(p: Prop)
    requires Free(p.name, '=')
    ensures ParseProp(RenderProp(p)) == Some(p)
  {
    var arg := RenderProp(p);
    var rest := p.name + "=" + p.value;
    assert arg[2..] == rest;
    assert rest == p.name + ("=" + p.value);
    IndexOfAfterFree(p.name, "=" + p.value, '=');
    assert rest[..|p.name|] == p.name;
    assert rest[|p.name| + 1..] == p.value;
  }

  /** `-J{name}=…` when add_jmeter_prop would add it. */
  function OptProp(r: Request): (ps: seq<Prop>)
    ensures |ps| <= 1
    ensures |ps| == 1 ==> PropValue(r.value, r.default).Some? && ps[0] == Prop(r.name, PropValue(r.value, r.default).value)
    ensures |ps| == 1 <==> PropValue(r.value, r.default).Some?
  {
    match PropValue(r.value, r.default)
    case Some(v) => [Prop(r.name, v)]
    case None => []
  }

  /** One add_jmeter_prop call: the property name, the form value and the default. */
  datatype Request = Request(name: string, value: Option<string>, default: Option<string>)

  /** The properties a sequence of add_jmeter_prop calls adds. */
  function PropsOf(rs: seq<Request>): (ps: seq<Prop>)
    ensures |ps| <= |rs|
  {
    if |rs| == 0 then [] else PropsOf(rs[..|rs| - 1]) + OptProp(rs[|rs| - 1])
  }

  lemma PropsOfSnoc(rs: seq<Request>, r: Request)
    ensures PropsOf(rs + [r]) == PropsOf(rs) + OptProp(r)
  {
    assert (rs + [r])[..|rs|] == rs;
  }

  /** `request.form.get(key, default)`. */
  function FormGet(form: map<string, string>, key: string, default: Option<string>): Option<string> {
    if key in form then Some(form[key]) else default
  }

  function Names(props: seq<Prop>): (r: seq<string>)
    ensures |r| == |props|
    ensures forall i :: 0 <= i < |props| ==> r[i] == props[i].name
  {
    if |props| == 0 then [] else Names(props[..|props| - 1]) + [props[|props| - 1].name]
  }

  function RequestNames(rs: seq<Request>): (r: seq<string>)
    ensures |r| == |rs|
    ensures forall i :: 0 <= i < |rs| ==> r[i] == rs[i].name
  {
    if |rs| == 0 then [] else RequestNames(rs[..|rs| - 1]) + [rs[|rs| - 1].name]
  }

  /** Calls that all carry a default each add their property: nothing is skipped. */
  lemma {:induction false} DefaultedAllAdded(rs: seq<Request>)
    requires forall i :: 0 <= i < |rs| ==> rs[i].default.Some?
    ensures |PropsOf(rs)| == |rs|
    ensures forall i :: 0 <= i < |rs| ==> PropsOf(rs)[i] == Prop(rs[i].name, PropValue(rs[i].value, rs[i].default).value)
  {
    if |rs| > 0 {
      var init := rs[..|rs| - 1];
      var last := rs[|rs| - 1];
      DefaultedAllAdded(init);
      PropsDefaulted(last);
      var ps := PropsOf(rs);
      assert ps == PropsOf(init) + OptProp(last);
      forall i | 0 <= i < |rs|
        ensures ps[i] == Prop(rs[i].name, PropValue(rs[i].value, rs[i].default).value)
      {
        if i < |init| {
          assert ps[i] == PropsOf(init)[i] && init[i] == rs[i];
        }
      }
    }
  }

  /** The timers upload_and_start knows; any other TIMER_TYPE adds no timer property. */
  datatype Timer = ConstantTimer | UniformRandomTimer | GaussianRandomTimer | UnknownTimer

  /** The raw (unstripped) TIMER_TYPE value, `constant` when absent. */
  function TimerOf(form: map<string, string>): (t: Timer)
    ensures t == ConstantTimer <==> FormGet(form, "TIMER_TYPE", Some("constant")) == Some("constant")
    ensures t == UniformRandomTimer <==> FormGet(form, "TIMER_TYPE", Some("constant")) == Some("uniform_random")
    ensures t == GaussianRandomTimer <==> FormGet(form, "TIMER_TYPE", Some("constant")) == Some("gaussian_random")
  {
    var timer := FormGet(form, "TIMER_TYPE", Some("constant"));
    if timer == Some("constant") then ConstantTimer
    else if timer == Some("uniform_random") then UniformRandomTimer
    else if timer == Some("gaussian_random") then GaussianRandomTimer
    else UnknownTimer
  }

  /** The timer block for the raw TIMER_TYPE form value. */
  function TimerRequests(form: map<string, string>): seq<Request> {
    match TimerOf(form)
    case ConstantTimer => [Request("C_DELAY", FormGet(form, "C_DELAY", Some("1000")), Some("1000"))]
    case UniformRandomTimer =>
      [Request("UR_RANGE", FormGet(form, "UR_RANGE", Some("1000")), Some("1000")),
       Request("UR_OFFSET", FormGet(form, "UR_OFFSET", Some("0")), Some("0"))]
    case GaussianRandomTimer =>
      [Request("GR_DEVIATION", FormGet(form, "GR_DEVIATION", Some("100")), Some("100")),
       Request("GR_OFFSET", FormGet(form, "GR_OFFSET", Some("300")), Some("300"))]
    case UnknownTimer => []
  }

  /** The control modes upload_and_start knows; any other CONTROL_MODE adds no mode property. */
  datatype Mode = DurationMode | LoopsMode | UnknownMode

  /** The raw (unstripped) CONTROL_MODE value, `duration` when absent. */
  function ModeOf(form: map<string, string>): (m: Mode)
    ensures m == DurationMode <==> FormGet(form, "CONTROL_MODE", Some("duration")) == Some("duration")
    ensures m == LoopsMode <==> FormGet(form, "CONTROL_MODE", Some("duration")) == Some("loops")
  {
    var mode := FormGet(form, "CONTROL_MODE", Some("duration"));
    if mode == Some("duration") then DurationMode
    else if mode == Some("loops") then LoopsMode
    else UnknownMode
  }

  /** The control-mode block for the raw CONTROL_MODE form value. */
  function ModeRequests(form: map<string, string>): seq<Request> {
    match ModeOf(form)
    case DurationMode =>
      [Request("USE_SCHEDULER", Some("true"), None), Request("DURATION", FormGet(form, "DURATION", None), Some("60")),
       Request("TEST_LOOPS", Some("-1"), None)]
    case LoopsMode =>
      [Request("USE_SCHEDULER", Some("false"), None), Request("TEST_LOOPS", FormGet(form, "TEST_LOOPS", None), Some("1"))]
    case UnknownMode => []
  }

  /** The calls made whatever the timer and mode. */
  function FixedRequests(form: map<string, string>): seq<Request> {
    [Request("TARGET_HOST", FormGet(form, "TARGET_HOST", None), None),
     Request("TARGET_PROTOCOL", FormGet(form, "TARGET_PROTOCOL", Some("https")), Some("https")),
     Request("NUM_THREADS", FormGet(form, "NUM_THREADS", Some("1")), Some("1")),
     Request("RAMP_UP", FormGet(form, "RAMP_UP", Some("0")), Some("0")),
     Request("TIMER_TYPE", FormGet(form, "TIMER_TYPE", Some("constant")), Some("constant"))]
  }

  /** Every add_jmeter_prop call of upload_and_start, in order. */
  function Requests(form: map<string, string>): seq<Request> {
    FixedRequests(form) + TimerRequests(form) + ModeRequests(form)
  }

  /** The properties on the command line. */
  function FormProps(form: map<string, string>): seq<Prop> {
    PropsOf(Requests(form))
  }

  /** The properties are added block by block. */
  lemma {:induction false} PropsOfAppend(a: seq<Request>, b: seq<Request>)
    ensures PropsOf(a + b) == PropsOf(a) + PropsOf(b)
    decreases |b|
  {
    if |b| == 0 {
      assert a + b == a;
    } else {
      var b' := b[..|b| - 1];
      assert (a + b)[..|a + b| - 1] == a + b';
      PropsOfAppend(a, b');
    }
  }

  /**
   * TARGET_HOST is the one fixed property without a default: it is passed
   * only when the form has a non-blank host; the protocol, thread count,
   * ramp-up and timer type are always passed.
   */
  lemma HostOptional(form: map<string, string>)
    ensures var host := FormGet(form, "TARGET_HOST", None);
      Names(PropsOf(FixedRequests(form))) ==
        (if host.Some? && Strip(host.value) != "" then ["TARGET_HOST"] else [])
        + ["TARGET_PROTOCOL", "NUM_THREADS", "RAMP_UP", "TIMER_TYPE"]
  {
    var rs := FixedRequests(form);
    FixedAfterHost(form);
    assert rs == [rs[0]] + rs[1..];
    HeadOptional(rs[0], rs[1..]);
    NamesOptProp(rs[0]);
  }

  /** One call adds its own name exactly when a value is chosen. */
  lemma NamesOptProp(r: Request)
    ensures Names(OptProp(r)) == if PropValue(r.value, r.default).Some? then [r.name] else []
  {
  }

  /** The four fixed calls after TARGET_HOST, all with a default. */
  lemma FixedAfterHost(form: map<string, string>)
    ensures |FixedRequests(form)| == 5
    ensures forall i :: 1 <= i < 5 ==> FixedRequests(form)[i].default.Some?
    ensures RequestNames(FixedRequests(form)[1..]) == ["TARGET_PROTOCOL", "NUM_THREADS", "RAMP_UP", "TIMER_TYPE"]
  {
    var rs := FixedRequests(form);
    var names := RequestNames(rs[1..]);
    assert names[0] == rs[1].name && names[1] == rs[2].name && names[2] == rs[3].name && names[3] == rs[4].name;
  }

  /** Behind one optional call, calls that all carry a default add exactly their own names. */
  lemma HeadOptional(h: Request, rest: seq<Request>)
    requires forall i :: 0 <= i < |rest| ==> rest[i].default.Some?
    ensures Names(PropsOf([h] + rest)) == Names(OptProp(h)) + RequestNames(rest)
  {
    PropsOfAppend([h], rest);
    assert PropsOf([h]) == OptProp(h);
    NamesAppend(OptProp(h), PropsOf(rest));
    DefaultedNames(rest);
  }

  lemma {:induction false} NamesAppend(a: seq<Prop>, b: seq<Prop>)
    ensures Names(a + b) == Names(a) + Names(b)
  {
    assert forall i :: 0 <= i < |a + b| ==> Names(a + b)[i] == (Names(a) + Names(b))[i];
  }

  /** Only the selected timer's parameters are added, each falling back to its default. */
  lemma TimerSelection(form: map<string, string>)
    ensures Names(PropsOf(TimerRequests(form))) ==
      match TimerOf(form)
      case ConstantTimer => ["C_DELAY"]
      case UniformRandomTimer => ["UR_RANGE", "UR_OFFSET"]
      case GaussianRandomTimer => ["GR_DEVIATION", "GR_OFFSET"]
      case UnknownTimer => []
  {
    TimerDefaults(form);
    DefaultedNames(TimerRequests(form));
    TimerNames(form);
  }

  /** Every timer call carries a default. */
  lemma TimerDefaults(form: map<string, string>)
    ensures forall i :: 0 <= i < |TimerRequests(form)| ==> TimerRequests(form)[i].default.Some?
  {
  }

  /** The names of the timer calls for each timer. */
  lemma TimerNames(form: map<string, string>)
    ensures RequestNames(TimerRequests(form)) ==
      match TimerOf(form)
      case ConstantTimer => ["C_DELAY"]
      case UniformRandomTimer => ["UR_RANGE", "UR_OFFSET"]
      case GaussianRandomTimer => ["GR_DEVIATION", "GR_OFFSET"]
      case UnknownTimer => []
  {
    var rs := TimerRequests(form);
    match TimerOf(form)
    case ConstantTimer =>
      assert RequestNames(rs)[0] == rs[0].name;
    case UniformRandomTimer =>
      assert RequestNames(rs)[0] == rs[0].name && RequestNames(rs)[1] == rs[1].name;
    case GaussianRandomTimer =>
      assert RequestNames(rs)[0] == rs[0].name && RequestNames(rs)[1] == rs[1].name;
    case UnknownTimer =>
  }

  /** Calls that all carry a default add exactly their own names. */
  lemma DefaultedNames(rs: seq<Request>)
    requires forall i :: 0 <= i < |rs| ==> rs[i].default.Some?
    ensures Names(PropsOf(rs)) == RequestNames(rs)
  {
    DefaultedAllAdded(rs);
  }

  /**
   * Duration mode schedules with DURATION (60 when blank) and loops -1;
   * loops mode turns the scheduler off and sets TEST_LOOPS (1 when blank);
   * any other mode adds nothing.
   */
  lemma ModeSelection(form: map<string, string>)
    ensures ModeOf(form) == DurationMode ==> (PropsOf(ModeRequests(form)) ==
      [Prop("USE_SCHEDULER", "true"), Prop("DURATION", PropValue(FormGet(form, "DURATION", None), Some("60")).value),
       Prop("TEST_LOOPS", "-1")])
    ensures ModeOf(form) == LoopsMode ==> (PropsOf(ModeRequests(form)) ==
      [Prop("USE_SCHEDULER", "false"), Prop("TEST_LOOPS", PropValue(FormGet(form, "TEST_LOOPS", None), Some("1")).value)])
    ensures ModeOf(form) == UnknownMode ==> PropsOf(ModeRequests(form)) == []
  {
    match ModeOf(form)
    case DurationMode => DurationProps(form);
    case LoopsMode => LoopsProps(form);
    case UnknownMode =>
  }

  lemma DurationProps(form: map<string, string>)
    requires ModeOf(form) == DurationMode
    ensures PropsOf(ModeRequests(form)) ==
      [Prop("USE_SCHEDULER", "true"), Prop("DURATION", PropValue(FormGet(form, "DURATION", None), Some("60")).value),
       Prop("TEST_LOOPS", "-1")]
  {
    DurationRequests(form);
    BlockOfThree(ModeRequests(form), "USE_SCHEDULER", "true", Request("DURATION", FormGet(form, "DURATION", None), Some("60")),
      "TEST_LOOPS", "-1");
  }

  /** A fixed value, a defaulted call and another fixed value add three properties. */
  lemma BlockOfThree(rs: seq<Request>, n1: string, v1: string, r2: Request, n3: string, v3: string)
    requires |v1| > 0 && !IsSpace(v1[0]) && !IsSpace(v1[|v1| - 1])
    requires |v3| > 0 && !IsSpace(v3[0]) && !IsSpace(v3[|v3| - 1])
    requires r2.default.Some?
    requires rs == [Request(n1, Some(v1), None), r2, Request(n3, Some(v3), None)]
    ensures PropsOf(rs) == [Prop(n1, v1), Prop(r2.name, PropValue(r2.value, r2.default).value), Prop(n3, v3)]
  {
    ConstantProp(n1, v1);
    ConstantProp(n3, v3);
    PropsDefaulted(r2);
    ThreeProps(rs, Request(n1, Some(v1), None), r2, Request(n3, Some(v3), None), Prop(n1, v1),
      Prop(r2.name, PropValue(r2.value, r2.default).value), Prop(n3, v3));
  }

  lemma DurationRequests(form: map<string, string>)
    requires ModeOf(form) == DurationMode
    ensures ModeRequests(form) == [Request("USE_SCHEDULER", Some("true"), None),
      Request("DURATION", FormGet(form, "DURATION", None), Some("60")), Request("TEST_LOOPS", Some("-1"), None)]
  {
  }

  lemma LoopsProps(form: map<string, string>)
    requires ModeOf(form) == LoopsMode
    ensures PropsOf(ModeRequests(form)) ==
      [Prop("USE_SCHEDULER", "false"), Prop("TEST_LOOPS", PropValue(FormGet(form, "TEST_LOOPS", None), Some("1")).value)]
  {
    var r1 := Request("USE_SCHEDULER", Some("false"), None);
    var r2 := Request("TEST_LOOPS", FormGet(form, "TEST_LOOPS", None), Some("1"));
    assert ModeRequests(form) == [r1, r2];
    ConstantProp("USE_SCHEDULER", "false");
    PropsDefaulted(r2);
    TwoProps(r1, r2, Prop("USE_SCHEDULER", "false"), Prop("TEST_LOOPS", PropValue(r2.value, r2.default).value));
  }

  /** A call with a fixed value that has no surrounding whitespace adds that value. */
  lemma ConstantProp(name: string, v: string)
    requires |v| > 0 && !IsSpace(v[0]) && !IsSpace(v[|v| - 1])
    ensures OptProp(Request(name, Some(v), None)) == [Prop(name, v)]
  {
    StripUnchanged(v);
  }

  /** A call with a default always adds its property. */
  lemma PropsDefaulted(r: Request)
    requires r.default.Some?
    ensures OptProp(r) == [Prop(r.name, PropValue(r.value, r.default).value)]
  {
  }

  lemma PropsTwo(r1: Request, r2: Request)
    ensures PropsOf([r1, r2]) == OptProp(r1) + OptProp(r2)
  {
    assert [r1, r2][..1] == [r1];
    assert PropsOf([r1]) == OptProp(r1);
  }

  lemma TwoProps(r1: Request, r2: Request, p1: Prop, p2: Prop)
    requires OptProp(r1) == [p1] && OptProp(r2) == [p2]
    ensures PropsOf([r1, r2]) == [p1, p2]
  {
    PropsTwo(r1, r2);
  }

  lemma ThreeProps(rs: seq<Request>, r1: Request, r2: Request, r3: Request, p1: Prop, p2: Prop, p3: Prop)
    requires rs == [r1, r2, r3] && OptProp(r1) == [p1] && OptProp(r2) == [p2] && OptProp(r3) == [p3]
    ensures PropsOf(rs) == [p1, p2, p3]
  {
    PropsThree(r1, r2, r3);
  }

  lemma PropsThree(r1: Request, r2: Request, r3: Request)
    ensures PropsOf([r1, r2, r3]) == OptProp(r1) + OptProp(r2) + OptProp(r3)
  {
    PropsTwo(r1, r2);
    assert [r1, r2, r3][..2] == [r1, r2];
  }

  // ---------------------------------------------------------------------
  // The command line

  const Headless := "-Djava.awt.headless=true"

  /** `-Jsummariser.interval=…` when the interval (30 by default) is not blank. */
  function IntervalArgs(form: map<string, string>): seq<string> {
    var interval := FormGet(form, "SUMMARISER_INTERVAL", Some("30"));
    if interval.Some? && Strip(interval.value) != "" then ["-Jsummariser.interval=" + Strip(interval.value)] else []
  }

  function RenderAll(props: seq<Prop>): (r: seq<string>)
    ensures |r| == |props|
  {
    if |props| == 0 then [] else RenderAll(props[..|props| - 1]) + [RenderProp(props[|props| - 1])]
  }

  /** The full argument list: headless flag, interval, properties, then the -n/-t/-l/-j tail. */
  function CommandLine(executable: string, form: map<string, string>, jmx: string, jtl: string, log: string): seq<string> {
    [executable, Headless] + IntervalArgs(form) + RenderAll(FormProps(form)) + ["-n", "-t", jmx, "-l", jtl, "-j", log]
  }

  lemma {:induction false} RenderAllAppend(a: seq<Prop>, b: seq<Prop>)
    ensures RenderAll(a + b) == RenderAll(a) + RenderAll(b)
    decreases |b|
  {
    if |b| == 0 {
      assert a + b == a;
    } else {
      var b' := b[..|b| - 1];
      assert (a + b)[..|a + b| - 1] == a + b';
      RenderAllAppend(a, b');
    }
  }

  /** add_jmeter_prop: appends `-J{name}={value}` to the command when a value is chosen. */
  function AddJmeterProp(command: seq<string>, r: Request): (c: seq<string>)
    ensures c == command + RenderAll(OptProp(r))
  {
    match PropValue(r.value, r.default)
    case Some(v) => command + [RenderProp(Prop(r.name, v))]
    case None => command
  }

  /** One add_jmeter_prop call extends the rendered properties by its own. */
  lemma AddPropStep(head: seq<string>, rs: seq<Request>, r: Request, command: seq<string>)
    requires command == head + RenderAll(PropsOf(rs))
    ensures AddJmeterProp(command, r) == head + RenderAll(PropsOf(rs + [r]))
  {
    PropsOfSnoc(rs, r);
    RenderAllAppend(PropsOf(rs), OptProp(r));
    AppendAssoc(head, RenderAll(PropsOf(rs)), RenderAll(OptProp(r)));
  }

  /** Two add_jmeter_prop calls render the properties of both, in order. */
  lemma RenderTwo(r1: Request, r2: Request)
    ensures RenderAll(PropsOf([r1, r2])) == RenderAll(OptProp(r1)) + RenderAll(OptProp(r2))
  {
    assert [r1, r2][..1] == [r1];
    assert PropsOf([r1]) == OptProp(r1);
    RenderAllAppend(OptProp(r1), OptProp(r2));
  }

  /** Three add_jmeter_prop calls render the properties of all three, in order. */
  lemma RenderThree(r1: Request, r2: Request, r3: Request)
    ensures RenderAll(PropsOf([r1, r2, r3])) == RenderAll(OptProp(r1)) + RenderAll(OptProp(r2)) + RenderAll(OptProp(r3))
  {
    RenderTwo(r1, r2);
    PropsOfSnoc([r1, r2], r3);
    assert [r1, r2] + [r3] == [r1, r2, r3];
    RenderAllAppend(PropsOf([r1, r2]), OptProp(r3));
  }

  /** The timer block of upload_and_start: the parameters of the raw TIMER_TYPE value's timer. */
  method AddTimerProps(command: seq<string>, form: map<string, string>) returns (c: seq<string>)
    ensures c == command + RenderAll(PropsOf(TimerRequests(form)))
  {
    c := command;
    match TimerOf(form)
    case ConstantTimer =>
      var r := Request("C_DELAY", FormGet(form, "C_DELAY", Some("1000")), Some("1000"));
      c := AddJmeterProp(c, r);
      assert PropsOf([r]) == OptProp(r);
    case UniformRandomTimer =>
      var r1 := Request("UR_RANGE", FormGet(form, "UR_RANGE", Some("1000")), Some("1000"));
      var r2 := Request("UR_OFFSET", FormGet(form, "UR_OFFSET", Some("0")), Some("0"));
      c := AddJmeterProp(c, r1);
      c := AddJmeterProp(c, r2);
      RenderTwo(r1, r2);
      AppendAssoc(command, RenderAll(OptProp(r1)), RenderAll(OptProp(r2)));
    case GaussianRandomTimer =>
      var r1 := Request("GR_DEVIATION", FormGet(form, "GR_DEVIATION", Some("100")), Some("100"));
      var r2 := Request("GR_OFFSET", FormGet(form, "GR_OFFSET", Some("300")), Some("300"));
      c := AddJmeterProp(c, r1);
      c := AddJmeterProp(c, r2);
      RenderTwo(r1, r2);
      AppendAssoc(command, RenderAll(OptProp(r1)), RenderAll(OptProp(r2)));
    case UnknownTimer =>
  }

  /** The control-mode block of upload_and_start for the raw CONTROL_MODE value. */
  method AddModeProps(command: seq<string>, form: map<string, string>) returns (c: seq<string>)
    ensures c == command + RenderAll(PropsOf(ModeRequests(form)))
  {
    c := command;
    match ModeOf(form)
    case DurationMode =>
      var r1 := Request("USE_SCHEDULER", Some("true"), None);
      var r2 := Request("DURATION", FormGet(form, "DURATION", None), Some("60"));
      var r3 := Request("TEST_LOOPS", Some("-1"), None);
      c := AddJmeterProp(c, r1);
      c := AddJmeterProp(c, r2);
      c := AddJmeterProp(c, r3);
      RenderThree(r1, r2, r3);
      ghost var a, b, d := RenderAll(OptProp(r1)), RenderAll(OptProp(r2)), RenderAll(OptProp(r3));
      AppendAssoc(command, a, b);
      AppendAssoc(command, a + b, d);
    case LoopsMode =>
      var r1 := Request("USE_SCHEDULER", Some("false"), None);
      var r2 := Request("TEST_LOOPS", FormGet(form, "TEST_LOOPS", None), Some("1"));
      c := AddJmeterProp(c, r1);
      c := AddJmeterProp(c, r2);
      RenderTwo(r1, r2);
      AppendAssoc(command, RenderAll(OptProp(r1)), RenderAll(OptProp(r2)));
    case UnknownMode =>
  }

  /** The five fixed add_jmeter_prop calls of upload_and_start. */
  method AddFixedProps(command: seq<string>, form: map<string, string>) returns (c: seq<string>)
    ensures c == command + RenderAll(PropsOf(FixedRequests(form)))
  {
    var host := Request("TARGET_HOST", FormGet(form, "TARGET_HOST", None), None);
    var protocol := Request("TARGET_PROTOCOL", FormGet(form, "TARGET_PROTOCOL", Some("https")), Some("https"));
    var threads := Request("NUM_THREADS", FormGet(form, "NUM_THREADS", Some("1")), Some("1"));
    var rampUp := Request("RAMP_UP", FormGet(form, "RAMP_UP", Some("0")), Some("0"));
    var timer := Request("TIMER_TYPE", FormGet(form, "TIMER_TYPE", Some("constant")), Some("constant"));
    c := AddJmeterProp(command, host);
    c := AddJmeterProp(c, protocol);
    c := AddJmeterProp(c, threads);
    c := AddJmeterProp(c, rampUp);
    c := AddJmeterProp(c, timer);
    RenderFive(host, protocol, threads, rampUp, timer);
    ghost var a, b, d, e, f := RenderAll(OptProp(host)), RenderAll(OptProp(protocol)), RenderAll(OptProp(threads)),
      RenderAll(OptProp(rampUp)), RenderAll(OptProp(timer));
    AppendAssoc(command, a, b);
    AppendAssoc(command, a + b, d);
    AppendAssoc(command, a + b + d, e);
    AppendAssoc(command, a + b + d + e, f);
    assert FixedRequests(form) == [host, protocol, threads, rampUp, timer];
  }

  /** Five add_jmeter_prop calls render the properties of all five, in order. */
  lemma RenderFive(r1: Request, r2: Request, r3: Request, r4: Request, r5: Request)
    ensures RenderAll(PropsOf([r1, r2, r3, r4, r5])) ==
      RenderAll(OptProp(r1)) + RenderAll(OptProp(r2)) + RenderAll(OptProp(r3)) + RenderAll(OptProp(r4)) + RenderAll(OptProp(r5))
  {
    RenderThree(r1, r2, r3);
    PropsOfSnoc([r1, r2, r3], r4);
    assert [r1, r2, r3] + [r4] == [r1, r2, r3, r4];
    PropsOfSnoc([r1, r2, r3, r4], r5);
    assert [r1, r2, r3, r4] + [r5] == [r1, r2, r3, r4, r5];
    RenderAllAppend(PropsOf([r1, r2, r3]), OptProp(r4));
    RenderAllAppend(PropsOf([r1, r2, r3, r4]), OptProp(r5));
  }

  /** The properties of consecutive blocks render one block after the other. */
  lemma RenderBlocks(a: seq<Request>, b: seq<Request>, d: seq<Request>)
    ensures RenderAll(PropsOf(a + b + d)) == RenderAll(PropsOf(a)) + RenderAll(PropsOf(b)) + RenderAll(PropsOf(d))
  {
    PropsOfAppend(a, b);
    PropsOfAppend(a + b, d);
    RenderAllAppend(PropsOf(a), PropsOf(b));
    RenderAllAppend(PropsOf(a) + PropsOf(b), PropsOf(d));
  }

  /** The command assembly of upload_and_start, call by call. */
  method BuildCommand(executable: string, form: map<string, string>, jmx: string, jtl: string, log: string)
    returns (command: seq<string>)
    ensures command == CommandLine(executable, form, jmx, jtl, log)
  {
    command := [executable, Headless];
    var interval := FormGet(form, "SUMMARISER_INTERVAL", Some("30"));
    if interval.Some? && Strip(interval.value) != "" {
      command := command + ["-Jsummariser.interval=" + Strip(interval.value)];
    }
    ghost var head := command;
    assert head == [executable, Headless] + IntervalArgs(form);
    command := AddFixedProps(command, form);
    command := AddTimerProps(command, form);
    command := AddModeProps(command, form);
    RenderBlocks(FixedRequests(form), TimerRequests(form), ModeRequests(form));
    ghost var f, t, m := RenderAll(PropsOf(FixedRequests(form))), RenderAll(PropsOf(TimerRequests(form))),
      RenderAll(PropsOf(ModeRequests(form)));
    AppendAssoc(head, f, t);
    AppendAssoc(head, f + t, m);
    assert command == head + RenderAll(FormProps(form));
    command := command + ["-n", "-t", jmx, "-l", jtl, "-j", log];
  }

  // ---------------------------------------------------------------------
  // upload_and_start

  /** `os.path.splitext(name)[0]`: drops the last extension unless the name is only dots before it. */
  function SplitextRoot(name: string): (r: string)
    ensures StartsWith(name, r)
  {
    var dot := RFind(name, '.');
    var sep := RFind(name, '/');
    if dot > sep && exists k :: sep + 1 <= k < dot && name[k] != '.' then name[..dot] else name
  }

  const UploadFolder := "jmeter_uploads"
  const ResultsFolder := "jmeter_results"
  const LogsFolder := "jmeter_logs"

  /** The saved test plan, the results file and the log file of one run. */
  datatype Launch = Launch(jmx: string, jtl: string, log: string)

  /** The upload file name is acceptable iff it is non-empty and ends in `.jmx` in any case. */
  predicate AcceptableJmx(filename: string) {
    filename != "" && EndsWith(Lower(filename), ".jmx")
  }

  lemma SuffixAfter(a: string, b: string)
    ensures EndsWith(a + b, b) && StartsWith(a + b, a)
  {
    assert (a + b)[|a + b| - |b|..] == b;
    assert (a + b)[..|a|] == a;
  }

  /** The paths for an accepted upload, stamped with `timestamp`. */
  function LaunchFor(filename: string, timestamp: string): (l: Launch)
    ensures StartsWith(l.log, LogsFolder + "/") && EndsWith(l.log, "_" + timestamp + ".log")
    ensures StartsWith(l.jtl, ResultsFolder + "/") && EndsWith(l.jtl, "_" + timestamp + ".jtl")
    ensures l.jmx == UploadFolder + "/" + PyBasename(filename)
  {
    var safe := PyBasename(filename);
    var base := SplitextRoot(safe);
    var stamp := "_" + timestamp;
    StampedPath(LogsFolder + "/", base, stamp, ".log");
    StampedPath(ResultsFolder + "/", base, stamp, ".jtl");
    Launch(UploadFolder + "/" + safe, (ResultsFolder + "/") + (base + stamp + ".jtl"), (LogsFolder + "/") + (base + stamp + ".log"))
  }

  /** `{dir}{base}{stamp}{ext}` starts with the folder and ends with the stamp and extension. */
  lemma StampedPath(dir: string, base: string, stamp: string, ext: string)
    ensures StartsWith(dir + (base + stamp + ext), dir) && EndsWith(dir + (base + stamp + ext), stamp + ext)
  {
    var name := base + stamp + ext;
    SuffixAfter(dir, name);
    assert name == base + (stamp + ext);
    SuffixAfter(base, stamp + ext);
    EndsWithTrans(dir + name, name, stamp + ext);
  }

  lemma EndsWithTrans(a: string, b: string, c: string)
    requires EndsWith(a, b) && EndsWith(b, c)
    ensures EndsWith(a, c)
  {
    assert a[|a| - |c|..] == b[|b| - |c|..];
  }

  /** The process globals of the server. */
  class Server {
    var pid: Option<int>
    var logPath: Option<string>
    var resultsPath: Option<string>

    constructor()
      ensures pid == None && logPath == None && resultsPath == None
    {
      pid := None;
      logPath := None;
      resultsPath := None;
    }

    /** A recorded process id counts only when it is not 0 (`if jmeter_process_pid:`). */
    function Recorded(): bool
      reads this
    {
      pid.Some? && pid.value != 0
    }

    /**
     * The checks before anything is saved: 500 without JMeter, 409 while
     * the recorded process is alive (a dead one is forgotten), 400 without an
     * acceptable .jmx, and 0 when the upload may go ahead.
     */
    method Admit(executable: Option<string>, pidAlive: bool, jmxFile: Option<string>) returns (code: int)
      modifies this`pid
      ensures code == 0 <==> executable.Some? && !(old(Recorded()) && pidAlive) && jmxFile.Some? && AcceptableJmx(jmxFile.value)
      ensures executable.None? ==> code == 500 && pid == old(pid)
      ensures executable.Some? && old(Recorded()) && pidAlive ==> code == 409 && pid == old(pid)
      ensures executable.Some? && !(old(Recorded()) && pidAlive) ==>
        ((code == 0 || code == 400) && pid == (if old(Recorded()) then None else old(pid)))
    {
      if executable.None? {
        return 500;
      }
      if Recorded() {
        if pidAlive {
          return 409;
        }
        pid := None;
      }
      if jmxFile.None? || !AcceptableJmx(jmxFile.value) {
        return 400;
      }
      code := 0;
    }

    /**
     * The launch: the paths are recorded, the command is built and JMeter is
     * started. `started` is the new pid, or None when Popen fails, which
     * answers 500 and clears the paths.
     */
    method Launch(executable: string, filename: string, form: map<string, string>, timestamp: string, started: Option<int>)
      returns (code: int, launch: Launch, command: seq<string>)
      modifies this`pid, this`logPath, this`resultsPath
      ensures launch == LaunchFor(filename, timestamp)
      ensures command == CommandLine(executable, form, launch.jmx, launch.jtl, launch.log)
      ensures started.Some? ==> code == 200 && pid == started && logPath == Some(launch.log) && resultsPath == Some(launch.jtl)
      ensures started.None? ==> code == 500 && pid == old(pid) && logPath == None && resultsPath == None
    {
      launch := LaunchFor(filename, timestamp);
      command := BuildCommand(executable, form, launch.jmx, launch.jtl, launch.log);
      code := Record(launch, started);
    }

    /** The paths of a launch are kept while its process runs; a failed Popen clears them (500). */
    method Record(launch: Launch, started: Option<int>) returns (code: int)
      modifies this`pid, this`logPath, this`resultsPath
      ensures started.Some? ==> code == 200 && pid == started && logPath == Some(launch.log) && resultsPath == Some(launch.jtl)
      ensures started.None? ==> code == 500 && pid == old(pid) && logPath == None && resultsPath == None
    {
      if started.None? {
        logPath, resultsPath := None, None;
        code := 500;
      } else {
        pid, logPath, resultsPath := started, Some(launch.log), Some(launch.jtl);
        code := 200;
      }
    }

    /** upload_and_start: the checks, then the launch when they pass. */
    method UploadAndStart(executable: Option<string>, pidAlive: bool, jmxFile: Option<string>,
                          form: map<string, string>, timestamp: string, started: Option<int>)
      returns (code: int, launch: Option<Launch>, command: seq<string>)
      modifies this
      ensures executable.None? ==> (code == 500 && pid == old(pid) && logPath == old(logPath)
        && resultsPath == old(resultsPath))
      ensures executable.Some? && old(Recorded()) && pidAlive ==> (code == 409 && pid == old(pid)
        && logPath == old(logPath) && resultsPath == old(resultsPath))
      ensures (executable.Some? && !(old(Recorded()) && pidAlive) && (jmxFile.None? || !AcceptableJmx(jmxFile.value)))
        ==> (code == 400 && pid == (if old(Recorded()) then None else old(pid))
          && logPath == old(logPath) && resultsPath == old(resultsPath))
      ensures launch.Some? <==> (executable.Some? && !(old(Recorded()) && pidAlive) && jmxFile.Some?
        && AcceptableJmx(jmxFile.value))
      ensures launch.Some? ==> (launch.value == LaunchFor(jmxFile.value, timestamp)
        && command == CommandLine(executable.value, form, launch.value.jmx, launch.value.jtl, launch.value.log))
      ensures launch.None? ==> command == []
      ensures launch.Some? && started.Some? ==> (code == 200 && pid == started
        && logPath == Some(launch.value.log) && resultsPath == Some(launch.value.jtl))
      ensures launch.Some? && started.None? ==> (code == 500 && pid == (if old(Recorded()) then None else old(pid))
        && logPath == None && resultsPath == None)
    {
      code := Admit(executable, pidAlive, jmxFile);
      if code != 0 {
        return code, None, [];
      }
      var l;
      code, l, command := Launch(executable.value, jmxFile.value, form, timestamp, started);
      launch := Some(l);
    }
  }

  // ---------------------------------------------------------------------
  // Report upload (upload_directory_to_s3)

  /** The prefix with one '/' added when it is non-empty and lacks it. */
  function S3Prefix(prefix: string): (r: string)
    ensures r == "" || EndsWith(r, "/")
    ensures prefix != "" ==> StartsWith(r, prefix)
  {
    if prefix != "" && !EndsWith(prefix, "/") then prefix + "/" else prefix
  }

  /** `os.path.join(prefix, relPath)` with backslashes turned into '/'. */
  function S3Key(prefix: string, relPath: string): (k: string)
    ensures Free(k, '\\')
  {
    ReplaceCharGone(PyJoin(S3Prefix(prefix), relPath), '\\', "/");
    ReplaceAll(PyJoin(S3Prefix(prefix), relPath), "\\", "/")
  }

  /** For a relative path (not starting with '/'), the key is the prefix, one '/', and the path. */
  lemma S3KeyShape(prefix: string, relPath: string)
    requires !StartsWith(relPath, "/") && Free(prefix, '\\') && Free(relPath, '\\')
    ensures S3Key(prefix, relPath) == S3Prefix(prefix) + relPath
  {
    var p := S3Prefix(prefix);
    var j := PyJoin(p, relPath);
    assert j == p + relPath;
    if prefix != "" && !EndsWith(prefix, "/") {
      FreeConcat(prefix, "/", '\\');
    }
    FreeConcat(p, relPath, '\\');
    FreeNotContains(j, '\\');
    ReplaceAllAbsent(j, "\\", "/");
  }

  /** The fixed UTF-8 types for pages, style sheets and scripts; otherwise the guessed type or octet-stream. */
  function ContentType(filename: string, guessed: Option<string>): (ct: string)
    ensures EndsWith(Lower(filename), ".html") || EndsWith(Lower(filename), ".htm") ==> ct == "text/html; charset=utf-8"
    ensures (!EndsWith(Lower(filename), ".html") && !EndsWith(Lower(filename), ".htm")
      && EndsWith(Lower(filename), ".css")) ==> ct == "text/css; charset=utf-8"
    ensures (!EndsWith(Lower(filename), ".html") && !EndsWith(Lower(filename), ".htm") && !EndsWith(Lower(filename), ".css")
      && EndsWith(Lower(filename), ".js")) ==> ct == "application/javascript; charset=utf-8"
    ensures (!EndsWith(Lower(filename), ".html") && !EndsWith(Lower(filename), ".htm") && !EndsWith(Lower(filename), ".css")
      && !EndsWith(Lower(filename), ".js")) ==> ct == (if guessed.Some? && guessed.value != "" then guessed.value else "application/octet-stream")
  {
    var lower := Lower(filename);
    if EndsWith(lower, ".html") || EndsWith(lower, ".htm") then "text/html; charset=utf-8"
    else if EndsWith(lower, ".css") then "text/css; charset=utf-8"
    else if EndsWith(lower, ".js") then "application/javascript; charset=utf-8"
    else if guessed.Some? && guessed.value != "" then guessed.value
    else "application/octet-stream"
  }

  /** One directory of the walk: its path relative to the report root and its file names. */
  datatype WalkDir = WalkDir(relDir: string, files: seq<string>)

  /** What put_object did with one key. */
  datatype PutOutcome = Stored | MissingCredentials | PutFailed(message: string)

  function RelPath(relDir: string, file: string): string {
    if relDir == "" then file else relDir + "/" + file
  }

  /** The running count and errors, and whether credentials were found missing (which ends the upload). */
  datatype Tally = Tally(count: nat, errors: seq<string>, noCredentials: bool)

  function ErrorLine(key: string, message: string): string {
    "Erro S3/upload '" + key + "': " + message
  }

  /** The files of one directory in order, stopping at the first failure. */
  function DirTally(prefix: string, relDir: string, files: seq<string>, outcome: string -> PutOutcome, t: Tally): (r: Tally)
    ensures r.count >= t.count && |r.errors| <= |t.errors| + 1
    decreases |files|
  {
    if |files| == 0 then t
    else
      var key := S3Key(prefix, RelPath(relDir, files[0]));
      match outcome(key)
      case Stored => DirTally(prefix, relDir, files[1..], outcome, t.(count := t.count + 1))
      case MissingCredentials => t.(noCredentials := true)
      case PutFailed(m) => t.(errors := t.errors + [ErrorLine(key, m)])
  }

  /** The whole walk: a failure ends only its own directory; missing credentials end everything. */
  function WalkTally(prefix: string, walk: seq<WalkDir>, outcome: string -> PutOutcome, t: Tally): (r: Tally)
    requires !t.noCredentials
    ensures |r.errors| <= |t.errors| + |walk|
    decreases |walk|
  {
    if |walk| == 0 then t
    else
      var d := DirTally(prefix, walk[0].relDir, walk[0].files, outcome, t);
      if d.noCredentials then d else WalkTally(prefix, walk[1..], outcome, d)
  }

  datatype UploadResult = MissingSettings | MissingDirectory | NoCredentials
    | PartialFailure(count: nat, errors: seq<string>) | Uploaded(count: nat, reportUrl: string)

  /** The result for a finished walk. */
  function UploadResultOf(bucket: string, region: string, prefix: string, t: Tally): (r: UploadResult)
    ensures t.noCredentials ==> r == NoCredentials
    ensures !t.noCredentials && |t.errors| > 0 ==> r == PartialFailure(t.count, t.errors)
    ensures !t.noCredentials && |t.errors| == 0 ==> r.Uploaded? && r.count == t.count
  {
    if t.noCredentials then NoCredentials
    else if |t.errors| > 0 then PartialFailure(t.count, t.errors)
    else Uploaded(t.count, "https://" + bucket + ".s3." + region + ".amazonaws.com/" + S3Prefix(prefix) + "index.html")
  }

  /** upload_directory_to_s3 with the two nested loops of the walk. */
  method UploadDirectory(bucket: Option<string>, region: Option<string>, dirExists: bool, prefix: string,
                         walk: seq<WalkDir>, outcome: string -> PutOutcome) returns (r: UploadResult)
    ensures bucket.None? || bucket == Some("") || region.None? || region == Some("") ==> r == MissingSettings
    ensures bucket.Some? && bucket != Some("") && region.Some? && region != Some("") && !dirExists ==> r == MissingDirectory
    ensures bucket.Some? && bucket != Some("") && region.Some? && region != Some("") && dirExists
      ==> r == UploadResultOf(bucket.value, region.value, prefix, WalkTally(prefix, walk, outcome, Tally(0, [], false)))
  {
    if bucket.None? || bucket == Some("") || region.None? || region == Some("") {
      return MissingSettings;
    }
    if !dirExists {
      return MissingDirectory;
    }
    var t := Tally(0, [], false);
    var d := 0;
    while d < |walk|
      invariant 0 <= d <= |walk| && !t.noCredentials
      invariant WalkTally(prefix, walk[d..], outcome, t) == WalkTally(prefix, walk, outcome, Tally(0, [], false))
    {
      t := UploadDir(prefix, walk[d], outcome, t);
      assert walk[d..][1..] == walk[d + 1..];
      if t.noCredentials {
        return NoCredentials;
      }
      d := d + 1;
    }
    r := UploadResultOf(bucket.value, region.value, prefix, t);
  }

  /** The inner loop over one directory's files, with its `break`. */
  method UploadDir(prefix: string, dir: WalkDir, outcome: string -> PutOutcome, t0: Tally) returns (t: Tally)
    ensures t == DirTally(prefix, dir.relDir, dir.files, outcome, t0)
  {
    t := t0;
    var i := 0;
    while i < |dir.files|
      invariant 0 <= i <= |dir.files|
      invariant DirTally(prefix, dir.relDir, dir.files[i..], outcome, t) == DirTally(prefix, dir.relDir, dir.files, outcome, t0)
    {
      var key := S3Key(prefix, RelPath(dir.relDir, dir.files[i]));
      assert dir.files[i..][0] == dir.files[i] && dir.files[i..][1..] == dir.files[i + 1..];
      var o := outcome(key);
      if o.MissingCredentials? {
        return t.(noCredentials := true);
      } else if o.PutFailed? {
        return t.(errors := t.errors + [ErrorLine(key, o.message)]);
      }
      t := t.(count := t.count + 1);
      i := i + 1;
    }
  }
}
