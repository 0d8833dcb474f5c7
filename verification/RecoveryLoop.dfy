/**
 The multi-round loop that runs an agent: each round the model answers with code blocks, malformed
 calls, tool calls or a final text, and the loop executes, counts retries, checks its time budget and
 decides whether the answer is complete. What the model and the tools do is input.
 */
module RecoveryLoop {
  import opened Common
  import opened RetryCounters

  // ---------------------------------------------------------------- the cap on rounds

  const CAP_BASE := 24
  const CAP_PER_PROFILE := 8
  const CAP_MIN := 32
  const CAP_MAX := 160

  function ClampCap(value: int): int {
    Max(CAP_MIN, Min(CAP_MAX, value))
  }

  function ComputeCap(profileCount: int): int {
    ClampCap(CAP_BASE + CAP_PER_PROFILE * Max(1, profileCount))
  }

  /** The cap a run starts with; explicit is 0 when the policy sets none. */
  function RetryIterationCap(singleTurn: bool, explicit: int, profileCount: int): (cap: int)
    ensures cap >= 1
  {
    Max(1, if singleTurn then 1 else if explicit > 0 then explicit else ComputeCap(profileCount))
  }

  // ---------------------------------------------------------------- data

  /** How one tool call ends; Threw carries the category of the error. */
  datatype ToolOutcome = Worked | Invalid | TimedOut | Threw(category: string)

  /** formats are the file formats of the paths the call names. */
  datatype Call = Call(tool: string, formats: set<string>, outcome: ToolOutcome)

  datatype Status = Success | ValidationError | Timeout | ExecutionError

  datatype Record = Record(round: nat, tool: string, formats: set<string>, status: Status)

  /** A parse error has no tool. */
  datatype ErrorRecord = ErrorRecord(round: nat, kind: string, tool: Option<string>)

  datatype Finish = Length | CallsPending | Other

  /** What the checks on the text of an answer say. */
  datatype Answer = Answer(finish: Finish, looksLikeCall: bool, inlinesFile: bool, blank: bool, unfinished: bool)

  datatype Response =
    | LlmFailure
    | CodeBlocks
    | Malformed(kind: string)
    | Final(answer: Answer)
    | ToolCalls(first: Call, more: seq<Call>)

  /** One turn of the loop: the clock, a compaction if one happened, the clock at each chunk, the response. */
  datatype Turn =
    | Cancelled
    | Live(now: int, compactedAt: Option<int>, chunks: seq<int>, response: Response)

  datatype Mode = Off | Soft | Strict

  datatype Config = Config(maxRounds: nat, maxParse: nat, maxExec: nat,
                           deliveryRequired: bool, mode: Mode, formats: set<string>,
                           grace: nat, window: nat)

  /** The policy demands delivery only when its guard is on; a run has at least one round. */
  ghost predicate ValidConfig(cfg: Config) {
    cfg.maxRounds >= 1 && (cfg.deliveryRequired ==> cfg.mode != Off)
  }

  datatype Budget = Budget(deadline: int, lastCompaction: Option<int>, graceUsed: bool)

  datatype Reason = FinalAnswer | MaxParseRetries | MaxExecutionRetries | CapReached | RuntimeTimeout | LlmFailed

  /** log is the history of tool results and parse errors; no step reads it. */
  datatype State = State(round: nat, records: seq<Record>, counts: Counts, errors: seq<ErrorRecord>,
                         reason: Option<Reason>, budget: Budget, log: seq<Event>)

  function Start(deadline: int): State {
    State(0, [], map[], [], None, Budget(deadline, None, false), [])
  }

  // ---------------------------------------------------------------- the time budget

  function GraceApplies(b: Budget, now: int, cfg: Config): bool {
    !b.graceUsed && cfg.grace > 0 && b.lastCompaction.Some? && now - b.lastCompaction.value <= cfg.window
  }

  /** _consume_runtime_timeout: the new budget, and whether the time is up. */
  function Consume(b: Budget, now: int, cfg: Config): (Budget, bool) {
    if now <= b.deadline then (b, false)
    else if GraceApplies(b, now, cfg) then (b.(graceUsed := true, deadline := now + cfg.grace), false)
    else (b, true)
  }

  /** The checks at the chunks of a stream, up to the first that finds the time up. */
  function ConsumeAll(b: Budget, times: seq<int>, cfg: Config): (Budget, bool)
    decreases |times|
  {
    if times == [] then (b, false)
    else
      var (b', up) := Consume(b, times[0], cfg);
      if up then (b', true) else ConsumeAll(b', times[1..], cfg)
  }

  /** The deadline moves at most once, by the grace, and only from a check in the window after a compaction. */
  lemma {:induction false} GraceOnce(b: Budget, times: seq<int>, cfg: Config)
    ensures var (b', up) := ConsumeAll(b, times, cfg);
      && b'.lastCompaction == b.lastCompaction
      && (b'.graceUsed == b.graceUsed ==> b' == b)
      && (b'.graceUsed != b.graceUsed ==>
           exists i :: 0 <= i < |times| && times[i] > b.deadline && GraceApplies(b, times[i], cfg) &&
             b' == Budget(times[i] + cfg.grace, b.lastCompaction, true))
      && (!up ==> forall i :: 0 <= i < |times| ==> times[i] <= b'.deadline)
      && b.deadline <= b'.deadline
    decreases |times|
  {
    if times != [] {
      var (b1, up) := Consume(b, times[0], cfg);
      if !up {
        GraceOnce(b1, times[1..], cfg);
        var (b', up') := ConsumeAll(b1, times[1..], cfg);
        if b'.graceUsed != b.graceUsed && b1 == b {
          var j :| 0 <= j < |times[1..]| && times[1..][j] > b1.deadline && GraceApplies(b1, times[1..][j], cfg) &&
            b' == Budget(times[1..][j] + cfg.grace, b1.lastCompaction, true);
          assert times[j + 1] == times[1..][j];
        }
      }
    }
  }

  /** What a late check needs for the grace: a compaction not longer ago than the window, and no grace yet. */
  predicate GraceDue(b: Budget, now: int, cfg: Config) {
    b.lastCompaction.Some? && now <= b.lastCompaction.value + cfg.window && !b.graceUsed && cfg.grace != 0
  }

  /** The first late check decides: it moves the deadline by the grace or finds the time up. Others change nothing. */
  lemma {:induction false} FirstLateCheck(b: Budget, times: seq<int>, cfg: Config, i: nat)
    requires i < |times| && times[i] > b.deadline && forall j :: 0 <= j < i ==> times[j] <= b.deadline
    ensures ConsumeAll(b, times, cfg) ==
      if GraceDue(b, times[i], cfg)
      then ConsumeAll(Budget(times[i] + cfg.grace, b.lastCompaction, true), times[i + 1..], cfg)
      else (b, true)
    decreases i
  {
    if i > 0 {
      assert times[1..][i..] == times[i + 1..];
      FirstLateCheck(b, times[1..], cfg, i - 1);
    }
  }

  lemma {:induction false} NoLateCheck(b: Budget, times: seq<int>, cfg: Config)
    requires forall j :: 0 <= j < |times| ==> times[j] <= b.deadline
    ensures ConsumeAll(b, times, cfg) == (b, false)
    decreases |times|
  {
    if times != [] {
      NoLateCheck(b, times[1..], cfg);
    }
  }

  // ---------------------------------------------------------------- running tools

  function StatusOf(o: ToolOutcome): Status {
    match o
    case Worked => Success
    case Invalid => ValidationError
    case TimedOut => Timeout
    case Threw(_) => ExecutionError
  }

  function CategoryOf(o: ToolOutcome): string {
    match o
    case Worked => ""
    case Invalid => "validation_error"
    case TimedOut => "timeout"
    case Threw(c) => c
  }

  function KindOf(o: ToolOutcome): string {
    match o
    case Worked => ""
    case Invalid => "validation_error"
    case TimedOut => "timeout"
    case Threw(_) => "execution_error"
  }

  function EventOf(c: Call): Event {
    if c.outcome.Worked? then Succeeded(c.tool) else Failed(c.tool, CategoryOf(c.outcome))
  }

  function EventsOf(calls: seq<Call>): (r: seq<Event>)
    ensures |r| == |calls| && forall i :: 0 <= i < |calls| ==> r[i] == EventOf(calls[i])
  {
    if calls == [] then [] else EventsOf(calls[..|calls| - 1]) + [EventOf(calls[|calls| - 1])]
  }

  function RecordOf(round: nat, c: Call): Record {
    Record(round, c.tool, c.formats, StatusOf(c.outcome))
  }

  ghost function Execute(s: State, c: Call): State {
    s.(records := s.records + [RecordOf(s.round, c)],
       counts := Apply(s.counts, EventOf(c)),
       log := s.log + [EventOf(c)])
  }

  /** _execute_tools_with_recovery */
  ghost function ExecuteAll(s: State, calls: seq<Call>): State {
    if calls == [] then s else Execute(ExecuteAll(s, calls[..|calls| - 1]), calls[|calls| - 1])
  }

  predicate AllFailed(calls: seq<Call>) {
    forall i :: 0 <= i < |calls| ==> !calls[i].outcome.Worked?
  }

  function Count(counts: Counts, key: string): nat {
    if key in counts then counts[key] else 0
  }

  /** _handle_execution_failures on the first failed result of a round in which all failed. */
  function HandleFailures(cfg: Config, s: State, first: Call): State {
    if Count(s.counts, FailureKey(first.tool, CategoryOf(first.outcome))) >= cfg.maxExec
    then s.(reason := Some(MaxExecutionRetries))
    else s.(errors := s.errors + [ErrorRecord(s.round, KindOf(first.outcome), Some(first.tool))])
  }

  /** _handle_parse_errors on the first parse error of a round. */
  function HandleMalformed(cfg: Config, s: State, kind: string): State {
    var n := Count(s.counts, ParseKey(kind));
    if n >= cfg.maxParse then s.(reason := Some(MaxParseRetries))
    else
      s.(counts := s.counts[ParseKey(kind) := n + 1],
         errors := s.errors + [ErrorRecord(s.round, kind, None)],
         log := s.log + [Misparsed(kind)])
  }

  // ---------------------------------------------------------------- the completion check

  datatype Decision = Stop | StopWithAdvisory | Continue

  function FileWriteTools(): set<string> {
    {"write_file", "append_file", "edit_file"}
  }

  /** _has_successful_file_write_call and _has_successful_requested_format_call */
  predicate Delivers(r: Record, formats: set<string>) {
    r.status == Success &&
    if formats == {} then Lower(r.tool) in FileWriteTools()
    else (Lower(r.tool) in FileWriteTools() || Lower(r.tool) == "code_execution") && r.formats * formats != {}
  }

  predicate Delivered(records: seq<Record>, formats: set<string>) {
    exists i :: 0 <= i < |records| && Delivers(records[i], formats)
  }

  /** The statuses the check looks for; a validation error is not one of them. */
  predicate CountsAsFailed(r: Record) {
    r.status == ExecutionError || r.status == Timeout
  }

  /** _find_latest_failed_tool_record */
  function LatestFailed(records: seq<Record>): Option<Record> {
    if records == [] then None
    else
      var r := records[|records| - 1];
      if CountsAsFailed(r) then Some(r) else LatestFailed(records[..|records| - 1])
  }

  /** _latest_successful_tool_round */
  function LatestSuccessRound(records: seq<Record>): nat {
    if records == [] then 0
    else
      var r := records[|records| - 1];
      var before := LatestSuccessRound(records[..|records| - 1]);
      if r.status == Success && r.round > before then r.round else before
  }

  predicate Unresolved(records: seq<Record>) {
    var f := LatestFailed(records);
    f.Some? && LatestSuccessRound(records) < f.value.round
  }

  /** _assess_autonomous_completion */
  function Assess(cfg: Config, records: seq<Record>, a: Answer): Decision {
    if a.finish != Other || a.looksLikeCall then Continue
    else if cfg.deliveryRequired && !Delivered(records, cfg.formats) && cfg.mode == Strict then Continue
    else if cfg.deliveryRequired && !Delivered(records, cfg.formats) && cfg.mode == Soft then StopWithAdvisory
    else if cfg.deliveryRequired && a.inlinesFile then Continue
    else if Unresolved(records) then Continue
    else if a.blank || a.unfinished then Continue
    else Stop
  }

  // ---------------------------------------------------------------- the loop

  /** What a response does to a round that got one. */
  ghost function Respond(cfg: Config, s: State, r: Response): State {
    match r
    case LlmFailure => s.(reason := Some(LlmFailed))
    case CodeBlocks => s
    case Malformed(kind) => HandleMalformed(cfg, s, kind)
    case Final(a) =>
      if Assess(cfg, s.records, a) != Continue then s.(reason := Some(FinalAnswer))
      else if s.round >= cfg.maxRounds then s.(reason := Some(CapReached))
      else s
    case ToolCalls(first, more) =>
      var t := ExecuteAll(s, [first] + more);
      if AllFailed([first] + more) then HandleFailures(cfg, t, first) else t
  }

  /** The budget when the stream of a round begins. */
  function Opened(b: Budget, compactedAt: Option<int>): Budget {
    if compactedAt.Some? then b.(lastCompaction := compactedAt) else b
  }

  ghost function Step(cfg: Config, s: State, t: Turn): State
    requires t.Live?
  {
    var (b1, up1) := Consume(s.budget, t.now, cfg);
    if up1 then s.(budget := b1, reason := Some(RuntimeTimeout))
    else
      var (b2, up2) := ConsumeAll(Opened(b1, t.compactedAt), t.chunks, cfg);
      var s' := s.(round := s.round + 1, budget := b2);
      if up2 then s'.(reason := Some(RuntimeTimeout)) else Respond(cfg, s', t.response)
  }

  /** The state when the loop ends, and whether a cancellation ended it. */
  ghost function Loop(cfg: Config, turns: nat -> Turn, s: State): (State, bool)
    decreases if s.reason.Some? then 0 else 1 + cfg.maxRounds - s.round
    requires s.round <= cfg.maxRounds
  {
    if s.round >= cfg.maxRounds || s.reason.Some? then (s, false)
    else if turns(s.round).Cancelled? then (s, true)
    else
      StepAdvances(cfg, s, turns(s.round));
      Loop(cfg, turns, Step(cfg, s, turns(s.round)))
  }

  datatype Outcome =
    | Returned(success: bool, final: State)
    | RunCancelled
    | OutputUnbound(state: State)

  /** The end of a run. No round means no output text to return. */
  function Conclude(cfg: Config, s: State, cancelled: bool): Outcome {
    var final := if s.reason.None? && s.round >= cfg.maxRounds then s.(reason := Some(CapReached)) else s;
    if cancelled then RunCancelled
    else if final.round == 0 then OutputUnbound(final)
    else Returned(final.reason == Some(FinalAnswer), final)
  }

  /** execute_task_with_recovery */
  ghost function Run(cfg: Config, turns: nat -> Turn, deadline: int, cancelledAtEnd: bool): Outcome {
    var (s, cancelled) := Loop(cfg, turns, Start(deadline));
    Conclude(cfg, s, cancelled || cancelledAtEnd)
  }

  lemma {:induction false} ExecuteAllKeeps(s: State, calls: seq<Call>)
    ensures var t := ExecuteAll(s, calls);
      t.round == s.round && t.errors == s.errors && t.reason == s.reason && t.budget == s.budget
  {
    hide Apply;
    if calls != [] {
      ExecuteAllKeeps(s, calls[..|calls| - 1]);
    }
  }

  lemma StepAdvances(cfg: Config, s: State, t: Turn)
    requires t.Live?
    ensures var s' := Step(cfg, s, t);
      || s'.round == s.round + 1
      || (s'.reason == Some(RuntimeTimeout) && s' == s.(budget := s'.budget, reason := s'.reason))
  {
    hide ExecuteAll, ConsumeAll, Apply, Assess;
    if t.response.ToolCalls? {
      var (b1, up1) := Consume(s.budget, t.now, cfg);
      var (b2, up2) := ConsumeAll(Opened(b1, t.compactedAt), t.chunks, cfg);
      ExecuteAllKeeps(s.(round := s.round + 1, budget := b2), [t.response.first] + t.response.more);
    }
  }

  // ---------------------------------------------------------------- what every reachable state satisfies

  ghost predicate RoundsOrdered(records: seq<Record>, round: nat) {
    && (forall i :: 0 <= i < |records| ==> 1 <= records[i].round <= round)
    && (forall i, j :: 0 <= i < j < |records| ==> records[i].round <= records[j].round)
  }

  /** The parse errors of a kind among the recorded errors. */
  function ParseErrors(errors: seq<ErrorRecord>, kind: string): nat {
    if errors == [] then 0
    else
      var e := errors[|errors| - 1];
      ParseErrors(errors[..|errors| - 1], kind) + if e.kind == kind && e.tool.None? then 1 else 0
  }

  ghost predicate ParseErrorsCounted(cfg: Config, s: State) {
    forall kind :: Misparses(s.log, kind) == ParseErrors(s.errors, kind) <= cfg.maxParse
  }

  ghost predicate Sound(cfg: Config, s: State) {
    RoundsOrdered(s.records, s.round) && s.counts == Replay(s.log) && ParseErrorsCounted(cfg, s)
  }

  lemma ExecuteLogs(u: State, c: Call)
    requires u.counts == Replay(u.log) && 1 <= u.round && RoundsOrdered(u.records, u.round)
    ensures var t := Execute(u, c);
      && t.counts == Replay(t.log) && RoundsOrdered(t.records, u.round)
      && forall kind :: Misparses(t.log, kind) == Misparses(u.log, kind)
  {
    hide Apply, StatusOf, CategoryOf;
    var t := Execute(u, c);
    assert t.log[..|u.log|] == u.log && t.log[|u.log|] == EventOf(c);
  }

  lemma {:induction false} ExecuteAllLogs(s: State, calls: seq<Call>)
    requires s.counts == Replay(s.log) && 1 <= s.round && RoundsOrdered(s.records, s.round)
    ensures var t := ExecuteAll(s, calls);
      && t.log == s.log + EventsOf(calls) && t.counts == Replay(t.log)
      && RoundsOrdered(t.records, s.round)
      && forall kind :: Misparses(t.log, kind) == Misparses(s.log, kind)
  {
    hide Replay, Misparses, RoundsOrdered, EventOf, Apply;
    if calls != [] {
      var init, c := calls[..|calls| - 1], calls[|calls| - 1];
      ExecuteAllKeeps(s, init);
      ExecuteAllLogs(s, init);
      ExecuteLogs(ExecuteAll(s, init), c);
      assert s.log + EventsOf(calls) == (s.log + EventsOf(init)) + [EventOf(c)];
    } else {
      assert s.log + [] == s.log;
    }
  }

  lemma HandleMalformedSound(cfg: Config, s: State, kind: string)
    requires Sound(cfg, s)
    ensures Sound(cfg, HandleMalformed(cfg, s, kind))
  {
    hide Apply, ParseKey, RoundsOrdered;
    var t := HandleMalformed(cfg, s, kind);
    ParseCountsExact(s.log, kind);
    var n := Count(s.counts, ParseKey(kind));
    assert n == Misparses(s.log, kind);
    if n < cfg.maxParse {
      assert t.log[..|s.log|] == s.log && t.errors[..|s.errors|] == s.errors;
      ApplyMisparsed(s.counts, kind);
      assert t.counts == Replay(t.log);
      forall k
        ensures Misparses(t.log, k) == ParseErrors(t.errors, k) <= cfg.maxParse
      {
        assert Misparses(s.log, k) == ParseErrors(s.errors, k) <= cfg.maxParse;
      }
    }
  }

  lemma ParseLimitReached(cfg: Config, s: State, kind: string)
    requires Sound(cfg, s)
    ensures Count(s.counts, ParseKey(kind)) == ParseErrors(s.errors, kind) <= cfg.maxParse
  {
    ParseCountsExact(s.log, kind);
    assert Misparses(s.log, kind) == ParseErrors(s.errors, kind) <= cfg.maxParse;
  }

  lemma ApplyMisparsed(counts: Counts, kind: string)
    ensures Apply(counts, Misparsed(kind)) == counts[ParseKey(kind) := Count(counts, ParseKey(kind)) + 1]
  {
  }

  lemma HandleFailuresSound(cfg: Config, s: State, first: Call)
    requires Sound(cfg, s)
    ensures Sound(cfg, HandleFailures(cfg, s, first))
  {
    hide Replay, Misparses, FailureKey;
    var t := HandleFailures(cfg, s, first);
    if |t.errors| == |s.errors| + 1 {
      assert t.errors[..|s.errors|] == s.errors;
    }
  }

  lemma RespondSound(cfg: Config, s: State, r: Response)
    requires Sound(cfg, s) && 1 <= s.round
    ensures Sound(cfg, Respond(cfg, s, r))
  {
    hide Replay, Misparses, HandleFailures, HandleMalformed, ExecuteAll, Assess, ParseErrors, RoundsOrdered;
    match r
    case Malformed(kind) => HandleMalformedSound(cfg, s, kind);
    case ToolCalls(first, more) =>
      ExecuteAllKeeps(s, [first] + more);
      ExecuteAllLogs(s, [first] + more);
      HandleFailuresSound(cfg, ExecuteAll(s, [first] + more), first);
    case _ =>
  }

  lemma StepSound(cfg: Config, s: State, t: Turn)
    requires Sound(cfg, s) && t.Live?
    ensures Sound(cfg, Step(cfg, s, t))
  {
    hide Replay, Misparses, Respond, ParseErrors, Consume, ConsumeAll;
    var (b1, up1) := Consume(s.budget, t.now, cfg);
    if !up1 {
      var (b2, up2) := ConsumeAll(Opened(b1, t.compactedAt), t.chunks, cfg);
      RespondSound(cfg, s.(round := s.round + 1, budget := b2), t.response);
    }
  }

  lemma {:induction false} LoopSound(cfg: Config, turns: nat -> Turn, s: State)
    requires s.round <= cfg.maxRounds && Sound(cfg, s)
    ensures var (f, cancelled) := Loop(cfg, turns, s);
      && Sound(cfg, f) && s.round <= f.round <= cfg.maxRounds
      && (cancelled || f.reason.Some? || f.round == cfg.maxRounds)
    decreases if s.reason.Some? then 0 else 1 + cfg.maxRounds - s.round
  {
    hide Sound, Step;
    if s.round < cfg.maxRounds && s.reason.None? && turns(s.round).Live? {
      StepSound(cfg, s, turns(s.round));
      StepAdvances(cfg, s, turns(s.round));
      LoopSound(cfg, turns, Step(cfg, s, turns(s.round)));
    }
  }

  lemma ReasonIrrelevant(cfg: Config, s: State, reason: Option<Reason>)
    requires Sound(cfg, s)
    ensures Sound(cfg, s.(reason := reason))
  {
  }

  lemma StartSound(cfg: Config, deadline: int)
    ensures Sound(cfg, Start(deadline))
  {
  }

  /**
   Every run that is not cancelled ends with a reason after one to maxRounds rounds, and its records, retry
   counters and parse errors agree; the exception is a run whose time is up before its first round.
   */
  lemma RunEnds(cfg: Config, turns: nat -> Turn, deadline: int, cancelledAtEnd: bool)
    requires ValidConfig(cfg)
    ensures var o := Run(cfg, turns, deadline, cancelledAtEnd);
      o.Returned? ==>
        && o.final.reason.Some? && 1 <= o.final.round <= cfg.maxRounds
        && (o.success <==> o.final.reason == Some(FinalAnswer))
        && Sound(cfg, o.final)
  {
    hide Sound, Loop;
    StartSound(cfg, deadline);
    LoopSound(cfg, turns, Start(deadline));
    var (s, _) := Loop(cfg, turns, Start(deadline));
    ReasonIrrelevant(cfg, s, Some(CapReached));
  }

  /** No run with these settings takes more rounds than this. */
  ghost predicate RoundsWithin(cfg: Config, bound: nat) {
    forall turns, deadline, cancelledAtEnd ::
      var o := Run(cfg, turns, deadline, cancelledAtEnd); o.Returned? ==> o.final.round <= bound
  }

  /** A model that answers with code blocks at once, every time. */
  function Idle(): nat -> Turn {
    _ => Live(0, None, [], CodeBlocks)
  }

  lemma {:induction false} IdleLoop(cfg: Config, s: State)
    requires s.round <= cfg.maxRounds && s.reason.None? && s.budget.deadline >= 0
    ensures Loop(cfg, Idle(), s).0.round == cfg.maxRounds && Loop(cfg, Idle(), s).0.reason.None?
    ensures !Loop(cfg, Idle(), s).1
    decreases cfg.maxRounds - s.round
  {
    if s.round < cfg.maxRounds {
      assert Step(cfg, s, Idle()(s.round)) == s.(round := s.round + 1);
      IdleLoop(cfg, s.(round := s.round + 1));
    }
  }

  /** The smallest bound on the rounds of all runs is the cap itself. */
  lemma RoundsWithinIff(cfg: Config, bound: nat)
    requires ValidConfig(cfg)
    ensures RoundsWithin(cfg, bound) <==> cfg.maxRounds <= bound
  {
    hide Loop, Sound;
    if cfg.maxRounds <= bound {
      forall turns, deadline, cancelledAtEnd
        ensures var o := Run(cfg, turns, deadline, cancelledAtEnd); o.Returned? ==> o.final.round <= bound
      {
        RunEnds(cfg, turns, deadline, cancelledAtEnd);
      }
    } else {
      IdleLoop(cfg, Start(0));
      var o := Run(cfg, Idle(), 0, false);
      assert o.Returned? && o.final.round == cfg.maxRounds;
    }
  }

  /**
   Without an explicit cap the runs of a multi-round policy stay within a bound exactly when it is at least 160, or at
   least 32 and at least 24 and eight for each profile.
   */
  lemma DefaultRoundsWithinIff(cfg: Config, profileCount: int, bound: nat)
    requires ValidConfig(cfg) && cfg.maxRounds == RetryIterationCap(false, 0, profileCount)
    ensures RoundsWithin(cfg, bound) <==> bound >= 160 || (bound >= 32 && bound >= 24 + 8 * profileCount)
  {
    hide RoundsWithin;
    RoundsWithinIff(cfg, bound);
  }

  /** The output text is missing exactly when the time is up at the first check. */
  lemma OutputUnboundIff(cfg: Config, turns: nat -> Turn, deadline: int, cancelledAtEnd: bool)
    requires ValidConfig(cfg)
    ensures Run(cfg, turns, deadline, cancelledAtEnd).OutputUnbound? <==>
            !cancelledAtEnd && turns(0).Live? && turns(0).now > deadline
  {
    hide Sound, Step;
    var s := Start(deadline);
    StartSound(cfg, deadline);
    LoopSound(cfg, turns, s);
    if turns(0).Live? {
      var t := turns(0);
      StepAdvances(cfg, s, t);
      StepSound(cfg, s, t);
      LoopSound(cfg, turns, Step(cfg, s, t));
      FirstStep(cfg, deadline, t);
    }
  }

  lemma FirstStep(cfg: Config, deadline: int, t: Turn)
    requires t.Live?
    ensures Step(cfg, Start(deadline), t).round == 0 <==> t.now > deadline
  {
    hide Respond, ConsumeAll;
    StepAdvances(cfg, Start(deadline), t);
    var (b1, up1) := Consume(Start(deadline).budget, t.now, cfg);
    if !up1 {
      var (b2, up2) := ConsumeAll(Opened(b1, t.compactedAt), t.chunks, cfg);
      RespondKeepsRound(cfg, Start(deadline).(round := 1, budget := b2), t.response);
    }
  }

  lemma RespondKeepsRound(cfg: Config, s: State, r: Response)
    ensures Respond(cfg, s, r).round == s.round && Respond(cfg, s, r).budget == s.budget
  {
    hide ExecuteAll, Assess;
    if r.ToolCalls? {
      ExecuteAllKeeps(s, [r.first] + r.more);
    }
  }

  // ---------------------------------------------------------------- what success means

  lemma RespondAccepts(cfg: Config, s: State, r: Response)
    requires s.reason.None? && Respond(cfg, s, r).reason == Some(FinalAnswer)
    ensures r.Final? && Assess(cfg, s.records, r.answer) != Continue && Respond(cfg, s, r).records == s.records
  {
    hide ExecuteAll, Assess;
    if r.ToolCalls? {
      ExecuteAllKeeps(s, [r.first] + r.more);
    }
  }

  /** The text of an accepted round passed the completion check on the records of the whole run. */
  ghost predicate AcceptedAt(cfg: Config, turns: nat -> Turn, s: State) {
    s.round > 0 &&
    var t := turns(s.round - 1);
    t.Live? && t.response.Final? && Assess(cfg, s.records, t.response.answer) != Continue
  }

  lemma StepAccepts(cfg: Config, turns: nat -> Turn, s: State)
    requires s.reason.None? && turns(s.round).Live?
    requires Step(cfg, s, turns(s.round)).reason == Some(FinalAnswer)
    ensures AcceptedAt(cfg, turns, Step(cfg, s, turns(s.round)))
  {
    hide Respond, Consume, ConsumeAll, Assess;
    var t := turns(s.round);
    var (b1, up1) := Consume(s.budget, t.now, cfg);
    var (b2, up2) := ConsumeAll(Opened(b1, t.compactedAt), t.chunks, cfg);
    var s' := s.(round := s.round + 1, budget := b2);
    assert !up1 && !up2;
    RespondAccepts(cfg, s', t.response);
    RespondKeepsRound(cfg, s', t.response);
  }

  lemma {:induction false} LoopAccepts(cfg: Config, turns: nat -> Turn, s: State)
    requires s.round <= cfg.maxRounds && s.reason.None?
    ensures var (f, _) := Loop(cfg, turns, s); f.reason == Some(FinalAnswer) ==> AcceptedAt(cfg, turns, f)
    decreases 1 + cfg.maxRounds - s.round
  {
    hide Step, AcceptedAt;
    if s.round < cfg.maxRounds && turns(s.round).Live? {
      var s' := Step(cfg, s, turns(s.round));
      StepAdvances(cfg, s, turns(s.round));
      if s'.reason.None? {
        LoopAccepts(cfg, turns, s');
      } else if s'.reason == Some(FinalAnswer) {
        StepAccepts(cfg, turns, s);
      }
    }
  }

  /** The exit without proof of delivery that the soft guard allows. */
  predicate AdvisoryExit(cfg: Config, records: seq<Record>) {
    cfg.deliveryRequired && cfg.mode == Soft && !Delivered(records, cfg.formats)
  }

  /** Every failed or timed-out call is followed by a success in the same or a later round. */
  ghost predicate FailuresAnswered(records: seq<Record>) {
    forall i :: 0 <= i < |records| && CountsAsFailed(records[i]) ==> AnsweredBy(records, records[i].round)
  }

  ghost predicate AnsweredBy(records: seq<Record>, round: nat) {
    exists j :: 0 <= j < |records| && records[j].status == Success && records[j].round >= round
  }

  ghost predicate NoneFailedAfter(records: seq<Record>, i: nat) {
    forall j :: i < j < |records| ==> !CountsAsFailed(records[j])
  }

  lemma {:induction false} LatestFailedIsLast(records: seq<Record>)
    ensures match LatestFailed(records)
      case None => forall i :: 0 <= i < |records| ==> !CountsAsFailed(records[i])
      case Some(r) =>
        CountsAsFailed(r) && exists i :: 0 <= i < |records| && records[i] == r && NoneFailedAfter(records, i)
  {
    hide CountsAsFailed;
    if records != [] {
      var init := records[..|records| - 1];
      LatestFailedIsLast(init);
      if CountsAsFailed(records[|init|]) {
        assert NoneFailedAfter(records, |init|);
      } else if LatestFailed(init).Some? {
        var i :| 0 <= i < |init| && init[i] == LatestFailed(init).value && NoneFailedAfter(init, i);
        assert records[i] == init[i] && NoneFailedAfter(records, i);
      }
    }
  }

  lemma {:induction false} LatestSuccessIsMax(records: seq<Record>)
    ensures var m := LatestSuccessRound(records);
      && (forall j :: 0 <= j < |records| && records[j].status == Success ==> records[j].round <= m)
      && (m > 0 ==> AnsweredBy(records, m))
  {
    if records != [] {
      var init := records[..|records| - 1];
      LatestSuccessIsMax(init);
      var m := LatestSuccessRound(records);
      if m > 0 {
        if m == LatestSuccessRound(init) {
          var j :| 0 <= j < |init| && init[j].status == Success && init[j].round >= m;
          assert records[j] == init[j];
        } else {
          assert records[|records| - 1].status == Success;
        }
      }
    }
  }

  /** The check on the latest failed record decides the same question for all of them. */
  lemma UnresolvedIff(records: seq<Record>, round: nat)
    requires RoundsOrdered(records, round)
    ensures Unresolved(records) <==> !FailuresAnswered(records)
  {
    hide CountsAsFailed, LatestFailed, LatestSuccessRound;
    LatestFailedIsLast(records);
    LatestSuccessIsMax(records);
    var f := LatestFailed(records);
    var m := LatestSuccessRound(records);
    if f.Some? {
      var i :| 0 <= i < |records| && records[i] == f.value && NoneFailedAfter(records, i);
      if m >= f.value.round {
        forall k | 0 <= k < |records| && CountsAsFailed(records[k])
          ensures AnsweredBy(records, records[k].round)
        {
          assert k <= i;
        }
      }
    }
  }

  /**
   A successful run ended on a text that passed the completion check. Under the strict guard a demanded
   delivery is on record, and except for the advisory exit every failed or timed-out call is followed by a
   success in the same or a later round.
   */
  lemma SuccessMeans(cfg: Config, turns: nat -> Turn, deadline: int, cancelledAtEnd: bool)
    requires ValidConfig(cfg)
    ensures var o := Run(cfg, turns, deadline, cancelledAtEnd);
      o.Returned? && o.success ==>
        && AcceptedAt(cfg, turns, o.final)
        && (cfg.deliveryRequired && cfg.mode == Strict ==> Delivered(o.final.records, cfg.formats))
        && (!AdvisoryExit(cfg, o.final.records) ==> FailuresAnswered(o.final.records))
  {
    hide Sound, Loop, Delivered, FailuresAnswered, Unresolved, RoundsOrdered;
    var o := Run(cfg, turns, deadline, cancelledAtEnd);
    RunEnds(cfg, turns, deadline, cancelledAtEnd);
    LoopAccepts(cfg, turns, Start(deadline));
    if o.Returned? && o.success {
      assert RoundsOrdered(o.final.records, o.final.round) by { SoundOrdered(cfg, o.final); }
      UnresolvedIff(o.final.records, o.final.round);
    }
  }

  lemma SoundOrdered(cfg: Config, s: State)
    requires Sound(cfg, s)
    ensures RoundsOrdered(s.records, s.round)
  {
  }

  // ---------------------------------------------------------------- records and the calls of the turns

  /** The tool calls of a turn. */
  function CallsOf(t: Turn): seq<Call> {
    if t.Live? && t.response.ToolCalls? then [t.response.first] + t.response.more else []
  }

  /** The record tells what happened to the call. */
  predicate TellsOf(r: Record, round: nat, c: Call) {
    && r.round == round && r.tool == c.tool && r.formats == c.formats
    && (r.status == Success <==> c.outcome.Worked?)
    && (r.status == ValidationError <==> c.outcome.Invalid?)
    && (r.status == Timeout <==> c.outcome.TimedOut?)
    && (r.status == ExecutionError <==> c.outcome.Threw?)
  }

  ghost predicate Recorded(records: seq<Record>, round: nat, c: Call) {
    exists i :: 0 <= i < |records| && TellsOf(records[i], round, c)
  }

  /** A call of one of the first rounds that the record tells of. */
  ghost predicate ComesFrom(turns: nat -> Turn, n: nat, r: Record) {
    exists k: nat, c :: k < n && c in CallsOf(turns(k)) && TellsOf(r, k + 1, c)
  }

  /** The records tell of the calls of the first n turns, of all of them and of nothing else. */
  ghost predicate Faithful(turns: nat -> Turn, n: nat, records: seq<Record>) {
    && (forall k: nat, c :: k < n && c in CallsOf(turns(k)) ==> Recorded(records, k + 1, c))
    && (forall i :: 0 <= i < |records| ==> ComesFrom(turns, n, records[i]))
  }

  lemma {:induction false} ExecuteAllRecords(s: State, calls: seq<Call>)
    ensures var t := ExecuteAll(s, calls);
      && |t.records| == |s.records| + |calls| && t.records[..|s.records|] == s.records
      && forall i :: 0 <= i < |calls| ==> TellsOf(t.records[|s.records| + i], s.round, calls[i])
  {
    hide Apply;
    if calls == [] {
      assert ExecuteAll(s, calls) == s;
    } else {
      var init, c := calls[..|calls| - 1], calls[|calls| - 1];
      ExecuteAllRecords(s, init);
      ExecuteAllKeeps(s, init);
      var u := ExecuteAll(s, init);
      assert ExecuteAll(s, calls) == Execute(u, c);
      assert Execute(u, c).records == u.records + [RecordOf(s.round, c)];
    }
  }

  lemma RecordedStays(records: seq<Record>, later: seq<Record>, round: nat, c: Call)
    requires Recorded(records, round, c) && |records| <= |later| && later[..|records|] == records
    ensures Recorded(later, round, c)
  {
    hide TellsOf;
    var i :| 0 <= i < |records| && TellsOf(records[i], round, c);
    assert later[i] == records[i];
  }

  lemma ComesFromStays(turns: nat -> Turn, n: nat, r: Record)
    requires ComesFrom(turns, n, r)
    ensures ComesFrom(turns, n + 1, r)
  {
    hide TellsOf, CallsOf;
    var k: nat, c :| k < n && c in CallsOf(turns(k)) && TellsOf(r, k + 1, c);
    assert k < n + 1;
  }

  lemma MoreRecorded(turns: nat -> Turn, n: nat, records: seq<Record>, later: seq<Record>)
    requires Faithful(turns, n, records) && |records| + |CallsOf(turns(n))| == |later| && later[..|records|] == records
    requires forall i :: 0 <= i < |CallsOf(turns(n))| ==> TellsOf(later[|records| + i], n + 1, CallsOf(turns(n))[i])
    ensures Faithful(turns, n + 1, later)
  {
    var calls := CallsOf(turns(n));
    hide TellsOf, CallsOf, ComesFrom, Recorded;
    forall k: nat, c | k < n + 1 && c in CallsOf(turns(k))
      ensures Recorded(later, k + 1, c)
    {
      if k < n {
        RecordedStays(records, later, k + 1, c);
      } else {
        NewlyRecorded(calls, |records|, later, n + 1, c);
      }
    }
    forall i | 0 <= i < |later|
      ensures ComesFrom(turns, n + 1, later[i])
    {
      if i < |records| {
        assert later[i] == later[..|records|][i] == records[i];
        ComesFromStays(turns, n, records[i]);
      } else {
        NewlyComes(turns, n, |records|, later, i);
      }
    }
  }

  lemma NewlyRecorded(calls: seq<Call>, before: nat, later: seq<Record>, round: nat, c: Call)
    requires before + |calls| == |later| && c in calls
    requires forall i :: 0 <= i < |calls| ==> TellsOf(later[before + i], round, calls[i])
    ensures Recorded(later, round, c)
  {
    hide TellsOf;
    var i :| 0 <= i < |calls| && calls[i] == c;
    assert TellsOf(later[before + i], round, c);
  }

  lemma NewlyComes(turns: nat -> Turn, n: nat, before: nat, later: seq<Record>, i: nat)
    requires before <= i < |later| && before + |CallsOf(turns(n))| == |later|
    requires forall j :: 0 <= j < |CallsOf(turns(n))| ==> TellsOf(later[before + j], n + 1, CallsOf(turns(n))[j])
    ensures ComesFrom(turns, n + 1, later[i])
  {
    hide TellsOf, CallsOf;
    var c := CallsOf(turns(n))[i - before];
    assert later[i] == later[before + (i - before)];
    assert TellsOf(later[i], n + 1, c) && c in CallsOf(turns(n));
  }

  lemma RespondRecords(cfg: Config, turns: nat -> Turn, s: State, n: nat)
    requires turns(n).Live? && s.round == n + 1 && Faithful(turns, n, s.records)
    ensures Faithful(turns, n + 1, Respond(cfg, s, turns(n).response).records)
  {
    var calls := CallsOf(turns(n));
    var later := Respond(cfg, s, turns(n).response).records;
    ExecuteAllRecords(s, calls);
    assert later == ExecuteAll(s, calls).records by {
      hide Assess, Execute, Faithful;
    }
    hide Respond, ExecuteAll, Faithful, TellsOf, CallsOf;
    MoreRecorded(turns, n, s.records, later);
  }

  lemma StepRecords(cfg: Config, turns: nat -> Turn, s: State)
    requires turns(s.round).Live? && s.reason.None? && Faithful(turns, s.round, s.records)
    ensures var s' := Step(cfg, s, turns(s.round));
      s'.reason != Some(RuntimeTimeout) ==> Faithful(turns, s'.round, s'.records)
    ensures var s' := Step(cfg, s, turns(s.round));
      s'.reason == Some(RuntimeTimeout) ==> s'.records == s.records
  {
    hide Faithful, Respond, Consume, ConsumeAll;
    var t := turns(s.round);
    var (b1, up1) := Consume(s.budget, t.now, cfg);
    if !up1 {
      var (b2, up2) := ConsumeAll(Opened(b1, t.compactedAt), t.chunks, cfg);
      var s' := s.(round := s.round + 1, budget := b2);
      RespondRecords(cfg, turns, s', s.round);
      RespondKeepsRound(cfg, s', t.response);
      RespondNoTimeout(cfg, s', t.response);
    }
  }

  lemma RespondNoTimeout(cfg: Config, s: State, r: Response)
    requires s.reason.None?
    ensures Respond(cfg, s, r).reason != Some(RuntimeTimeout)
  {
    hide ExecuteAll, Assess;
    if r.ToolCalls? {
      ExecuteAllKeeps(s, [r.first] + r.more);
    }
  }

  lemma {:induction false} LoopRecords(cfg: Config, turns: nat -> Turn, s: State)
    requires s.round <= cfg.maxRounds && s.reason.None? && Faithful(turns, s.round, s.records)
    ensures var (f, _) := Loop(cfg, turns, s);
      if f.reason == Some(RuntimeTimeout)
      then exists n: nat :: f.round - 1 <= n <= f.round && Faithful(turns, n, f.records)
      else Faithful(turns, f.round, f.records)
    decreases 1 + cfg.maxRounds - s.round
  {
    hide Step, Faithful;
    if s.round < cfg.maxRounds && turns(s.round).Live? {
      var s' := Step(cfg, s, turns(s.round));
      StepAdvances(cfg, s, turns(s.round));
      StepRecords(cfg, turns, s);
      if s'.reason.None? {
        LoopRecords(cfg, turns, s');
      }
    }
  }

  lemma NothingRecorded(turns: nat -> Turn)
    ensures Faithful(turns, 0, [])
  {
  }

  /**
   At the end of every run the records tell of exactly the calls of its rounds, of each what became of it; when its
   time was up, the last round may not have run its calls.
   */
  lemma RecordsTellOfCalls(cfg: Config, turns: nat -> Turn, deadline: int, cancelledAtEnd: bool)
    ensures var o := Run(cfg, turns, deadline, cancelledAtEnd);
      o.Returned? ==>
        if o.final.reason == Some(RuntimeTimeout)
        then exists n: nat :: o.final.round - 1 <= n <= o.final.round && Faithful(turns, n, o.final.records)
        else Faithful(turns, o.final.round, o.final.records)
  {
    hide Loop, Faithful;
    NothingRecorded(turns);
    LoopRecords(cfg, turns, Start(deadline));
  }

  // ---------------------------------------------------------------- success over the turns

  /** A call that ran and failed, with no call that worked in its round or a later one of the first n. */
  ghost predicate LeftFailed(turns: nat -> Turn, n: nat, k: nat, c: Call) {
    && k < n && c in CallsOf(turns(k)) && (c.outcome.TimedOut? || c.outcome.Threw?)
    && forall l: nat, d :: k <= l < n && d in CallsOf(turns(l)) ==> !d.outcome.Worked?
  }

  ghost predicate NothingLeftFailed(turns: nat -> Turn, n: nat) {
    forall k, c :: !LeftFailed(turns, n, k, c)
  }

  /** A call that worked and produces a file of a requested format, or any file when no format was requested. */
  predicate Produces(c: Call, formats: set<string>) {
    && c.outcome.Worked?
    && if formats == {} then Lower(c.tool) in {"write_file", "append_file", "edit_file"}
       else
         && Lower(c.tool) in {"write_file", "append_file", "edit_file", "code_execution"}
         && exists x :: x in c.formats && x in formats
  }

  ghost predicate Produced(turns: nat -> Turn, n: nat, formats: set<string>) {
    exists k: nat, c :: k < n && c in CallsOf(turns(k)) && Produces(c, formats)
  }

  lemma AnsweredOverTurns(turns: nat -> Turn, n: nat, records: seq<Record>)
    requires Faithful(turns, n, records)
    ensures FailuresAnswered(records) <==> NothingLeftFailed(turns, n)
  {
    hide CallsOf, TellsOf;
    if FailuresAnswered(records) {
      forall k, c
        ensures !LeftFailed(turns, n, k, c)
      {
        if LeftFailed(turns, n, k, c) {
          AnsweredCall(turns, n, records, k, c);
        }
      }
    }
    if NothingLeftFailed(turns, n) {
      forall i | 0 <= i < |records| && CountsAsFailed(records[i])
        ensures AnsweredBy(records, records[i].round)
      {
        AnsweredRecord(turns, n, records, i);
      }
    }
  }

  lemma AnsweredCall(turns: nat -> Turn, n: nat, records: seq<Record>, k: nat, c: Call)
    requires Faithful(turns, n, records) && FailuresAnswered(records)
    ensures !LeftFailed(turns, n, k, c)
  {
    hide CallsOf, FailuresAnswered, TellsOf, ComesFrom, AnsweredBy;
    if k < n && c in CallsOf(turns(k)) && (c.outcome.TimedOut? || c.outcome.Threw?) {
      assert Recorded(records, k + 1, c);
      var i :| 0 <= i < |records| && TellsOf(records[i], k + 1, c);
      assert AnsweredBy(records, k + 1) by {
        FailedAnswered(records, i, k + 1, c);
      }
      var l, d := AnswerCall(turns, n, records, k + 1);
      assert k <= l < n && d in CallsOf(turns(l)) && d.outcome.Worked?;
    }
  }

  lemma FailedAnswered(records: seq<Record>, i: nat, round: nat, c: Call)
    requires FailuresAnswered(records) && i < |records| && TellsOf(records[i], round, c)
    requires c.outcome.TimedOut? || c.outcome.Threw?
    ensures AnsweredBy(records, round)
  {
    assert CountsAsFailed(records[i]);
    hide AnsweredBy;
  }

  /** The call behind a recorded success. */
  lemma AnswerCall(turns: nat -> Turn, n: nat, records: seq<Record>, round: nat) returns (l: nat, d: Call)
    requires Faithful(turns, n, records) && AnsweredBy(records, round)
    ensures l < n && d in CallsOf(turns(l)) && d.outcome.Worked? && l + 1 >= round
  {
    hide CallsOf, Recorded;
    var j :| 0 <= j < |records| && records[j].status == Success && records[j].round >= round;
    assert ComesFrom(turns, n, records[j]);
    l, d :| l < n && d in CallsOf(turns(l)) && TellsOf(records[j], l + 1, d);
  }

  lemma AnsweredRecord(turns: nat -> Turn, n: nat, records: seq<Record>, i: nat)
    requires Faithful(turns, n, records) && NothingLeftFailed(turns, n) && i < |records| && CountsAsFailed(records[i])
    ensures AnsweredBy(records, records[i].round)
  {
    hide CallsOf;
    assert ComesFrom(turns, n, records[i]);
    var k: nat, c :| k < n && c in CallsOf(turns(k)) && TellsOf(records[i], k + 1, c);
    assert !LeftFailed(turns, n, k, c);
    var l: nat, d :| k <= l < n && d in CallsOf(turns(l)) && d.outcome.Worked?;
    assert Recorded(records, l + 1, d);
    var j :| 0 <= j < |records| && TellsOf(records[j], l + 1, d);
  }

  lemma DeliveredOverTurns(turns: nat -> Turn, n: nat, records: seq<Record>, formats: set<string>)
    requires Faithful(turns, n, records)
    ensures Delivered(records, formats) <==> Produced(turns, n, formats)
  {
    if Delivered(records, formats) {
      RecordProduced(turns, n, records, formats);
    }
    if Produced(turns, n, formats) {
      CallDelivered(turns, n, records, formats);
    }
  }

  lemma RecordProduced(turns: nat -> Turn, n: nat, records: seq<Record>, formats: set<string>)
    requires Faithful(turns, n, records) && Delivered(records, formats)
    ensures Produced(turns, n, formats)
  {
    hide CallsOf, Delivers, Produces, TellsOf, Recorded;
    var i :| 0 <= i < |records| && Delivers(records[i], formats);
    assert ComesFrom(turns, n, records[i]);
    var k: nat, c :| k < n && c in CallsOf(turns(k)) && TellsOf(records[i], k + 1, c);
    DeliversIff(records[i], k + 1, c, formats);
  }

  lemma CallDelivered(turns: nat -> Turn, n: nat, records: seq<Record>, formats: set<string>)
    requires Faithful(turns, n, records) && Produced(turns, n, formats)
    ensures Delivered(records, formats)
  {
    hide CallsOf, Delivers, Produces, TellsOf, ComesFrom;
    var k: nat, c :| k < n && c in CallsOf(turns(k)) && Produces(c, formats);
    assert Recorded(records, k + 1, c);
    var i :| 0 <= i < |records| && TellsOf(records[i], k + 1, c);
    DeliversIff(records[i], k + 1, c, formats);
  }

  lemma DeliversIff(r: Record, round: nat, c: Call, formats: set<string>)
    requires TellsOf(r, round, c)
    ensures Delivers(r, formats) <==> Produces(c, formats)
  {
    hide Lower;
    assert r.formats * formats != {} <==> exists x :: x in r.formats && x in formats by {
      if x :| x in r.formats && x in formats {
        assert x in r.formats * formats;
      }
      if r.formats * formats != {} {
        var x :| x in r.formats * formats;
      }
    }
  }

  /**
   What it takes for a text to end the run after n rounds: it is complete and no tool call, and either a demanded file
   is still missing and the guard only advises, or nothing is missing, no failure is left, and the text reads finished.
   */
  ghost predicate EndsRun(cfg: Config, turns: nat -> Turn, n: nat, a: Answer) {
    var missing := cfg.deliveryRequired && !Produced(turns, n, cfg.formats);
    && a.finish == Other && !a.looksLikeCall
    && if missing then cfg.mode == Soft
       else (cfg.deliveryRequired ==> !a.inlinesFile) && NothingLeftFailed(turns, n) && !a.blank && !a.unfinished
  }

  lemma AssessOverTurns(cfg: Config, turns: nat -> Turn, n: nat, records: seq<Record>, a: Answer)
    requires ValidConfig(cfg) && Faithful(turns, n, records) && RoundsOrdered(records, n)
    ensures Assess(cfg, records, a) != Continue <==> EndsRun(cfg, turns, n, a)
  {
    hide Faithful, Delivered, Produced, FailuresAnswered, NothingLeftFailed, Unresolved, RoundsOrdered;
    DeliveredOverTurns(turns, n, records, cfg.formats);
    AnsweredOverTurns(turns, n, records);
    UnresolvedIff(records, n);
  }

  /**
   Main result: a run that returns succeeds exactly when its last round gave a text that ends it, and its time was not
   up in that round, judged by what the calls of its rounds did.
   */
  lemma SuccessOverTurns(cfg: Config, turns: nat -> Turn, deadline: int, cancelledAtEnd: bool)
    requires ValidConfig(cfg)
    ensures var o := Run(cfg, turns, deadline, cancelledAtEnd);
      o.Returned? ==>
        var last := turns(o.final.round - 1);
        (o.success <==>
          o.final.reason != Some(RuntimeTimeout) &&
          last.Live? && last.response.Final? && EndsRun(cfg, turns, o.final.round, last.response.answer))
  {
    hide Loop, Faithful, EndsRun, Assess, Sound, RoundsOrdered;
    var o := Run(cfg, turns, deadline, cancelledAtEnd);
    RunEnds(cfg, turns, deadline, cancelledAtEnd);
    RecordsTellOfCalls(cfg, turns, deadline, cancelledAtEnd);
    LoopAccepts(cfg, turns, Start(deadline));
    LoopLastTurn(cfg, turns, Start(deadline));
    if o.Returned? && o.final.reason != Some(RuntimeTimeout) {
      SoundOrdered(cfg, o.final);
      var last := turns(o.final.round - 1);
      if last.Live? && last.response.Final? {
        AssessOverTurns(cfg, turns, o.final.round, o.final.records, last.response.answer);
      }
    }
  }

  /** A round whose text ends the run ends it. */
  lemma StepLastTurn(cfg: Config, turns: nat -> Turn, s: State)
    requires s.reason.None? && turns(s.round).Live?
    ensures var s' := Step(cfg, s, turns(s.round));
      s'.reason != Some(RuntimeTimeout) && AcceptedAt(cfg, turns, s') ==> s'.reason == Some(FinalAnswer)
  {
    hide Consume, ConsumeAll, Assess, Respond;
    var t := turns(s.round);
    var (b1, up1) := Consume(s.budget, t.now, cfg);
    if !up1 {
      var (b2, up2) := ConsumeAll(Opened(b1, t.compactedAt), t.chunks, cfg);
      RespondKeepsRound(cfg, s.(round := s.round + 1, budget := b2), t.response);
      RespondEnds(cfg, s.(round := s.round + 1, budget := b2), t.response);
    }
  }

  lemma RespondEnds(cfg: Config, s: State, r: Response)
    ensures r.Final? && Assess(cfg, Respond(cfg, s, r).records, r.answer) != Continue ==>
            Respond(cfg, s, r).reason == Some(FinalAnswer)
  {
    hide Assess, ExecuteAll;
  }

  lemma {:induction false} LoopLastTurn(cfg: Config, turns: nat -> Turn, s: State)
    requires s.round <= cfg.maxRounds && s.reason.None?
    requires s.round > 0 ==> !AcceptedAt(cfg, turns, s)
    ensures var (f, _) := Loop(cfg, turns, s);
      f.reason != Some(RuntimeTimeout) && AcceptedAt(cfg, turns, f) ==> f.reason == Some(FinalAnswer)
    decreases 1 + cfg.maxRounds - s.round
  {
    hide Step, Assess;
    if s.round < cfg.maxRounds && turns(s.round).Live? {
      var s' := Step(cfg, s, turns(s.round));
      StepAdvances(cfg, s, turns(s.round));
      StepLastTurn(cfg, turns, s);
      if s'.reason.None? {
        LoopLastTurn(cfg, turns, s');
      }
    }
  }

  /** The soft guard let the run end with its advice, a demanded file missing. */
  ghost predicate EndedOnAdvice(cfg: Config, turns: nat -> Turn, n: nat) {
    cfg.deliveryRequired && cfg.mode == Soft && !Produced(turns, n, cfg.formats)
  }

  /** Otherwise success leaves no call failed that ran: one that worked came in its round or a later one. */
  lemma SuccessAnswersCalls(cfg: Config, turns: nat -> Turn, deadline: int, cancelledAtEnd: bool)
    requires ValidConfig(cfg)
    ensures var o := Run(cfg, turns, deadline, cancelledAtEnd);
      o.Returned? && o.success && !EndedOnAdvice(cfg, turns, o.final.round) ==>
        forall k: nat, c ::
          k < o.final.round && c in CallsOf(turns(k)) && (c.outcome.TimedOut? || c.outcome.Threw?) ==>
            exists l: nat, d :: k <= l < o.final.round && d in CallsOf(turns(l)) && d.outcome.Worked?
  {
    hide Run, CallsOf, Produced;
    SuccessOverTurns(cfg, turns, deadline, cancelledAtEnd);
    var o := Run(cfg, turns, deadline, cancelledAtEnd);
    if o.Returned? && o.success && !EndedOnAdvice(cfg, turns, o.final.round) {
      forall k: nat, c | k < o.final.round && c in CallsOf(turns(k)) && (c.outcome.TimedOut? || c.outcome.Threw?)
        ensures exists l: nat, d :: k <= l < o.final.round && d in CallsOf(turns(l)) && d.outcome.Worked?
      {
        assert !LeftFailed(turns, o.final.round, k, c);
      }
    }
  }

  /** Under the strict guard success means that a call which produces the demanded file worked. */
  lemma StrictDelivery(cfg: Config, turns: nat -> Turn, deadline: int, cancelledAtEnd: bool)
    requires ValidConfig(cfg) && cfg.deliveryRequired && cfg.mode == Strict
    ensures var o := Run(cfg, turns, deadline, cancelledAtEnd);
      o.Returned? && o.success ==>
        exists k: nat, c :: k < o.final.round && c in CallsOf(turns(k)) && Produces(c, cfg.formats)
  {
    hide Run, CallsOf;
    SuccessOverTurns(cfg, turns, deadline, cancelledAtEnd);
  }

  // ---------------------------------------------------------------- what the check does not see

  /** A call whose arguments never validated does not keep a text from being accepted. */
  lemma ValidationErrorAccepted(cfg: Config, round: nat, tool: string)
    requires !cfg.deliveryRequired
    ensures Assess(cfg, [Record(round, tool, {}, ValidationError)], Answer(Other, false, false, false, false)) == Stop
  {
    var rs := [Record(round, tool, {}, ValidationError)];
    assert rs[..0] == [];
    assert LatestFailed(rs) == LatestFailed(rs[..0]);
  }

  /** Every call that did not succeed, for whatever reason, is followed by a success. */
  ghost predicate AllAnswered(records: seq<Record>) {
    forall i :: 0 <= i < |records| && records[i].status != Success ==> AnsweredBy(records, records[i].round)
  }

  /** No call failed to validate after the last round with a success. */
  predicate ValidationSettled(records: seq<Record>) {
    forall i :: 0 <= i < |records| && records[i].status == ValidationError ==>
      records[i].round <= LatestSuccessRound(records)
  }

  /** What the check lacks to see that all calls are answered: the validation errors after the last success. */
  lemma AllAnsweredIff(records: seq<Record>, round: nat)
    requires RoundsOrdered(records, round)
    ensures AllAnswered(records) <==> !Unresolved(records) && ValidationSettled(records)
  {
    hide Unresolved, LatestSuccessRound, LatestFailed;
    UnresolvedIff(records, round);
    LatestSuccessIsMax(records);
    var m := LatestSuccessRound(records);
    forall i | 0 <= i < |records|
      ensures AnsweredBy(records, records[i].round) <==> records[i].round <= m
    {
      if AnsweredBy(records, records[i].round) {
        var j :| 0 <= j < |records| && records[j].status == Success && records[j].round >= records[i].round;
      }
    }
  }

  /** A successful run leaves a call unanswered exactly when one failed to validate after the last success. */
  lemma SuccessAnswersAllIff(cfg: Config, turns: nat -> Turn, deadline: int, cancelledAtEnd: bool)
    requires ValidConfig(cfg)
    ensures var o := Run(cfg, turns, deadline, cancelledAtEnd);
      o.Returned? && o.success && !AdvisoryExit(cfg, o.final.records) ==>
        (AllAnswered(o.final.records) <==> ValidationSettled(o.final.records))
  {
    hide Run, AcceptedAt, Delivered, RoundsOrdered, AllAnswered, ValidationSettled, Unresolved, FailuresAnswered;
    SuccessMeans(cfg, turns, deadline, cancelledAtEnd);
    RunEnds(cfg, turns, deadline, cancelledAtEnd);
    var o := Run(cfg, turns, deadline, cancelledAtEnd);
    if o.Returned? && o.success && !AdvisoryExit(cfg, o.final.records) {
      AllAnsweredIff(o.final.records, o.final.round);
      UnresolvedIff(o.final.records, o.final.round);
    }
  }

  /** The success of any tool answers the failure of another. */
  lemma OtherToolAnswers(cfg: Config, round: nat, failed: string, worked: string)
    requires !cfg.deliveryRequired
    ensures Assess(cfg, OtherToolRecords(round, failed, worked), Answer(Other, false, false, false, false)) == Stop
    ensures !Unresolved(OtherToolRecords(round, failed, worked))
  {
    var rs := OtherToolRecords(round, failed, worked);
    LatestFailedIsLast(rs);
    LatestSuccessIsMax(rs);
    assert rs[1].status == Success;
    assert rs[0].status == ExecutionError;
    hide LatestFailed, LatestSuccessRound;
  }

  function OtherToolRecords(round: nat, failed: string, worked: string): seq<Record> {
    [Record(round, failed, {}, ExecutionError), Record(round + 1, worked, {}, Success)]
  }

  ghost predicate AnsweredByOwn(records: seq<Record>, r: Record) {
    exists j :: 0 <= j < |records| &&
      records[j].tool == r.tool && records[j].status == Success && records[j].round >= r.round
  }

  /** Every failed or timed-out call is followed by a success of its own tool. */
  ghost predicate OwnAnswered(records: seq<Record>) {
    forall i :: 0 <= i < |records| && CountsAsFailed(records[i]) ==> AnsweredByOwn(records, records[i])
  }

  ghost predicate RecordsOf(records: seq<Record>, names: set<string>) {
    forall r :: r in records ==> r.tool in names
  }

  /** Passing the check means that each tool's failures were made good by that tool. */
  ghost predicate CheckSeesTools(names: set<string>) {
    forall records, round :: RoundsOrdered(records, round) && RecordsOf(records, names) && !Unresolved(records) ==>
      OwnAnswered(records)
  }

  /** The check answers each tool for itself exactly when there is no second tool to answer for it. */
  lemma OwnToolAnswersIff(names: set<string>)
    ensures CheckSeesTools(names) <==> forall a, b :: a in names && b in names ==> a == b
  {
    hide Unresolved, CountsAsFailed;
    if forall a, b :: a in names && b in names ==> a == b {
      forall records: seq<Record>, round: nat |
        RoundsOrdered(records, round) && RecordsOf(records, names) && !Unresolved(records)
        ensures OwnAnswered(records)
      {
        UnresolvedIff(records, round);
        forall i | 0 <= i < |records| && CountsAsFailed(records[i])
          ensures AnsweredByOwn(records, records[i])
        {
          var j :| 0 <= j < |records| && records[j].status == Success && records[j].round >= records[i].round;
          assert records[i] in records && records[j] in records;
        }
      }
    } else {
      var a, b :| a in names && b in names && a != b;
      OtherToolUnanswered(a, b);
      assert RecordsOf(OtherToolRecords(1, a, b), names);
    }
  }

  lemma OtherToolUnanswered(a: string, b: string)
    requires a != b
    ensures var rs := OtherToolRecords(1, a, b);
      RoundsOrdered(rs, 2) && !Unresolved(rs) && !OwnAnswered(rs)
  {
    hide Unresolved;
    OtherToolAnswers(Config(1, 0, 0, false, Off, {}, 0, 0), 1, a, b);
    var rs := OtherToolRecords(1, a, b);
    assert CountsAsFailed(rs[0]);
    assert !AnsweredByOwn(rs, rs[0]);
  }

  // ---------------------------------------------------------------- rounds in which every tool fails

  ghost predicate Registered(calls: seq<Call>, names: set<string>) {
    forall i :: 0 <= i < |calls| ==> calls[i].tool in names
  }

  function KeyOf(c: Call): string {
    FailureKey(c.tool, CategoryOf(c.outcome))
  }

  /**
   Which streak the check sees: the first tool's streak up to the last call of the round that failed under
   the key of the first one. The run ends exactly when that streak has reached the limit.
   */
  lemma AllFailedRoundEndsIff(cfg: Config, names: set<string>, s: State, first: Call, more: seq<Call>, last: nat)
    requires PrefixFree(names) && Sound(cfg, s) && Uses(s.log, names) && 1 <= s.round && s.reason.None?
    requires var calls := [first] + more;
      && Registered(calls, names) && (forall i :: 0 <= i < |calls| ==> !calls[i].outcome.Worked?)
      && last < |calls| && KeyOf(calls[last]) == KeyOf(first)
      && forall i :: last < i < |calls| ==> KeyOf(calls[i]) != KeyOf(first)
    ensures var calls := [first] + more;
      var streak := Streak(s.log + EventsOf(calls[..last + 1]), calls[last].tool);
      var after := Respond(cfg, s, ToolCalls(first, more));
      && (after.reason == Some(MaxExecutionRetries) <==> streak >= cfg.maxExec)
      && (streak < cfg.maxExec ==> after.reason.None?)
  {
    hide PrefixFree, FailureKey, Replay, Streak, ExecuteAll, RoundsOrdered, Misparses, ParseErrorsCounted, CategoryOf;
    var calls := [first] + more;
    ExecuteAllKeeps(s, calls);
    ExecuteAllLogs(s, calls);
    KeyAfterRound(s.log, names, calls, last);
  }

  lemma {:induction false} KeyAfterRound(log: seq<Event>, names: set<string>, calls: seq<Call>, last: nat)
    requires PrefixFree(names) && Uses(log, names) && Registered(calls, names) && AllFailed(calls)
    requires last < |calls| && forall i :: last < i < |calls| ==> KeyOf(calls[i]) != KeyOf(calls[last])
    ensures Count(Replay(log + EventsOf(calls)), KeyOf(calls[last])) ==
            Streak(log + EventsOf(calls[..last + 1]), calls[last].tool)
  {
    hide PrefixFree, FailureKey, Replay, Streak, CategoryOf;
    var e := EventOf(calls[last]);
    var before, later := log + EventsOf(calls[..last]), EventsOf(calls[last + 1..]);
    assert log + EventsOf(calls) == before + [e] + later;
    assert before + [e] == log + EventsOf(calls[..last + 1]);
    forall i | 0 <= i < |later|
      ensures later[i].Failed? && FailureKey(later[i].tool, later[i].category) != FailureKey(e.tool, e.category)
    {
      assert later[i] == EventOf(calls[last + 1 + i]);
      assert KeyOf(calls[last + 1 + i]) != KeyOf(calls[last]);
    }
    UsesMore(log, names, calls[..last]);
    KeyHoldsStreak(before, e, later, names);
  }

  lemma UsesMore(log: seq<Event>, names: set<string>, calls: seq<Call>)
    requires Uses(log, names) && Registered(calls, names)
    ensures Uses(log + EventsOf(calls), names)
  {
    hide CategoryOf;
    var events := EventsOf(calls);
    forall x | x in log + events
      ensures x.Misparsed? || x.tool in names
    {
      if x !in log {
        var i :| 0 <= i < |events| && events[i] == x;
        assert x == EventOf(calls[i]);
      }
    }
  }

  lemma {:induction false} StreakIgnoresOthers(before: seq<Event>, later: seq<Event>, tool: string)
    requires forall i :: 0 <= i < |later| ==> !later[i].Misparsed? && later[i].tool != tool
    ensures Streak(before + later, tool) == Streak(before, tool)
    decreases |later|
  {
    if later == [] {
      assert before + later == before;
    } else {
      var init := later[..|later| - 1];
      assert (before + later)[..|before + later| - 1] == before + init;
      StreakIgnoresOthers(before, init, tool);
    }
  }

  /** A round in which some tool worked ends nothing and records no error, whatever failed beside it. */
  lemma WorkedRoundGoesOn(cfg: Config, s: State, first: Call, more: seq<Call>, i: nat)
    requires i < |[first] + more| && ([first] + more)[i].outcome.Worked?
    ensures var after := Respond(cfg, s, ToolCalls(first, more));
      after.reason == s.reason && after.errors == s.errors
  {
    hide ExecuteAll;
    ExecuteAllKeeps(s, [first] + more);
  }

  /** A malformed answer ends the run exactly when its kind has been recorded as often as the limit allows. */
  lemma MalformedEndsIff(cfg: Config, s: State, kind: string)
    requires Sound(cfg, s) && s.reason.None?
    ensures var after := Respond(cfg, s, Malformed(kind));
      if ParseErrors(s.errors, kind) >= cfg.maxParse
      then after.reason == Some(MaxParseRetries) && after.errors == s.errors
      else after.reason.None? && after.errors == s.errors + [ErrorRecord(s.round, kind, None)]
  {
    hide Sound, ParseErrors;
    ParseLimitReached(cfg, s, kind);
  }

  /** When the first tool's failures in the round are of one kind, the check sees its whole streak. */
  lemma UniformRoundEndsIff(cfg: Config, names: set<string>, s: State, first: Call, more: seq<Call>)
    requires PrefixFree(names) && Sound(cfg, s) && Uses(s.log, names) && 1 <= s.round && s.reason.None?
    requires var calls := [first] + more;
      && Registered(calls, names) && (forall i :: 0 <= i < |calls| ==> !calls[i].outcome.Worked?)
      && forall i :: 0 <= i < |calls| && calls[i].tool == first.tool ==>
           CategoryOf(calls[i].outcome) == CategoryOf(first.outcome)
    ensures var calls := [first] + more;
      Respond(cfg, s, ToolCalls(first, more)).reason == Some(MaxExecutionRetries) <==>
      Streak(s.log + EventsOf(calls), first.tool) >= cfg.maxExec
  {
    hide PrefixFree, FailureKey, Replay, Streak, Sound, Respond, CategoryOf;
    var calls := [first] + more;
    var last := LastOfKey(calls, |calls|);
    AllFailedRoundEndsIff(cfg, names, s, first, more, last);
    assert calls[last].tool == first.tool by {
      SameKeySameTool(names, calls[last], first);
    }
    UniformStreak(s.log, calls, last);
  }

  lemma UniformStreak(log: seq<Event>, calls: seq<Call>, last: nat)
    requires last < |calls| && forall i :: last < i < |calls| ==> KeyOf(calls[i]) != KeyOf(calls[0])
    requires forall i :: 0 <= i < |calls| && calls[i].tool == calls[0].tool ==>
      CategoryOf(calls[i].outcome) == CategoryOf(calls[0].outcome)
    ensures Streak(log + EventsOf(calls), calls[0].tool) == Streak(log + EventsOf(calls[..last + 1]), calls[0].tool)
  {
    hide FailureKey, Streak, CategoryOf;
    var head, later := log + EventsOf(calls[..last + 1]), EventsOf(calls[last + 1..]);
    assert log + EventsOf(calls) == head + later;
    forall i | 0 <= i < |later|
      ensures !later[i].Misparsed? && later[i].tool != calls[0].tool
    {
      var c := calls[last + 1 + i];
      assert later[i] == EventOf(c);
      assert KeyOf(c) != KeyOf(calls[0]);
    }
    StreakIgnoresOthers(head, later, calls[0].tool);
  }

  lemma SameKeySameTool(names: set<string>, a: Call, b: Call)
    requires PrefixFree(names) && a.tool in names && b.tool in names && KeyOf(a) == KeyOf(b)
    ensures a.tool == b.tool
  {
    hide FailureKey, Matches;
    OwnKeyMatches(a.tool, CategoryOf(a.outcome));
    KeyMatchesOther(a.tool, b.tool, CategoryOf(b.outcome));
  }

  lemma LastOfKey(calls: seq<Call>, n: nat) returns (last: nat)
    requires 0 < n <= |calls|
    ensures last < n && KeyOf(calls[last]) == KeyOf(calls[0])
    ensures forall i :: last < i < n ==> KeyOf(calls[i]) != KeyOf(calls[0])
  {
    hide KeyOf;
    if n == 1 || KeyOf(calls[n - 1]) == KeyOf(calls[0]) {
      last := n - 1;
    } else {
      last := LastOfKey(calls, n - 1);
    }
  }

  /** The last call of a tool in a round. */
  predicate IsLastOf(calls: seq<Call>, tool: string, last: nat) {
    last < |calls| && calls[last].tool == tool && forall i :: last < i < |calls| ==> calls[i].tool != tool
  }

  /** Whatever came before the round and whatever the limit, a streak of the first tool at the limit ends the run. */
  ghost predicate StreakEndsRun(names: set<string>, first: Call, more: seq<Call>) {
    forall cfg, s :: StreakAtLimit(cfg, names, s, first, more) ==>
      Respond(cfg, s, ToolCalls(first, more)).reason == Some(MaxExecutionRetries)
  }

  ghost predicate StreakAtLimit(cfg: Config, names: set<string>, s: State, first: Call, more: seq<Call>) {
    && Sound(cfg, s) && Uses(s.log, names) && 1 <= s.round && s.reason.None?
    && Streak(s.log + EventsOf([first] + more), first.tool) >= cfg.maxExec
  }

  /**
   The calls of the round alone decide: the limit check sees the streak, for all histories and limits, exactly when
   the first tool's last failure of the round is of the same kind as its first.
   */
  lemma StreakEndsRunIff(names: set<string>, first: Call, more: seq<Call>, last: nat)
    requires PrefixFree(names) && Registered([first] + more, names)
    requires forall i :: 0 <= i < |[first] + more| ==> !([first] + more)[i].outcome.Worked?
    requires IsLastOf([first] + more, first.tool, last)
    ensures StreakEndsRun(names, first, more) <==> KeyOf(([first] + more)[last]) == KeyOf(first)
  {
    hide PrefixFree, Sound, Respond, KeyOf, Streak, Uses;
    var calls := [first] + more;
    if KeyOf(calls[last]) == KeyOf(first) {
      forall cfg, s | StreakAtLimit(cfg, names, s, first, more)
        ensures Respond(cfg, s, ToolCalls(first, more)).reason == Some(MaxExecutionRetries)
      {
        LastKeySeesStreak(cfg, names, s, first, more, last);
      }
    } else {
      var cfg, s := LastKeyMisses(names, first, more, last);
    }
  }

  lemma {:induction false} LastKeySeesStreak(cfg: Config, names: set<string>, s: State, first: Call, more: seq<Call>,
                                             last: nat)
    requires PrefixFree(names) && StreakAtLimit(cfg, names, s, first, more)
    requires Registered([first] + more, names) && AllFailed([first] + more)
    requires IsLastOf([first] + more, first.tool, last) && KeyOf(([first] + more)[last]) == KeyOf(first)
    ensures Respond(cfg, s, ToolCalls(first, more)).reason == Some(MaxExecutionRetries)
  {
    var calls := [first] + more;
    OwnKeyLast(names, calls, last);
    StreakUpToLast(s.log, calls, last);
    hide PrefixFree, Sound, Respond, KeyOf, Streak, Uses, AllFailed, EventsOf, Registered, IsLastOf;
    AllFailedRoundEndsIff(cfg, names, s, first, more, last);
  }

  lemma {:induction false} OwnKeyLast(names: set<string>, calls: seq<Call>, last: nat)
    requires PrefixFree(names) && Registered(calls, names) && calls != [] && IsLastOf(calls, calls[0].tool, last)
    ensures forall i :: last < i < |calls| ==> KeyOf(calls[i]) != KeyOf(calls[0])
  {
    hide PrefixFree, KeyOf;
    forall i | last < i < |calls|
      ensures KeyOf(calls[i]) != KeyOf(calls[0])
    {
      if KeyOf(calls[i]) == KeyOf(calls[0]) {
        SameKeySameTool(names, calls[i], calls[0]);
      }
    }
  }

  lemma {:induction false} StreakUpToLast(log: seq<Event>, calls: seq<Call>, last: nat)
    requires calls != [] && IsLastOf(calls, calls[0].tool, last)
    ensures Streak(log + EventsOf(calls), calls[0].tool) == Streak(log + EventsOf(calls[..last + 1]), calls[0].tool)
  {
    hide Streak, CategoryOf;
    var head, later := log + EventsOf(calls[..last + 1]), EventsOf(calls[last + 1..]);
    assert log + EventsOf(calls) == head + later;
    forall i | 0 <= i < |later|
      ensures !later[i].Misparsed? && later[i].tool != calls[0].tool
    {
      assert later[i] == EventOf(calls[last + 1 + i]);
    }
    StreakIgnoresOthers(head, later, calls[0].tool);
  }

  /** A history before the round in which it reaches the limit unseen. */
  lemma {:induction false} LastKeyMisses(names: set<string>, first: Call, more: seq<Call>, last: nat)
    returns (cfg: Config, s: State)
    requires PrefixFree(names) && Registered([first] + more, names) && AllFailed([first] + more)
    requires IsLastOf([first] + more, first.tool, last) && KeyOf(([first] + more)[last]) != KeyOf(first)
    ensures StreakAtLimit(cfg, names, s, first, more)
    ensures Respond(cfg, s, ToolCalls(first, more)).reason != Some(MaxExecutionRetries)
  {
    var calls := [first] + more;
    cfg := Config(1, 0, Streak(EventsOf(calls), first.tool), false, Off, {}, 0, 0);
    s := Start(0).(round := 1);
    NothingBefore(cfg, names, s);
    var seen := LastOfKey(calls, |calls|);
    SeenIsShort(names, calls, seen, last);
    hide PrefixFree, Respond, KeyOf, Streak, EventsOf, Sound, Uses, AllFailed, Registered, IsLastOf;
    assert s.log + EventsOf(calls) == EventsOf(calls);
    assert s.log + EventsOf(calls[..seen + 1]) == EventsOf(calls[..seen + 1]);
    AllFailedRoundEndsIff(cfg, names, s, first, more, seen);
  }

  lemma NothingBefore(cfg: Config, names: set<string>, s: State)
    requires s == Start(0).(round := 1)
    ensures Sound(cfg, s) && Uses(s.log, names)
  {
  }

  /** The last failure under the first key comes before the tool's last failure, and so at a shorter streak. */
  lemma {:induction false} SeenIsShort(names: set<string>, calls: seq<Call>, seen: nat, last: nat)
    requires PrefixFree(names) && Registered(calls, names) && AllFailed(calls) && calls != []
    requires IsLastOf(calls, calls[0].tool, last) && KeyOf(calls[last]) != KeyOf(calls[0])
    requires seen < |calls| && KeyOf(calls[seen]) == KeyOf(calls[0])
    ensures calls[seen].tool == calls[0].tool
    ensures Streak(EventsOf(calls[..seen + 1]), calls[0].tool) < Streak(EventsOf(calls), calls[0].tool)
  {
    hide PrefixFree, KeyOf, Streak, CategoryOf, EventOf;
    SameKeySameTool(names, calls[seen], calls[0]);
    assert seen < last;
    var head, later := EventsOf(calls[..seen + 1]), EventsOf(calls[seen + 1..]);
    EventsSplit(calls, seen + 1);
    forall i | 0 <= i < |later|
      ensures later[i].Failed?
    {
      FailedEvent(calls[seen + 1 + i]);
    }
    FailedEvent(calls[last]);
    assert later[last - seen - 1] == EventOf(calls[last]);
    StreakGrows(head, later, calls[0].tool, last - seen - 1);
  }

  lemma FailedEvent(c: Call)
    requires !c.outcome.Worked?
    ensures EventOf(c).Failed? && EventOf(c).tool == c.tool
  {
    hide CategoryOf;
  }

  lemma {:induction false} EventsSplit(calls: seq<Call>, k: nat)
    requires k <= |calls|
    ensures EventsOf(calls) == EventsOf(calls[..k]) + EventsOf(calls[k..])
  {
    hide EventOf;
  }

  /** Failures only add to a streak. */
  lemma {:induction false} StreakGrows(before: seq<Event>, later: seq<Event>, tool: string, i: nat)
    requires forall j :: 0 <= j < |later| ==> later[j].Failed?
    requires i < |later| && later[i].tool == tool
    ensures Streak(before + later, tool) > Streak(before, tool)
    decreases |later|
  {
    var init, e := later[..|later| - 1], later[|later| - 1];
    assert before + later == (before + init) + [e];
    assert (before + later)[..|before + later| - 1] == before + init;
    if i < |init| {
      StreakGrows(before, init, tool, i);
    } else {
      StreakKept(before, init, tool);
    }
  }

  lemma {:induction false} StreakKept(before: seq<Event>, later: seq<Event>, tool: string)
    requires forall j :: 0 <= j < |later| ==> later[j].Failed?
    ensures Streak(before + later, tool) >= Streak(before, tool)
    decreases |later|
  {
    if later == [] {
      assert before + later == before;
    } else {
      var init := later[..|later| - 1];
      assert (before + later)[..|before + later| - 1] == before + init;
      StreakKept(before, init, tool);
    }
  }

  /** Two kinds of failure of one tool in one round: the streak reaches the limit and the run goes on. */
  lemma MixedFailuresSlip(cfg: Config, s: State, tool: string)
    requires s.counts == map[] && s.log == [] && s.round == 1 && s.reason.None? && s.records == []
    requires cfg.maxExec == 2
    ensures var first, second := Call(tool, {}, Threw("generic")), Call(tool, {}, TimedOut);
      && Streak(EventsOf([first, second]), tool) == 2
      && Respond(cfg, s, ToolCalls(first, [second])).reason.None?
  {
    var first, second := Call(tool, {}, Threw("generic")), Call(tool, {}, TimedOut);
    var calls := [first] + [second];
    assert calls == [first, second] && calls[..1] == [first] && [first][..0] == [];
    var events := EventsOf(calls);
    assert events[..1] == [Failed(tool, "generic")] && events[..1][..0] == [];
    assert Streak(events[..1], tool) == 1;
    var k1, k2 := FailureKey(tool, "generic"), FailureKey(tool, "timeout");
    assert |k1| == |k2| && k1[|k1| - 1] == 'c' && k2[|k2| - 1] == 't';
    ExecuteAllKeeps(s, calls);
    hide Current, FailureKey, Streak;
    var none: Counts := map[];
    CurrentUnique(none, tool, 0);
    var t1 := ExecuteAll(s, [first]);
    assert t1 == Execute(ExecuteAll(s, []), first);
    var t2 := ExecuteAll(s, calls);
    assert t2 == Execute(t1, second);
  }

  // ---------------------------------------------------------------- counters over a whole run

  ghost predicate TurnsRegistered(turns: nat -> Turn, names: set<string>) {
    forall r :: turns(r).Live? && turns(r).response.ToolCalls? ==>
      Registered([turns(r).response.first] + turns(r).response.more, names)
  }

  lemma RespondUses(cfg: Config, names: set<string>, s: State, r: Response)
    requires Uses(s.log, names) && Sound(cfg, s) && 1 <= s.round
    requires r.ToolCalls? ==> Registered([r.first] + r.more, names)
    ensures Uses(Respond(cfg, s, r).log, names)
  {
    hide Replay, ExecuteAll, Assess, RoundsOrdered, ParseErrorsCounted, Misparses;
    if r.ToolCalls? {
      ExecuteAllKeeps(s, [r.first] + r.more);
      ExecuteAllLogs(s, [r.first] + r.more);
      UsesMore(s.log, names, [r.first] + r.more);
    }
  }

  lemma StepUses(cfg: Config, names: set<string>, s: State, t: Turn)
    requires Uses(s.log, names) && Sound(cfg, s) && t.Live?
    requires t.response.ToolCalls? ==> Registered([t.response.first] + t.response.more, names)
    ensures Uses(Step(cfg, s, t).log, names)
  {
    hide Replay, Respond, Consume, ConsumeAll, Misparses, ParseErrors, Registered;
    var (b1, up1) := Consume(s.budget, t.now, cfg);
    if !up1 {
      var (b2, up2) := ConsumeAll(Opened(b1, t.compactedAt), t.chunks, cfg);
      RespondUses(cfg, names, s.(round := s.round + 1, budget := b2), t.response);
    }
  }

  lemma {:induction false} LoopUses(cfg: Config, names: set<string>, turns: nat -> Turn, s: State)
    requires s.round <= cfg.maxRounds && Sound(cfg, s) && Uses(s.log, names) && TurnsRegistered(turns, names)
    ensures var (f, _) := Loop(cfg, turns, s); Uses(f.log, names)
    decreases if s.reason.Some? then 0 else 1 + cfg.maxRounds - s.round
  {
    hide Sound, Step, Registered, Uses;
    if s.round < cfg.maxRounds && s.reason.None? && turns(s.round).Live? {
      StepUses(cfg, names, s, turns(s.round));
      StepSound(cfg, s, turns(s.round));
      StepAdvances(cfg, s, turns(s.round));
      LoopUses(cfg, names, turns, Step(cfg, s, turns(s.round)));
    }
  }

  /** At the end of every run over such names the counters are the streaks, and parse counters are bounded counts. */
  lemma RunCountsAreStreaks(cfg: Config, names: set<string>, turns: nat -> Turn, deadline: int)
    requires PrefixFree(names) && TurnsRegistered(turns, names)
    ensures var (f, _) := Loop(cfg, turns, Start(deadline));
      && (forall t :: t in names ==> Current(f.counts, t) == Streak(f.log, t))
      && (forall kind :: Count(f.counts, ParseKey(kind)) == ParseErrors(f.errors, kind) <= cfg.maxParse)
  {
    hide Loop, PrefixFree, TurnsRegistered, Current, Streak, RoundsOrdered, Replay, Misparses, ParseErrors, ParseKey;
    StartSound(cfg, deadline);
    LoopSound(cfg, turns, Start(deadline));
    LoopUses(cfg, names, turns, Start(deadline));
    var (f, _) := Loop(cfg, turns, Start(deadline));
    CountsAreStreaks(f.log, names);
    forall kind
      ensures Count(f.counts, ParseKey(kind)) == ParseErrors(f.errors, kind) <= cfg.maxParse
    {
      ParseCountsExact(f.log, kind);
    }
  }

  // ---------------------------------------------------------------- the deadline of a whole run

  /** A round before this one compacted the history at that time. */
  ghost predicate CompactedAt(turns: nat -> Turn, rounds: nat, at: int) {
    exists r: nat :: r < rounds && turns(r).Live? && turns(r).compactedAt == Some(at)
  }

  ghost predicate MovedOnce(cfg: Config, turns: nat -> Turn, rounds: nat, deadline: int, b: Budget) {
    && (!b.graceUsed ==> b.deadline == deadline)
    && (b.lastCompaction.Some? ==> CompactedAt(turns, rounds, b.lastCompaction.value))
    && (b.graceUsed ==> exists now, at :: CompactedAt(turns, rounds, at) && GraceFrom(cfg, deadline, now, at, b))
  }

  predicate GraceFrom(cfg: Config, deadline: int, now: int, at: int, b: Budget) {
    now > deadline && now - at <= cfg.window && b.deadline == now + cfg.grace
  }

  lemma ConsumeMovesOnce(cfg: Config, turns: nat -> Turn, rounds: nat, deadline: int, b: Budget, times: seq<int>)
    requires MovedOnce(cfg, turns, rounds, deadline, b)
    ensures MovedOnce(cfg, turns, rounds, deadline, ConsumeAll(b, times, cfg).0)
  {
    hide CompactedAt, ConsumeAll;
    GraceOnce(b, times, cfg);
    var (b', up) := ConsumeAll(b, times, cfg);
    if b'.graceUsed && !b.graceUsed {
      var i :| 0 <= i < |times| && times[i] > b.deadline && GraceApplies(b, times[i], cfg) &&
        b' == Budget(times[i] + cfg.grace, b.lastCompaction, true);
      assert GraceFrom(cfg, deadline, times[i], b.lastCompaction.value, b');
    }
  }

  lemma MovedOnceLater(cfg: Config, turns: nat -> Turn, rounds: nat, deadline: int, b: Budget, compactedAt: Option<int>)
    requires MovedOnce(cfg, turns, rounds, deadline, b)
    requires turns(rounds).Live? && turns(rounds).compactedAt == compactedAt
    ensures MovedOnce(cfg, turns, rounds + 1, deadline, Opened(b, compactedAt))
  {
    forall at | CompactedAt(turns, rounds, at)
      ensures CompactedAt(turns, rounds + 1, at)
    {
    }
    if compactedAt.Some? {
      assert CompactedAt(turns, rounds + 1, compactedAt.value);
    }
    var b' := Opened(b, compactedAt);
    if b.graceUsed {
      var now, at :| CompactedAt(turns, rounds, at) && GraceFrom(cfg, deadline, now, at, b);
      assert CompactedAt(turns, rounds + 1, at) && GraceFrom(cfg, deadline, now, at, b');
    }
  }

  lemma StepMovesOnce(cfg: Config, turns: nat -> Turn, s: State, deadline: int)
    requires turns(s.round).Live? && MovedOnce(cfg, turns, s.round, deadline, s.budget)
    ensures var s' := Step(cfg, s, turns(s.round)); MovedOnce(cfg, turns, s'.round, deadline, s'.budget)
  {
    hide MovedOnce, Respond, Consume, ConsumeAll, Opened;
    var t := turns(s.round);
    var (b1, up1) := Consume(s.budget, t.now, cfg);
    assert MovedOnce(cfg, turns, s.round, deadline, b1) by {
      ConsumeOne(s.budget, t.now, cfg);
      ConsumeMovesOnce(cfg, turns, s.round, deadline, s.budget, [t.now]);
    }
    if !up1 {
      var o := Opened(b1, t.compactedAt);
      var (b2, up2) := ConsumeAll(o, t.chunks, cfg);
      MovedOnceLater(cfg, turns, s.round, deadline, b1, t.compactedAt);
      ConsumeMovesOnce(cfg, turns, s.round + 1, deadline, o, t.chunks);
      RespondKeepsRound(cfg, s.(round := s.round + 1, budget := b2), t.response);
    }
  }

  lemma ConsumeOne(b: Budget, now: int, cfg: Config)
    ensures ConsumeAll(b, [now], cfg) == Consume(b, now, cfg)
  {
    assert [now][1..] == [];
    var (b', up) := Consume(b, now, cfg);
    assert ConsumeAll(b', [], cfg) == (b', false);
  }

  lemma {:induction false} LoopMovesOnce(cfg: Config, turns: nat -> Turn, s: State, deadline: int)
    requires s.round <= cfg.maxRounds && MovedOnce(cfg, turns, s.round, deadline, s.budget)
    ensures var (f, _) := Loop(cfg, turns, s); MovedOnce(cfg, turns, f.round, deadline, f.budget)
    decreases if s.reason.Some? then 0 else 1 + cfg.maxRounds - s.round
  {
    hide MovedOnce, Step;
    if s.round < cfg.maxRounds && s.reason.None? && turns(s.round).Live? {
      StepMovesOnce(cfg, turns, s, deadline);
      StepAdvances(cfg, s, turns(s.round));
      LoopMovesOnce(cfg, turns, Step(cfg, s, turns(s.round)), deadline);
    }
  }

  /**
   Over a whole run the deadline stays, or is moved once: to the grace after a check that came too late but
   within the window after a compaction of the run.
   */
  lemma DeadlineMovesOnce(cfg: Config, turns: nat -> Turn, deadline: int)
    ensures var (f, _) := Loop(cfg, turns, Start(deadline));
      f.budget.deadline == deadline ||
      exists now, at :: CompactedAt(turns, f.round, at) && GraceFrom(cfg, deadline, now, at, f.budget)
  {
    hide Loop, CompactedAt;
    LoopMovesOnce(cfg, turns, Start(deadline), deadline);
    var (f, _) := Loop(cfg, turns, Start(deadline));
    if f.budget.graceUsed {
      var now, at :| CompactedAt(turns, f.round, at) && GraceFrom(cfg, deadline, now, at, f.budget);
      assert CompactedAt(turns, f.round, at);
    }
  }

  // ---------------------------------------------------------------- the state object and the loop

  lemma ExecuteAllSnoc(s: State, calls: seq<Call>, i: nat)
    requires i < |calls|
    ensures ExecuteAll(s, calls[..i + 1]) == Execute(ExecuteAll(s, calls[..i]), calls[i])
  {
    hide Execute;
    assert calls[..i + 1][..i] == calls[..i];
  }

  datatype Ending = EndedWith(success: bool) | EndedCancelled | EndedUnbound

  /** ConversationState with the loop budget; log is a history variable. */
  class ConversationState {
    var roundNumber: nat
    var toolCallsMade: seq<Record>
    var retryCounts: Counts
    var errors: seq<ErrorRecord>
    var terminationReason: Option<Reason>
    var budget: Budget
    ghost var log: seq<Event>

    ghost function View(): State
      reads this
    {
      State(roundNumber, toolCallsMade, retryCounts, errors, terminationReason, budget, log)
    }

    constructor (deadline: int)
      ensures View() == Start(deadline)
    {
      roundNumber, toolCallsMade, retryCounts, errors := 0, [], map[], [];
      terminationReason, budget, log := None, Budget(deadline, None, false), [];
    }

    method CurrentRetryCount(tool: string) returns (n: nat)
      ensures n == Current(retryCounts, tool)
    {
      hide Matches, Current;
      var keys := retryCounts.Keys;
      n := 0;
      while keys != {}
        invariant keys <= retryCounts.Keys
        invariant forall k :: k in retryCounts && k !in keys && Matches(k, tool) ==> retryCounts[k] <= n
        invariant n == 0 || exists k :: k in retryCounts && Matches(k, tool) && retryCounts[k] == n
        decreases |keys|
      {
        var k :| k in keys;
        if Matches(k, tool) && retryCounts[k] > n {
          n := retryCounts[k];
        }
        keys := keys - {k};
      }
      CurrentUnique(retryCounts, tool, n);
    }

    method ClearToolRetryCounts(tool: string)
      modifies this`retryCounts
      ensures retryCounts == Cleared(old(retryCounts), tool)
    {
      hide Matches;
      var keys := set k | k in retryCounts && Matches(k, tool);
      while keys != {}
        invariant forall k :: k in keys ==> Matches(k, tool)
        invariant forall k :: k in retryCounts <==> k in old(retryCounts) && (Matches(k, tool) ==> k in keys)
        invariant forall k :: k in retryCounts ==> retryCounts[k] == old(retryCounts)[k]
        decreases |keys|
      {
        var k :| k in keys;
        retryCounts := retryCounts - {k};
        keys := keys - {k};
      }
    }

    method ExecuteTool(c: Call)
      modifies this
      ensures View() == Execute(old(View()), c)
    {
      hide Current, FailureKey, Cleared;
      var retryCount := CurrentRetryCount(c.tool);
      if c.outcome.Worked? {
        ClearToolRetryCounts(c.tool);
      } else {
        retryCounts := retryCounts[FailureKey(c.tool, CategoryOf(c.outcome)) := retryCount + 1];
      }
      toolCallsMade := toolCallsMade + [RecordOf(roundNumber, c)];
      log := log + [EventOf(c)];
    }

    /** _execute_tools_with_recovery */
    method ExecuteTools(calls: seq<Call>)
      modifies this
      ensures View() == ExecuteAll(old(View()), calls)
      ensures |toolCallsMade| == |old(toolCallsMade)| + |calls|
      ensures toolCallsMade[..|old(toolCallsMade)|] == old(toolCallsMade)
      ensures forall i :: 0 <= i < |calls| ==> TellsOf(toolCallsMade[|old(toolCallsMade)| + i], roundNumber, calls[i])
    {
      ExecuteAllKeeps(View(), calls);
      ExecuteAllRecords(View(), calls);
      hide Execute, ExecuteAll, TellsOf;
      assert calls[..0] == [];
      assert View() == ExecuteAll(View(), []) by { ExecuteNone(View()); }
      for i := 0 to |calls|
        invariant View() == ExecuteAll(old(View()), calls[..i])
      {
        ExecuteAllSnoc(old(View()), calls, i);
        ExecuteTool(calls[i]);
      }
      assert calls[..|calls|] == calls;
    }

    method HandleExecutionFailures(cfg: Config, first: Call)
      modifies this
      ensures View() == HandleFailures(cfg, old(View()), first)
      ensures old(Sound(cfg, View())) ==> Sound(cfg, View())
      ensures old(terminationReason).None? ==> (terminationReason.None? <==> |errors| == |old(errors)| + 1)
      ensures retryCounts == old(retryCounts) && toolCallsMade == old(toolCallsMade)
      ensures |errors| == |old(errors)| + 1 ==>
        var kind := match first.outcome
                    case TimedOut => "timeout"
                    case Threw(_) => "execution_error"
                    case Invalid => "validation_error"
                    case Worked => "";
        errors[|old(errors)|] == ErrorRecord(roundNumber, kind, Some(first.tool))
    {
      ghost var s := View();
      if Sound(cfg, s) {
        HandleFailuresSound(cfg, s, first);
      }
      hide Sound;
      hide FailureKey;
      var key := FailureKey(first.tool, CategoryOf(first.outcome));
      var retryCount := if key in retryCounts then retryCounts[key] else 0;
      if retryCount >= cfg.maxExec {
        terminationReason := Some(MaxExecutionRetries);
      } else {
        errors := errors + [ErrorRecord(roundNumber, KindOf(first.outcome), Some(first.tool))];
      }
    }

    method HandleParseErrors(cfg: Config, kind: string)
      modifies this
      ensures View() == HandleMalformed(cfg, old(View()), kind)
      ensures old(Sound(cfg, View())) ==> Sound(cfg, View())
      ensures old(Sound(cfg, View()) && terminationReason.None?) ==>
        (terminationReason.Some? <==> ParseErrors(old(errors), kind) == cfg.maxParse)
    {
      ghost var s := View();
      if Sound(cfg, s) {
        HandleMalformedSound(cfg, s, kind);
        ParseLimitReached(cfg, s, kind);
      }
      hide Sound, ParseErrors, Misparses;
      hide ParseKey;
      var key := ParseKey(kind);
      var retryCount := if key in retryCounts then retryCounts[key] else 0;
      if retryCount >= cfg.maxParse {
        terminationReason := Some(MaxParseRetries);
        return;
      }
      retryCounts := retryCounts[key := retryCount + 1];
      errors := errors + [ErrorRecord(roundNumber, kind, None)];
      log := log + [Misparsed(kind)];
    }

    /** _consume_runtime_timeout */
    method ConsumeRuntimeTimeout(cfg: Config, now: int) returns (timedOut: bool)
      modifies this`budget
      ensures (budget, timedOut) == Consume(old(budget), now, cfg)
      ensures timedOut <==> now > budget.deadline
      ensures timedOut <==> now > old(budget).deadline && !GraceDue(old(budget), now, cfg)
      ensures budget.deadline ==
        if now > old(budget).deadline && !timedOut then now + cfg.grace else old(budget).deadline
      ensures old(budget).deadline <= budget.deadline && budget.lastCompaction == old(budget).lastCompaction
      ensures budget.deadline != old(budget).deadline ==> !old(budget).graceUsed && budget.graceUsed
    {
      if now <= budget.deadline {
        return false;
      }
      if !budget.graceUsed && budget.lastCompaction.Some? && cfg.grace > 0 &&
         now - budget.lastCompaction.value <= cfg.window {
        budget := budget.(graceUsed := true, deadline := now + cfg.grace);
        return false;
      }
      timedOut := true;
    }

    /** The budget checks at the chunks of one stream. */
    method StreamChunks(cfg: Config, times: seq<int>) returns (timedOut: bool)
      modifies this`budget
      ensures (budget, timedOut) == ConsumeAll(old(budget), times, cfg)
    {
      hide Consume;
      assert times[0..] == times;
      for i := 0 to |times|
        invariant ConsumeAll(budget, times[i..], cfg) == ConsumeAll(old(budget), times, cfg)
      {
        assert times[i..][0] == times[i] && times[i..][1..] == times[i + 1..];
        var up := ConsumeRuntimeTimeout(cfg, times[i]);
        if up {
          return true;
        }
      }
      timedOut := false;
    }

    /** One round from its response on. */
    method HandleResponse(cfg: Config, response: Response)
      modifies this
      ensures View() == Respond(cfg, old(View()), response)
    {
      hide Assess, HandleFailures, HandleMalformed, ExecuteAll;
      match response
      case LlmFailure => terminationReason := Some(LlmFailed);
      case CodeBlocks =>
      case Malformed(kind) => HandleParseErrors(cfg, kind);
      case Final(answer) =>
        if Assess(cfg, toolCallsMade, answer) != Continue {
          terminationReason := Some(FinalAnswer);
        } else if roundNumber >= cfg.maxRounds {
          terminationReason := Some(CapReached);
        }
      case ToolCalls(first, more) =>
        ExecuteTools([first] + more);
        if AllFailed([first] + more) {
          HandleExecutionFailures(cfg, first);
        }
    }

    /** One turn of the main loop. */
    method Round(cfg: Config, turn: Turn)
      requires turn.Live?
      modifies this
      ensures View() == Step(cfg, old(View()), turn)
    {
      hide Respond, Consume, ConsumeAll;
      var timedOut := ConsumeRuntimeTimeout(cfg, turn.now);
      if timedOut {
        terminationReason := Some(RuntimeTimeout);
        return;
      }
      roundNumber := roundNumber + 1;
      if turn.compactedAt.Some? {
        budget := budget.(lastCompaction := turn.compactedAt);
      }
      timedOut := StreamChunks(cfg, turn.chunks);
      if timedOut {
        terminationReason := Some(RuntimeTimeout);
        return;
      }
      HandleResponse(cfg, turn.response);
    }

    /** The main loop; turns is what the clock, the model and the tools do. */
    method RunLoop(cfg: Config, turns: nat -> Turn) returns (cancelled: bool)
      requires roundNumber <= cfg.maxRounds
      modifies this
      ensures (View(), cancelled) == Loop(cfg, turns, old(View()))
    {
      hide Step;
      while roundNumber < cfg.maxRounds && terminationReason.None? && turns(roundNumber).Live?
        invariant roundNumber <= cfg.maxRounds
        invariant Loop(cfg, turns, View()) == Loop(cfg, turns, old(View()))
        decreases if terminationReason.Some? then 0 else 1 + cfg.maxRounds - roundNumber
      {
        StepAdvances(cfg, View(), turns(roundNumber));
        Round(cfg, turns(roundNumber));
      }
      cancelled := roundNumber < cfg.maxRounds && terminationReason.None?;
    }
  }

  lemma ExecuteNone(s: State)
    ensures ExecuteAll(s, []) == s
  {
  }

  /** execute_task_with_recovery */
  method ExecuteTaskWithRecovery(cfg: Config, turns: nat -> Turn, deadline: int, cancelledAtEnd: bool)
      returns (state: ConversationState, ending: Ending)
    ensures var o := Run(cfg, turns, deadline, cancelledAtEnd);
      && (ending.EndedWith? <==> o.Returned?) && (ending.EndedUnbound? <==> o.OutputUnbound?)
      && (ending.EndedCancelled? <==> o.RunCancelled?)
      && (ending.EndedWith? ==> o == Returned(ending.success, state.View()))
  {
    hide Loop, Step;
    state := new ConversationState(deadline);
    var cancelled := state.RunLoop(cfg, turns);
    if state.terminationReason.None? && state.roundNumber >= cfg.maxRounds {
      state.terminationReason := Some(CapReached);
    }
    if cancelled || cancelledAtEnd {
      return state, EndedCancelled;
    }
    if state.roundNumber == 0 {
      return state, EndedUnbound;
    }
    ending := EndedWith(state.terminationReason == Some(FinalAnswer));
  }
}
