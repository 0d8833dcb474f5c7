/**
 Requests between agents: each waits on a future filed under its correlation id, which a reply, a timeout,
 a cancellation or the closing of the communicator settles, in whatever order these come.
 */
module RequestResponse {
  import opened Common

  type Corr = string

  type AgentId = string

  datatype Message = Message(sender: AgentId, isResponse: bool, corr: Corr, body: string)

  /**
   The authorizer: switched off, an object without the two calls the communicator makes, or one with them,
   receives being the verdict of its receive check.
   */
  datatype Check = Off | Missing | Checks(receives: Message -> bool)

  /** The optional components; auditorRaises says that there is an auditor without the calls the communicator makes. */
  datatype Gate = Gate(check: Check, auditorRaises: bool)

  datatype Future = Pending | Resolved(reply: Message) | TimedOut | Cut

  datatype Result =
    | Succeeded(reply: Message)
    | Unauthorized
    | Raised
    | SendFailed
    | TimeoutError
    | CancelledError

  /**
   filed is the key set of the pending map; waiting are the requests that have not returned, handed those whose
   message the stream took.
   */
  datatype State = State(self: AgentId, gate: Gate, filed: set<Corr>, futures: map<Corr, Future>,
                         waiting: set<Corr>, handed: set<Corr>, results: map<Corr, Result>)

  /** permitted is the verdict of the send check, sends whether the message can be handed to the stream. */
  datatype Step =
    | Send(corr: Corr, to: AgentId, permitted: bool, sends: bool)
    | Deliver(message: Message)
    | Expire(corr: Corr)
    | CancelTask(corr: Corr)
    | Resume(corr: Corr)
    | Close

  function Start(self: AgentId, gate: Gate): State {
    State(self, gate, {}, map[], {}, {}, map[])
  }

  /** What the authorizer makes of a send, None to go on. */
  function SendVerdict(gate: Gate, permitted: bool): Option<Result> {
    match gate.check
    case Off => None
    case Missing => Some(Raised)
    case Checks(_) => if permitted then None else Some(Unauthorized)
  }

  predicate CheckPasses(check: Check, m: Message) {
    match check
    case Off => true
    case Missing => false
    case Checks(receives) => receives(m)
  }

  /** The message gets as far as its handling: past the receive check and past the auditor. */
  predicate Passes(gate: Gate, m: Message) {
    CheckPasses(gate.check, m) && !gate.auditorRaises
  }

  /** A response this communicator accepts. */
  predicate Acceptable(self: AgentId, gate: Gate, m: Message) {
    m.sender != self && Passes(gate, m) && m.isResponse && m.corr != ""
  }

  predicate IsPending(s: State, c: Corr) {
    c in s.futures && s.futures[c].Pending?
  }

  /** _handle_response */
  function HandleResponse(s: State, m: Message): State {
    if m.corr in s.filed && IsPending(s, m.corr) then s.(futures := s.futures[m.corr := Resolved(m)]) else s
  }

  function ResultOf(f: Future): Result
    requires !f.Pending?
  {
    match f
    case Resolved(m) => Succeeded(m)
    case TimedOut => TimeoutError
    case Cut => CancelledError
  }

  /** The futures close cancels. */
  function CutFutures(s: State): map<Corr, Future> {
    map c | c in s.futures :: if c in s.filed && s.futures[c].Pending? then Cut else s.futures[c]
  }

  /** Steps that are not enabled change nothing. */
  function Next(s: State, step: Step): State {
    match step
    case Send(c, _, permitted, sends) =>
      var verdict := SendVerdict(s.gate, permitted);
      if verdict.Some? then s.(results := s.results[c := verdict.value])
      else
        var handed := if sends then s.handed + {c} else s.handed;
        var t := s.(futures := s.futures[c := Pending], handed := handed);
        if !sends || s.gate.auditorRaises then t.(filed := s.filed - {c}, results := s.results[c := SendFailed])
        else t.(filed := s.filed + {c}, waiting := s.waiting + {c})
    case Deliver(m) => if Acceptable(s.self, s.gate, m) then HandleResponse(s, m) else s
    case Expire(c) => if c in s.waiting && IsPending(s, c) then s.(futures := s.futures[c := TimedOut]) else s
    case CancelTask(c) => if c in s.waiting && IsPending(s, c) then s.(futures := s.futures[c := Cut]) else s
    case Resume(c) =>
      if c in s.waiting && c in s.futures && !s.futures[c].Pending? then
        s.(results := s.results[c := ResultOf(s.futures[c])], filed := s.filed - {c}, waiting := s.waiting - {c})
      else s
    case Close => s.(futures := CutFutures(s), filed := {})
  }

  function After(s: State, steps: seq<Step>): State {
    if steps == [] then s else Next(After(s, steps[..|steps| - 1]), steps[|steps| - 1])
  }

  /** Correlation ids are drawn once. */
  ghost predicate FreshIds(steps: seq<Step>) {
    forall i, j :: 0 <= i < j < |steps| && steps[i].Send? && steps[j].Send? ==> steps[i].corr != steps[j].corr
  }

  // ---------------------------------------------------------------- one request on its own

  /** What becomes of one request, told without the maps; filed says whether it is still in the pending map. */
  datatype Phase =
    | Unsent
    | Refused(result: Result)
    | Failed(handed: bool)
    | Waiting
    | Settled(future: Future, filed: bool)
    | Done(result: Result)

  function SoloNext(self: AgentId, gate: Gate, c: Corr, p: Phase, step: Step): Phase {
    match step
    case Send(d, _, permitted, sends) =>
      if d != c then p
      else
        var verdict := SendVerdict(gate, permitted);
        if verdict.Some? then Refused(verdict.value)
        else if !sends || gate.auditorRaises then Failed(sends)
        else Waiting
    case Deliver(m) =>
      if p.Waiting? && Acceptable(self, gate, m) && m.corr == c then Settled(Resolved(m), true) else p
    case Expire(d) => if p.Waiting? && d == c then Settled(TimedOut, true) else p
    case CancelTask(d) => if p.Waiting? && d == c then Settled(Cut, true) else p
    case Resume(d) => if p.Settled? && !p.future.Pending? && d == c then Done(ResultOf(p.future)) else p
    case Close => if p.Waiting? then Settled(Cut, false) else if p.Settled? then p.(filed := false) else p
  }

  function Solo(self: AgentId, gate: Gate, c: Corr, steps: seq<Step>): Phase {
    if steps == [] then Unsent
    else SoloNext(self, gate, c, Solo(self, gate, c, steps[..|steps| - 1]), steps[|steps| - 1])
  }

  /** How the shared state shows the phase of a request. */
  ghost predicate Shows(s: State, c: Corr, p: Phase) {
    (c in s.handed <==> Handed(p)) &&
    match p
    case Unsent => c !in s.filed && c !in s.waiting && c !in s.futures && c !in s.results
    case Refused(r) =>
      c !in s.filed && c !in s.waiting && c !in s.futures && Gave(s, c, r) && !r.Succeeded? && !r.SendFailed?
    case Failed(_) => c !in s.filed && c !in s.waiting && IsPending(s, c) && Gave(s, c, SendFailed)
    case Waiting => c in s.filed && c in s.waiting && IsPending(s, c) && c !in s.results
    case Settled(f, filed) =>
      !f.Pending? && (c in s.filed <==> filed) && c in s.waiting && Has(s, c, f) && c !in s.results
    case Done(r) =>
      c !in s.filed && c !in s.waiting && !IsPending(s, c) && c in s.futures && Gave(s, c, r) && !r.SendFailed?
  }

  predicate Handed(p: Phase) {
    match p
    case Unsent => false
    case Refused(_) => false
    case Failed(handed) => handed
    case _ => true
  }

  predicate Gave(s: State, c: Corr, r: Result) {
    c in s.results && s.results[c] == r
  }

  predicate Has(s: State, c: Corr, f: Future) {
    c in s.futures && s.futures[c] == f
  }

  lemma NextShows(s: State, c: Corr, p: Phase, step: Step)
    requires Shows(s, c, p)
    requires step.Send? && step.corr == c ==> p.Unsent?
    ensures Shows(Next(s, step), c, SoloNext(s.self, s.gate, c, p, step))
  {
  }

  lemma {:induction false} UnsentYet(self: AgentId, gate: Gate, c: Corr, steps: seq<Step>)
    requires forall i :: 0 <= i < |steps| && steps[i].Send? ==> steps[i].corr != c
    ensures Solo(self, gate, c, steps) == Unsent
  {
    if steps != [] {
      UnsentYet(self, gate, c, steps[..|steps| - 1]);
    }
  }

  /** The maps the requests share keep them apart: each fares as if it were alone. */
  lemma {:induction false} RequestsAreIndependent(self: AgentId, gate: Gate, c: Corr, steps: seq<Step>)
    requires FreshIds(steps)
    ensures After(Start(self, gate), steps).self == self && After(Start(self, gate), steps).gate == gate
    ensures Shows(After(Start(self, gate), steps), c, Solo(self, gate, c, steps))
  {
    hide Next, SoloNext, Shows;
    if steps == [] {
      assert Shows(Start(self, gate), c, Unsent) by { StartShows(self, gate, c); }
    } else {
      var init, last := steps[..|steps| - 1], steps[|steps| - 1];
      RequestsAreIndependent(self, gate, c, init);
      if last.Send? && last.corr == c {
        UnsentYet(self, gate, c, init);
      }
      NextShows(After(Start(self, gate), init), c, Solo(self, gate, c, init), last);
      NextSelf(After(Start(self, gate), init), last);
    }
  }

  lemma NextSelf(s: State, step: Step)
    ensures Next(s, step).self == s.self && Next(s, step).gate == s.gate
  {
  }

  lemma StartShows(self: AgentId, gate: Gate, c: Corr)
    ensures Shows(Start(self, gate), c, Unsent)
  {
  }

  // ---------------------------------------------------------------- when a request succeeds

  /** A step after which the request no longer waits. */
  predicate Settles(self: AgentId, gate: Gate, c: Corr, step: Step) {
    match step
    case Deliver(m) => Acceptable(self, gate, m) && m.corr == c
    case Expire(d) => d == c
    case CancelTask(d) => d == c
    case Close => true
    case _ => false
  }

  /** The step sends a request with this id and makes it wait. */
  predicate Starts(gate: Gate, c: Corr, step: Step) {
    Hands(gate, c, step) && !gate.auditorRaises
  }

  /** The step gets the request's message to the stream. */
  predicate Hands(gate: Gate, c: Corr, step: Step) {
    step.Send? && step.corr == c && step.sends && Permitted(gate, step)
  }

  /** Nothing keeps the message from being sent: no check, or one that lets it through. */
  predicate Permitted(gate: Gate, step: Step)
    requires step.Send?
  {
    gate.check.Off? || (gate.check.Checks? && step.permitted)
  }

  /** The request was sent at i and nothing settled it before the end. */
  ghost predicate WaitsSince(self: AgentId, gate: Gate, c: Corr, steps: seq<Step>, i: nat) {
    i < |steps| && Starts(gate, c, steps[i]) && forall j :: i < j < |steps| ==> !Settles(self, gate, c, steps[j])
  }

  lemma {:induction false} WaitingIff(self: AgentId, gate: Gate, c: Corr, steps: seq<Step>)
    requires FreshIds(steps)
    ensures Solo(self, gate, c, steps).Waiting? <==> exists i: nat :: WaitsSince(self, gate, c, steps, i)
  {
    hide Acceptable;
    if steps != [] {
      var init, last := steps[..|steps| - 1], steps[|steps| - 1];
      WaitingIff(self, gate, c, init);
      if Starts(gate, c, last) {
        assert WaitsSince(self, gate, c, steps, |init|);
      } else if Solo(self, gate, c, init).Waiting? && !Settles(self, gate, c, last) {
        var i: nat :| WaitsSince(self, gate, c, init, i);
        assert steps[i] == init[i];
        assert WaitsSince(self, gate, c, steps, i);
      }
      if i: nat :| WaitsSince(self, gate, c, steps, i) {
        if i < |init| {
          assert init[i] == steps[i];
          assert WaitsSince(self, gate, c, init, i);
        }
      }
    }
  }

  /** The first thing that settled the request was this reply. */
  ghost predicate RepliedFirst(self: AgentId, gate: Gate, c: Corr, steps: seq<Step>, m: Message, j: nat) {
    j < |steps| && steps[j] == Deliver(m) && Acceptable(self, gate, m) && m.corr == c &&
    exists i: nat :: WaitsSince(self, gate, c, steps[..j], i)
  }

  /** What a request is told when this step is the first thing that settles it. */
  function EndsAs(step: Step): Result {
    match step
    case Deliver(m) => Succeeded(m)
    case Expire(_) => TimeoutError
    case _ => CancelledError
  }

  /** The j-th step was the first thing that settled the request. */
  ghost predicate SettledFirst(self: AgentId, gate: Gate, c: Corr, steps: seq<Step>, j: nat) {
    j < |steps| && Settles(self, gate, c, steps[j]) && exists i: nat :: WaitsSince(self, gate, c, steps[..j], i)
  }

  ghost predicate SettledAs(self: AgentId, gate: Gate, c: Corr, steps: seq<Step>, r: Result) {
    exists j: nat :: SettledFirst(self, gate, c, steps, j) && EndsAs(steps[j]) == r
  }

  /** The request is settled or done, and its result is or will be this. */
  predicate ComesOutAs(p: Phase, r: Result) {
    match p
    case Settled(Resolved(m), _) => r == Succeeded(m)
    case Settled(TimedOut, _) => r == TimeoutError
    case Settled(Cut, _) => r == CancelledError
    case Done(result) => r == result
    case _ => false
  }

  lemma {:induction false} SettledIff(self: AgentId, gate: Gate, c: Corr, steps: seq<Step>, r: Result)
    requires FreshIds(steps)
    ensures ComesOutAs(Solo(self, gate, c, steps), r) <==> SettledAs(self, gate, c, steps, r)
  {
    hide Acceptable, WaitsSince, SendVerdict, Settles;
    if steps != [] {
      var init, last := steps[..|steps| - 1], steps[|steps| - 1];
      SettledIff(self, gate, c, init, r);
      WaitingIff(self, gate, c, init);
      if last.Send? && last.corr == c {
        UnsentYet(self, gate, c, init);
      }
      SettledSnoc(self, gate, c, init, last, r);
      assert steps == init + [last];
      OutcomeStep(self, gate, c, Solo(self, gate, c, init), last, r);
    }
  }

  /** One more step settles a request when it is waiting and the step settles it. */
  lemma OutcomeStep(self: AgentId, gate: Gate, c: Corr, p: Phase, last: Step, r: Result)
    requires last.Send? && last.corr == c ==> p.Unsent?
    ensures ComesOutAs(SoloNext(self, gate, c, p, last), r) <==>
            ComesOutAs(p, r) || (p.Waiting? && Settles(self, gate, c, last) && EndsAs(last) == r)
  {
    hide Acceptable, SendVerdict;
  }

  lemma SettledSnoc(self: AgentId, gate: Gate, c: Corr, init: seq<Step>, last: Step, r: Result)
    ensures SettledAs(self, gate, c, init + [last], r) <==>
      || SettledAs(self, gate, c, init, r)
      || (&& Settles(self, gate, c, last) && EndsAs(last) == r
          && exists i: nat :: WaitsSince(self, gate, c, init, i))
  {
    hide WaitsSince, Settles, EndsAs;
    var steps := init + [last];
    assert steps[..|init|] == init && steps[|init|] == last;
    assert forall j :: 0 <= j < |init| ==> steps[..j] == init[..j] && steps[j] == init[j];
    if j: nat :| SettledFirst(self, gate, c, init, j) && EndsAs(init[j]) == r {
      assert SettledFirst(self, gate, c, steps, j);
    }
    if Settles(self, gate, c, last) && EndsAs(last) == r && exists i: nat :: WaitsSince(self, gate, c, init, i) {
      assert SettledFirst(self, gate, c, steps, |init|);
    }
    if j: nat :| SettledFirst(self, gate, c, steps, j) && EndsAs(steps[j]) == r {
      assert j < |init| ==> SettledFirst(self, gate, c, init, j);
    }
  }

  /**
   What a request is told: the reply, a timeout or a cancellation, exactly when that was the first thing to settle it
   after it was sent, and it has resumed since.
   */
  lemma OutcomeIff(self: AgentId, gate: Gate, c: Corr, steps: seq<Step>, r: Result)
    requires FreshIds(steps) && (r.Succeeded? || r == TimeoutError || r == CancelledError)
    ensures var s := After(Start(self, gate), steps);
      Gave(s, c, r) <==> c !in s.waiting && SettledAs(self, gate, c, steps, r)
  {
    hide After, SettledAs;
    RequestsAreIndependent(self, gate, c, steps);
    SettledIff(self, gate, c, steps, r);
    RefusedOtherwise(self, gate, c, steps);
    hide Solo;
  }

  /** A refused request was told so, or that the check raised. */
  lemma {:induction false} RefusedOtherwise(self: AgentId, gate: Gate, c: Corr, steps: seq<Step>)
    ensures var p := Solo(self, gate, c, steps); p.Refused? ==> p.result == Unauthorized || p.result == Raised
  {
    if steps != [] {
      RefusedOtherwise(self, gate, c, steps[..|steps| - 1]);
    }
  }

  /**
   A request reports success with a reply exactly when that reply came first, before any timeout, cancellation or
   close, and the request has resumed since; the reply carries the request's own correlation id.
   */
  lemma SuccessIff(self: AgentId, gate: Gate, c: Corr, steps: seq<Step>, m: Message)
    requires FreshIds(steps)
    ensures var s := After(Start(self, gate), steps);
      Gave(s, c, Succeeded(m)) <==>
      (c !in s.waiting && exists j: nat :: RepliedFirst(self, gate, c, steps, m, j))
  {
    hide After;
    OutcomeIff(self, gate, c, steps, Succeeded(m));
    if j: nat :| SettledFirst(self, gate, c, steps, j) && EndsAs(steps[j]) == Succeeded(m) {
      assert RepliedFirst(self, gate, c, steps, m, j);
    }
    if j: nat :| RepliedFirst(self, gate, c, steps, m, j) {
      assert SettledFirst(self, gate, c, steps, j) && EndsAs(steps[j]) == Succeeded(m);
    }
  }

  /**
   What a request is told that never got to wait: that it is refused when the check says so, that the check raised when
   it lacks the call, and that sending failed when the stream or the auditor did.
   */
  lemma RefusedIff(self: AgentId, gate: Gate, c: Corr, steps: seq<Step>)
    requires FreshIds(steps)
    ensures var s := After(Start(self, gate), steps);
      && (Gave(s, c, Unauthorized) <==> gate.check.Checks? && SentWith(c, steps, false))
      && (Gave(s, c, Raised) <==> gate.check.Missing? && SentIn(c, steps))
      && (Gave(s, c, SendFailed) <==> exists i :: 0 <= i < |steps| && NotHandled(gate, c, steps[i]))
  {
    hide After, Solo;
    RequestsAreIndependent(self, gate, c, steps);
    ToldIff(self, gate, c, steps);
  }

  /** The request was sent with this verdict of the send check. */
  ghost predicate SentWith(c: Corr, steps: seq<Step>, permitted: bool) {
    exists i :: 0 <= i < |steps| && steps[i].Send? && steps[i].corr == c && steps[i].permitted == permitted
  }

  /** The step sends the request as far as the stream or the auditor, where it fails. */
  predicate NotHandled(gate: Gate, c: Corr, step: Step) {
    step.Send? && step.corr == c && Permitted(gate, step) && (!step.sends || gate.auditorRaises)
  }

  /** What a request that never waited was told. */
  predicate Told(p: Phase, r: Result) {
    match p
    case Refused(result) => r == result
    case Failed(_) => r == SendFailed
    case _ => false
  }

  lemma {:induction false} ToldIff(self: AgentId, gate: Gate, c: Corr, steps: seq<Step>)
    requires FreshIds(steps)
    ensures var p := Solo(self, gate, c, steps);
      && (Told(p, Unauthorized) <==> gate.check.Checks? && SentWith(c, steps, false))
      && (Told(p, Raised) <==> gate.check.Missing? && SentIn(c, steps))
      && (Told(p, SendFailed) <==> exists i :: 0 <= i < |steps| && NotHandled(gate, c, steps[i]))
      && (p.Done? ==> p.result.Succeeded? || p.result == TimeoutError || p.result == CancelledError)
  {
    hide Acceptable;
    if steps != [] {
      var init, last := steps[..|steps| - 1], steps[|steps| - 1];
      assert steps == init + [last];
      ToldIff(self, gate, c, init);
      SentWithSnoc(c, init, last);
      SentSnoc(c, init, last);
      NotHandledSnoc(gate, c, init, last);
      if last.Send? && last.corr == c {
        UnsentYet(self, gate, c, init);
      }
    }
  }

  lemma SentWithSnoc(c: Corr, init: seq<Step>, last: Step)
    ensures SentWith(c, init + [last], false) <==>
            SentWith(c, init, false) || (last.Send? && last.corr == c && !last.permitted)
  {
    var steps := init + [last];
    assert steps[|init|] == last && forall i :: 0 <= i < |init| ==> steps[i] == init[i];
  }

  lemma NotHandledSnoc(gate: Gate, c: Corr, init: seq<Step>, last: Step)
    ensures (exists i :: 0 <= i < |init + [last]| && NotHandled(gate, c, (init + [last])[i])) <==>
            (exists i :: 0 <= i < |init| && NotHandled(gate, c, init[i])) || NotHandled(gate, c, last)
  {
    var steps := init + [last];
    assert steps[|init|] == last && forall i :: 0 <= i < |init| ==> steps[i] == init[i];
  }

  /** A success is a response from another agent with the request's own id. */
  lemma SuccessCarriesOwnId(self: AgentId, gate: Gate, c: Corr, steps: seq<Step>, m: Message)
    requires FreshIds(steps) && Gave(After(Start(self, gate), steps), c, Succeeded(m))
    ensures m.corr == c && Acceptable(self, gate, m) && Deliver(m) in steps
    ensures m.isResponse && m.sender != self && !gate.auditorRaises
    ensures gate.check.Off? || (gate.check.Checks? && gate.check.receives(m))
  {
    hide After, WaitsSince;
    SuccessIff(self, gate, c, steps, m);
  }

  // ---------------------------------------------------------------- who may answer

  /** A request to an agent, one reply, and the request's return. */
  function Exchange(c: Corr, to: AgentId, m: Message): seq<Step> {
    [Send(c, to, true, true), Deliver(m), Resume(c)]
  }

  /** Nothing says who has to answer: the reply of any other agent the receive check lets through is taken. */
  lemma AnySenderAnswers(self: AgentId, gate: Gate, c: Corr, to: AgentId, m: Message)
    requires m.isResponse && m.corr == c && c != "" && m.sender != self && !gate.auditorRaises
    requires gate.check.Off? || (gate.check.Checks? && gate.check.receives(m))
    ensures FreshIds(Exchange(c, to, m))
    ensures Gave(After(Start(self, gate), Exchange(c, to, m)), c, Succeeded(m))
  {
    var steps := Exchange(c, to, m);
    assert steps[..2][..1] == steps[..1] && steps[..1][..0] == [];
    var s1 := After(Start(self, gate), steps[..1]);
    assert After(Start(self, gate), []) == Start(self, gate);
    assert s1 == Next(Start(self, gate), steps[0]);
    assert After(Start(self, gate), steps[..2]) == Next(s1, steps[1]);
  }

  /** In every run a success of the request comes from the agent it was sent to. */
  ghost predicate OnlyRecipientAnswers(self: AgentId, gate: Gate, c: Corr, to: AgentId) {
    forall steps, m :: Completes(self, gate, c, to, steps, m) ==> m.sender == to
  }

  /** The run sends the request to that agent and ends it successfully with this reply. */
  ghost predicate Completes(self: AgentId, gate: Gate, c: Corr, to: AgentId, steps: seq<Step>, m: Message) {
    && FreshIds(steps) && Send(c, to, true, true) in steps
    && Gave(After(Start(self, gate), steps), c, Succeeded(m))
  }

  /** The receive check passes responses with this id from that agent only. */
  ghost predicate ChecksSender(self: AgentId, gate: Gate, c: Corr, to: AgentId) {
    forall m :: Acceptable(self, gate, m) && m.corr == c ==> m.sender == to
  }

  /** The communicator leaves it to the receive check to tie a reply to the agent that was asked. */
  lemma OnlyRecipientAnswersIff(self: AgentId, gate: Gate, c: Corr, to: AgentId)
    ensures OnlyRecipientAnswers(self, gate, c, to) <==> ChecksSender(self, gate, c, to)
  {
    hide After, FreshIds;
    if ChecksSender(self, gate, c, to) {
      forall steps, m | Completes(self, gate, c, to, steps, m)
        ensures m.sender == to
      {
        SuccessCarriesOwnId(self, gate, c, steps, m);
      }
    } else {
      var m :| Acceptable(self, gate, m) && m.corr == c && m.sender != to;
      AnySenderAnswers(self, gate, c, to, m);
      assert Exchange(c, to, m)[0] == Send(c, to, true, true);
      assert Completes(self, gate, c, to, Exchange(c, to, m), m);
    }
  }

  /** With the check off and no auditor in the way no request is tied to its recipient. */
  lemma UncheckedNotTied(self: AgentId, c: Corr, to: AgentId)
    requires c != ""
    ensures !OnlyRecipientAnswers(self, Gate(Off, false), c, to)
  {
    OnlyRecipientAnswersIff(self, Gate(Off, false), c, to);
    var stranger := self + to + "x";
    assert |stranger| > |self| && |stranger| > |to|;
    var m := Message(stranger, true, c, "");
    assert Acceptable(self, Gate(Off, false), m);
  }

  // ---------------------------------------------------------------- whether anything can succeed

  /** Some run ends a request successfully. */
  ghost predicate CanSucceed(self: AgentId, gate: Gate) {
    exists steps, c, m :: FreshIds(steps) && Gave(After(Start(self, gate), steps), c, Succeeded(m))
  }

  /**
   A communicator can complete a request exactly when some response gets past its receive check and its auditor;
   with an authorizer or an auditor that lacks the calls, none ever does.
   */
  lemma CanSucceedIff(self: AgentId, gate: Gate)
    ensures CanSucceed(self, gate) <==> exists m :: Acceptable(self, gate, m)
    ensures gate.check.Missing? || gate.auditorRaises ==> !CanSucceed(self, gate)
  {
    hide After, FreshIds;
    if CanSucceed(self, gate) {
      var steps, c, m :| FreshIds(steps) && Gave(After(Start(self, gate), steps), c, Succeeded(m));
      SuccessCarriesOwnId(self, gate, c, steps, m);
    }
    if m :| Acceptable(self, gate, m) {
      AnySenderAnswers(self, gate, m.corr, "", m);
      assert Gave(After(Start(self, gate), Exchange(m.corr, "", m)), m.corr, Succeeded(m));
    }
  }

  /** The components the constructor makes from its two switches: neither class has the calls made on it. */
  function Configured(authorization: bool, audit: bool): Gate {
    Gate(if authorization then Missing else Off, audit)
  }

  /** So with the components of the message bus a request can succeed exactly when both are switched off. */
  lemma ConfiguredSucceedsIff(self: AgentId, authorization: bool, audit: bool)
    ensures CanSucceed(self, Configured(authorization, audit)) <==> !authorization && !audit
  {
    CanSucceedIff(self, Configured(authorization, audit));
    var m := Message(self + "x", true, "c", "");
    assert |m.sender| > |self|;
    assert !authorization && !audit ==> Acceptable(self, Configured(authorization, audit), m);
  }

  /** The request's message is on the stream and its sender was told that sending failed. */
  ghost predicate Misreported(s: State, c: Corr) {
    c in s.handed && Gave(s, c, SendFailed)
  }

  /** At the end of a run those are the requests that reached the stream, if the auditor raises, and otherwise none. */
  lemma MisreportedIff(self: AgentId, gate: Gate, c: Corr, steps: seq<Step>)
    requires FreshIds(steps)
    ensures Misreported(After(Start(self, gate), steps), c) <==>
            gate.auditorRaises && exists i :: 0 <= i < |steps| && Hands(gate, c, steps[i])
  {
    hide After, Solo;
    RequestsAreIndependent(self, gate, c, steps);
    HandedIff(self, gate, c, steps);
  }

  lemma {:induction false} HandedIff(self: AgentId, gate: Gate, c: Corr, steps: seq<Step>)
    requires FreshIds(steps)
    ensures var p := Solo(self, gate, c, steps);
      && (Handed(p) <==> exists i :: 0 <= i < |steps| && Hands(gate, c, steps[i]))
      && (Handed(p) ==> (p.Failed? <==> gate.auditorRaises))
  {
    hide Acceptable;
    if steps != [] {
      var init, last := steps[..|steps| - 1], steps[|steps| - 1];
      HandedIff(self, gate, c, init);
      if last.Send? && last.corr == c {
        UnsentYet(self, gate, c, init);
      }
      assert steps == init + [last];
      HandsSnoc(gate, c, init, last);
    }
  }

  lemma HandsSnoc(gate: Gate, c: Corr, init: seq<Step>, last: Step)
    ensures (exists i :: 0 <= i < |init + [last]| && Hands(gate, c, (init + [last])[i])) <==>
            (exists i :: 0 <= i < |init| && Hands(gate, c, init[i])) || Hands(gate, c, last)
  {
    var steps := init + [last];
    assert steps[|init|] == last && forall i :: 0 <= i < |init| ==> steps[i] == init[i];
  }

  // ---------------------------------------------------------------- the pending map

  lemma FreshPrefix(a: seq<Step>, b: seq<Step>)
    requires FreshIds(a + b)
    ensures FreshIds(a)
  {
    forall i, j | 0 <= i < j < |a| && a[i].Send? && a[j].Send?
      ensures a[i].corr != a[j].corr
    {
      assert (a + b)[i] == a[i] && (a + b)[j] == a[j];
    }
  }

  /** Once settled, a future keeps its value through every further run. */
  lemma {:induction false} FuturesSettleOnce(self: AgentId, gate: Gate, steps: seq<Step>, more: seq<Step>, c: Corr)
    requires FreshIds(steps + more)
    ensures var s, t := After(Start(self, gate), steps), After(Start(self, gate), steps + more);
      c in s.futures && !s.futures[c].Pending? ==> Has(t, c, s.futures[c])
    decreases |more|
  {
    hide Next, FreshIds;
    if more == [] {
      assert steps + more == steps;
    } else {
      var init, last := more[..|more| - 1], more[|more| - 1];
      assert steps + more == (steps + init) + [last];
      FreshPrefix(steps + init, [last]);
      FuturesSettleOnce(self, gate, steps, init, c);
      var s, t := After(Start(self, gate), steps), After(Start(self, gate), steps + init);
      assert (steps + more)[..|steps + init|] == steps + init;
      if c in s.futures && !s.futures[c].Pending? {
        NotSentTwice(self, gate, steps + init, last, c);
        SettledStays(t, last, c);
      }
    }
  }

  lemma NotSentTwice(self: AgentId, gate: Gate, steps: seq<Step>, last: Step, c: Corr)
    requires FreshIds(steps + [last]) && c in After(Start(self, gate), steps).futures
    ensures !(last.Send? && last.corr == c)
  {
    if last.Send? && last.corr == c {
      FreshPrefix(steps, [last]);
      assert (steps + [last])[|steps|] == last;
      assert forall i :: 0 <= i < |steps| ==> (steps + [last])[i] == steps[i];
      UnsentYet(self, gate, c, steps);
      RequestsAreIndependent(self, gate, c, steps);
    }
  }

  lemma SettledStays(s: State, step: Step, c: Corr)
    requires c in s.futures && !s.futures[c].Pending? && !(step.Send? && step.corr == c)
    ensures Has(Next(s, step), c, s.futures[c])
  {
  }

  /**
   A message changes the state exactly when it is an acceptable response to a request that is still waiting; a reply
   after a timeout, a cancellation, another reply or a close is dropped.
   */
  lemma ReplyTakenIff(self: AgentId, gate: Gate, steps: seq<Step>, m: Message)
    requires FreshIds(steps)
    ensures var s := After(Start(self, gate), steps);
      Next(s, Deliver(m)) != s <==>
      Acceptable(self, gate, m) && exists i: nat :: WaitsSince(self, gate, m.corr, steps, i)
  {
    hide After, Solo, WaitsSince, Acceptable;
    RequestsAreIndependent(self, gate, m.corr, steps);
    WaitingIff(self, gate, m.corr, steps);
    var s := After(Start(self, gate), steps);
    if m.corr in s.filed && IsPending(s, m.corr) {
      assert s.futures[m.corr := Resolved(m)][m.corr] != s.futures[m.corr];
    }
  }

  predicate SentIn(c: Corr, steps: seq<Step>) {
    exists i :: 0 <= i < |steps| && steps[i].Send? && steps[i].corr == c
  }

  predicate InMap(p: Phase) {
    p.Waiting? || (p.Settled? && p.filed)
  }

  lemma {:induction false} FiledSinceClose(self: AgentId, gate: Gate, c: Corr, before: seq<Step>, more: seq<Step>)
    requires Close !in more && FreshIds(before + [Close] + more)
    ensures var p := Solo(self, gate, c, before + [Close] + more);
      InMap(p) <==> (p.Waiting? || p.Settled?) && SentIn(c, more)
    decreases |more|
  {
    hide SendVerdict, Acceptable, FreshIds, SoloNext, SentIn, InMap;
    var steps := before + [Close];
    if more == [] {
      assert steps + more == steps && steps[..|before|] == before;
      ClosedOut(self, gate, c, Solo(self, gate, c, before));
    } else {
      var init, last := more[..|more| - 1], more[|more| - 1];
      assert more == init + [last];
      assert steps + more == (steps + init) + [last];
      FreshPrefix(steps + init, [last]);
      FiledSinceClose(self, gate, c, before, init);
      assert (steps + more)[..|steps + init|] == steps + init;
      SentSnoc(c, init, last);
      if last.Send? && last.corr == c {
        FreshLast(steps + init, last);
        UnsentYet(self, gate, c, steps + init);
      }
      InMapStep(self, gate, c, Solo(self, gate, c, steps + init), last, SentIn(c, init));
    }
  }

  lemma ClosedOut(self: AgentId, gate: Gate, c: Corr, p: Phase)
    ensures !InMap(SoloNext(self, gate, c, p, Close)) && !SentIn(c, [])
  {
  }

  lemma InMapStep(self: AgentId, gate: Gate, c: Corr, p: Phase, last: Step, sent: bool)
    requires !last.Close? && (last.Send? && last.corr == c ==> p.Unsent?)
    requires InMap(p) <==> (p.Waiting? || p.Settled?) && sent
    ensures var q := SoloNext(self, gate, c, p, last);
      InMap(q) <==> (q.Waiting? || q.Settled?) && (sent || (last.Send? && last.corr == c))
  {
  }

  lemma SentSnoc(c: Corr, steps: seq<Step>, last: Step)
    ensures SentIn(c, steps + [last]) <==> SentIn(c, steps) || (last.Send? && last.corr == c)
  {
    var all := steps + [last];
    assert all[|steps|] == last && forall i :: 0 <= i < |steps| ==> all[i] == steps[i];
  }

  lemma FreshLast(steps: seq<Step>, last: Step)
    requires FreshIds(steps + [last]) && last.Send?
    ensures forall i :: 0 <= i < |steps| && steps[i].Send? ==> steps[i].corr != last.corr
  {
    var all := steps + [last];
    forall i | 0 <= i < |steps| && steps[i].Send?
      ensures steps[i].corr != last.corr
    {
      assert all[i] == steps[i] && all[|steps|] == last;
    }
  }

  /** The pending map holds exactly the requests sent since the last close that have not returned. */
  lemma PendingSinceClose(self: AgentId, gate: Gate, before: seq<Step>, more: seq<Step>)
    requires Close !in more && FreshIds(before + [Close] + more)
    ensures var s := After(Start(self, gate), before + [Close] + more);
      forall c :: c in s.filed <==> c in s.waiting && SentIn(c, more)
  {
    hide *;
    forall c
      ensures var s := After(Start(self, gate), before + [Close] + more);
        c in s.filed <==> c in s.waiting && SentIn(c, more)
    {
      OneSinceClose(self, gate, c, before, more);
    }
  }

  lemma OneSinceClose(self: AgentId, gate: Gate, c: Corr, before: seq<Step>, more: seq<Step>)
    requires Close !in more && FreshIds(before + [Close] + more)
    ensures var s := After(Start(self, gate), before + [Close] + more);
      c in s.filed <==> c in s.waiting && SentIn(c, more)
  {
    hide After, Solo, SentIn, FreshIds;
    RequestsAreIndependent(self, gate, c, before + [Close] + more);
    FiledSinceClose(self, gate, c, before, more);
  }

  lemma {:induction false} SettledFiled(self: AgentId, gate: Gate, c: Corr, steps: seq<Step>)
    requires Close !in steps
    ensures Solo(self, gate, c, steps).Settled? ==> Solo(self, gate, c, steps).filed
  {
    if steps != [] {
      SettledFiled(self, gate, c, steps[..|steps| - 1]);
    }
  }

  /** Without close the pending map holds exactly the requests that have not returned. */
  lemma PendingIsInFlight(self: AgentId, gate: Gate, steps: seq<Step>)
    requires FreshIds(steps)
    requires Close !in steps
    ensures After(Start(self, gate), steps).filed == After(Start(self, gate), steps).waiting
  {
    hide After, Solo;
    var s := After(Start(self, gate), steps);
    forall c
      ensures c in s.filed <==> c in s.waiting
    {
      RequestsAreIndependent(self, gate, c, steps);
      SettledFiled(self, gate, c, steps);
    }
  }

  /** After close the map is empty, every request still waiting has a settled future, and what was settled stays. */
  lemma CloseSettlesAll(self: AgentId, gate: Gate, steps: seq<Step>)
    requires FreshIds(steps)
    ensures var s := After(Start(self, gate), steps);
      var after := Next(s, Close);
      && after.filed == {}
      && (forall c :: c in s.waiting ==> c in after.futures && !after.futures[c].Pending?)
      && (forall c :: c in s.waiting && IsPending(s, c) ==> after.futures[c] == Cut)
  {
    hide After, Solo;
    var s := After(Start(self, gate), steps);
    forall c | c in s.waiting
      ensures c in s.futures && (IsPending(s, c) ==> c in s.filed)
    {
      RequestsAreIndependent(self, gate, c, steps);
    }
  }

  // ---------------------------------------------------------------- the communicator

  class Communicator {
    const self: AgentId
    const gate: Gate
    var pendingRequests: set<Corr>
    var futures: map<Corr, Future>
    ghost var waiting: set<Corr>
    ghost var handed: set<Corr>
    var results: map<Corr, Result>

    ghost function View(): State
      reads this
    {
      State(self, gate, pendingRequests, futures, waiting, handed, results)
    }

    ghost predicate Valid()
      reads this
    {
      pendingRequests <= futures.Keys && waiting <= futures.Keys
    }

    constructor (self: AgentId, gate: Gate)
      ensures View() == Start(self, gate) && Valid()
    {
      this.self, this.gate := self, gate;
      pendingRequests, futures, waiting, handed, results := {}, map[], {}, {}, map[];
    }

    /** send_request up to its wait. */
    method SendRequest(c: Corr, to: AgentId, permitted: bool, sends: bool)
      requires Valid()
      modifies this
      ensures Valid() && View() == Next(old(View()), Send(c, to, permitted, sends))
      ensures c in pendingRequests ==>
        c in old(pendingRequests) || Starts(gate, c, Send(c, to, permitted, sends))
    {
      var verdict := SendVerdict(gate, permitted);
      if verdict.Some? {
        results := results[c := verdict.value];
        return;
      }
      futures := futures[c := Pending];
      pendingRequests := pendingRequests + {c};
      if !sends {
        results := results[c := SendFailed];
        pendingRequests := pendingRequests - {c};
        return;
      }
      handed := handed + {c};
      if gate.auditorRaises {
        results := results[c := SendFailed];
        pendingRequests := pendingRequests - {c};
        return;
      }
      waiting := waiting + {c};
    }

    /** raised says that the authorizer or the auditor lacks the call made on it. */
    method HandleIncomingMessage(m: Message) returns (raised: bool)
      requires Valid()
      modifies this
      ensures Valid() && View() == Next(old(View()), Deliver(m))
      ensures raised <==>
        m.sender != self && (gate.check.Missing? || (gate.auditorRaises && CheckPasses(gate.check, m)))
    {
      if m.sender == self {
        return false;
      }
      match gate.check {
        case Off =>
        case Missing => return true;
        case Checks(receives) =>
          if !receives(m) {
            return false;
          }
      }
      if gate.auditorRaises {
        return true;
      }
      if m.isResponse && m.corr != "" && m.corr in pendingRequests && futures[m.corr].Pending? {
        futures := futures[m.corr := Resolved(m)];
      }
      raised := false;
    }

    /** The wait of a request whose future is still pending ends by timeout or by cancellation of its task. */
    method EndWait(c: Corr, timedOut: bool)
      requires Valid() && c in waiting
      modifies this
      ensures Valid() && View() == Next(old(View()), if timedOut then Expire(c) else CancelTask(c))
    {
      if futures[c].Pending? {
        futures := futures[c := if timedOut then TimedOut else Cut];
      }
    }

    /** The rest of send_request: the result, and the clean-up that always happens. */
    method FinishRequest(c: Corr)
      requires Valid() && c in waiting && !futures[c].Pending?
      modifies this
      ensures Valid() && View() == Next(old(View()), Resume(c))
      ensures c in results && results[c] == ResultOf(futures[c])
    {
      match futures[c] {
        case Resolved(m) => results := results[c := Succeeded(m)];
        case TimedOut => results := results[c := TimeoutError];
        case Cut => results := results[c := CancelledError];
      }
      pendingRequests := pendingRequests - {c};
      waiting := waiting - {c};
    }

    method CloseAll()
      requires Valid()
      modifies this
      ensures Valid() && View() == Next(old(View()), Close)
    {
      var left := pendingRequests;
      while left != {}
        invariant left <= pendingRequests && Valid() && pendingRequests == old(pendingRequests)
        invariant waiting == old(waiting) && handed == old(handed) && results == old(results)
        invariant futures.Keys == old(futures).Keys
        invariant forall c :: c in futures ==>
          futures[c] == if c in pendingRequests - left && old(futures)[c].Pending? then Cut else old(futures)[c]
        decreases |left|
      {
        var c :| c in left;
        if futures[c].Pending? {
          futures := futures[c := Cut];
        }
        left := left - {c};
      }
      pendingRequests := {};
    }
  }
}
