/**
 The agent-hook pane protocol of `agent_status.rs`: a lifecycle hook becomes one guarded tmux
 transaction over the options of the pane the agent runs in. `Reduce` is the simple reducer the
 transaction has to implement.
 */
module AgentStatus {
  import opened Wrappers

  const U32_MAX: nat := 0xFFFF_FFFF

  datatype AgentState =
    | Unknown | Starting | Working | WaitingForApproval | WaitingForInput | Compacting
    | Retrying | Idle | Failed | RateLimited | Interrupted

  datatype TurnOutcome = Completed | Failed | RateLimited | Interrupted

  datatype StatusSource = Terminal | Hook

  datatype AgentStatus = AgentStatus(
    state: AgentState,
    source: StatusSource,
    observedAt: int,
    lastOutcome: Option<TurnOutcome>,
    completedTurns: nat,
    generation: string
  )

  datatype HookEvent =
    | Starting | Working | Approval | Input | Compacting | Retrying
    | Completed | Failed | RateLimited | Interrupted | Ended

  // ---- hook payloads ------------------------------------------------------------------------

  datatype Json =
    | Null
    | Bool(b: bool)
    | Number(n: int)
    | Str(s: string)
    | Array(items: seq<Json>)
    | Object(fields: map<string, Json>)

  function Get(v: Json, key: string): Option<Json> {
    if v.Object? && key in v.fields then Some(v.fields[key]) else None
  }

  function AsStr(v: Option<Json>): Option<string> {
    match v
    case Some(Str(s)) => Some(s)
    case _ => None
  }

  /** The first key wins even when its value is not a string. */
  function GetEither(v: Json, key: string, alternative: string): Option<Json> {
    if Get(v, key).Some? then Get(v, key) else Get(v, alternative)
  }

  function EventName(v: Json): Option<string> {
    AsStr(GetEither(v, "hook_event_name", "hookEventName"))
  }

  /** An event of a subagent, which must not settle the parent's turn. */
  predicate FromSubagent(v: Json) {
    var agent := AsStr(Get(v, "agent_id"));
    var parent := Get(v, "parent_tool_use_id");
    (agent.Some? && agent.value != "") || (parent.Some? && parent.value != Null)
  }

  function EventOf(name: string, v: Json): Option<HookEvent> {
    if name == "SessionStart" then Some(HookEvent.Starting)
    else if name == "UserPromptSubmit" || name == "PostToolUse" || name == "PostToolUseFailure"
            || name == "PostCompact" then Some(HookEvent.Working)
    else if name == "PreToolUse" then
      if AsStr(GetEither(v, "tool_name", "toolName")) == Some("AskUserQuestion")
      then Some(HookEvent.Input) else Some(HookEvent.Working)
    else if name == "PermissionRequest" then Some(HookEvent.Approval)
    else if name == "Notification" then
      var kind := AsStr(Get(v, "notification_type"));
      if kind == Some("permission_prompt") then Some(HookEvent.Approval)
      else if kind == Some("elicitation_dialog") then Some(HookEvent.Input)
      else None
    else if name == "PreCompact" then Some(HookEvent.Compacting)
    else if name == "Stop" then Some(HookEvent.Completed)
    else if name == "StopFailure" then
      var error := AsStr(Get(v, "error"));
      if error == Some("rate_limit") || error == Some("rate_limit_error") || error == Some("billing_error")
      then Some(HookEvent.RateLimited) else Some(HookEvent.Failed)
    else if name == "Interrupt" then Some(HookEvent.Interrupted)
    else if name == "SessionEnd" then Some(HookEvent.Ended)
    else None
  }

  function ParseHook(v: Json): Option<HookEvent> {
    if FromSubagent(v) then None
    else match EventName(v)
      case None => None
      case Some(name) => EventOf(name, v)
  }

  predicate SafeIdChar(c: char) {
    'a' <= c <= 'z' || 'A' <= c <= 'Z' || '0' <= c <= '9' || c == '-' || c == '_' || c == ':'
  }

  predicate SafeId(id: string) {
    0 < |id| <= 128 && forall i | 0 <= i < |id| :: SafeIdChar(id[i])
  }

  function SafeStr(v: Option<Json>): Option<string> {
    match AsStr(v)
    case Some(id) => if SafeId(id) then Some(id) else None
    case None => None
  }

  /** What one hook process asks of the pane. */
  datatype Report = Report(
    generation: string,
    session: string,
    turn: Option<string>,
    newTurn: bool,
    reset: bool,
    event: HookEvent,
    at: int
  )

  /** A hook process run for `pane`: with the hook's own payload, or with a bare event. */
  datatype Delivery =
    | Payload(pane: string, generation: string, isUuid: bool, value: Json, at: int)
    | Bare(pane: string, generation: string, isUuid: bool, event: HookEvent, at: int)

  predicate PaneId(pane: string) {
    |pane| >= 2 && pane[0] == '%' && forall i | 1 <= i < |pane| :: '0' <= pane[i] <= '9'
  }

  function PayloadReport(generation: string, v: Json, at: int): Option<Report> {
    match ParseHook(v)
    case None => None
    case Some(event) =>
      match SafeStr(Get(v, "session_id"))
      case None => None
      case Some(session) =>
        var source := AsStr(Get(v, "source"));
        Some(Report(
               generation,
               session,
               SafeStr(Get(v, "turn_id")),
               EventName(v) == Some("UserPromptSubmit"),
               event.Starting? && (source == Some("clear") || source == Some("resume") || source == Some("compact")),
               event,
               at))
  }

  /** The report a delivery makes, if it gets as far as asking tmux for anything. */
  function ReportOf(d: Delivery): Option<Report> {
    if !PaneId(d.pane) || !d.isUuid then None
    else match d
      case Payload(_, generation, _, value, at) => PayloadReport(generation, value, at)
      case Bare(_, generation, _, event, at) =>
        Some(Report(generation, generation, None, false, false, event, at))
  }

  predicate Finishes(event: HookEvent) {
    OutcomeOf(event).Some?
  }

  /** Only a Working event is marked as a new turn, only a session start as a reset; no turn id is empty. */
  predicate WellFormed(r: Report) {
    && (r.newTurn ==> r.event.Working?)
    && (r.reset ==> r.event.Starting?)
    && (r.turn.Some? ==> r.turn.value != "")
  }

  lemma {:induction false} ReportsAreWellFormed(d: Delivery)
    ensures ReportOf(d).Some? ==> WellFormed(ReportOf(d).value)
    ensures d.Payload? && FromSubagent(d.value) ==> ReportOf(d).None?
  {
    if d.Payload? && ReportOf(d).Some? && ReportOf(d).value.newTurn {
      assert EventOf("UserPromptSubmit", d.value) == Some(HookEvent.Working);
    }
  }

  // ---- the simple reducer -------------------------------------------------------------------

  function StateOf(event: HookEvent): AgentState {
    match event
    case Starting => AgentState.Starting
    case Working => AgentState.Working
    case Approval => AgentState.WaitingForApproval
    case Input => AgentState.WaitingForInput
    case Compacting => AgentState.Compacting
    case Retrying => AgentState.Retrying
    case Completed => AgentState.Idle
    case Failed => AgentState.Failed
    case RateLimited => AgentState.RateLimited
    case Interrupted => AgentState.Interrupted
    case Ended => AgentState.Unknown
  }

  function OutcomeOf(event: HookEvent): Option<TurnOutcome> {
    match event
    case Completed => Some(TurnOutcome.Completed)
    case Failed => Some(TurnOutcome.Failed)
    case RateLimited => Some(TurnOutcome.RateLimited)
    case Interrupted => Some(TurnOutcome.Interrupted)
    case _ => None
  }

  function TerminalStatus(at: int): AgentStatus {
    AgentStatus(AgentState.Unknown, Terminal, at, None, 0, "")
  }

  function Reduce(previous: Option<AgentStatus>, generation: string, event: HookEvent, at: int): AgentStatus {
    var status := if previous.Some? && previous.value.generation == generation
                  then previous.value else TerminalStatus(at);
    if status.observedAt > at then status
    else AgentStatus(
        StateOf(event), Hook, at,
        if Finishes(event) then OutcomeOf(event) else status.lastOutcome,
        if Finishes(event) then Min(status.completedTurns + 1, U32_MAX) else status.completedTurns,
        generation)
  }

  /** `apply_hook`: the status is cloned and then updated field by field. */
  method ApplyHook(previous: Option<AgentStatus>, generation: string, event: HookEvent, at: int)
    returns (status: AgentStatus)
    ensures status == Reduce(previous, generation, event, at)
  {
    status := TerminalStatus(at);
    if previous.Some? && previous.value.generation == generation {
      status := previous.value;
    }
    if status.observedAt > at {
      return;
    }
    status := status.(generation := generation);
    status := status.(source := Hook);
    status := status.(observedAt := at);
    status := status.(state := StateOf(event));
    var outcome := OutcomeOf(event);
    if outcome.Some? {
      status := status.(lastOutcome := outcome);
      status := status.(completedTurns := Min(status.completedTurns + 1, U32_MAX));
    }
  }

  /** The reducer starts over for another generation, and ignores what is older than what it knows. */
  lemma ReducerFences(previous: Option<AgentStatus>, generation: string, event: HookEvent, at: int)
    ensures var status := Reduce(previous, generation, event, at);
            var known := previous.Some? && previous.value.generation == generation;
            && (!known ==> status.completedTurns == (if Finishes(event) then 1 else 0)
                           && status.lastOutcome == OutcomeOf(event))
            && (known && at < previous.value.observedAt ==> status == previous.value)
            && (!known || at >= previous.value.observedAt ==>
                  status.generation == generation && status.observedAt == at && status.source.Hook?)
  {
  }

  // ---- the tmux transaction -----------------------------------------------------------------

  /** The options of one pane. An unset string option reads as "", as it does in a tmux format. */
  datatype Pane = Pane(
    id: string,
    generation: string,
    rootSession: string,
    turn: string,
    finishedTurn: string,
    completedTurns: Option<nat>,
    lastOutcome: Option<Option<TurnOutcome>>,
    observedAt: Option<int>,
    status: Option<AgentStatus>
  ) {
    function Count(): nat { completedTurns.GetOr(0) }
    function Outcome(): Option<TurnOutcome> { lastOutcome.GetOr(None) }
    function Observed(): int { observedAt.GetOr(0) }
  }

  function Launched(id: string, generation: string): Pane {
    Pane(id, generation, "", "", "", None, None, None, None)
  }

  datatype Guard =
    | GenerationIs(s: string)
    | ObservedNotAfter(at: int)
    | RootIs(s: string)
    | TurnIs(s: string)
    | FinishedTurnIs(s: string)
    | Not(g: Guard)
    | And(l: Guard, r: Guard)
    | Or(l: Guard, r: Guard)

  predicate Holds(g: Guard, p: Pane) {
    match g
    case GenerationIs(s) => p.generation == s
    case ObservedNotAfter(at) => at >= p.Observed()
    case RootIs(s) => p.rootSession == s
    case TurnIs(s) => p.turn == s
    case FinishedTurnIs(s) => p.finishedTurn == s
    case Not(h) => !Holds(h, p)
    case And(l, r) => Holds(l, p) && Holds(r, p)
    case Or(l, r) => Holds(l, p) || Holds(r, p)
  }

  function Both(l: Guard, r: Guard): (g: Guard)
    ensures forall p: Pane :: Holds(g, p) <==> Holds(l, p) && Holds(r, p)
  {
    And(l, r)
  }

  function Either(l: Guard, r: Guard): (g: Guard)
    ensures forall p: Pane :: Holds(g, p) <==> Holds(l, p) || Holds(r, p)
  {
    Or(l, r)
  }

  function Except(g: Guard): (not: Guard)
    ensures forall p: Pane :: Holds(not, p) <==> !Holds(g, p)
  {
    Not(g)
  }

  /** `ComposeStatus` is expanded when it runs, so its holes read what the commands before it wrote. */
  datatype Command =
    | SetRootSession(s: string)
    | SetTurn(s: string)
    | SetFinishedTurn(s: string)
    | SetLastOutcome(outcome: Option<TurnOutcome>)
    | CountTurn
    | SetObservedAt(at: int)
    | ComposeStatus(template: AgentStatus, outcomeFromPane: bool)

  function Execute(p: Pane, c: Command): Pane {
    match c
    case SetRootSession(s) => p.(rootSession := s)
    case SetTurn(s) => p.(turn := s)
    case SetFinishedTurn(s) => p.(finishedTurn := s)
    case SetLastOutcome(o) => p.(lastOutcome := Some(o))
    case CountTurn => p.(completedTurns := Some(p.Count() + 1))
    case SetObservedAt(at) => p.(observedAt := Some(at))
    case ComposeStatus(t, fromPane) =>
      p.(status := Some(t.(completedTurns := p.Count(), lastOutcome := if fromPane then p.Outcome() else t.lastOutcome)))
  }

  function ExecuteAll(p: Pane, cs: seq<Command>): Pane {
    if cs == [] then p else Execute(ExecuteAll(p, cs[..|cs| - 1]), cs[|cs| - 1])
  }

  function Then(cs: seq<Command>, c: Command): (next: seq<Command>)
    ensures forall p: Pane :: ExecuteAll(p, next) == Execute(ExecuteAll(p, cs), c)
  {
    assert (cs + [c])[..|cs|] == cs;
    cs + [c]
  }

  /** When a report may touch the pane. */
  predicate Accepts(p: Pane, r: Report) {
    && p.generation == r.generation
    && p.Observed() <= r.at
    && (if r.reset then p.rootSession != r.session
        else p.rootSession == "" || (p.rootSession == r.session && !r.event.Starting?))
    && (r.turn.Some? && !r.newTurn ==>
          (p.turn == "" || p.turn == r.turn.value) && p.finishedTurn != r.turn.value)
  }

  /** The pane after an accepted report, option by option. */
  function Accepted(p: Pane, r: Report): Pane {
    var outcome := if Finishes(r.event) then OutcomeOf(r.event) else if r.reset then None else p.Outcome();
    var count := if Finishes(r.event) then p.Count() + 1 else p.Count();
    Pane(
      p.id,
      p.generation,
      r.session,
      match r.turn case Some(t) => t case None => if r.reset then "" else p.turn,
      if r.turn.Some? && Finishes(r.event) then r.turn.value else if r.reset then "" else p.finishedTurn,
      if Finishes(r.event) then Some(count) else p.completedTurns,
      if Finishes(r.event) || r.reset then Some(outcome) else p.lastOutcome,
      Some(r.at),
      Some(AgentStatus(StateOf(r.event), Hook, r.at, outcome, count, r.generation)))
  }

  /** The pane once a report has claimed it: root session, turn, and what a reset clears. */
  function Claimed(p: Pane, r: Report): Pane {
    p.(rootSession := r.session,
       turn := match r.turn case Some(t) => t case None => if r.reset then "" else p.turn,
       finishedTurn := if r.turn.Some? && Finishes(r.event) then r.turn.value
                       else if r.reset then "" else p.finishedTurn,
       lastOutcome := if r.reset then Some(None) else p.lastOutcome)
  }

  /** And once its outcome has been counted. */
  function Counted(p: Pane, r: Report): Pane {
    if !Finishes(r.event) then Claimed(p, r)
    else Claimed(p, r).(completedTurns := Some(p.Count() + 1), lastOutcome := Some(OutcomeOf(r.event)))
  }

  method ClaimCommands(r: Report, finished: bool) returns (commands: seq<Command>)
    requires finished == Finishes(r.event)
    ensures forall p: Pane :: ExecuteAll(p, commands) == Claimed(p, r)
  {
    commands := Then([], SetRootSession(r.session));
    if r.reset {
      commands := Then(commands, SetTurn(""));
      commands := Then(commands, SetFinishedTurn(""));
      commands := Then(commands, SetLastOutcome(None));
    }
    if r.turn.Some? {
      commands := Then(commands, SetTurn(r.turn.value));
      if finished {
        commands := Then(commands, SetFinishedTurn(r.turn.value));
      }
    }
  }

  method CountCommands(r: Report, candidate: AgentStatus, claimed: seq<Command>) returns (commands: seq<Command>)
    requires candidate.lastOutcome == OutcomeOf(r.event)
    requires forall p: Pane :: ExecuteAll(p, claimed) == Claimed(p, r)
    ensures forall p: Pane :: ExecuteAll(p, commands) == Counted(p, r)
  {
    commands := claimed;
    if candidate.lastOutcome.Some? {
      commands := Then(commands, CountTurn);
      commands := Then(commands, SetLastOutcome(candidate.lastOutcome));
    }
  }

  /** Grows the command list; run in order on any pane, it yields exactly `Accepted`. */
  method BuildCommands(r: Report) returns (commands: seq<Command>)
    ensures forall p: Pane :: ExecuteAll(p, commands) == Accepted(p, r)
  {
    var candidate := ApplyHook(None, r.generation, r.event, r.at);
    var finished := candidate.lastOutcome.Some?;
    commands := ClaimCommands(r, finished);
    commands := CountCommands(r, candidate, commands);
    commands := Then(commands, SetObservedAt(r.at));
    commands := Then(commands, ComposeStatus(candidate, !finished));
  }

  /** Grows the guard by wrapping; on any pane it means exactly `Accepts`. */
  method BuildGuard(r: Report) returns (guard: Guard)
    ensures forall p: Pane :: Holds(guard, p) <==> Accepts(p, r)
  {
    guard := Both(GenerationIs(r.generation), ObservedNotAfter(r.at));
    if !r.reset {
      guard := Both(guard, Either(RootIs(""), RootIs(r.session)));
    }
    if r.event.Starting? && !r.reset {
      guard := Both(guard, RootIs(""));
    }
    if r.reset {
      guard := Both(guard, Except(RootIs(r.session)));
    }
    if r.turn.Some? && !r.newTurn {
      guard := Both(guard, Either(TurnIs(""), TurnIs(r.turn.value)));
      guard := Both(guard, Except(FinishedTurnIs(r.turn.value)));
    }
  }

  /** A delivery to `p.id` runs its transaction there; one to any other pane leaves `p` alone. */
  function Step(p: Pane, d: Delivery): Pane {
    if d.pane == p.id && ReportOf(d).Some? && Accepts(p, ReportOf(d).value)
    then Accepted(p, ReportOf(d).value)
    else p
  }

  /** The tmux side: pane options overwritten in place by whatever command list reaches them. */
  class TmuxPane {
    const id: string
    var generation: string
    var rootSession: string
    var turn: string
    var finishedTurn: string
    var completedTurns: Option<nat>
    var lastOutcome: Option<Option<TurnOutcome>>
    var observedAt: Option<int>
    var status: Option<AgentStatus>

    function View(): Pane
      reads this
    {
      Pane(id, generation, rootSession, turn, finishedTurn, completedTurns, lastOutcome, observedAt, status)
    }

    constructor (id: string, generation: string)
      ensures View() == Launched(id, generation)
    {
      this.id := id;
      this.generation := generation;
      rootSession, turn, finishedTurn := "", "", "";
      completedTurns, lastOutcome, observedAt, status := None, None, None, None;
    }

    method SetOption(c: Command)
      modifies this
      ensures View() == Execute(old(View()), c)
    {
      match c
      case SetRootSession(s) => rootSession := s;
      case SetTurn(s) => turn := s;
      case SetFinishedTurn(s) => finishedTurn := s;
      case SetLastOutcome(o) => lastOutcome := Some(o);
      case CountTurn => completedTurns := Some(completedTurns.GetOr(0) + 1);
      case SetObservedAt(at) => observedAt := Some(at);
      case ComposeStatus(t, fromPane) =>
        var outcome := if fromPane then lastOutcome.GetOr(None) else t.lastOutcome;
        status := Some(t.(completedTurns := completedTurns.GetOr(0), lastOutcome := outcome));
    }

    /** One tmux command queue: the guard is tested once, then the commands run in order. */
    method IfShell(guard: Guard, commands: seq<Command>)
      modifies this
      ensures View() == if Holds(guard, old(View())) then ExecuteAll(old(View()), commands) else old(View())
    {
      if Holds(guard, View()) {
        for i := 0 to |commands|
          invariant View() == ExecuteAll(old(View()), commands[..i])
        {
          assert commands[..i + 1][..i] == commands[..i];
          SetOption(commands[i]);
        }
        assert commands[..|commands|] == commands;
      }
    }

    /** `report_hook` and `report_hook_payload`, as far as this pane can see them. */
    method Deliver(d: Delivery)
      modifies this
      ensures View() == Step(old(View()), d)
    {
      if d.pane != id {
        return;
      }
      match ReportOf(d)
      case None =>
      case Some(r) =>
        var guard := BuildGuard(r);
        var commands := BuildCommands(r);
        IfShell(guard, commands);
    }
  }

  // ---- runs ---------------------------------------------------------------------------------

  /**
   What a run of deliveries leaves behind, and what an observer of the accepted reports knows:
   `since` are the reports accepted after the last accepted reset (the reset included), and
   `countBefore` is the turn count the pane showed when that stretch began.
   */
  datatype History = History(
    pane: Pane,
    accepted: seq<Report>,
    since: seq<Report>,
    countBefore: nat,
    recounts: nat
  )

  function Observe(h: History, d: Delivery): History {
    if !(d.pane == h.pane.id && ReportOf(d).Some? && Accepts(h.pane, ReportOf(d).value)) then h
    else
      var r := ReportOf(d).value;
      History(
        Step(h.pane, d),
        h.accepted + [r],
        if r.reset then [r] else h.since + [r],
        if r.reset then h.pane.Count() else h.countBefore,
        if r.reset then 0 else if Recounts(h, r) then h.recounts + 1 else h.recounts)
  }

  /** Any number of deliveries, in the order tmux serves them, to a pane just launched. */
  function Run(id: string, generation: string, ds: seq<Delivery>): History {
    if ds == [] then History(Launched(id, generation), [], [], 0, 0)
    else Observe(Run(id, generation, ds[..|ds| - 1]), ds[|ds| - 1])
  }

  function FinishedTurns(rs: seq<Report>): set<string> {
    set i | 0 <= i < |rs| && Finishes(rs[i].event) && rs[i].turn.Some? :: rs[i].turn.value
  }

  function AnonymousFinishes(rs: seq<Report>): nat {
    |set i | 0 <= i < |rs| && Finishes(rs[i].event) && rs[i].turn.None?|
  }

  /** A finishing report for a turn that already finished since the last reset. */
  predicate Recounts(h: History, r: Report) {
    Finishes(r.event) && r.turn.Some? && r.turn.value in FinishedTurns(h.since)
  }

  lemma {:induction false} RunStepsPane(id: string, generation: string, ds: seq<Delivery>, d: Delivery)
    ensures Run(id, generation, ds + [d]) == Observe(Run(id, generation, ds), d)
    ensures Run(id, generation, ds + [d]).pane == Step(Run(id, generation, ds).pane, d)
  {
    assert (ds + [d])[..|ds|] == ds;
  }

  // ---- simulation ---------------------------------------------------------------------------

  function ForgetOutcome(status: Option<AgentStatus>): Option<AgentStatus> {
    match status
    case Some(s) => Some(s.(lastOutcome := None))
    case None => None
  }

  /** The left fold of `Reduce` over the accepted reports; a reset forgets the last outcome first. */
  function Fold(rs: seq<Report>): Option<AgentStatus> {
    if rs == [] then None
    else
      var r := rs[|rs| - 1];
      var before := Fold(rs[..|rs| - 1]);
      Some(Reduce(if r.reset then ForgetOutcome(before) else before, r.generation, r.event, r.at))
  }

  /** The composed status repeats the scalar options, and is there once a report was accepted. */
  predicate Agrees(p: Pane) {
    match p.status
    case None => p.completedTurns.None? && p.lastOutcome.None? && p.observedAt.None?
    case Some(s) =>
      && s.source == Hook
      && s.generation == p.generation
      && s.completedTurns == p.Count()
      && s.lastOutcome == p.Outcome()
      && Some(s.observedAt) == p.observedAt
      && s.observedAt >= 0
  }

  function Saturated(status: Option<AgentStatus>): Option<AgentStatus> {
    match status
    case Some(s) => Some(s.(completedTurns := Min(s.completedTurns, U32_MAX)))
    case None => None
  }

  lemma {:induction false} StatusInvariant(id: string, generation: string, ds: seq<Delivery>)
    ensures var h := Run(id, generation, ds);
            Agrees(h.pane) && h.pane.id == id && h.pane.generation == generation
            && Fold(h.accepted) == Saturated(h.pane.status)
  {
    if ds != [] {
      var before := Run(id, generation, ds[..|ds| - 1]);
      StatusInvariant(id, generation, ds[..|ds| - 1]);
      var h := Run(id, generation, ds);
      if h != before {
        assert h.accepted[..|h.accepted| - 1] == before.accepted;
      }
    }
  }

  /**
   Simulation, with its exact limit: the composed status is the fold of the simple reducer over
   the accepted reports if and only if the turn count has not outgrown the reducer's u32.
   */
  lemma Simulation(id: string, generation: string, ds: seq<Delivery>)
    ensures var h := Run(id, generation, ds);
            h.pane.status == Fold(h.accepted) <==> h.pane.Count() <= U32_MAX
  {
    StatusInvariant(id, generation, ds);
  }

  /** The same bare completion, so many times. */
  function CompletedTimes(n: nat): seq<Delivery> {
    if n == 0 then [] else CompletedTimes(n - 1) + [Bare("%1", "g", true, HookEvent.Completed, 0)]
  }

  /** Every count is reached, also past the reducer's limit, where the two part. */
  lemma {:induction false} EveryCountIsReached(n: nat)
    ensures var h := Run("%1", "g", CompletedTimes(n));
            h.pane.Count() == n && (h.pane.status != Fold(h.accepted) <==> n > U32_MAX)
  {
    FinishesCount(n);
    Simulation("%1", "g", CompletedTimes(n));
  }

  lemma {:induction false} FinishesCount(n: nat)
    ensures var p := Run("%1", "g", CompletedTimes(n)).pane;
            p.Count() == n && p.id == "%1" && p.generation == "g" && p.Observed() == 0
            && p.rootSession == (if n == 0 then "" else "g")
  {
    hide ReportOf, StateOf, Step, Observe;
    if n > 0 {
      FinishesCount(n - 1);
      FinishStep(Run("%1", "g", CompletedTimes(n - 1)).pane);
      RunStepsPane("%1", "g", CompletedTimes(n - 1), Bare("%1", "g", true, HookEvent.Completed, 0));
    }
  }

  lemma FinishStep(p: Pane)
    requires p.id == "%1" && p.generation == "g" && p.Observed() == 0 && (p.rootSession == "" || p.rootSession == "g")
    ensures var q := Step(p, Bare("%1", "g", true, HookEvent.Completed, 0));
            && q.id == "%1" && q.generation == "g" && q.rootSession == "g"
            && q.Count() == p.Count() + 1 && q.Observed() == 0
  {
    hide ReportOf, StateOf;
    BareReports("%1", "g", HookEvent.Completed, 0);
  }

  lemma BareReports(pane: string, generation: string, event: HookEvent, at: int)
    ensures ReportOf(Bare(pane, generation, true, event, at))
         == if PaneId(pane) then Some(Report(generation, generation, None, false, false, event, at)) else None
  {
  }

  // ---- fences -------------------------------------------------------------------------------

  /** In every reachable pane, what one more delivery can and cannot move. */
  lemma {:induction false} Fences(id: string, generation: string, ds: seq<Delivery>, d: Delivery)
    ensures var p := Run(id, generation, ds).pane;
            var q := Step(p, d);
            && Agrees(p) && Agrees(q)
            && p.generation == q.generation == generation
            && p.Observed() <= q.Observed()
            && p.Count() <= q.Count() <= p.Count() + 1
            && (p.rootSession != q.rootSession ==>
                  p.rootSession == "" || (ReportOf(d).Some? && ReportOf(d).value.reset))
            && (q != p ==>
                  && ReportOf(d).Some?
                  && ReportOf(d).value.generation == generation
                  && ReportOf(d).value.at >= p.Observed()
                  && q.Observed() == ReportOf(d).value.at
                  && q.rootSession == ReportOf(d).value.session
                  && (ReportOf(d).value.reset ==> p.rootSession != q.rootSession)
                  && (!ReportOf(d).value.reset ==> p.rootSession == "" || p.rootSession == q.rootSession))
  {
    StatusInvariant(id, generation, ds);
    StatusInvariant(id, generation, ds + [d]);
    RunStepsPane(id, generation, ds, d);
  }

  // ---- turns are counted exactly once -------------------------------------------------------

  lemma FinishedTurnsNext(rs: seq<Report>, r: Report)
    ensures FinishedTurns(rs + [r])
         == FinishedTurns(rs) + (if Finishes(r.event) && r.turn.Some? then {r.turn.value} else {})
    ensures AnonymousFinishes(rs + [r])
         == AnonymousFinishes(rs) + (if Finishes(r.event) && r.turn.None? then 1 else 0)
  {
    NamedFinishesNext(rs, r);
    AnonymousFinishesNext(rs, r);
  }

  lemma AnonymousFinishesNext(rs: seq<Report>, r: Report)
    ensures AnonymousFinishes(rs + [r])
         == AnonymousFinishes(rs) + (if Finishes(r.event) && r.turn.None? then 1 else 0)
  {
    var next := rs + [r];
    var before := set i | 0 <= i < |rs| && Finishes(rs[i].event) && rs[i].turn.None?;
    var after := set i | 0 <= i < |next| && Finishes(next[i].event) && next[i].turn.None?;
    assert after == before + (if Finishes(r.event) && r.turn.None? then {|rs|} else {});
  }

  lemma NamedFinishesNext(rs: seq<Report>, r: Report)
    ensures FinishedTurns(rs + [r])
         == FinishedTurns(rs) + (if Finishes(r.event) && r.turn.Some? then {r.turn.value} else {})
  {
    var next := rs + [r];
    assert forall i | 0 <= i < |rs| :: next[i] == rs[i];
    assert next[|rs|] == r;
    forall t | t in FinishedTurns(rs) ensures t in FinishedTurns(next) {
      var i :| 0 <= i < |rs| && Finishes(rs[i].event) && rs[i].turn.Some? && rs[i].turn.value == t;
      assert next[i] == rs[i];
    }
    if Finishes(r.event) && r.turn.Some? {
      assert next[|rs|].turn.value in FinishedTurns(next);
    }
  }

  /** Distinct turns and anonymous finishes go up by one, unless the report recounts. */
  lemma DistinctNext(rs: seq<Report>, r: Report)
    ensures |FinishedTurns(rs + [r])| + AnonymousFinishes(rs + [r])
         == |FinishedTurns(rs)| + AnonymousFinishes(rs)
            + (if Finishes(r.event) && (r.turn.None? || r.turn.value !in FinishedTurns(rs)) then 1 else 0)
  {
    FinishedTurnsNext(rs, r);
    if Finishes(r.event) && r.turn.Some? && r.turn.value in FinishedTurns(rs) {
      assert FinishedTurns(rs) + {r.turn.value} == FinishedTurns(rs);
    }
  }

  /** Only a pane that never saw a turn, or not since a reset, has no current or finished turn. */
  predicate TurnsTracked(h: History) {
    && (h.pane.turn == "" ==> FinishedTurns(h.since) == {})
    && (if h.pane.finishedTurn == "" then FinishedTurns(h.since) == {}
        else h.pane.finishedTurn in FinishedTurns(h.since))
  }

  /** The pane's current turn is one that finished earlier, with another finished after it. */
  predicate Reopened(h: History) {
    h.pane.turn in FinishedTurns(h.since) && h.pane.turn != h.pane.finishedTurn
  }

  lemma TrackingKept(h: History, d: Delivery)
    requires TurnsTracked(h)
    ensures TurnsTracked(Observe(h, d))
  {
    if Observe(h, d) != h {
      ReportsAreWellFormed(d);
      var r := ReportOf(d).value;
      FinishedTurnsNext(h.since, r);
      FinishedTurnsNext([], r);
      assert [] + [r] == [r];
    }
  }

  lemma {:induction false} TurnsAreTracked(id: string, generation: string, ds: seq<Delivery>)
    ensures TurnsTracked(Run(id, generation, ds))
  {
    if ds != [] {
      TurnsAreTracked(id, generation, ds[..|ds| - 1]);
      TrackingKept(Run(id, generation, ds[..|ds| - 1]), ds[|ds| - 1]);
    }
  }

  predicate Accounted(h: History) {
    h.pane.Count() == h.countBefore + |FinishedTurns(h.since)| + AnonymousFinishes(h.since) + h.recounts
  }

  lemma AccountingKept(h: History, d: Delivery)
    requires Accounted(h)
    ensures Accounted(Observe(h, d))
  {
    if d.pane == h.pane.id && ReportOf(d).Some? && Accepts(h.pane, ReportOf(d).value) {
      var r := ReportOf(d).value;
      assert Step(h.pane, d) == Accepted(h.pane, r);
      DistinctNext(if r.reset then [] else h.since, r);
      ReportsAreWellFormed(d);
      assert FinishedTurns([]) == {} && AnonymousFinishes([]) == 0 && [] + [r] == [r];
    }
  }

  /**
   Every run, with no condition: the rise of the turn count since the last reset is the number of
   distinct turns finished, plus the finishes without a turn id, plus the recounts.
   */
  lemma {:induction false} TurnAccounting(id: string, generation: string, ds: seq<Delivery>)
    ensures Accounted(Run(id, generation, ds))
  {
    if ds != [] {
      TurnAccounting(id, generation, ds[..|ds| - 1]);
      AccountingKept(Run(id, generation, ds[..|ds| - 1]), ds[|ds| - 1]);
    }
  }

  /**
   When a turn can be counted twice, in any reachable pane: some report that the guard lets
   through would recount a turn if and only if the pane's turn was reopened.
   */
  lemma DoubleCountIffReopened(id: string, generation: string, ds: seq<Delivery>)
    ensures var h := Run(id, generation, ds);
            (exists r :: WellFormed(r) && Accepts(h.pane, r) && Recounts(h, r)) <==> Reopened(h)
  {
    var h := Run(id, generation, ds);
    TurnsAreTracked(id, generation, ds);
    if Reopened(h) {
      var again := Report(h.pane.generation, h.pane.rootSession, Some(h.pane.turn), false, false,
                          HookEvent.Completed, h.pane.Observed());
      assert WellFormed(again) && Accepts(h.pane, again) && Recounts(h, again);
    }
  }

  /** A prompt that goes back to a turn already finished, other than the last one. */
  predicate Reopens(h: History, d: Delivery) {
    && Observe(h, d) != h
    && ReportOf(d).value.newTurn
    && ReportOf(d).value.turn.Some?
    && ReportOf(d).value.turn.value in FinishedTurns(h.since)
    && ReportOf(d).value.turn.value != h.pane.finishedTurn
  }

  predicate NeverReopens(id: string, generation: string, ds: seq<Delivery>) {
    ds == [] ||
    (NeverReopens(id, generation, ds[..|ds| - 1])
     && !Reopens(Run(id, generation, ds[..|ds| - 1]), ds[|ds| - 1]))
  }

  lemma ReopenedOnlyByAPrompt(h: History, d: Delivery)
    requires TurnsTracked(h) && !Reopened(h)
    ensures Reopened(Observe(h, d)) <==> Reopens(h, d)
    ensures Observe(h, d).recounts <= h.recounts
  {
    if Observe(h, d) != h {
      ReportsAreWellFormed(d);
      var r := ReportOf(d).value;
      FinishedTurnsNext(h.since, r);
      FinishedTurnsNext([], r);
      assert [] + [r] == [r];
    }
  }

  lemma {:induction false} NothingReopened(id: string, generation: string, ds: seq<Delivery>)
    requires NeverReopens(id, generation, ds)
    ensures !Reopened(Run(id, generation, ds)) && Run(id, generation, ds).recounts == 0
  {
    if ds != [] {
      NothingReopened(id, generation, ds[..|ds| - 1]);
      TurnsAreTracked(id, generation, ds[..|ds| - 1]);
      ReopenedOnlyByAPrompt(Run(id, generation, ds[..|ds| - 1]), ds[|ds| - 1]);
    }
  }

  /**
   Exactly once, under any duplication, delay or interleaving of deliveries: as long as no
   accepted prompt goes back to an earlier finished turn, the count has risen since the last reset
   by the distinct turns finished plus the finishes that name no turn.
   */
  lemma ExactlyOnce(id: string, generation: string, ds: seq<Delivery>)
    requires NeverReopens(id, generation, ds)
    ensures var h := Run(id, generation, ds);
            h.pane.Count() - h.countBefore == |FinishedTurns(h.since)| + AnonymousFinishes(h.since)
  {
    NothingReopened(id, generation, ds);
    TurnAccounting(id, generation, ds);
  }

  function TurnHook(name: string, turn: string, at: int): Delivery {
    Payload("%1", "g", true,
            Object(map["hook_event_name" := Str(name), "session_id" := Str("s"), "turn_id" := Str(turn)]), at)
  }

  lemma HookReports(turn: string, at: int)
    requires SafeId(turn)
    ensures ReportOf(TurnHook("UserPromptSubmit", turn, at))
         == Some(Report("g", "s", Some(turn), true, false, HookEvent.Working, at))
    ensures ReportOf(TurnHook("Stop", turn, at))
         == Some(Report("g", "s", Some(turn), false, false, HookEvent.Completed, at))
  {
  }

  predicate Ready(ds: seq<Delivery>) {
    var p := Run("%1", "g", ds).pane;
    p.id == "%1" && p.generation == "g" && (p.rootSession == "" || p.rootSession == "s") && p.Observed() == 0
  }

  /** A prompt and a stop for `turn`, which is not the turn that finished last. */
  lemma WholeTurn(ds: seq<Delivery>, turn: string) returns (next: seq<Delivery>)
    requires Ready(ds) && SafeId(turn) && Run("%1", "g", ds).pane.finishedTurn != turn
    ensures Ready(next) && Run("%1", "g", next).pane.finishedTurn == turn
    ensures Run("%1", "g", next).pane.Count() == Run("%1", "g", ds).pane.Count() + 1
    ensures FinishedTurns(Run("%1", "g", next).since) == FinishedTurns(Run("%1", "g", ds).since) + {turn}
    ensures AnonymousFinishes(Run("%1", "g", next).since) == AnonymousFinishes(Run("%1", "g", ds).since)
  {
    hide ReportOf, StateOf, SafeId, FinishedTurns, AnonymousFinishes;
    HookReports(turn, 0);
    var prompt, stop := TurnHook("UserPromptSubmit", turn, 0), TurnHook("Stop", turn, 0);
    RunStepsPane("%1", "g", ds, prompt);
    RunStepsPane("%1", "g", ds + [prompt], stop);
    FinishedTurnsNext(Run("%1", "g", ds).since, ReportOf(prompt).value);
    FinishedTurnsNext(Run("%1", "g", ds + [prompt]).since, ReportOf(stop).value);
    next := ds + [prompt] + [stop];
  }

  /** Without that condition it fails: two turns, of which the first is reopened, count as three. */
  lemma ReopenedTurnCountsTwice()
    ensures exists ds ::
              var h := Run("%1", "g", ds);
              h.pane.Count() == 3 && FinishedTurns(h.since) == {"a", "b"} && AnonymousFinishes(h.since) == 0
  {
    assert SafeId("a") && SafeId("b") by { assert "a"[0] == 'a' && "b"[0] == 'b'; }
    assert "a" != "b" by { assert "a"[0] != "b"[0]; }
    var ds := WholeTurn([], "a");
    ds := WholeTurn(ds, "b");
    ds := WholeTurn(ds, "a");
    var h := Run("%1", "g", ds);
    assert h.pane.Count() == 3 && FinishedTurns(h.since) == {"a", "b"} && AnonymousFinishes(h.since) == 0;
  }

  // ---- what a pane shows, told from the payloads alone ------------------------------------------

  predicate Field(v: Json, key: string, text: string) {
    v.Object? && key in v.fields && v.fields[key] == Str(text)
  }

  /** A field by its first spelling if that is present at all, else by its second. */
  predicate Spelled(v: Json, key: string, alternative: string, text: string) {
    v.Object? && (if key in v.fields then v.fields[key] == Str(text) else Field(v, alternative, text))
  }

  predicate Hooked(v: Json, name: string) {
    Spelled(v, "hook_event_name", "hookEventName", name)
  }

  predicate OutOfQuota(v: Json) {
    Field(v, "error", "rate_limit") || Field(v, "error", "rate_limit_error") || Field(v, "error", "billing_error")
  }

  predicate AsksUser(v: Json) {
    Spelled(v, "tool_name", "toolName", "AskUserQuestion")
  }

  /** The hooks after which a pane shows this state, by name and fields. */
  predicate HookShows(name: string, v: Json, state: AgentState) {
    match state
    case Idle => name == "Stop"
    case RateLimited => name == "StopFailure" && OutOfQuota(v)
    case Failed => name == "StopFailure" && !OutOfQuota(v)
    case Interrupted => name == "Interrupt"
    case WaitingForApproval =>
      name == "PermissionRequest" || (name == "Notification" && Field(v, "notification_type", "permission_prompt"))
    case WaitingForInput =>
      || (name == "PreToolUse" && AsksUser(v))
      || (name == "Notification" && Field(v, "notification_type", "elicitation_dialog"))
    case Working =>
      || name == "UserPromptSubmit" || name == "PostToolUse" || name == "PostToolUseFailure"
      || name == "PostCompact" || (name == "PreToolUse" && !AsksUser(v))
    case Compacting => name == "PreCompact"
    case Retrying => false
    case Starting => name == "SessionStart"
    case Unknown => name == "SessionEnd"
  }

  /** The bare event after which a pane shows this state. */
  function BareShows(state: AgentState): HookEvent {
    match state
    case Idle => HookEvent.Completed
    case RateLimited => HookEvent.RateLimited
    case Failed => HookEvent.Failed
    case Interrupted => HookEvent.Interrupted
    case WaitingForApproval => HookEvent.Approval
    case WaitingForInput => HookEvent.Input
    case Working => HookEvent.Working
    case Compacting => HookEvent.Compacting
    case Retrying => HookEvent.Retrying
    case Starting => HookEvent.Starting
    case Unknown => HookEvent.Ended
  }

  ghost predicate PayloadShows(v: Json, state: AgentState) {
    exists name :: Hooked(v, name) && HookShows(name, v, state)
  }

  /** The deliveries after which a pane shows this state. */
  ghost predicate LeadsTo(d: Delivery, state: AgentState) {
    match d
    case Bare(_, _, _, event, _) => event == BareShows(state)
    case Payload(_, _, _, v, _) => PayloadShows(v, state)
  }

  /** A payload that speaks for the agent itself. */
  predicate OfTheAgent(v: Json) {
    v.Object? ==>
      && ("agent_id" in v.fields ==> !v.fields["agent_id"].Str? || v.fields["agent_id"].s == "")
      && ("parent_tool_use_id" in v.fields ==> v.fields["parent_tool_use_id"] == Null)
  }

  /** The codes of letters and digits, one by one. */
  const SMALL: set<int> := {
    0x61, 0x62, 0x63, 0x64, 0x65, 0x66, 0x67, 0x68, 0x69, 0x6A, 0x6B, 0x6C, 0x6D,
    0x6E, 0x6F, 0x70, 0x71, 0x72, 0x73, 0x74, 0x75, 0x76, 0x77, 0x78, 0x79, 0x7A
  }
  const CAPITALS: set<int> := {
    0x41, 0x42, 0x43, 0x44, 0x45, 0x46, 0x47, 0x48, 0x49, 0x4A, 0x4B, 0x4C, 0x4D,
    0x4E, 0x4F, 0x50, 0x51, 0x52, 0x53, 0x54, 0x55, 0x56, 0x57, 0x58, 0x59, 0x5A
  }
  const DIGITS: set<int> := {0x30, 0x31, 0x32, 0x33, 0x34, 0x35, 0x36, 0x37, 0x38, 0x39}

  predicate IdChar(c: char) {
    c as int in SMALL + CAPITALS + DIGITS || c in {'-', '_', ':'}
  }

  /** 1 to 128 characters, and nothing that means anything to tmux or a shell. */
  predicate NamesSafely(id: string) {
    1 <= |id| <= 128 && forall c | c in id :: IdChar(c)
  }

  /** A percent sign and a number. */
  ghost predicate NamesPane(pane: string) {
    exists digits :: digits != "" && (forall c | c in digits :: c as int in DIGITS) && pane == "%" + digits
  }

  lemma LettersAre(n: int)
    ensures n in SMALL <==> 0x61 <= n <= 0x7A
    ensures n in CAPITALS <==> 0x41 <= n <= 0x5A
    ensures n in DIGITS <==> 0x30 <= n <= 0x39
  {
  }

  lemma SafeIdCharIs(c: char)
    ensures SafeIdChar(c) <==> IdChar(c)
  {
    LettersAre(c as int);
  }

  lemma SafeIdIs(id: string)
    ensures SafeId(id) <==> NamesSafely(id)
  {
    hide SafeIdChar, IdChar;
    forall i | 0 <= i < |id|
      ensures id[i] in id && (SafeIdChar(id[i]) <==> IdChar(id[i]))
    {
      SafeIdCharIs(id[i]);
    }
  }

  lemma PaneIdIs(pane: string)
    ensures PaneId(pane) <==> NamesPane(pane)
  {
    forall i | 0 <= i < |pane|
      ensures pane[i] as int in DIGITS <==> '0' <= pane[i] <= '9'
    {
      LettersAre(pane[i] as int);
    }
    if PaneId(pane) {
      var digits := pane[1..];
      assert forall i | 0 <= i < |digits| :: digits[i] == pane[i + 1];
      assert pane == "%" + digits;
    }
    if digits :| digits != "" && (forall c | c in digits :: c as int in DIGITS) && pane == "%" + digits {
      assert forall i | 0 <= i < |digits| :: digits[i] in digits && pane[i + 1] == digits[i];
      assert forall i | 1 <= i < |pane| :: pane[i] == digits[i - 1];
    }
  }

  predicate SafeField(v: Json, key: string) {
    v.Object? && key in v.fields && v.fields[key].Str? && NamesSafely(v.fields[key].s)
  }

  lemma HookNameIs(v: Json, name: string)
    ensures EventName(v) == Some(name) <==> Hooked(v, name)
  {
  }

  lemma SpelledIs(v: Json)
    ensures AsStr(GetEither(v, "tool_name", "toolName")) == Some("AskUserQuestion") <==> AsksUser(v)
    ensures (AsStr(Get(v, "error")) == Some("rate_limit") || AsStr(Get(v, "error")) == Some("rate_limit_error")
             || AsStr(Get(v, "error")) == Some("billing_error")) <==> OutOfQuota(v)
  {
  }

  lemma NotifiesOf(v: Json)
    ensures AsStr(Get(v, "notification_type")) == Some("permission_prompt")
       <==> Field(v, "notification_type", "permission_prompt")
    ensures AsStr(Get(v, "notification_type")) == Some("elicitation_dialog")
       <==> Field(v, "notification_type", "elicitation_dialog")
    ensures Field(v, "notification_type", "permission_prompt") ==> !Field(v, "notification_type", "elicitation_dialog")
  {
    assert "permission_prompt"[0] != "elicitation_dialog"[0];
  }

  /** That a hook of this name is parsed to an event that shows the state, and that the table says so. */
  ghost predicate NameMeans(name: string, v: Json, state: AgentState) {
    (EventOf(name, v).Some? && StateOf(EventOf(name, v).value) == state) <==> HookShows(name, v, state)
  }

  lemma ShortNameMeans(name: string, v: Json, state: AgentState)
    requires |name| < 10
    ensures NameMeans(name, v, state)
  {
    hide Field, Spelled, OutOfQuota, AsksUser, Get, GetEither, AsStr;
    SpelledIs(v);
    NotifiesOf(v);
  }

  lemma TenLetterNameMeans(name: string, v: Json, state: AgentState)
    requires |name| == 10
    ensures NameMeans(name, v, state)
  {
    hide Field, Spelled, OutOfQuota, AsksUser, Get, GetEither, AsStr;
    SpelledIs(v);
    NotifiesOf(v);
  }

  lemma ElevenLetterNameMeans(name: string, v: Json, state: AgentState)
    requires |name| == 11
    ensures NameMeans(name, v, state)
  {
    hide Field, Spelled, OutOfQuota, AsksUser, Get, GetEither, AsStr;
    SpelledIs(v);
    NotifiesOf(v);
  }

  lemma LongNameMeans(name: string, v: Json, state: AgentState)
    requires 12 <= |name|
    ensures NameMeans(name, v, state)
  {
    hide Field, Spelled, OutOfQuota, AsksUser, Get, GetEither, AsStr;
    SpelledIs(v);
    NotifiesOf(v);
  }

  /** A payload is parsed to an event that shows this state exactly when the table says so. */
  lemma EventMeans(v: Json, state: AgentState)
    ensures (ParseHook(v).Some? && StateOf(ParseHook(v).value) == state)
       <==> OfTheAgent(v) && PayloadShows(v, state)
  {
    hide EventOf, HookShows, StateOf;
    forall name ensures EventName(v) == Some(name) <==> Hooked(v, name) {
      HookNameIs(v, name);
    }
    if EventName(v).Some? {
      var name := EventName(v).value;
      if |name| < 10 { ShortNameMeans(name, v, state); }
      else if |name| == 10 { TenLetterNameMeans(name, v, state); }
      else if |name| == 11 { ElevenLetterNameMeans(name, v, state); }
      else { LongNameMeans(name, v, state); }
    }
  }

  lemma SafeStrIs(v: Json, key: string)
    ensures SafeStr(Get(v, key)).Some? <==> SafeField(v, key)
    ensures SafeField(v, key) ==> SafeStr(Get(v, key)) == Some(v.fields[key].s)
  {
    hide SafeId, NamesSafely;
    if v.Object? && key in v.fields && v.fields[key].Str? {
      SafeIdIs(v.fields[key].s);
    }
  }

  /**
   Which deliveries ask tmux for anything: from a proper pane and generation, a bare event or a
   payload of the agent itself that names its session and leads to some state.
   */
  lemma {:induction false} ReportedIff(d: Delivery)
    ensures ReportOf(d).Some? <==>
            NamesPane(d.pane) && d.isUuid
            && (d.Payload? ==> OfTheAgent(d.value) && SafeField(d.value, "session_id") && exists state :: LeadsTo(d, state))
  {
    hide ParseHook, PayloadShows, OfTheAgent, StateOf, PaneId, NamesPane, SafeId, NamesSafely;
    PaneIdIs(d.pane);
    if d.Payload? {
      SafeStrIs(d.value, "session_id");
      forall state: AgentState
        ensures (ParseHook(d.value).Some? && StateOf(ParseHook(d.value).value) == state)
           <==> OfTheAgent(d.value) && LeadsTo(d, state)
      {
        EventMeans(d.value, state);
      }
      assert ParseHook(d.value).Some? ==> LeadsTo(d, StateOf(ParseHook(d.value).value));
    }
  }

  /** What a report says, field by field, and the state it will show. */
  lemma {:induction false} ReportSays(d: Delivery, state: AgentState)
    requires ReportOf(d).Some?
    ensures var r := ReportOf(d).value;
            && r.generation == d.generation && r.at == d.at
            && (StateOf(r.event) == state <==> LeadsTo(d, state))
            && (d.Bare? ==> r.session == d.generation && r.turn == None && !r.newTurn && !r.reset)
            && (d.Payload? ==>
                  && Field(d.value, "session_id", r.session)
                  && r.turn == (if SafeField(d.value, "turn_id") then Some(d.value.fields["turn_id"].s) else None)
                  && (r.newTurn <==> Hooked(d.value, "UserPromptSubmit"))
                  && (r.reset <==> LeadsTo(d, AgentState.Starting)
                                   && (Field(d.value, "source", "clear") || Field(d.value, "source", "resume")
                                       || Field(d.value, "source", "compact"))))
  {
    hide ParseHook, PayloadShows, SafeId, NamesSafely, Hooked, EventName, OfTheAgent;
    if d.Payload? {
      SafeStrIs(d.value, "session_id");
      SafeStrIs(d.value, "turn_id");
      assert ParseHook(d.value).Some? && OfTheAgent(d.value) by { EventMeans(d.value, StateOf(ParseHook(d.value).value)); }
      HookNameIs(d.value, "UserPromptSubmit");
      EventMeans(d.value, state);
      EventMeans(d.value, AgentState.Starting);
    }
  }

  /** The last delivery that the pane accepted. */
  function LastAccepted(id: string, generation: string, ds: seq<Delivery>): Option<Delivery> {
    if ds == [] then None
    else
      var earlier, last := ds[..|ds| - 1], ds[|ds| - 1];
      if |Run(id, generation, ds).accepted| > |Run(id, generation, earlier).accepted| then Some(last)
      else LastAccepted(id, generation, earlier)
  }

  /**
   What a pane shows after any run: nothing until a report is accepted, and then the state that the
   last accepted delivery leads to, by its hook's name and fields.
   */
  lemma {:induction false} ShownState(id: string, generation: string, ds: seq<Delivery>, state: AgentState)
    ensures var status := Run(id, generation, ds).pane.status;
            var last := LastAccepted(id, generation, ds);
            && (status.Some? <==> last.Some?)
            && (status.Some? ==> (status.value.state == state <==> LeadsTo(last.value, state)))
  {
    hide ReportOf, LeadsTo, StateOf;
    if ds != [] {
      var earlier, d := ds[..|ds| - 1], ds[|ds| - 1];
      ShownState(id, generation, earlier, state);
      if ReportOf(d).Some? {
        ReportSays(d, state);
      }
    }
  }

  /** The outcomes, each with the state a turn that ended so shows. */
  predicate Matches(state: AgentState, outcome: TurnOutcome) {
    match outcome
    case Completed => state.Idle?
    case Failed => state.Failed?
    case RateLimited => state.RateLimited?
    case Interrupted => state.Interrupted?
  }

  /**
   Exactly while the last accepted event is one that finished a turn, the state is that of a
   finished turn, and then it is the one matching the outcome.
   */
  lemma {:induction false} ShownOutcome(id: string, generation: string, ds: seq<Delivery>)
    ensures var h := Run(id, generation, ds);
            h.pane.status.Some? ==>
              && h.accepted != []
              && var event := h.accepted[|h.accepted| - 1].event;
                 var state := h.pane.status.value.state;
                 (event.Completed? || event.Failed? || event.RateLimited? || event.Interrupted?
                  <==> state.Idle? || state.Failed? || state.RateLimited? || state.Interrupted?)
                 && (state.Idle? || state.Failed? || state.RateLimited? || state.Interrupted? ==>
                       h.pane.Outcome().Some? && Matches(state, h.pane.Outcome().value))
  {
    hide ReportOf;
    if ds != [] {
      ShownOutcome(id, generation, ds[..|ds| - 1]);
    }
  }

  // ---- which reports are accepted, told from those accepted before ------------------------------

  predicate FinishesTurn(event: HookEvent) {
    event.Completed? || event.Failed? || event.RateLimited? || event.Interrupted?
  }

  function RootOf(accepted: seq<Report>): string {
    if accepted == [] then "" else accepted[|accepted| - 1].session
  }

  /** The turn named last. */
  function NamedLast(rs: seq<Report>): Option<string> {
    if rs == [] then None
    else if rs[|rs| - 1].turn.Some? then rs[|rs| - 1].turn
    else NamedLast(rs[..|rs| - 1])
  }

  /** The turn named last by a report that finished it. */
  function FinishedLast(rs: seq<Report>): Option<string> {
    if rs == [] then None
    else if rs[|rs| - 1].turn.Some? && FinishesTurn(rs[|rs| - 1].event) then rs[|rs| - 1].turn
    else FinishedLast(rs[..|rs| - 1])
  }

  predicate NoneNewer(accepted: seq<Report>, at: int) {
    0 <= at && forall r | r in accepted :: r.at <= at
  }

  /** The root session and the time are those of the last accepted report, which is the newest. */
  ghost predicate RemembersLast(h: History) {
    && h.pane.rootSession == RootOf(h.accepted)
    && h.pane.Observed() == (if h.accepted == [] then 0 else h.accepted[|h.accepted| - 1].at)
    && NoneNewer(h.accepted, h.pane.Observed())
    && (forall r | r in h.accepted && r.session == "" :: h.pane.generation == "")
  }

  /** The turns are those named and finished last since the reset. */
  ghost predicate RemembersTurns(h: History) {
    && h.pane.turn == NamedLast(h.since).GetOr("")
    && h.pane.finishedTurn == FinishedLast(h.since).GetOr("")
    && NamedLast(h.since) != Some("") && FinishedLast(h.since) != Some("")
  }

  lemma {:induction false} TurnsNext(rs: seq<Report>, r: Report)
    ensures NamedLast(rs + [r]) == if r.turn.Some? then r.turn else NamedLast(rs)
    ensures FinishedLast(rs + [r]) == if r.turn.Some? && FinishesTurn(r.event) then r.turn else FinishedLast(rs)
  {
    assert (rs + [r])[..|rs|] == rs;
  }

  lemma {:induction false} RemembersLastNext(h: History, d: Delivery)
    requires RemembersLast(h)
    ensures RemembersLast(Observe(h, d))
  {
    hide ReportOf, StateOf, OutcomeOf, Recounts;
    var n := Observe(h, d);
    if n != h {
      SessionsAreNamed(d);
      var r := ReportOf(d).value;
      assert n.accepted == h.accepted + [r];
    }
  }

  lemma {:induction false} RemembersTurnsNext(h: History, d: Delivery)
    requires RemembersTurns(h)
    ensures RemembersTurns(Observe(h, d))
  {
    hide ReportOf, StateOf, Recounts, Accepts, NamedLast, FinishedLast;
    if Observe(h, d) != h {
      ReportsAreWellFormed(d);
      var r := ReportOf(d).value;
      TurnsNext(h.since, r);
      TurnsNext([], r);
      NothingNamed();
      assert [] + [r] == [r];
    }
  }

  lemma NothingNamed()
    ensures NamedLast([]) == None && FinishedLast([]) == None
  {
  }

  /** Only a bare event of an empty generation names an empty session. */
  lemma {:induction false} SessionsAreNamed(d: Delivery)
    requires ReportOf(d).Some?
    ensures ReportOf(d).value.session == "" ==> ReportOf(d).value.generation == ""
    ensures ReportOf(d).value.reset ==> ReportOf(d).value.session != ""
  {
  }

  lemma {:induction false} RunRemembers(id: string, generation: string, ds: seq<Delivery>)
    ensures RemembersLast(Run(id, generation, ds)) && RemembersTurns(Run(id, generation, ds))
  {
    hide Observe, RemembersLast, RemembersTurns;
    if ds == [] {
      StartsRemembering(id, generation);
    } else {
      RunRemembers(id, generation, ds[..|ds| - 1]);
      RemembersLastNext(Run(id, generation, ds[..|ds| - 1]), ds[|ds| - 1]);
      RemembersTurnsNext(Run(id, generation, ds[..|ds| - 1]), ds[|ds| - 1]);
    }
  }

  lemma StartsRemembering(id: string, generation: string)
    ensures RemembersLast(Run(id, generation, [])) && RemembersTurns(Run(id, generation, []))
  {
  }

  /**
   Which deliveries take effect after a run: those for this pane and generation that are older than
   no accepted report; of the session accepted last, which must not be starting, or of a different
   one if it resets, or of any before the first; and for the turn named last and not finished last,
   or a new one, since the last reset.
   */
  ghost predicate TakesEffect(h: History, r: Report) {
    && r.generation == h.pane.generation
    && NoneNewer(h.accepted, r.at)
    && (if r.reset then r.session != RootOf(h.accepted)
        else RootOf(h.accepted) == "" || (r.session == RootOf(h.accepted) && !r.event.Starting?))
    && (r.turn.None? || r.newTurn
        || (NamedLast(h.since) in {None, r.turn} && FinishedLast(h.since) != r.turn))
  }

  lemma {:induction false} AcceptedIff(id: string, generation: string, ds: seq<Delivery>, d: Delivery)
    ensures var h, next := Run(id, generation, ds), Run(id, generation, ds + [d]);
            next.accepted == (if d.pane == id && ReportOf(d).Some? && TakesEffect(h, ReportOf(d).value)
                              then h.accepted + [ReportOf(d).value] else h.accepted)
  {
    hide ReportOf;
    RunStepsPane(id, generation, ds, d);
    StatusInvariant(id, generation, ds);
    RunRemembers(id, generation, ds);
    var h := Run(id, generation, ds);
    if ReportOf(d).Some? {
      ReportsAreWellFormed(d);
      var r := ReportOf(d).value;
      NewerThanLast(h.accepted, h.pane.Observed(), r.at);
      assert TakesEffect(h, r) <==> Accepts(h.pane, r);
    }
  }

  lemma {:induction false} NewerThanLast(accepted: seq<Report>, observed: int, at: int)
    requires NoneNewer(accepted, observed)
    requires observed == if accepted == [] then 0 else accepted[|accepted| - 1].at
    ensures NoneNewer(accepted, at) <==> observed <= at
  {
    assert accepted != [] ==> accepted[|accepted| - 1] in accepted;
  }

  /** A start that resets nothing is only ever the first report a pane accepts. */
  lemma {:induction false} StartsComeFirst(id: string, generation: string, ds: seq<Delivery>, d: Delivery)
    requires generation != "" && ReportOf(d).Some?
    requires ReportOf(d).value.event.Starting? && !ReportOf(d).value.reset
    ensures Run(id, generation, ds).accepted != [] ==>
              Run(id, generation, ds + [d]).accepted == Run(id, generation, ds).accepted
  {
    hide ReportOf;
    AcceptedIff(id, generation, ds, d);
    RunRemembers(id, generation, ds);
    StatusInvariant(id, generation, ds);
    var accepted := Run(id, generation, ds).accepted;
    assert accepted != [] ==> accepted[|accepted| - 1] in accepted;
  }
}
