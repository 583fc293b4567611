/**
 The simulation store of the client, as atomic steps. Selections, refresh responses, events of any subscription ever
 opened (late ones of closed subscriptions included), timers and queued continuations may come in any order.
 */
module Store {
  import opened Outcomes

  // ---------------------------------------------------------------- event ids

  /** An event id as JavaScript sees it: null or undefined, "", something Number() makes finite, or other text. */
  datatype EventId = Missing | Empty | Numeric(value: real) | Other(text: string)

  predicate Present(id: EventId) {
    id.Numeric? || id.Other?
  }

  function Monotonic(previous: EventId, candidate: EventId): EventId {
    if !Present(previous) && !Present(candidate) then Missing
    else if !Present(previous) then candidate
    else if !Present(candidate) then previous
    else if previous.Numeric? && candidate.Numeric? then
      if candidate.value > previous.value then candidate else previous
    else candidate
  }

  predicate Newer(previous: EventId, candidate: EventId) {
    if !Present(candidate) || !Present(previous) then true
    else if previous.Numeric? && candidate.Numeric? then candidate.value > previous.value
    else candidate != previous
  }

  /** The last event id after accepting an event. */
  function Accepted(previous: EventId, candidate: EventId): EventId {
    if candidate.Missing? then previous else candidate
  }

  /** A numeric id stays numeric and does not decrease. */
  predicate NotBelow(later: EventId, earlier: EventId) {
    earlier.Numeric? ==> later.Numeric? && later.value >= earlier.value
  }

  /** A REST answer keeps a numeric last id from decreasing exactly when its own id is not other text. */
  lemma MonotonicExactlyWhen(previous: EventId, candidate: EventId)
    requires previous.Numeric?
    ensures NotBelow(Monotonic(previous, candidate), previous) <==> !candidate.Other?
    ensures !candidate.Other? ==> NotBelow(Monotonic(previous, candidate), candidate)
  {
  }

  /** An accepted event keeps a numeric last id from decreasing exactly when its id is absent or a number. */
  lemma AcceptedExactlyWhen(previous: EventId, candidate: EventId)
    requires previous.Numeric? && Newer(previous, candidate)
    ensures NotBelow(Accepted(previous, candidate), previous) <==> candidate.Missing? || candidate.Numeric?
  {
  }

  // ---------------------------------------------------------------- state

  datatype Simulation = Simulation(status: string, stage: string, queue: string, latestEventId: EventId)

  /** A resource together with the run, and the agent, it was requested for. */
  datatype Detail = Detail(run: string, simulation: Simulation)
  datatype Summary = Summary(run: string, agent: int, declaredAgent: Option<int>)
  datatype Page = Page(run: string, agent: int)

  datatype Resources = Resources(
    summary: Option<Summary>, summaryRunId: Option<string>,
    results: Option<Page>, resultsRunId: Option<string>,
    alarms: Option<Page>, alarmsRunId: Option<string>,
    artifacts: Option<string>, artifactsRunId: Option<string>
  )

  const NO_RESOURCES := Resources(None, None, None, None, None, None, None, None)

  /** An event as the reader delivers it; the optional fields are those its data declares. */
  datatype Event = Event(id: EventId, kind: string, run: Option<string>,
                         status: Option<string>, stage: Option<string>, queue: Option<string>)

  /** A logged event, with the run of the subscription that delivered it. */
  datatype Entry = Entry(id: EventId, kind: string, run: string)

  /** A refresh at one of its two awaits: the detail is known at the second. */
  datatype Refresh = Refresh(id: nat, run: string, agent: int, thenConnect: bool, detail: Option<Detail>)

  /** A subscription with the event id the server is asked to resume after. */
  datatype Subscription = Subscription(id: nat, run: string, after: EventId)

  datatype Timer = Timer(id: nat, run: string)

  datatype State = State(
    runId: Option<string>,
    selectedAgent: int,
    detail: Option<Detail>,
    resources: Resources,
    lastEventId: EventId,
    events: seq<Entry>,
    loading: bool,
    subscription: Option<Subscription>,
    requestController: Option<nat>,      // the refresh the abort controller belongs to
    reconnectTimer: Option<Timer>,
    refreshes: set<Refresh>,             // the refreshes waiting for the API
    delivering: set<Subscription>,       // every subscription made so far
    open: set<Subscription>,             // those neither closed nor ended
    timers: set<Timer>,
    connects: nat,                       // the finished refreshes whose caller has yet to connect
    nextId: nat
  )

  const INITIAL :=
    State(None, 1, None, NO_RESOURCES, Missing, [], false, None, None, None, {}, {}, {}, {}, 0, 0)

  /** JavaScript truth of a run id. */
  predicate HasRun(s: State) {
    s.runId.Some? && s.runId.value != ""
  }

  /** The answers of the four result requests: what was fulfilled with a non-null value. */
  datatype Responses = Responses(summary: Option<Option<int>>, results: bool, alarms: bool, artifacts: bool)

  const NOTHING_FETCHED := Responses(None, false, false, false)

  datatype Action =
    | SelectRun(runId: Option<string>)
    | SelectAgent(agent: int)
    | SimulationArrives(refresh: Refresh, simulation: Simulation)
    | ResourcesArrive(refresh: Refresh, responses: Responses)
    | RefreshFails(refresh: Refresh, abort: bool)
    | Connects
    | EventArrives(subscription: Subscription, event: Event)
    | Disconnects(subscription: Subscription)
    | TimerFires(timer: Timer)
    | Close

  // ---------------------------------------------------------------- steps

  function CloseStep(s: State): State {
    s.(subscription := None, requestController := None, reconnectTimer := None,
       open := if s.subscription.Some? then s.open - {s.subscription.value} else s.open,
       timers := if s.reconnectTimer.Some? then s.timers - {s.reconnectTimer.value} else s.timers)
  }

  /** The refresh is over; its caller may still have to connect. */
  function Done(s: State, thenConnect: bool): State {
    if thenConnect then s.(connects := s.connects + 1) else s
  }

  /** The part of refresh before its first await. */
  function RefreshStep(s: State, thenConnect: bool): State {
    if !HasRun(s) then Done(s, thenConnect)
    else
      s.(requestController := Some(s.nextId), nextId := s.nextId + 1,
         refreshes := s.refreshes + {Refresh(s.nextId, s.runId.value, s.selectedAgent, thenConnect, None)})
  }

  function Selected(s: State, runId: Option<string>): State {
    CloseStep(s).(runId := runId, detail := None, resources := NO_RESOURCES, selectedAgent := 1,
                  lastEventId := Missing, events := [], loading := true)
  }

  function SelectRunStep(s: State, runId: Option<string>): State {
    RefreshStep(Selected(s, runId), true)
  }

  predicate AgentIsShown(s: State, agent: int) {
    && s.selectedAgent == agent
    && s.resources.summary.Some?
    && s.resources.summary.value.declaredAgent == Some(agent)
  }

  function AgentSelected(s: State, agent: int): State {
    s.(selectedAgent := agent, loading := HasRun(s),
       resources := NO_RESOURCES.(artifacts := s.resources.artifacts, artifactsRunId := s.resources.artifactsRunId))
  }

  function SelectAgentStep(s: State, agent: int): State {
    if agent !in {1, 2, 3} || AgentIsShown(s, agent) then s else RefreshStep(AgentSelected(s, agent), false)
  }

  /** Is what the refresh captured still selected? */
  predicate Current(s: State, refresh: Refresh) {
    Some(refresh.run) == s.runId && refresh.agent == s.selectedAgent
  }

  /** The catch block. */
  function FailStep(s: State, refresh: Refresh, abort: bool): State {
    Done(if Current(s, refresh) && !abort then s.(loading := false) else s, refresh.thenConnect)
  }

  function Fetched(refresh: Refresh, responses: Responses): Resources {
    var run, page := refresh.run, Page(refresh.run, refresh.agent);
    Resources(
      if responses.summary.Some? then Some(Summary(run, refresh.agent, responses.summary.value)) else None,
      if responses.summary.Some? then Some(run) else None,
      if responses.results then Some(page) else None,
      if responses.results then Some(run) else None,
      if responses.alarms then Some(page) else None,
      if responses.alarms then Some(run) else None,
      if responses.artifacts then Some(run) else None,
      if responses.artifacts then Some(run) else None)
  }

  /** The summary says it is for another agent. */
  predicate Mismatch(refresh: Refresh, responses: Responses) {
    && responses.summary.Some?
    && responses.summary.value.Some?
    && responses.summary.value.value != refresh.agent
  }

  function Projected(detail: Detail, lastEventId: EventId): Detail {
    if lastEventId.Missing? then detail else detail.(simulation := detail.simulation.(latestEventId := lastEventId))
  }

  /** The refresh publishes what it fetched. */
  function Published(s: State, refresh: Refresh, detail: Detail, responses: Responses): State {
    var lastEventId := Monotonic(s.lastEventId, detail.simulation.latestEventId);
    s.(detail := Some(Projected(detail, lastEventId)), resources := Fetched(refresh, responses),
       lastEventId := lastEventId, loading := false)
  }

  /** The part of refresh after its last await. */
  function FinishStep(s: State, refresh: Refresh, detail: Detail, responses: Responses): State {
    if !Current(s, refresh) then Done(s, refresh.thenConnect)
    else if Mismatch(refresh, responses) then FailStep(s, refresh, false)
    else Done(Published(s, refresh, detail, responses), refresh.thenConnect)
  }

  function Arrived(s: State, refresh: Refresh): State {
    s.(refreshes := s.refreshes - {refresh})
  }

  /** A completed run needs its results too; their requests read the controller, which may be gone. */
  function SimulationStep(s: State, refresh: Refresh, simulation: Simulation): State {
    var arrived, detail := Arrived(s, refresh), Detail(refresh.run, simulation);
    if simulation.status != "COMPLETED" then FinishStep(arrived, refresh, detail, NOTHING_FETCHED)
    else if s.requestController.None? then FailStep(arrived, refresh, false)
    else arrived.(refreshes := arrived.refreshes + {refresh.(detail := Some(detail))})
  }

  function ConnectStep(s: State): State {
    if !HasRun(s) then s
    else
      var made := Subscription(s.nextId, s.runId.value, s.lastEventId);
      s.(subscription := Some(made), delivering := s.delivering + {made}, open := s.open + {made},
          nextId := s.nextId + 1)
  }

  function ProjectedEvent(detail: Option<Detail>, run: string, event: Event): Option<Detail> {
    if detail.None? || (event.run.Some? && event.run.value != "" && event.run.value != run) then detail
    else
      var simulation := detail.value.simulation;
      Some(detail.value.(simulation := Simulation(
        if event.status.Some? then event.status.value else simulation.status,
        if event.stage.Some? then event.stage.value else simulation.stage,
        if event.queue.Some? then event.queue.value else simulation.queue,
        if event.id.Missing? then simulation.latestEventId else event.id)))
  }

  const LOG_LIMIT := 100

  /** JavaScript's slice(-LOG_LIMIT). */
  function Trimmed(events: seq<Entry>): seq<Entry> {
    if |events| > LOG_LIMIT then events[|events| - LOG_LIMIT..] else events
  }

  function Logged(s: State, run: string, event: Event): State {
    s.(detail := ProjectedEvent(s.detail, run, event), lastEventId := Accepted(s.lastEventId, event.id),
       events := Trimmed(s.events + [Entry(event.id, event.kind, run)]))
  }

  function EventStep(s: State, subscription: Subscription, event: Event): State {
    if Some(subscription.run) != s.runId then s
    else if event.kind == "stream.reset" then RefreshStep(s, false)
    else if !Newer(s.lastEventId, event.id) then s
    else
      var logged := Logged(s, subscription.run, event);
      if event.status.Some? && event.status.value != "" then RefreshStep(logged, false) else logged
  }

  /** The stream of a subscription has ended by itself. */
  function DisconnectStep(s: State, subscription: Subscription): State {
    var ended := s.(open := s.open - {subscription});
    if Some(subscription.run) != s.runId then ended
    else
      var timer := Timer(s.nextId, subscription.run);
      ended.(reconnectTimer := Some(timer), timers := s.timers + {timer}, nextId := s.nextId + 1)
  }

  function TimerStep(s: State, timer: Timer): State {
    var fired := s.(timers := s.timers - {timer});
    if Some(timer.run) != s.runId then fired else RefreshStep(fired, true)
  }

  predicate Enabled(s: State, action: Action) {
    match action
    case SimulationArrives(refresh, _) => refresh in s.refreshes && refresh.detail.None?
    case ResourcesArrive(refresh, _) => refresh in s.refreshes && refresh.detail.Some?
    case RefreshFails(refresh, _) => refresh in s.refreshes
    case Connects => s.connects > 0
    case EventArrives(subscription, _) => subscription in s.delivering
    case Disconnects(subscription) => subscription in s.delivering
    case TimerFires(timer) => timer in s.timers
    case _ => true
  }

  function Step(s: State, action: Action): State
    requires Enabled(s, action)
  {
    match action
    case SelectRun(runId) => SelectRunStep(s, runId)
    case SelectAgent(agent) => SelectAgentStep(s, agent)
    case SimulationArrives(refresh, simulation) => SimulationStep(s, refresh, simulation)
    case ResourcesArrive(refresh, responses) =>
      FinishStep(Arrived(s, refresh), refresh, refresh.detail.value, responses)
    case RefreshFails(refresh, abort) => FailStep(Arrived(s, refresh), refresh, abort)
    case Connects => ConnectStep(s.(connects := s.connects - 1))
    case EventArrives(subscription, event) => EventStep(s, subscription, event)
    case Disconnects(subscription) => DisconnectStep(s, subscription)
    case TimerFires(timer) => TimerStep(s, timer)
    case Close => CloseStep(s)
  }

  /** The state after a run; an action that is not enabled does not happen. */
  function After(s: State, actions: seq<Action>): State {
    if actions == [] then s
    else
      var before := After(s, actions[..|actions| - 1]);
      var action := actions[|actions| - 1];
      if Enabled(before, action) then Step(before, action) else before
  }

  // ---------------------------------------------------------------- tags and provenance

  predicate TagIsSelected(s: State, tag: Option<string>, shown: bool) {
    && (tag.Some? ==> tag == s.runId)
    && (tag.Some? <==> shown)
  }

  predicate PageIsSelected(s: State, page: Option<Page>) {
    page.Some? ==> Some(page.value.run) == s.runId && page.value.agent == s.selectedAgent
  }

  /** Whatever is shown was requested for the selected run and agent and is tagged with that run. */
  predicate ShowsSelection(s: State) {
    var r := s.resources;
    && TagIsSelected(s, r.summaryRunId, r.summary.Some?)
    && TagIsSelected(s, r.resultsRunId, r.results.Some?)
    && TagIsSelected(s, r.alarmsRunId, r.alarms.Some?)
    && TagIsSelected(s, r.artifactsRunId, r.artifacts.Some?)
    && PageIsSelected(s, r.results)
    && PageIsSelected(s, r.alarms)
    && (r.artifacts.Some? ==> r.artifacts == s.runId)
    && (s.detail.Some? ==> Some(s.detail.value.run) == s.runId)
    && (r.summary.Some?
        ==>
          && Some(r.summary.value.run) == s.runId
          && r.summary.value.agent == s.selectedAgent
          && (r.summary.value.declaredAgent.Some? ==> r.summary.value.declaredAgent == Some(s.selectedAgent)))
  }

  /** The log is bounded and holds only events of the selected run. */
  ghost predicate LogIsSelected(s: State) {
    && |s.events| <= LOG_LIMIT
    && forall k :: 0 <= k < |s.events| ==> Some(s.events[k].run) == s.runId
  }

  /** A refresh at its second await waits with the detail of its own run. */
  ghost predicate DetailsAreOwn(s: State) {
    forall r :: r in s.refreshes && r.detail.Some? ==> r.detail.value.run == r.run
  }

  /** The parts of the state that decide what is shown. */
  predicate SameView(s: State, t: State) {
    && t.runId == s.runId && t.selectedAgent == s.selectedAgent && t.detail == s.detail && t.resources == s.resources
    && t.lastEventId == s.lastEventId && t.events == s.events
  }

  lemma RefreshShowsSame(s: State, thenConnect: bool)
    ensures SameView(s, RefreshStep(s, thenConnect))
    ensures DetailsAreOwn(s) ==> DetailsAreOwn(RefreshStep(s, thenConnect))
  {
  }

  lemma SameViewShows(s: State, t: State)
    requires ShowsSelection(s) && SameView(s, t)
    ensures ShowsSelection(t)
  {
  }

  lemma PublishedShows(s: State, refresh: Refresh, detail: Detail, responses: Responses)
    requires detail.run == refresh.run && Current(s, refresh) && !Mismatch(refresh, responses)
    ensures ShowsSelection(Published(s, refresh, detail, responses))
  {
    hide Monotonic;
  }

  lemma FinishShowsSelection(s: State, refresh: Refresh, detail: Detail, responses: Responses)
    requires ShowsSelection(s) && detail.run == refresh.run
    ensures ShowsSelection(FinishStep(s, refresh, detail, responses))
  {
    hide ShowsSelection, Published, Mismatch, Current;
    var t := FinishStep(s, refresh, detail, responses);
    if Current(s, refresh) && !Mismatch(refresh, responses) {
      PublishedShows(s, refresh, detail, responses);
      SameViewShows(Published(s, refresh, detail, responses), t);
    } else {
      SameViewShows(s, t);
    }
  }

  lemma SelectionShows(s: State, runId: Option<string>, agent: int)
    requires ShowsSelection(s)
    ensures ShowsSelection(Selected(s, runId)) && ShowsSelection(AgentSelected(s, agent))
  {
    hide HasRun;
  }

  lemma SimulationShows(s: State, refresh: Refresh, simulation: Simulation)
    requires ShowsSelection(s)
    ensures ShowsSelection(SimulationStep(s, refresh, simulation))
  {
    hide ShowsSelection, FinishStep, Current;
    var t, detail := SimulationStep(s, refresh, simulation), Detail(refresh.run, simulation);
    SameViewShows(s, Arrived(s, refresh));
    FinishShowsSelection(Arrived(s, refresh), refresh, detail, NOTHING_FETCHED);
    if simulation.status == "COMPLETED" {
      SameViewShows(s, t);
    }
  }

  lemma EventShowsSelection(s: State, subscription: Subscription, event: Event)
    requires ShowsSelection(s)
    ensures ShowsSelection(EventStep(s, subscription, event))
  {
    hide RefreshStep, Trimmed, Newer, Accepted;
    RefreshShowsSame(s, false);
    RefreshShowsSame(Logged(s, subscription.run, event), false);
  }

  lemma StepShowsSelection(s: State, action: Action)
    requires ShowsSelection(s) && DetailsAreOwn(s) && Enabled(s, action)
    ensures ShowsSelection(Step(s, action))
  {
    hide ShowsSelection, FinishStep, EventStep, RefreshStep, SimulationStep, Selected, AgentSelected, Current, HasRun,
      AgentIsShown;
    match action
    case SelectRun(runId) =>
      SelectionShows(s, runId, 1);
      RefreshShowsSame(Selected(s, runId), true);
      SameViewShows(Selected(s, runId), Step(s, action));
    case SelectAgent(agent) =>
      SelectionShows(s, None, agent);
      RefreshShowsSame(AgentSelected(s, agent), false);
      SameViewShows(AgentSelected(s, agent), RefreshStep(AgentSelected(s, agent), false));
    case SimulationArrives(refresh, simulation) => SimulationShows(s, refresh, simulation);
    case ResourcesArrive(refresh, responses) =>
      SameViewShows(s, Arrived(s, refresh));
      FinishShowsSelection(Arrived(s, refresh), refresh, refresh.detail.value, responses);
    case EventArrives(subscription, event) => EventShowsSelection(s, subscription, event);
    case TimerFires(timer) =>
      RefreshShowsSame(s.(timers := s.timers - {timer}), true);
      SameViewShows(s, Step(s, action));
    case _ => SameViewShows(s, Step(s, action));
  }

  lemma FinishKeepsRefreshes(s: State, refresh: Refresh, detail: Detail, responses: Responses)
    ensures FinishStep(s, refresh, detail, responses).refreshes == s.refreshes
    ensures FinishStep(s, refresh, detail, responses).events == s.events
    ensures FinishStep(s, refresh, detail, responses).runId == s.runId
  {
  }

  lemma StepKeepsDetailsOwn(s: State, action: Action)
    requires DetailsAreOwn(s) && Enabled(s, action)
    ensures DetailsAreOwn(Step(s, action))
  {
    hide FinishStep;
    match action
    case SimulationArrives(refresh, simulation) =>
      FinishKeepsRefreshes(Arrived(s, refresh), refresh, Detail(refresh.run, simulation), NOTHING_FETCHED);
    case ResourcesArrive(refresh, responses) =>
      FinishKeepsRefreshes(Arrived(s, refresh), refresh, refresh.detail.value, responses);
    case _ =>
  }

  lemma EventKeepsLog(s: State, subscription: Subscription, event: Event)
    requires LogIsSelected(s)
    ensures LogIsSelected(EventStep(s, subscription, event))
  {
    hide RefreshStep, Newer, Accepted, ProjectedEvent;
    RefreshShowsSame(s, false);
    RefreshShowsSame(Logged(s, subscription.run, event), false);
  }

  lemma StepKeepsLog(s: State, action: Action)
    requires LogIsSelected(s) && Enabled(s, action)
    ensures LogIsSelected(Step(s, action))
  {
    hide FinishStep, EventStep, RefreshStep;
    match action
    case SelectRun(runId) => RefreshShowsSame(Selected(s, runId), true);
    case SelectAgent(agent) => RefreshShowsSame(AgentSelected(s, agent), false);
    case SimulationArrives(refresh, simulation) =>
      FinishKeepsRefreshes(Arrived(s, refresh), refresh, Detail(refresh.run, simulation), NOTHING_FETCHED);
    case ResourcesArrive(refresh, responses) =>
      FinishKeepsRefreshes(Arrived(s, refresh), refresh, refresh.detail.value, responses);
    case EventArrives(subscription, event) => EventKeepsLog(s, subscription, event);
    case TimerFires(timer) => RefreshShowsSame(s.(timers := s.timers - {timer}), true);
    case _ =>
  }

  /** In every interleaving, everything shown belongs to the selected run and agent. */
  lemma {:induction false} EveryRunShowsSelection(actions: seq<Action>)
    ensures ShowsSelection(After(INITIAL, actions))
    ensures LogIsSelected(After(INITIAL, actions))
    ensures DetailsAreOwn(After(INITIAL, actions))
  {
    if actions != [] {
      hide ShowsSelection, LogIsSelected, DetailsAreOwn, Step, Enabled;
      EveryRunShowsSelection(actions[..|actions| - 1]);
      var before := After(INITIAL, actions[..|actions| - 1]);
      if Enabled(before, actions[|actions| - 1]) {
        StepShowsSelection(before, actions[|actions| - 1]);
        StepKeepsLog(before, actions[|actions| - 1]);
        StepKeepsDetailsOwn(before, actions[|actions| - 1]);
      }
    }
  }

  // ---------------------------------------------------------------- event order

  predicate Ordinary(id: EventId) {
    id.Missing? || id.Numeric?
  }

  /** Every event id the action brings is absent or a number, and every REST id at least not other text. */
  predicate BringsOrdinaryIds(action: Action) {
    match action
    case EventArrives(_, event) => Ordinary(event.id)
    case SimulationArrives(_, simulation) => !simulation.latestEventId.Other?
    case _ => true
  }

  ghost predicate HoldsOrdinaryIds(s: State) {
    && Ordinary(s.lastEventId)
    && forall r :: r in s.refreshes && r.detail.Some? ==> !r.detail.value.simulation.latestEventId.Other?
  }

  /** The numeric ids in the log strictly increase and the last event id has caught up with all of them. */
  ghost predicate LogIsOrdered(s: State) {
    && (forall k :: 0 <= k < |s.events| ==> Ordinary(s.events[k].id) && NotBelow(s.lastEventId, s.events[k].id))
    && (forall j, k :: 0 <= j < k < |s.events| && s.events[j].id.Numeric? && s.events[k].id.Numeric?
          ==> s.events[j].id.value < s.events[k].id.value)
  }

  predicate KeepsRun(action: Action) {
    !action.SelectRun?
  }

  /** The last event id is absent or a number, and the log is ordered up to it. */
  ghost predicate OrderHolds(s: State) {
    Ordinary(s.lastEventId) && LogIsOrdered(s)
  }

  /** Order holds after a step, and unless the step selects a run, the last event id has not decreased. */
  ghost predicate OrderKept(s: State, t: State, keepsRun: bool) {
    OrderHolds(t) && (keepsRun ==> NotBelow(t.lastEventId, s.lastEventId))
  }

  /** The guards that let an id that is neither absent nor a number become the last one. */
  predicate TakesUnordered(s: State, action: Action) {
    match action
    case SimulationArrives(refresh, simulation) =>
      simulation.status != "COMPLETED" && Current(s, refresh) && simulation.latestEventId.Other?
    case ResourcesArrive(refresh, responses) =>
      && Current(s, refresh) && !Mismatch(refresh, responses)
      && refresh.detail.Some? && refresh.detail.value.simulation.latestEventId.Other?
    case EventArrives(subscription, event) =>
      && Some(subscription.run) == s.runId && event.kind != "stream.reset"
      && Newer(s.lastEventId, event.id) && !Ordinary(event.id)
    case _ => false
  }

  lemma SameOrder(s: State, t: State)
    requires OrderHolds(s) && t.events == s.events && t.lastEventId == s.lastEventId
    ensures OrderKept(s, t, true)
  {
  }

  lemma FinishOrders(s: State, refresh: Refresh, detail: Detail, responses: Responses)
    requires OrderHolds(s)
    ensures OrderKept(s, FinishStep(s, refresh, detail, responses), true)
      <==> !(Current(s, refresh) && !Mismatch(refresh, responses) && detail.simulation.latestEventId.Other?)
  {
    hide Fetched, Projected;
    if Current(s, refresh) && !Mismatch(refresh, responses) {
      PublishedOrders(s, Published(s, refresh, detail, responses), detail.simulation.latestEventId);
    } else {
      SameOrder(s, FinishStep(s, refresh, detail, responses));
    }
  }

  lemma PublishedOrders(s: State, t: State, candidate: EventId)
    requires OrderHolds(s) && t.events == s.events && t.lastEventId == Monotonic(s.lastEventId, candidate)
    ensures OrderKept(s, t, true) <==> !candidate.Other?
  {
  }

  lemma LoggedOrders(s: State, run: string, event: Event)
    requires OrderHolds(s) && Newer(s.lastEventId, event.id)
    ensures OrderKept(s, Logged(s, run, event), true) <==> Ordinary(event.id)
  {
    hide ProjectedEvent;
  }

  lemma EventOrders(s: State, subscription: Subscription, event: Event)
    requires OrderHolds(s)
    ensures OrderKept(s, EventStep(s, subscription, event), true)
      <==> !TakesUnordered(s, EventArrives(subscription, event))
  {
    hide Logged, Newer, OrderKept, OrderHolds;
    SameOrder(s, s);
    SameOrder(s, RefreshStep(s, false));
    if Newer(s.lastEventId, event.id) {
      var logged := Logged(s, subscription.run, event);
      LoggedOrders(s, subscription.run, event);
      RefreshKeepsOrder(s, logged);
    }
  }

  lemma RefreshKeepsOrder(s: State, t: State)
    ensures OrderKept(s, RefreshStep(t, false), true) <==> OrderKept(s, t, true)
  {
  }

  /** One step keeps the order exactly when it does not take up such an id. */
  lemma StepOrdersExactlyWhen(s: State, action: Action)
    requires OrderHolds(s) && Enabled(s, action)
    ensures OrderKept(s, Step(s, action), KeepsRun(action)) <==> !TakesUnordered(s, action)
  {
    match action
    case SelectRun(runId) =>
    case SimulationArrives(refresh, simulation) =>
      hide FinishStep, OrderKept, OrderHolds;
      var arrived := Arrived(s, refresh);
      SameOrder(s, arrived);
      if simulation.status == "COMPLETED" {
        SameOrder(s, Step(s, action));
      } else {
        FinishOrders(arrived, refresh, Detail(refresh.run, simulation), NOTHING_FETCHED);
        OrderFromArrived(s, refresh, Step(s, action));
      }
    case ResourcesArrive(refresh, responses) =>
      hide FinishStep, OrderKept, OrderHolds;
      SameOrder(s, Arrived(s, refresh));
      FinishOrders(Arrived(s, refresh), refresh, refresh.detail.value, responses);
      OrderFromArrived(s, refresh, Step(s, action));
    case EventArrives(subscription, event) =>
      hide EventStep, OrderKept, OrderHolds;
      EventOrders(s, subscription, event);
    case _ =>
      hide OrderKept, OrderHolds;
      SameOrder(s, Step(s, action));
  }

  lemma OrderFromArrived(s: State, refresh: Refresh, t: State)
    ensures OrderHolds(Arrived(s, refresh)) <==> OrderHolds(s)
    ensures OrderKept(Arrived(s, refresh), t, true) <==> OrderKept(s, t, true)
  {
  }

  /** Order holds after every prefix of the run, and no step that keeps the run lets the last event id decrease. */
  ghost predicate AlwaysOrdered(s: State, actions: seq<Action>) {
    if actions == [] then OrderHolds(s)
    else
      && AlwaysOrdered(s, actions[..|actions| - 1])
      && OrderKept(After(s, actions[..|actions| - 1]), After(s, actions), KeepsRun(actions[|actions| - 1]))
  }

  /** No action of the run takes up an id that is neither absent nor a number. */
  predicate NothingUnordered(s: State, actions: seq<Action>) {
    actions == []
    || (var before, action := After(s, actions[..|actions| - 1]), actions[|actions| - 1];
        NothingUnordered(s, actions[..|actions| - 1]) && !(Enabled(before, action) && TakesUnordered(before, action)))
  }

  /**
   In every run from an ordered state: the log stays ordered, and the last id never decreases within a selection,
   exactly when no step takes up an id that is neither absent nor a number.
   */
  lemma {:induction false} OrderIsKeptExactlyWhen(s: State, actions: seq<Action>)
    requires OrderHolds(s)
    ensures AlwaysOrdered(s, actions) <==> NothingUnordered(s, actions)
    ensures AlwaysOrdered(s, actions) ==> OrderHolds(After(s, actions))
  {
    if actions != [] {
      hide OrderHolds, OrderKept, Step, Enabled, TakesUnordered, KeepsRun;
      var earlier, action := actions[..|actions| - 1], actions[|actions| - 1];
      OrderIsKeptExactlyWhen(s, earlier);
      var before, after := After(s, earlier), After(s, actions);
      KeptHolds(before, after, KeepsRun(action));
      if OrderHolds(before) {
        if Enabled(before, action) {
          StepOrdersExactlyWhen(before, action);
        } else {
          SameOrder(before, after);
          KeptAnyway(before, after, KeepsRun(action));
        }
      }
    }
  }

  lemma KeptHolds(s: State, t: State, keepsRun: bool)
    ensures OrderKept(s, t, keepsRun) ==> OrderHolds(t)
  {
  }

  lemma KeptAnyway(s: State, t: State, keepsRun: bool)
    requires OrderKept(s, t, true)
    ensures OrderKept(s, t, keepsRun)
  {
  }

  /** While only ordinary ids arrive, the details waiting for their resources have ordinary ids too. */
  lemma StepKeepsOrdinaryIds(s: State, action: Action)
    requires HoldsOrdinaryIds(s) && LogIsOrdered(s) && Enabled(s, action) && BringsOrdinaryIds(action)
    ensures !TakesUnordered(s, action)
    ensures HoldsOrdinaryIds(Step(s, action)) && LogIsOrdered(Step(s, action))
    ensures KeepsRun(action) ==> NotBelow(Step(s, action).lastEventId, s.lastEventId)
  {
    StepOrdersExactlyWhen(s, action);
    hide LogIsOrdered, NotBelow, Published, Logged, Newer, Mismatch;
  }

  /**
   From any ordered state, a run of ordinary ids keeps the log ordered; within one selection the last id never
   decreases.
   */
  lemma {:induction false} OrderIsKept(s: State, actions: seq<Action>)
    requires HoldsOrdinaryIds(s) && LogIsOrdered(s)
    requires forall k :: 0 <= k < |actions| ==> BringsOrdinaryIds(actions[k])
    ensures HoldsOrdinaryIds(After(s, actions)) && LogIsOrdered(After(s, actions))
    ensures (forall k :: 0 <= k < |actions| ==> KeepsRun(actions[k])) ==>
      NotBelow(After(s, actions).lastEventId, s.lastEventId)
  {
    if actions != [] {
      hide HoldsOrdinaryIds, LogIsOrdered, Step, Enabled, BringsOrdinaryIds, KeepsRun;
      var before, action := After(s, actions[..|actions| - 1]), actions[|actions| - 1];
      assert BringsOrdinaryIds(action);
      OrderIsKept(s, actions[..|actions| - 1]);
      if Enabled(before, action) {
        StepKeepsOrdinaryIds(before, action);
      }
    }
  }

  /** In every run whose ids are ordinary, at any moment, the log is ordered and at most a hundred long. */
  lemma EveryRunIsOrdered(actions: seq<Action>)
    requires forall k :: 0 <= k < |actions| ==> BringsOrdinaryIds(actions[k])
    ensures LogIsOrdered(After(INITIAL, actions)) && |After(INITIAL, actions).events| <= LOG_LIMIT
  {
    OrderIsKept(INITIAL, actions);
    EveryRunShowsSelection(actions);
  }

  /** A new subscription asks the server to resume after everything that has been logged. */
  lemma ConnectResumesPastLog(s: State)
    requires LogIsOrdered(s) && HasRun(s)
    ensures var made := ConnectStep(s).subscription;
      && made.Some? && made.value in ConnectStep(s).open
      && forall k :: 0 <= k < |s.events| ==> NotBelow(made.value.after, s.events[k].id)
  {
  }

  /**
   Without the condition on ids both fail, whatever the id that breaks it: an event with an empty or non-numeric id
   makes the store forget the last id, after which an event it refused before is accepted and logged again.
   */
  lemma UnorderedIdForgets(s: State, subscription: Subscription, event: Event, stale: Event)
    requires subscription in s.delivering && Some(subscription.run) == s.runId && s.lastEventId.Numeric?
    requires event.kind != "stream.reset" && !Ordinary(event.id) && event.status.None?
    requires stale.kind != "stream.reset" && stale.id.Numeric? && stale.id.value < s.lastEventId.value
      && stale.status.None?
    ensures After(s, [EventArrives(subscription, stale)]) == s
    ensures var t := After(s, [EventArrives(subscription, event), EventArrives(subscription, stale)]);
      && !NotBelow(t.lastEventId, s.lastEventId)
      && t.lastEventId == stale.id && t.events != [] && t.events[|t.events| - 1].id == stale.id
  {
    hide ProjectedEvent;
    var first, second := EventArrives(subscription, event), EventArrives(subscription, stale);
    assert [first, second][..1] == [first];
    assert [first][..0] == [];
    assert [second][..0] == [];
    assert After(s, []) == s;
    var logged := Logged(s, subscription.run, event);
    assert After(s, [first]) == logged;
    assert !Ordinary(logged.lastEventId) && Newer(logged.lastEventId, stale.id);
    LastIsKept(logged.events, Entry(stale.id, stale.kind, subscription.run));
  }

  lemma LastIsKept(events: seq<Entry>, entry: Entry)
    ensures Trimmed(events + [entry]) != [] && Trimmed(events + [entry])[|Trimmed(events + [entry])| - 1] == entry
  {
  }

  /**
   What the client's reader can deliver: an id field that is no number reads as NaN, and event 3 is logged
   after event 5.
   */
  lemma NotANumberForgets(s: State, subscription: Subscription, broken: Event, stale: Event)
    requires subscription in s.delivering && Some(subscription.run) == s.runId && s.lastEventId == Numeric(5.0)
    requires broken == Event(Other("NaN"), "progress", None, None, None, None)
    requires stale == Event(Numeric(3.0), "progress", None, None, None, None)
    ensures After(s, [EventArrives(subscription, broken), EventArrives(subscription, stale)]).lastEventId
      == Numeric(3.0)
  {
    hide After;
    UnorderedIdForgets(s, subscription, broken, stale);
  }

  // ---------------------------------------------------------------- loading

  /** The refresh the controller belongs to is waiting and is for the current selection. */
  ghost predicate IsServed(s: State) {
    exists r :: r in s.refreshes && Some(r.id) == s.requestController && Current(s, r)
  }

  ghost predicate LoadingIsServed(s: State) {
    s.loading && HasRun(s) ==> IsServed(s)
  }

  /** Actions after which nothing may be left to end the loading: closing, and aborting the newest refresh. */
  predicate Abandons(s: State, action: Action) {
    action.Close? || (action.RefreshFails? && action.abort && Some(action.refresh.id) == s.requestController)
  }

  lemma RefreshServes(s: State, thenConnect: bool)
    ensures LoadingIsServed(RefreshStep(s, thenConnect))
  {
    if HasRun(s) {
      var r := Refresh(s.nextId, s.runId.value, s.selectedAgent, thenConnect, None);
      assert r in RefreshStep(s, thenConnect).refreshes;
    }
  }

  /** A waiting refresh that is not the one being removed still serves. */
  lemma StillServed(s: State, t: State)
    requires LoadingIsServed(s) && t.runId == s.runId && t.selectedAgent == s.selectedAgent
    requires t.requestController == s.requestController && (t.loading ==> s.loading)
    requires forall r :: r in s.refreshes && Some(r.id) == s.requestController && Current(s, r) ==> r in t.refreshes
    ensures LoadingIsServed(t)
  {
    if t.loading && HasRun(t) {
      var r :| r in s.refreshes && Some(r.id) == s.requestController && Current(s, r);
      assert r in t.refreshes && Current(t, r);
    }
  }

  lemma FailServes(s: State, refresh: Refresh, abort: bool)
    requires LoadingIsServed(s) && refresh in s.refreshes
    requires Current(s, refresh) && abort ==> Some(refresh.id) != s.requestController
    ensures LoadingIsServed(FailStep(Arrived(s, refresh), refresh, abort))
  {
    if !(Current(s, refresh) && !abort) {
      StillServed(s, FailStep(Arrived(s, refresh), refresh, abort));
    }
  }

  lemma FinishServes(s: State, refresh: Refresh, detail: Detail, responses: Responses)
    requires LoadingIsServed(s) && refresh in s.refreshes
    ensures LoadingIsServed(FinishStep(Arrived(s, refresh), refresh, detail, responses))
  {
    if !Current(s, refresh) {
      hide Published, Mismatch;
      StillServed(s, FinishStep(Arrived(s, refresh), refresh, detail, responses));
    } else {
      hide Fetched, Projected, Monotonic, Mismatch;
    }
  }

  lemma SimulationServes(s: State, refresh: Refresh, simulation: Simulation)
    requires LoadingIsServed(s) && refresh in s.refreshes
    ensures LoadingIsServed(SimulationStep(s, refresh, simulation))
  {
    hide FinishStep, FailStep;
    var t, detail := SimulationStep(s, refresh, simulation), Detail(refresh.run, simulation);
    FinishServes(s, refresh, detail, NOTHING_FETCHED);
    FailServes(s, refresh, false);
    if simulation.status == "COMPLETED" && s.requestController.Some? && t.loading && HasRun(t) {
      var r :| r in s.refreshes && Some(r.id) == s.requestController && Current(s, r);
      var q := if r == refresh then refresh.(detail := Some(detail)) else r;
      assert q in t.refreshes && Current(t, q);
    }
  }

  lemma EventServes(s: State, subscription: Subscription, event: Event)
    requires LoadingIsServed(s)
    ensures LoadingIsServed(EventStep(s, subscription, event))
  {
    hide RefreshStep, LoadingIsServed, Newer, Accepted, ProjectedEvent, Trimmed;
    RefreshServes(s, false);
    RefreshServes(Logged(s, subscription.run, event), false);
    StillServed(s, Logged(s, subscription.run, event));
  }

  lemma StepServes(s: State, action: Action)
    requires LoadingIsServed(s) && Enabled(s, action) && !Abandons(s, action)
    ensures LoadingIsServed(Step(s, action))
  {
    hide LoadingIsServed, RefreshStep, FinishStep, FailStep, SimulationStep, EventStep, AgentIsShown, Current;
    match action
    case SelectRun(runId) => RefreshServes(Selected(s, runId), true);
    case SelectAgent(agent) => RefreshServes(AgentSelected(s, agent), false);
    case SimulationArrives(refresh, simulation) => SimulationServes(s, refresh, simulation);
    case ResourcesArrive(refresh, responses) => FinishServes(s, refresh, refresh.detail.value, responses);
    case RefreshFails(refresh, abort) => FailServes(s, refresh, abort);
    case EventArrives(subscription, event) => EventServes(s, subscription, event);
    case TimerFires(timer) =>
      var fired := s.(timers := s.timers - {timer});
      RefreshServes(fired, true);
      StillServed(s, fired);
    case Connects => StillServed(s, Step(s, action));
    case Disconnects(_) => StillServed(s, Step(s, action));
    case Close =>
  }

  /** No step of the run abandons the newest refresh. */
  predicate NothingAbandoned(s: State, actions: seq<Action>) {
    actions == []
    || (var before, action := After(s, actions[..|actions| - 1]), actions[|actions| - 1];
        NothingAbandoned(s, actions[..|actions| - 1]) && !(Enabled(before, action) && Abandons(before, action)))
  }

  /** Whenever the store says it is loading a run, the request that will end the loading is under way. */
  lemma {:induction false} EveryRunServesLoading(actions: seq<Action>)
    requires NothingAbandoned(INITIAL, actions)
    ensures LoadingIsServed(After(INITIAL, actions))
  {
    if actions != [] {
      hide LoadingIsServed, Step, Enabled, Abandons;
      EveryRunServesLoading(actions[..|actions| - 1]);
      var before := After(INITIAL, actions[..|actions| - 1]);
      if Enabled(before, actions[|actions| - 1]) {
        StepServes(before, actions[|actions| - 1]);
      }
    }
  }

  // ---------------------------------------------------------------- overlapping subscriptions

  predicate OneOpen(s: State) {
    |s.open| <= 1
  }

  /** The guard: a continuation connects while a subscription is open. */
  predicate Overlaps(s: State, action: Action) {
    action.Connects? && HasRun(s) && s.open != {}
  }

  /** Subscription ids are fresh. */
  ghost predicate IdsAreFresh(s: State) {
    forall subscription :: subscription in s.open ==> subscription.id < s.nextId
  }

  /** One step opens a second subscription exactly when it connects while one is open. */
  lemma StepOverlapsExactlyWhen(s: State, action: Action)
    requires OneOpen(s) && IdsAreFresh(s) && Enabled(s, action)
    ensures OneOpen(Step(s, action)) <==> !Overlaps(s, action)
  {
    StepOpens(s, action);
    if action.Connects? && HasRun(s) {
      var made := Subscription(s.nextId, s.runId.value, s.lastEventId);
      assert made !in s.open;
      assert |s.open + {made}| == |s.open| + 1;
    } else {
      SmallerSet(Step(s, action).open, s.open);
    }
  }

  lemma SmallerSet(a: set<Subscription>, b: set<Subscription>)
    requires a <= b
    ensures |a| <= |b|
  {
    assert b == a + (b - a);
  }

  /** Only connecting opens anything. */
  lemma StepOpens(s: State, action: Action)
    requires Enabled(s, action)
    ensures Step(s, action).nextId >= s.nextId
    ensures if action.Connects? && HasRun(s)
            then Step(s, action).open == s.open + {Subscription(s.nextId, s.runId.value, s.lastEventId)}
                 && Step(s, action).nextId == s.nextId + 1
            else Step(s, action).open <= s.open
  {
    hide Published, Mismatch, Logged, Newer, AgentIsShown;
    match action
    case EventArrives(subscription, event) => LoggedOpens(s, subscription.run, event);
    case SimulationArrives(refresh, simulation) =>
      FinishOpens(Arrived(s, refresh), refresh, Detail(refresh.run, simulation), NOTHING_FETCHED);
    case ResourcesArrive(refresh, responses) =>
      FinishOpens(Arrived(s, refresh), refresh, refresh.detail.value, responses);
    case _ =>
  }

  lemma LoggedOpens(s: State, run: string, event: Event)
    ensures Logged(s, run, event).open == s.open && Logged(s, run, event).nextId == s.nextId
  {
  }

  lemma FinishOpens(s: State, refresh: Refresh, detail: Detail, responses: Responses)
    ensures FinishStep(s, refresh, detail, responses).open == s.open
      && FinishStep(s, refresh, detail, responses).nextId == s.nextId
  {
  }

  lemma StepKeepsIdsFresh(s: State, action: Action)
    requires IdsAreFresh(s) && Enabled(s, action)
    ensures IdsAreFresh(Step(s, action))
  {
    hide Step, Enabled;
    StepOpens(s, action);
  }

  /** No action of the run connects while a subscription is open. */
  predicate NothingOverlaps(actions: seq<Action>) {
    actions == []
    || (var before, action := After(INITIAL, actions[..|actions| - 1]), actions[|actions| - 1];
        NothingOverlaps(actions[..|actions| - 1]) && !(Enabled(before, action) && Overlaps(before, action)))
  }

  /** At most one subscription is open after every prefix of the run. */
  predicate AlwaysOneOpen(actions: seq<Action>) {
    OneOpen(After(INITIAL, actions)) && (actions == [] || AlwaysOneOpen(actions[..|actions| - 1]))
  }

  /**
   In every run: at most one subscription is open all along exactly when no continuation connects while one is open.
   */
  lemma {:induction false} OneOpenExactlyWhen(actions: seq<Action>)
    ensures IdsAreFresh(After(INITIAL, actions))
    ensures AlwaysOneOpen(actions) <==> NothingOverlaps(actions)
  {
    if actions != [] {
      hide Step, Enabled, Overlaps, OneOpen, IdsAreFresh;
      OneOpenExactlyWhen(actions[..|actions| - 1]);
      var before, action := After(INITIAL, actions[..|actions| - 1]), actions[|actions| - 1];
      if Enabled(before, action) {
        StepKeepsIdsFresh(before, action);
        if OneOpen(before) {
          StepOverlapsExactlyWhen(before, action);
        }
      }
      AlwaysMeansNow(actions[..|actions| - 1]);
    }
  }

  lemma AlwaysMeansNow(actions: seq<Action>)
    ensures AlwaysOneOpen(actions) ==> OneOpen(After(INITIAL, actions))
  {
  }

  lemma AfterExtend(s: State, actions: seq<Action>, action: Action)
    ensures var before := After(s, actions);
      After(s, actions + [action]) == if Enabled(before, action) then Step(before, action) else before
  {
    assert (actions + [action])[..|actions|] == actions;
  }

  /**
   Selecting a second run before the first refresh has settled leaves two subscriptions of the second run open: both
   continuations connect, and connecting closes nothing.
   */
  lemma SelectionsOverlap(s: State, a: string, b: string)
    requires a != "" && b != ""
    ensures var first, second := Refresh(s.nextId, a, 1, true, None), Refresh(s.nextId + 1, b, 1, true, None);
      var selecting := [SelectRun(Some(a)), SelectRun(Some(b))];
      var settled := selecting + [RefreshFails(first, true)] + [RefreshFails(second, false)];
      var final := After(s, settled + [Connects] + [Connects]);
      && {Subscription(s.nextId + 2, b, Missing), Subscription(s.nextId + 3, b, Missing)} <= final.open
      && final.runId == Some(b)
  {
    hide After, Step, Enabled;
    var first, second := Refresh(s.nextId, a, 1, true, None), Refresh(s.nextId + 1, b, 1, true, None);
    var selecting := [SelectRun(Some(a)), SelectRun(Some(b))];
    var aborted := selecting + [RefreshFails(first, true)];
    var settled := aborted + [RefreshFails(second, false)];
    TwoSelections(s, a, b);
    AfterExtend(s, selecting, RefreshFails(first, true));
    AfterExtend(s, aborted, RefreshFails(second, false));
    FailureCounts(After(s, selecting), first, true);
    FailureCounts(After(s, aborted), second, false);
    AfterExtend(s, settled, Connects);
    AfterExtend(s, settled + [Connects], Connects);
    ConnectOpens(After(s, settled));
    ConnectOpens(After(s, settled + [Connects]));
  }

  lemma TwoSelections(s: State, a: string, b: string)
    requires a != "" && b != ""
    ensures var t := After(s, [SelectRun(Some(a)), SelectRun(Some(b))]);
      && t.runId == Some(b) && t.lastEventId == Missing && t.nextId == s.nextId + 2 && t.connects == s.connects
      && Refresh(s.nextId, a, 1, true, None) in t.refreshes
      && Refresh(s.nextId + 1, b, 1, true, None) in t.refreshes
  {
    var actions := [SelectRun(Some(a)), SelectRun(Some(b))];
    assert actions[..1] == [SelectRun(Some(a))];
    assert [SelectRun(Some(a))][..0] == [];
    assert After(s, []) == s;
  }

  lemma FailureCounts(s: State, refresh: Refresh, abort: bool)
    requires refresh in s.refreshes && refresh.thenConnect
    ensures Enabled(s, RefreshFails(refresh, abort))
    ensures var t := Step(s, RefreshFails(refresh, abort));
      && t.runId == s.runId && t.lastEventId == s.lastEventId && t.nextId == s.nextId && t.open == s.open
      && t.connects == s.connects + 1
      && t.refreshes == s.refreshes - {refresh}
  {
  }

  lemma ConnectOpens(s: State)
    requires HasRun(s) && s.connects > 0
    ensures Enabled(s, Connects)
    ensures var t := Step(s, Connects);
      && t.runId == s.runId && t.lastEventId == s.lastEventId && t.nextId == s.nextId + 1
      && t.connects == s.connects - 1
      && t.open == s.open + {Subscription(s.nextId, s.runId.value, s.lastEventId)}
  {
  }

  // ---------------------------------------------------------------- the store object

  /** The object itself. The last six fields stand for its surroundings: the API, the timers and the task queue. */
  class SimulationStore {
    var runId: Option<string>
    var selectedAgent: int
    var detail: Option<Detail>
    var resources: Resources
    var lastEventId: EventId
    var events: seq<Entry>
    var loading: bool
    var subscription: Option<Subscription>
    var requestController: Option<nat>
    var reconnectTimer: Option<Timer>
    var refreshes: set<Refresh>
    var delivering: set<Subscription>
    var open: set<Subscription>
    var timers: set<Timer>
    var connects: nat
    var nextId: nat

    function View(): State
      reads this
    {
      State(runId, selectedAgent, detail, resources, lastEventId, events, loading, subscription, requestController,
            reconnectTimer, refreshes, delivering, open, timers, connects, nextId)
    }

    constructor ()
      ensures View() == INITIAL
    {
      runId, selectedAgent, detail, resources, lastEventId := None, 1, None, NO_RESOURCES, Missing;
      events, loading, subscription, requestController, reconnectTimer := [], false, None, None, None;
      refreshes, delivering, open, timers, connects, nextId := {}, {}, {}, {}, 0, 0;
    }

    method CloseRunSubscription()
      modifies this
      ensures View() == CloseStep(old(View()))
    {
      if subscription.Some? {
        open := open - {subscription.value};
      }
      subscription := None;
      requestController := None;
      if reconnectTimer.Some? {
        timers := timers - {reconnectTimer.value};
      }
      reconnectTimer := None;
    }

    method SelectRun(selected: Option<string>)
      modifies this
      ensures View() == SelectRunStep(old(View()), selected)
    {
      hide RefreshStep, Selected;
      Reset(selected);
      StartRefresh(true);
    }

    method Reset(selected: Option<string>)
      modifies this
      ensures View() == Selected(old(View()), selected)
    {
      hide CloseStep;
      CloseRunSubscription();
      runId, detail, resources, selectedAgent := selected, None, NO_RESOURCES, 1;
      lastEventId, events, loading := Missing, [], true;
    }

    method SelectAgent(agent: int)
      modifies this
      ensures View() == SelectAgentStep(old(View()), agent)
    {
      hide RefreshStep, HasRun, AgentIsShown;
      if agent !in {1, 2, 3} || AgentIsShown(View(), agent) {
        return;
      }
      selectedAgent, loading := agent, HasRun(View());
      resources := NO_RESOURCES.(artifacts := resources.artifacts, artifactsRunId := resources.artifactsRunId);
      StartRefresh(false);
    }

    /** Up to the first await; thenConnect says what the caller does when the refresh is over. */
    method StartRefresh(thenConnect: bool)
      modifies this
      ensures View() == RefreshStep(old(View()), thenConnect)
    {
      if runId.None? || runId.value == "" {
        Return(thenConnect);
        return;
      }
      requestController := Some(nextId);
      refreshes := refreshes + {Refresh(nextId, runId.value, selectedAgent, thenConnect, None)};
      nextId := nextId + 1;
    }

    method Return(thenConnect: bool)
      modifies this
      ensures View() == Done(old(View()), thenConnect)
    {
      if thenConnect {
        connects := connects + 1;
      }
    }

    method SimulationArrived(refresh: Refresh, simulation: Simulation)
      requires Enabled(View(), SimulationArrives(refresh, simulation))
      modifies this
      ensures View() == SimulationStep(old(View()), refresh, simulation)
    {
      hide FinishStep, FailStep;
      refreshes := refreshes - {refresh};
      if simulation.status != "COMPLETED" {
        Finish(refresh, Detail(refresh.run, simulation), NOTHING_FETCHED);
      } else if requestController.None? {
        Catch(refresh, false);
      } else {
        refreshes := refreshes + {refresh.(detail := Some(Detail(refresh.run, simulation)))};
      }
    }

    method ResourcesArrived(refresh: Refresh, responses: Responses)
      requires Enabled(View(), ResourcesArrive(refresh, responses))
      modifies this
      ensures View() == Step(old(View()), ResourcesArrive(refresh, responses))
    {
      hide FinishStep;
      refreshes := refreshes - {refresh};
      Finish(refresh, refresh.detail.value, responses);
    }

    method RefreshFailed(refresh: Refresh, abort: bool)
      requires Enabled(View(), RefreshFails(refresh, abort))
      modifies this
      ensures View() == Step(old(View()), RefreshFails(refresh, abort))
    {
      hide FailStep;
      refreshes := refreshes - {refresh};
      Catch(refresh, abort);
    }

    /** From the last await on. */
    method Finish(refresh: Refresh, fetched: Detail, responses: Responses)
      modifies this
      ensures View() == FinishStep(old(View()), refresh, fetched, responses)
    {
      hide FailStep, Mismatch, Fetched, Monotonic, Projected;
      if Some(refresh.run) != runId || refresh.agent != selectedAgent {
        Return(refresh.thenConnect);
        return;
      }
      if Mismatch(refresh, responses) {
        Catch(refresh, false);
        return;
      }
      lastEventId := Monotonic(lastEventId, fetched.simulation.latestEventId);
      detail := Some(Projected(fetched, lastEventId));
      resources := Fetched(refresh, responses);
      loading := false;
      Return(refresh.thenConnect);
    }

    method Catch(refresh: Refresh, abort: bool)
      modifies this
      ensures View() == FailStep(old(View()), refresh, abort)
    {
      if Some(refresh.run) == runId && refresh.agent == selectedAgent && !abort {
        loading := false;
      }
      Return(refresh.thenConnect);
    }

    method Connect()
      modifies this
      ensures View() == ConnectStep(old(View()))
    {
      if runId.None? || runId.value == "" {
        return;
      }
      var made := Subscription(nextId, runId.value, lastEventId);
      subscription := Some(made);
      delivering, open, nextId := delivering + {made}, open + {made}, nextId + 1;
    }

    method EventArrived(from: Subscription, event: Event)
      requires from in delivering
      modifies this
      ensures View() == EventStep(old(View()), from, event)
    {
      hide RefreshStep, Newer, Accepted, ProjectedEvent, Trimmed;
      if Some(from.run) != runId {
        return;
      }
      if event.kind == "stream.reset" {
        StartRefresh(false);
        return;
      }
      if !Newer(lastEventId, event.id) {
        return;
      }
      events := Trimmed(events + [Entry(event.id, event.kind, from.run)]);
      detail := ProjectedEvent(detail, from.run, event);
      lastEventId := Accepted(lastEventId, event.id);
      if event.status.Some? && event.status.value != "" {
        StartRefresh(false);
      }
    }

    method Disconnected(from: Subscription)
      requires from in delivering
      modifies this
      ensures View() == DisconnectStep(old(View()), from)
    {
      open := open - {from};
      if Some(from.run) != runId {
        return;
      }
      var timer := Timer(nextId, from.run);
      reconnectTimer := Some(timer);
      timers, nextId := timers + {timer}, nextId + 1;
    }

    method TimerFired(timer: Timer)
      requires timer in timers
      modifies this
      ensures View() == TimerStep(old(View()), timer)
    {
      hide RefreshStep;
      timers := timers - {timer};
      if Some(timer.run) == runId {
        StartRefresh(true);
      }
    }
  }
}
