/** What the store shows after an answer or an event has arrived, field by field. */
module StoreLaws {
  import opened Outcomes
  import opened Store

  /** The part of the state that is rendered from answers. */
  ghost predicate ShowsTheSame(s: State, t: State) {
    && (t.runId, t.selectedAgent, t.detail, t.resources) == (s.runId, s.selectedAgent, s.detail, s.resources)
    && (t.lastEventId, t.events) == (s.lastEventId, s.events)
  }

  /** The shown simulation is the fetched one, and it has caught up with the last event. */
  ghost predicate ShowsSimulation(t: State, run: string, fetched: Simulation) {
    && t.detail.Some? && t.detail.value.run == run
    && var shown := t.detail.value.simulation;
       && (shown.status, shown.stage, shown.queue) == (fetched.status, fetched.stage, fetched.queue)
       && (t.lastEventId != Missing ==> shown.latestEventId == t.lastEventId)
  }

  /** Each resource is shown exactly when it was fetched, under the run and for the agent it was fetched for. */
  ghost predicate ShowsResources(r: Resources, run: string, agent: int, responses: Responses) {
    && (responses.summary.Some? ==>
          r.summary == Some(Summary(run, agent, responses.summary.value)) && r.summaryRunId == Some(run))
    && (responses.summary.None? ==> r.summary == None && r.summaryRunId == None)
    && (responses.results ==> r.results == Some(Page(run, agent)) && r.resultsRunId == Some(run))
    && (!responses.results ==> r.results == None && r.resultsRunId == None)
    && (responses.alarms ==> r.alarms == Some(Page(run, agent)) && r.alarmsRunId == Some(run))
    && (!responses.alarms ==> r.alarms == None && r.alarmsRunId == None)
    && (responses.artifacts ==> r.artifacts == Some(run) && r.artifactsRunId == Some(run))
    && (!responses.artifacts ==> r.artifacts == None && r.artifactsRunId == None)
  }

  /** The resources of a completed run are shown if they are for the selection and name no other agent, else ignored. */
  lemma ResourcesAreShown(s: State, refresh: Refresh, responses: Responses)
    requires Enabled(s, ResourcesArrive(refresh, responses))
    ensures var t := Step(s, ResourcesArrive(refresh, responses));
      if Some(refresh.run) != s.runId || refresh.agent != s.selectedAgent
      then ShowsTheSame(s, t) && t.loading == s.loading
      else if responses.summary.Some? && responses.summary.value.Some? && responses.summary.value.value != refresh.agent
      then ShowsTheSame(s, t) && !t.loading
      else
        && ShowsSimulation(t, refresh.detail.value.run, refresh.detail.value.simulation)
        && ShowsResources(t.resources, refresh.run, refresh.agent, responses)
        && !t.loading && t.events == s.events
  {
  }

  /** A run that is not completed is shown by itself; a completed one waits for its resources first. */
  lemma SimulationIsShown(s: State, refresh: Refresh, simulation: Simulation)
    requires Enabled(s, SimulationArrives(refresh, simulation))
    ensures var t := Step(s, SimulationArrives(refresh, simulation));
      if simulation.status == "COMPLETED"
      then ShowsTheSame(s, t)
        && (s.requestController.Some? ==>
              refresh.(detail := Some(Detail(refresh.run, simulation))) in t.refreshes && t.loading == s.loading)
      else if Some(refresh.run) != s.runId || refresh.agent != s.selectedAgent
      then ShowsTheSame(s, t) && t.loading == s.loading
      else
        && ShowsSimulation(t, refresh.run, simulation)
        && ShowsResources(t.resources, refresh.run, refresh.agent, Responses(None, false, false, false))
        && !t.loading && t.events == s.events
  {
  }

  /** An accepted event is logged, its fields reach the shown simulation, absent ones leave it; its id is the last. */
  lemma EventIsShown(s: State, subscription: Subscription, event: Event)
    requires Enabled(s, EventArrives(subscription, event))
    requires Some(subscription.run) == s.runId && event.kind != "stream.reset" && Newer(s.lastEventId, event.id)
    ensures var t := Step(s, EventArrives(subscription, event));
      && t.events != [] && t.events[|t.events| - 1] == Entry(event.id, event.kind, subscription.run)
      && (|s.events| < 100 ==> t.events[..|t.events| - 1] == s.events)
      && t.lastEventId == (if event.id == Missing then s.lastEventId else event.id)
      && t.resources == s.resources
      && (s.detail.Some? && (event.run.None? || event.run.value == "" || event.run.value == subscription.run) ==>
            && t.detail.Some? && t.detail.value.run == s.detail.value.run
            && var before, after := s.detail.value.simulation, t.detail.value.simulation;
               && after.status == (if event.status.Some? then event.status.value else before.status)
               && after.stage == (if event.stage.Some? then event.stage.value else before.stage)
               && after.queue == (if event.queue.Some? then event.queue.value else before.queue)
               && after.latestEventId == (if event.id == Missing then before.latestEventId else event.id))
      && (event.run.Some? && event.run.value != "" && event.run.value != subscription.run ==> t.detail == s.detail)
  {
  }

  /** A reset event, and any event that is not newer or not of the selected run, changes nothing that is shown. */
  lemma OtherEventsShowNothing(s: State, subscription: Subscription, event: Event)
    requires Enabled(s, EventArrives(subscription, event))
    requires Some(subscription.run) != s.runId || event.kind == "stream.reset" || !Newer(s.lastEventId, event.id)
    ensures ShowsTheSame(s, Step(s, EventArrives(subscription, event)))
  {
  }

  /** An event that reports a status, and a reset, fetch the run anew; nothing else about an event does. */
  lemma StatusRefreshes(s: State, subscription: Subscription, event: Event)
    requires Enabled(s, EventArrives(subscription, event)) && Some(subscription.run) == s.runId
    ensures var t := Step(s, EventArrives(subscription, event));
      var fetches := subscription.run != ""
        && (event.kind == "stream.reset"
            || (Newer(s.lastEventId, event.id) && event.status.Some? && event.status.value != ""));
      if fetches
      then t.refreshes == s.refreshes + {Refresh(s.nextId, subscription.run, s.selectedAgent, false, None)}
      else t.refreshes == s.refreshes
  {
  }

  /** What counts as newer: anything without an id or after one without, a larger number, or another text. */
  lemma NewerMeans(previous: EventId, candidate: EventId)
    ensures candidate.Missing? || previous.Missing? ==> Newer(previous, candidate)
    ensures previous.Numeric? && candidate.Numeric? ==>
      (Newer(previous, candidate) <==> candidate.value > previous.value)
    ensures previous.Other? && candidate.Other? ==> (Newer(previous, candidate) <==> candidate != previous)
    ensures !Newer(candidate, candidate) || candidate.Missing? || candidate.Empty?
  {
  }

  /**
   Choosing an Agent selects it, clears everything shown but the artifacts and fetches anew, unless there is no such
   Agent or it is the selected one and its own summary is already shown; then nothing changes at all.
   */
  lemma AgentIsFetched(s: State, agent: int)
    ensures Enabled(s, SelectAgent(agent))
    ensures var t, shown := Step(s, SelectAgent(agent)), s.resources.summary;
      if !(1 <= agent <= 3)
        || (agent == s.selectedAgent && shown != None && shown.value.declaredAgent == Some(agent))
      then t == s
      else
        && (t.runId, t.selectedAgent, t.detail) == (s.runId, agent, s.detail)
        && (t.lastEventId, t.events) == (s.lastEventId, s.events)
        && t.resources == Resources(None, None, None, None, None, None, s.resources.artifacts,
                                    s.resources.artifactsRunId)
        && (if s.runId != None && s.runId.value != ""
            then t.loading && t.refreshes == s.refreshes + {Refresh(s.nextId, s.runId.value, agent, false, None)}
            else !t.loading && t.refreshes == s.refreshes)
  {
  }

  /** Choosing a run forgets everything shown, closes what was open for the store, and fetches the run for Agent one. */
  lemma RunIsFetched(s: State, runId: Option<string>)
    ensures Enabled(s, SelectRun(runId))
    ensures var t := Step(s, SelectRun(runId));
      && (t.runId, t.selectedAgent, t.detail, t.resources) == (runId, 1, None, NO_RESOURCES)
      && (t.lastEventId, t.events, t.loading) == (Missing, [], true)
      && t.subscription == None && t.reconnectTimer == None
      && t.open == (if s.subscription == None then s.open else s.open - {s.subscription.value})
      && (if runId != None && runId.value != ""
          then t.refreshes == s.refreshes + {Refresh(s.nextId, runId.value, 1, true, None)} && t.connects == s.connects
          else t.refreshes == s.refreshes && t.connects == s.connects + 1)
  {
  }

  // ---------------------------------------------------------------- connections and timers

  /** Connecting opens one subscription of the selected run, from the last event on, beside those already open. */
  lemma ConnectOpensOne(s: State)
    requires Enabled(s, Connects)
    ensures var t := Step(s, Connects);
      && ShowsTheSame(s, t) && t.connects + 1 == s.connects && t.timers == s.timers
      && (if s.runId != None && s.runId.value != ""
          then exists id: nat ::
            var made := Subscription(id, s.runId.value, s.lastEventId);
            && t.subscription == Some(made) && t.open == s.open + {made} && t.delivering == s.delivering + {made}
            && t.nextId > id
          else t.subscription == s.subscription && t.open == s.open && t.delivering == s.delivering)
  {
    var t := Step(s, Connects);
    if t.subscription != s.subscription {
      assert t.subscription == Some(Subscription(s.nextId, s.runId.value, s.lastEventId));
    }
  }

  /** A subscription that ends is no longer open; one of the selected run sets a timer to come back. */
  lemma DisconnectSetsTimer(s: State, subscription: Subscription)
    requires Enabled(s, Disconnects(subscription))
    ensures var t := Step(s, Disconnects(subscription));
      && ShowsTheSame(s, t) && t.open == s.open - {subscription} && t.refreshes == s.refreshes
      && (if Some(subscription.run) == s.runId
          then
            && t.reconnectTimer.Some? && t.reconnectTimer.value.run == subscription.run
            && t.timers == s.timers + {t.reconnectTimer.value} && t.nextId > t.reconnectTimer.value.id == s.nextId
          else t.reconnectTimer == s.reconnectTimer && t.timers == s.timers)
  {
  }

  /** A timer of the selected run fetches it again and connects afterwards; any other does nothing. */
  lemma TimerRefetches(s: State, timer: Timer)
    requires Enabled(s, TimerFires(timer))
    ensures var t := Step(s, TimerFires(timer));
      && ShowsTheSame(s, t) && t.timers == s.timers - {timer} && t.open == s.open
      && (if Some(timer.run) == s.runId && timer.run != ""
          then t.refreshes == s.refreshes + {Refresh(s.nextId, timer.run, s.selectedAgent, true, None)}
          else t.refreshes == s.refreshes)
  {
  }

  /** Closing shows the same, and closes the store's own subscription and timer and no other. */
  lemma CloseClosesOwn(s: State)
    ensures var t := Step(s, Close);
      && ShowsTheSame(s, t) && t.subscription.None? && t.requestController.None? && t.reconnectTimer.None?
      && (forall other :: other in s.open ==> (other in t.open <==> s.subscription != Some(other)))
      && (forall other :: other in s.timers ==> (other in t.timers <==> s.reconnectTimer != Some(other)))
      && t.open <= s.open && t.timers <= s.timers && t.refreshes == s.refreshes && t.delivering == s.delivering
  {
  }

  /** A failed refresh ends the loading if it is for the selection and not aborted; its caller connects regardless. */
  lemma FailureEndsLoading(s: State, refresh: Refresh, abort: bool)
    requires Enabled(s, RefreshFails(refresh, abort))
    ensures var t := Step(s, RefreshFails(refresh, abort));
      && ShowsTheSame(s, t) && t.refreshes == s.refreshes - {refresh}
      && t.connects == s.connects + (if refresh.thenConnect then 1 else 0)
      && t.loading == (s.loading && (abort || Some(refresh.run) != s.runId || refresh.agent != s.selectedAgent))
  {
  }
}
