/** Which datasets the poller asks for again, by their statuses. */
module PollerLaws {
  import opened Outcomes
  import opened Poller

  /** Something about the dataset is going on and nothing has come to its end. */
  ghost predicate IsGoingOn(dataset: Dataset) {
    var statuses := {dataset.status, dataset.preflight};
    && (exists status :: status in statuses && status in ["VALIDATING", "QUEUED", "RUNNING"])
    && (forall status :: status in statuses ==> status !in ["VALID", "INVALID", "FAILED"])
  }

  lemma ActiveAndTerminal(status: string)
    ensures Active(status) <==> status in ["VALIDATING", "QUEUED", "RUNNING"]
    ensures Terminal(status) <==> status in ["VALID", "INVALID", "FAILED"]
  {
  }

  lemma NeededExactlyWhen(dataset: Dataset)
    ensures NeedsDatasetPolling(dataset) <==> IsGoingOn(dataset)
  {
    var statuses := {dataset.status, dataset.preflight};
    assert dataset.status in statuses && dataset.preflight in statuses;
    ActiveAndTerminal(dataset.status);
    ActiveAndTerminal(dataset.preflight);
    hide Active, Terminal;
  }

  /**
   Watching is always possible. It asks for the dataset at once exactly when the dataset has an id and is going on; what
   was watched before is given up either way.
   */
  lemma WatchAsksExactlyWhen(s: State, dataset: Dataset)
    ensures Enabled(s, Watch(dataset)) && Enabled(s, Stop)
    ensures var t := Step(s, Watch(dataset));
      && t.generation == s.generation + 1 && t.timer.None? && t.callbacks == s.callbacks
      && (if dataset.id != "" && IsGoingOn(dataset)
          then t.inFlight == s.inFlight + {Request(s.nextRequest, t.generation, dataset.id)}
          else t.inFlight == s.inFlight && !t.requestActive && t.datasetId.None?)
  {
    NeededExactlyWhen(dataset);
    hide NeedsDatasetPolling, IsGoingOn;
  }

  /**
   An answer for the watched dataset, reported to a handler that calls nothing and returns, is followed by another
   question exactly when the dataset answered is still going on; otherwise the poller forgets it.
   */
  lemma AnswerIsFollowedExactlyWhen(s: State, request: Request, dataset: Dataset, onError: Handler)
    requires Enabled(s, Settles(request, Resolved(dataset, Handler([], Returns), onError)))
    requires request.generation == s.generation && s.datasetId == Some(request.datasetId)
    ensures var t := Step(s, Settles(request, Resolved(dataset, Handler([], Returns), onError)));
      && t.callbacks == s.callbacks + [Callback(request.datasetId, request.generation)]
      && t.inFlight == s.inFlight - {request} && !t.requestActive
      && t.controller == (if s.controller == Some(request.id) then None else s.controller)
      && (if IsGoingOn(dataset) then t.timer == Some(s.generation) && t.datasetId == s.datasetId
          else t.timer == s.timer && t.datasetId.None?)
  {
    NeededExactlyWhen(dataset);
    hide NeedsDatasetPolling, IsGoingOn;
    assert React(Called(s, request), []) == Called(s, request);
  }

  /**
   A failed request for the watched dataset is reported and followed by another question, unless it was aborted; then it
   is neither.
   */
  lemma FailureIsFollowedExactlyWhen(s: State, request: Request, abort: bool)
    requires Enabled(s, Settles(request, Rejected(abort, Handler([], Returns))))
    requires request.generation == s.generation && s.datasetId == Some(request.datasetId)
    ensures var t := Step(s, Settles(request, Rejected(abort, Handler([], Returns))));
      && t.inFlight == s.inFlight - {request} && !t.requestActive && t.datasetId == s.datasetId
      && t.controller == (if s.controller == Some(request.id) then None else s.controller)
      && (if abort
          then t.callbacks == s.callbacks && t.timer == s.timer
          else
            && t.callbacks == s.callbacks + [Callback(request.datasetId, request.generation)]
            && t.timer == Some(s.generation))
  {
    assert React(Called(s, request), []) == Called(s, request);
  }

  /** A request of an earlier generation settles without a trace, whatever its outcome. */
  lemma EarlierGenerationIsIgnored(s: State, request: Request, outcome: Outcome)
    requires Enabled(s, Settles(request, outcome)) && request.generation != s.generation
    ensures Step(s, Settles(request, outcome)) == s.(inFlight := s.inFlight - {request})
  {
  }

  /** A timer asks again, under a fresh abort controller, if nothing has stopped it and nothing is being asked. */
  lemma TimerAsksExactlyWhen(s: State)
    requires Enabled(s, TimerFires)
    ensures var t := Step(s, TimerFires);
      && t.timer.None? && t.generation == s.generation && t.callbacks == s.callbacks
      && (if s.timer.value == s.generation && s.datasetId.Some? && !s.requestActive
          then
            && t.requestActive && t.controller == Some(s.nextRequest) && t.nextRequest > s.nextRequest
            && t.inFlight == s.inFlight + {Request(s.nextRequest, s.generation, s.datasetId.value)}
          else t.inFlight == s.inFlight && t.requestActive == s.requestActive && t.controller == s.controller)
  {
  }

  /** Stopping drops the timer, the controller and the dataset, and makes everything under way an earlier generation. */
  lemma StopDropsAll(s: State)
    ensures var t := Step(s, Stop);
      && t.generation > s.generation && t.timer.None? && t.controller.None? && t.datasetId.None? && !t.requestActive
      && t.inFlight == s.inFlight && t.callbacks == s.callbacks
  {
  }
}
