/**
 The dataset poller of the client, as atomic steps: everything a method does up to its await is one step, and the
 continuation after the await is another. Calls, timers and late responses may come in any order.
 */
module Poller {
  import opened Outcomes

  // ---------------------------------------------------------------- datasets

  /** A dataset as the API reports it; statuses are upper case, empty when absent. */
  datatype Dataset = Dataset(id: string, status: string, preflight: string)

  predicate Terminal(status: string) {
    status in {"VALID", "INVALID", "FAILED"}
  }

  predicate Active(status: string) {
    status in {"VALIDATING", "QUEUED", "RUNNING"}
  }

  predicate NeedsDatasetPolling(dataset: Dataset) {
    && !Terminal(dataset.status) && !Terminal(dataset.preflight)
    && (Active(dataset.status) || Active(dataset.preflight))
  }

  // ---------------------------------------------------------------- state

  /** A request the API has not settled yet, with what its continuation captured. */
  datatype Request = Request(id: nat, generation: nat, datasetId: string)

  /** A call of onDataset or onError. */
  datatype Callback = Callback(datasetId: string, generation: nat)

  datatype State = State(
    timer: Option<nat>,          // the generation captured by the pending timer
    controller: Option<nat>,     // the request the current abort controller belongs to
    datasetId: Option<string>,
    generation: nat,
    requestActive: bool,
    inFlight: set<Request>,
    nextRequest: nat,
    watched: Option<string>,     // the argument of the last watch that started polling, if nothing stopped it since
    callbacks: seq<Callback>
  )

  const INITIAL := State(None, None, None, 0, false, {}, 0, None, [])

  /** What a handler may call on the poller while it runs, any number of times. */
  datatype Call = CallsStop | CallsWatch(dataset: Dataset)
  type Reaction = seq<Call>

  /** A handler returns or throws, an AbortError or another error. */
  datatype Ending = Returns | Throws(abort: bool)

  /** What a handler does and how it ends. */
  datatype Handler = Handler(reaction: Reaction, ending: Ending)

  datatype Outcome =
    | Resolved(dataset: Dataset, onDataset: Handler, onError: Handler)
    | Rejected(abort: bool, onError: Handler)

  datatype Action =
    | Watch(dataset: Dataset)
    | Stop
    | TimerFires
    | Settles(request: Request, outcome: Outcome)

  // ---------------------------------------------------------------- steps

  function StopStep(s: State): State {
    s.(generation := s.generation + 1, timer := None, controller := None, datasetId := None, requestActive := false,
       watched := None)
  }

  /** The part of poll before its await. */
  function PollStep(s: State, generation: nat): State {
    if generation != s.generation || s.datasetId.None? || s.requestActive then s
    else s.(requestActive := true, controller := Some(s.nextRequest), nextRequest := s.nextRequest + 1,
            inFlight := s.inFlight + {Request(s.nextRequest, generation, s.datasetId.value)})
  }

  function WatchStep(s: State, dataset: Dataset): State {
    var stopped := StopStep(s);
    if dataset.id == "" || !NeedsDatasetPolling(dataset) then stopped
    else PollStep(stopped.(datasetId := Some(dataset.id), watched := Some(dataset.id)), stopped.generation)
  }

  function TimerStep(s: State): State {
    match s.timer
    case None => s
    case Some(generation) => PollStep(s.(timer := None), generation)
  }

  function CallStep(s: State, call: Call): State {
    match call
    case CallsStop => StopStep(s)
    case CallsWatch(dataset) => WatchStep(s, dataset)
  }

  /** The calls of a handler, in order. */
  function React(s: State, reaction: Reaction): State {
    if reaction == [] then s else CallStep(React(s, reaction[..|reaction| - 1]), reaction[|reaction| - 1])
  }

  function Called(s: State, request: Request): State {
    s.(callbacks := s.callbacks + [Callback(request.datasetId, request.generation)])
  }

  /** The continuation's own view: is it still the current generation and dataset? */
  predicate Current(s: State, request: Request) {
    request.generation == s.generation && s.datasetId == Some(request.datasetId)
  }

  /** The finally block. */
  function FinallyStep(s: State, request: Request, continuePolling: bool): State {
    if request.generation != s.generation || (s.datasetId.Some? && s.datasetId.value != request.datasetId) then s
    else
      var released := s.(
        controller := if s.controller == Some(request.id) then None else s.controller, requestActive := false);
      if continuePolling && released.datasetId.Some? then released.(timer := Some(request.generation)) else released
  }

  /** The catch block, then the finally block. */
  function CatchStep(s: State, request: Request, abort: bool, onError: Handler): State {
    if !Current(s, request) || abort then FinallyStep(s, request, false)
    else
      var called := React(Called(s, request), onError.reaction);
      FinallyStep(called, request, !onError.ending.Throws?)
  }

  /** The continuation after the await. */
  function SettleStep(s: State, request: Request, outcome: Outcome): State {
    var arrived := s.(inFlight := s.inFlight - {request});
    match outcome
    case Rejected(abort, onError) => CatchStep(arrived, request, abort, onError)
    case Resolved(dataset, onDataset, onError) =>
      if !Current(arrived, request) then FinallyStep(arrived, request, false)
      else
        var called := React(Called(arrived, request), onDataset.reaction);
        if onDataset.ending.Throws? then CatchStep(called, request, onDataset.ending.abort, onError)
        else
          var continuePolling := NeedsDatasetPolling(dataset);
          FinallyStep(if continuePolling then called else called.(datasetId := None), request, continuePolling)
  }

  predicate Enabled(s: State, action: Action) {
    match action
    case Watch(_) => true
    case Stop => true
    case TimerFires => s.timer.Some?
    case Settles(request, _) => request in s.inFlight
  }

  function Step(s: State, action: Action): State {
    match action
    case Watch(dataset) => WatchStep(s, dataset)
    case Stop => StopStep(s)
    case TimerFires => TimerStep(s)
    case Settles(request, outcome) => SettleStep(s, request, outcome)
  }

  /** The state after a run from the freshly constructed poller; an action that is not enabled does not happen. */
  function After(actions: seq<Action>): State {
    if actions == [] then INITIAL
    else
      var before := After(actions[..|actions| - 1]);
      var action := actions[|actions| - 1];
      if Enabled(before, action) then Step(before, action) else before
  }

  // ---------------------------------------------------------------- the invariant

  /** The requests of the current generation. */
  ghost predicate InCurrentGeneration(s: State, r: Request) {
    r in s.inFlight && r.generation == s.generation
  }

  ghost predicate Invariant(s: State) {
    // Request ids are fresh, and no request is from the future.
    && (forall r :: r in s.inFlight ==> r.id < s.nextRequest && r.generation <= s.generation)
    // At most one request of the current generation is in flight; it is for the watched dataset and abortable.
    && (forall r, q :: InCurrentGeneration(s, r) && InCurrentGeneration(s, q) ==> r == q)
    && (forall r :: InCurrentGeneration(s, r) ==> s.watched == Some(r.datasetId) && s.controller == Some(r.id))
    // requestActive says exactly whether there is one.
    && (s.requestActive <==> exists r :: InCurrentGeneration(s, r))
    // A timer belongs to the current generation, has a dataset to poll, and never coexists with a request.
    && (s.timer.Some? ==> s.timer.value == s.generation && s.datasetId.Some? && !s.requestActive)
    // What is polled is what was last watched.
    && (s.datasetId.Some? ==> s.datasetId == s.watched)
  }

  lemma StopKeeps(s: State)
    requires Invariant(s)
    ensures Invariant(StopStep(s)) && StopStep(s).timer.None? && !StopStep(s).requestActive
  {
    var t := StopStep(s);
    forall r ensures !InCurrentGeneration(t, r) {
    }
  }

  lemma PollKeeps(s: State, generation: nat)
    requires Invariant(s) && s.timer.None?
    ensures Invariant(PollStep(s, generation)) && PollStep(s, generation).timer.None?
  {
    var t := PollStep(s, generation);
    if t != s {
      var r := Request(s.nextRequest, generation, s.datasetId.value);
      assert InCurrentGeneration(t, r);
      forall q | InCurrentGeneration(t, q) ensures q == r {
        if q != r {
          assert InCurrentGeneration(s, q);
        }
      }
    }
  }

  lemma WatchKeeps(s: State, dataset: Dataset)
    requires Invariant(s)
    ensures Invariant(WatchStep(s, dataset)) && WatchStep(s, dataset).timer.None?
  {
    StopKeeps(s);
    var stopped := StopStep(s);
    if dataset.id != "" && NeedsDatasetPolling(dataset) {
      hide NeedsDatasetPolling;
      var started := stopped.(datasetId := Some(dataset.id), watched := Some(dataset.id));
      assert forall r :: InCurrentGeneration(started, r) ==> InCurrentGeneration(stopped, r);
      PollKeeps(started, stopped.generation);
    }
  }

  // ---------------------------------------------------------------- the continuation

  function WithRequest(s: State, request: Request): State {
    s.(inFlight := s.inFlight + {request})
  }

  /** The invariant holds but for the request whose continuation is running. */
  ghost predicate Settling(s: State, request: Request) {
    request !in s.inFlight && Invariant(WithRequest(s, request))
  }

  lemma SettlingTimer(s: State, request: Request)
    requires Settling(s, request) && request.generation == s.generation
    ensures s.timer.None? && s.requestActive && s.watched == Some(request.datasetId)
  {
    assert InCurrentGeneration(WithRequest(s, request), request);
  }

  lemma CallKeeps(s: State, request: Request, call: Call)
    requires Settling(s, request)
    ensures Settling(CallStep(s, call), request)
    ensures s.timer.None? ==> CallStep(s, call).timer.None?
    ensures CallStep(s, call).generation >= s.generation
  {
    var t := WithRequest(s, request);
    assert request.id < t.nextRequest;
    match call
    case CallsStop => StopKeeps(t);
      assert StopStep(t) == WithRequest(StopStep(s), request);
    case CallsWatch(dataset) =>
      WatchKeeps(t, dataset);
      hide NeedsDatasetPolling;
      assert WatchStep(t, dataset) == WithRequest(WatchStep(s, dataset), request) by {
        assert forall r: Request :: s.inFlight + {request} + {r} == s.inFlight + {r} + {request};
      }
  }

  /** A handler may stop and restart the poller, any number of times, without breaking anything. */
  lemma {:induction false} ReactKeeps(s: State, request: Request, reaction: Reaction)
    requires Settling(s, request)
    ensures Settling(React(s, reaction), request)
    ensures s.timer.None? ==> React(s, reaction).timer.None?
    ensures React(s, reaction).generation >= s.generation
  {
    if reaction != [] {
      hide Settling, CallStep;
      ReactKeeps(s, request, reaction[..|reaction| - 1]);
      CallKeeps(React(s, reaction[..|reaction| - 1]), request, reaction[|reaction| - 1]);
    }
  }

  lemma FinallyKeeps(s: State, request: Request, continuePolling: bool)
    requires Settling(s, request)
    ensures Invariant(FinallyStep(s, request, continuePolling))
  {
    var t, final := WithRequest(s, request), FinallyStep(s, request, continuePolling);
    if request.generation == s.generation {
      SettlingTimer(s, request);
      assert InCurrentGeneration(t, request);
      forall r ensures !InCurrentGeneration(final, r) {
        if InCurrentGeneration(final, r) {
          assert InCurrentGeneration(t, r);
        }
      }
    } else {
      forall r ensures InCurrentGeneration(final, r) <==> InCurrentGeneration(t, r) {
      }
    }
  }

  lemma CatchKeeps(s: State, request: Request, abort: bool, onError: Handler)
    requires Settling(s, request)
    ensures Invariant(CatchStep(s, request, abort, onError))
  {
    if !Current(s, request) || abort {
      FinallyKeeps(s, request, false);
    } else {
      CalledKeeps(s, request);
      ReactKeeps(Called(s, request), request, onError.reaction);
      FinallyKeeps(React(Called(s, request), onError.reaction), request, !onError.ending.Throws?);
    }
  }

  lemma CalledKeeps(s: State, request: Request)
    requires Settling(s, request)
    ensures Settling(Called(s, request), request)
  {
    var t, u := WithRequest(s, request), WithRequest(Called(s, request), request);
    assert forall r :: InCurrentGeneration(u, r) <==> InCurrentGeneration(t, r);
  }

  lemma DroppedDatasetKeeps(s: State, request: Request)
    requires Settling(s, request) && s.timer.None?
    ensures Settling(s.(datasetId := None), request)
  {
    var t, u := WithRequest(s, request), WithRequest(s.(datasetId := None), request);
    assert forall r :: InCurrentGeneration(u, r) <==> InCurrentGeneration(t, r);
  }

  lemma SettleKeeps(s: State, request: Request, outcome: Outcome)
    requires Invariant(s) && request in s.inFlight
    ensures Invariant(SettleStep(s, request, outcome))
  {
    var arrived := s.(inFlight := s.inFlight - {request});
    assert WithRequest(arrived, request) == s;
    match outcome
    case Rejected(abort, onError) => CatchKeeps(arrived, request, abort, onError);
    case Resolved(dataset, onDataset, onError) =>
      if !Current(arrived, request) {
        FinallyKeeps(arrived, request, false);
      } else {
        SettlingTimer(arrived, request);
        CalledKeeps(arrived, request);
        ReactKeeps(Called(arrived, request), request, onDataset.reaction);
        var called := React(Called(arrived, request), onDataset.reaction);
        if onDataset.ending.Throws? {
          CatchKeeps(called, request, false, onError);
        } else {
          DroppedDatasetKeeps(called, request);
          var continuePolling := NeedsDatasetPolling(dataset);
          FinallyKeeps(if continuePolling then called else called.(datasetId := None), request, continuePolling);
        }
      }
  }

  lemma TimerKeeps(s: State)
    requires Invariant(s) && s.timer.Some?
    ensures Invariant(TimerStep(s))
  {
    var fired := s.(timer := None);
    assert forall r :: InCurrentGeneration(fired, r) <==> InCurrentGeneration(s, r);
    PollKeeps(fired, s.timer.value);
  }

  lemma StepKeeps(s: State, action: Action)
    requires Invariant(s) && Enabled(s, action)
    ensures Invariant(Step(s, action))
  {
    match action
    case Watch(dataset) => WatchKeeps(s, dataset);
    case Stop => StopKeeps(s);
    case TimerFires => TimerKeeps(s);
    case Settles(request, outcome) => SettleKeeps(s, request, outcome);
  }

  /** In every interleaving the invariant holds. */
  lemma {:induction false} EveryRunIsSafe(actions: seq<Action>)
    ensures Invariant(After(actions))
  {
    if actions != [] {
      hide Invariant, Step;
      EveryRunIsSafe(actions[..|actions| - 1]);
      var before := After(actions[..|actions| - 1]);
      if Enabled(before, actions[|actions| - 1]) {
        StepKeeps(before, actions[|actions| - 1]);
      }
    } else {
      InitialIsSafe();
    }
  }

  lemma InitialIsSafe()
    ensures Invariant(INITIAL)
  {
    assert forall r :: !InCurrentGeneration(INITIAL, r);
  }

  // ---------------------------------------------------------------- callbacks

  /** The new callbacks of a step. */
  ghost predicate CallbacksAreCurrent(s: State, t: State) {
    && s.callbacks <= t.callbacks
    && s.generation <= t.generation
    && forall k :: |s.callbacks| <= k < |t.callbacks| ==>
         t.callbacks[k].generation == s.generation && s.watched == Some(t.callbacks[k].datasetId)
  }

  /** A handler calls nobody back itself, and neither does the finally block. */
  lemma {:induction false} ReactIsQuiet(s: State, reaction: Reaction)
    ensures var t := React(s, reaction); t.callbacks == s.callbacks && t.generation >= s.generation
  {
    hide NeedsDatasetPolling;
    if reaction != [] {
      ReactIsQuiet(s, reaction[..|reaction| - 1]);
    }
  }

  lemma CatchCallsCurrent(s: State, request: Request, abort: bool, onError: Handler)
    ensures var t := CatchStep(s, request, abort, onError);
      && t.generation >= s.generation
      && t.callbacks == s.callbacks
           + (if Current(s, request) && !abort then [Callback(request.datasetId, request.generation)] else [])
  {
    hide React;
    ReactIsQuiet(Called(s, request), onError.reaction);
  }

  lemma SettleCallsCurrent(s: State, request: Request, outcome: Outcome)
    requires Invariant(s) && request in s.inFlight
    ensures CallbacksAreCurrent(s, SettleStep(s, request, outcome))
  {
    hide React, CatchStep, NeedsDatasetPolling;
    var arrived := s.(inFlight := s.inFlight - {request});
    if Current(arrived, request) {
      assert InCurrentGeneration(s, request);
      hide Invariant;
      if outcome.Rejected? {
        CatchCallsCurrent(arrived, request, outcome.abort, outcome.onError);
      } else {
        ReactIsQuiet(Called(arrived, request), outcome.onDataset.reaction);
        if outcome.onDataset.ending.Throws? {
          var called := React(Called(arrived, request), outcome.onDataset.reaction);
          CatchCallsCurrent(called, request, outcome.onDataset.ending.abort, outcome.onError);
        }
      }
    } else if outcome.Rejected? {
      CatchCallsCurrent(arrived, request, outcome.abort, outcome.onError);
    }
  }

  /** A step calls back only for the current generation and the dataset being watched when it starts. */
  lemma StepCallsCurrent(s: State, action: Action)
    requires Invariant(s) && Enabled(s, action)
    ensures CallbacksAreCurrent(s, Step(s, action))
  {
    hide NeedsDatasetPolling, SettleStep;
    if action.Settles? {
      SettleCallsCurrent(s, action.request, action.outcome);
    }
  }

  function AfterFrom(s: State, actions: seq<Action>): State {
    if actions == [] then s
    else
      var before := AfterFrom(s, actions[..|actions| - 1]);
      var action := actions[|actions| - 1];
      if Enabled(before, action) then Step(before, action) else before
  }

  /** Whatever happens later, no callback of an earlier generation fires any more. */
  lemma {:induction false} NoLateCallbacks(s: State, actions: seq<Action>)
    requires Invariant(s)
    ensures Invariant(AfterFrom(s, actions))
    ensures s.callbacks <= AfterFrom(s, actions).callbacks && s.generation <= AfterFrom(s, actions).generation
    ensures forall k :: |s.callbacks| <= k < |AfterFrom(s, actions).callbacks| ==>
      AfterFrom(s, actions).callbacks[k].generation >= s.generation
  {
    if actions != [] {
      hide Invariant, Step;
      NoLateCallbacks(s, actions[..|actions| - 1]);
      var before := AfterFrom(s, actions[..|actions| - 1]);
      if Enabled(before, actions[|actions| - 1]) {
        StepKeeps(before, actions[|actions| - 1]);
        StepCallsCurrent(before, actions[|actions| - 1]);
      }
    }
  }

  /** After a stop, nothing that was started before it is ever reported. */
  lemma StoppedIsSilent(s: State, actions: seq<Action>)
    requires Invariant(s)
    ensures var later := AfterFrom(StopStep(s), actions);
      forall k :: |s.callbacks| <= k < |later.callbacks| ==> later.callbacks[k].generation > s.generation
  {
    StopKeeps(s);
    NoLateCallbacks(StopStep(s), actions);
  }

  // ---------------------------------------------------------------- progress

  /** While a dataset is polled, a request or a timer is pending. */
  ghost predicate NeverStalls(s: State) {
    s.datasetId.Some? ==> s.requestActive || s.timer.Some?
  }

  /** A handler that throws and did not stop or restart the poller first. */
  predicate ThrowsInPlace(handler: Handler) {
    handler.ending.Throws? && handler.reaction == []
  }

  /** The outcomes of a current request after which nothing is scheduled although the dataset is still polled. */
  predicate Stalling(outcome: Outcome) {
    match outcome
    case Rejected(abort, onError) => abort || ThrowsInPlace(onError)
    case Resolved(_, onDataset, onError) =>
      ThrowsInPlace(onDataset) && (onDataset.ending.abort || ThrowsInPlace(onError))
  }

  predicate StallsAt(s: State, action: Action) {
    action.Settles? && Current(s, action.request) && Stalling(action.outcome)
  }

  /** A handler leaves a polled dataset with a request of its own, or leaves everything as it was. */
  lemma {:induction false} ReactProgresses(s: State, reaction: Reaction)
    ensures var t := React(s, reaction);
      if reaction == [] then t == s else t.generation > s.generation && NeverStalls(t)
  {
    hide NeedsDatasetPolling;
    if reaction != [] {
      ReactProgresses(s, reaction[..|reaction| - 1]);
    }
  }

  lemma FinallyProgresses(s: State, request: Request, continuePolling: bool)
    requires request.generation != s.generation ==> NeverStalls(s)
    requires request.generation == s.generation && s.datasetId.Some? ==>
      continuePolling && s.datasetId.value == request.datasetId
    ensures NeverStalls(FinallyStep(s, request, continuePolling))
  {
  }

  lemma CatchProgresses(s: State, request: Request, onError: Handler)
    requires request.generation != s.generation ==> NeverStalls(s)
    requires request.generation == s.generation ==> Current(s, request) && s.timer.None?
    requires request.generation <= s.generation
    ensures NeverStalls(CatchStep(s, request, false, onError)) <==> !(Current(s, request) && ThrowsInPlace(onError))
  {
    hide React;
    if Current(s, request) {
      var called := React(Called(s, request), onError.reaction);
      ReactProgresses(Called(s, request), onError.reaction);
      ReactMoves(Called(s, request), onError.reaction);
      if called == Called(s, request) {
        hide NeverStalls;
        FinallyStalls(called, request, !onError.ending.Throws?);
      } else {
        FinallyProgresses(called, request, !onError.ending.Throws?);
      }
    } else {
      FinallyProgresses(s, request, false);
    }
  }

  /** Only a handler that does nothing leaves the state alone. */
  lemma ReactMoves(s: State, reaction: Reaction)
    ensures React(s, reaction) == s <==> reaction == []
  {
    ReactProgresses(s, reaction);
    hide NeverStalls, CallStep;
  }

  /** The finally block of a current request reschedules, or stalls. */
  lemma FinallyStalls(s: State, request: Request, continuePolling: bool)
    requires Current(s, request) && s.timer.None?
    ensures NeverStalls(FinallyStep(s, request, continuePolling)) <==> continuePolling
  {
  }

  /** Settling a request stalls the poller exactly when it is the current one and its outcome is a stalling one. */
  lemma SettleStallsExactlyWhen(s: State, request: Request, outcome: Outcome)
    requires Invariant(s) && NeverStalls(s) && request in s.inFlight
    ensures NeverStalls(SettleStep(s, request, outcome)) <==> !(Current(s, request) && Stalling(outcome))
  {
    hide React, CatchStep, NeedsDatasetPolling;
    var arrived := s.(inFlight := s.inFlight - {request});
    CurrentRequestHoldsTimer(s, request);
    hide Invariant;
    if !Current(arrived, request) {
      FinallyProgresses(arrived, request, false);
      if outcome.Rejected? {
        LateCatch(arrived, request, outcome.abort, outcome.onError);
      }
    } else if outcome.Rejected? {
      if outcome.abort {
        LateCatch(arrived, request, true, outcome.onError);
        FinallyStalls(arrived, request, false);
      } else {
        CatchProgresses(arrived, request, outcome.onError);
      }
    } else {
      ResolvedStalls(arrived, request, outcome);
    }
  }

  lemma LateCatch(s: State, request: Request, abort: bool, onError: Handler)
    requires !Current(s, request) || abort
    ensures CatchStep(s, request, abort, onError) == FinallyStep(s, request, false)
  {
  }

  lemma CurrentRequestHoldsTimer(s: State, request: Request)
    requires Invariant(s) && request in s.inFlight
    ensures request.generation <= s.generation
    ensures request.generation == s.generation
      ==>
        && s.timer.None?
        && s.watched == Some(request.datasetId)
        && (s.datasetId.Some? ==> Current(s, request))
  {
    if request.generation == s.generation {
      assert InCurrentGeneration(s, request);
    }
  }

  lemma ResolvedStalls(arrived: State, request: Request, outcome: Outcome)
    requires outcome.Resolved? && Current(arrived, request) && arrived.timer.None?
    ensures var called := React(Called(arrived, request), outcome.onDataset.reaction);
      var continuePolling := NeedsDatasetPolling(outcome.dataset);
      NeverStalls(if outcome.onDataset.ending.Throws?
                  then CatchStep(called, request, outcome.onDataset.ending.abort, outcome.onError)
                  else FinallyStep(if continuePolling then called else called.(datasetId := None),
                                   request, continuePolling))
      <==> !Stalling(outcome)
  {
    hide React, CatchStep, NeedsDatasetPolling;
    var called := React(Called(arrived, request), outcome.onDataset.reaction);
    ReactProgresses(Called(arrived, request), outcome.onDataset.reaction);
    ReactMoves(Called(arrived, request), outcome.onDataset.reaction);
    if outcome.onDataset.ending.Throws? {
      if outcome.onDataset.ending.abort {
        LateCatch(called, request, true, outcome.onError);
      } else {
        CatchProgresses(called, request, outcome.onError);
      }
    }
  }

  lemma StepProgresses(s: State, action: Action)
    requires Invariant(s) && NeverStalls(s) && Enabled(s, action)
    ensures NeverStalls(Step(s, action)) <==> !StallsAt(s, action)
  {
    hide NeedsDatasetPolling, SettleStep;
    if action.Settles? {
      SettleStallsExactlyWhen(s, action.request, action.outcome);
    }
  }

  /** No step of the run stalls the poller. */
  predicate NothingStalls(actions: seq<Action>) {
    actions == []
    || (var before, action := After(actions[..|actions| - 1]), actions[|actions| - 1];
        NothingStalls(actions[..|actions| - 1]) && !(Enabled(before, action) && StallsAt(before, action)))
  }

  /** A polled dataset has a request or a timer pending after every prefix of the run. */
  ghost predicate AlwaysProgresses(actions: seq<Action>) {
    NeverStalls(After(actions)) && (actions == [] || AlwaysProgresses(actions[..|actions| - 1]))
  }

  /** In every run: a polled dataset has a request or a timer pending all along exactly when no step stalls it. */
  lemma {:induction false} EveryRunProgressesExactlyWhen(actions: seq<Action>)
    ensures AlwaysProgresses(actions) <==> NothingStalls(actions)
  {
    if actions != [] {
      hide Invariant, Step, NeverStalls, StallsAt, Enabled;
      var earlier := actions[..|actions| - 1];
      EveryRunProgressesExactlyWhen(earlier);
      EveryRunIsSafe(earlier);
      if NeverStalls(After(earlier)) && Enabled(After(earlier), actions[|actions| - 1]) {
        StepProgresses(After(earlier), actions[|actions| - 1]);
      }
      AlwaysMeansNow(earlier);
    } else {
      assert INITIAL.datasetId.None?;
    }
  }

  lemma AlwaysMeansNow(actions: seq<Action>)
    ensures AlwaysProgresses(actions) ==> NeverStalls(After(actions))
  {
  }

  /**
   A handler that ends up watching another dataset keeps that watch exactly when the dataset just delivered still
   needs polling: otherwise the old continuation clears the new dataset.
   */
  lemma ReentrantWatchSurvivesExactlyWhen(s: State, request: Request, delivered: Dataset, calls: Reaction,
                                          next: Dataset, onError: Handler)
    requires Invariant(s) && request in s.inFlight && Current(s, request)
    requires next.id != "" && NeedsDatasetPolling(next)
    ensures var t := SettleStep(s, request, Resolved(delivered, Handler(calls + [CallsWatch(next)], Returns), onError));
      t.datasetId == Some(next.id) <==> NeedsDatasetPolling(delivered)
  {
    var arrived := s.(inFlight := s.inFlight - {request});
    var earlier := React(Called(arrived, request), calls);
    assert (calls + [CallsWatch(next)])[..|calls|] == calls;
    assert React(Called(arrived, request), calls + [CallsWatch(next)]) == WatchStep(earlier, next);
    ReactIsQuiet(Called(arrived, request), calls);
    hide NeedsDatasetPolling, React;
  }

  // ---------------------------------------------------------------- the poller object

  /**
   The object itself. The last four fields stand for its surroundings: the API's unsettled requests and the calls
   of the handlers.
   */
  class DatasetPoller {
    var timer: Option<nat>
    var controller: Option<nat>
    var datasetId: Option<string>
    var generation: nat
    var requestActive: bool
    var inFlight: set<Request>
    var nextRequest: nat
    var callbacks: seq<Callback>
    ghost var watched: Option<string>

    ghost function View(): State
      reads this
    {
      State(timer, controller, datasetId, generation, requestActive, inFlight, nextRequest, watched, callbacks)
    }

    constructor ()
      ensures View() == INITIAL
    {
      timer, controller, datasetId, generation, requestActive := None, None, None, 0, false;
      inFlight, nextRequest, callbacks, watched := {}, 0, [], None;
    }

    method Stop()
      modifies this
      ensures View() == StopStep(old(View()))
    {
      generation := generation + 1;
      timer := None;
      controller := None;
      datasetId := None;
      requestActive := false;
      watched := None;
    }

    method Watch(dataset: Dataset)
      modifies this
      ensures View() == WatchStep(old(View()), dataset)
    {
      hide NeedsDatasetPolling;
      Stop();
      if dataset.id == "" || !NeedsDatasetPolling(dataset) {
        return;
      }
      datasetId := Some(dataset.id);
      watched := Some(dataset.id);
      Poll(generation);
    }

    /** Up to the await. */
    method Poll(forGeneration: nat)
      modifies this
      ensures View() == PollStep(old(View()), forGeneration)
    {
      if forGeneration != generation || datasetId.None? || requestActive {
        return;
      }
      requestActive := true;
      controller := Some(nextRequest);
      inFlight := inFlight + {Request(nextRequest, forGeneration, datasetId.value)};
      nextRequest := nextRequest + 1;
    }

    method Schedule(forGeneration: nat)
      modifies this
      ensures View() == if forGeneration != old(generation) || old(datasetId).None? then old(View())
                        else old(View()).(timer := Some(forGeneration))
    {
      if forGeneration != generation || datasetId.None? {
        return;
      }
      timer := Some(forGeneration);
    }

    method TimerFired()
      requires timer.Some?
      modifies this
      ensures View() == TimerStep(old(View()))
    {
      var captured := timer.value;
      timer := None;
      Poll(captured);
    }

    /** A handler is called and may call back into the poller, any number of times. */
    method Call(request: Request, reaction: Reaction)
      modifies this
      ensures View() == React(Called(old(View()), request), reaction)
    {
      hide StopStep, WatchStep;
      callbacks := callbacks + [Callback(request.datasetId, request.generation)];
      for i := 0 to |reaction|
        invariant View() == React(Called(old(View()), request), reaction[..i])
      {
        assert reaction[..i + 1][..i] == reaction[..i];
        match reaction[i]
        case CallsStop => Stop();
        case CallsWatch(dataset) => Watch(dataset);
      }
      assert reaction[..|reaction|] == reaction;
    }

    method Finally(request: Request, continuePolling: bool)
      modifies this
      ensures View() == FinallyStep(old(View()), request, continuePolling)
    {
      if request.generation != generation || (datasetId != Some(request.datasetId) && datasetId.Some?) {
        return;
      }
      if controller == Some(request.id) {
        controller := None;
      }
      requestActive := false;
      if continuePolling {
        Schedule(request.generation);
      }
    }

    method Catch(request: Request, abort: bool, onError: Handler)
      modifies this
      ensures View() == CatchStep(old(View()), request, abort, onError)
    {
      hide React;
      if request.generation != generation || datasetId != Some(request.datasetId) || abort {
        Finally(request, false);
        return;
      }
      Call(request, onError.reaction);
      Finally(request, !onError.ending.Throws?);
    }

    /** From the await on. */
    method RequestSettled(request: Request, outcome: Outcome)
      requires request in inFlight
      modifies this
      ensures View() == SettleStep(old(View()), request, outcome)
    {
      hide React, CatchStep, FinallyStep, NeedsDatasetPolling;
      inFlight := inFlight - {request};
      if outcome.Rejected? {
        Catch(request, outcome.abort, outcome.onError);
        return;
      }
      if request.generation != generation || datasetId != Some(request.datasetId) {
        Finally(request, false);
        return;
      }
      Call(request, outcome.onDataset.reaction);
      if outcome.onDataset.ending.Throws? {
        Catch(request, outcome.onDataset.ending.abort, outcome.onError);
        return;
      }
      var continuePolling := NeedsDatasetPolling(outcome.dataset);
      if !continuePolling {
        datasetId := None;
      }
      Finally(request, continuePolling);
    }
  }
}
