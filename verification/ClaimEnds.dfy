/** Which call a claim ends with: each is made exactly when the run has done what it reports. */
module ClaimEnds {
  import opened Outcomes
  import opened Artifacts
  import opened Claim

  /** What a run has done so far that decides how its claim ends. */
  datatype Deeds = Deeds(rejected: bool, reported: bool, cancelled: bool, timedOut: bool, finished: bool)

  /** A check during or after the work reads that cancellation has been requested. */
  predicate ReadsCancellation(s: State, action: Action) {
    && action.Asks? && action.reading.Reading? && action.reading.cancelRequested
    && (s.phase.Working? || s.phase.FinalCheck? || s.phase.CheckRefused?)
  }

  function Noted(d: Deeds, s: State, action: Action): Deeds {
    Deeds(
      d.rejected || action == Parses(false),
      d.reported || action == WorkFails(Reported),
      d.cancelled || ReadsCancellation(s, action),
      d.timedOut || (action.JoinTimesOut? && s.phase.JoiningToConfirm?),
      d.finished || action.Finishes?)
  }

  ghost function Done(p: Platform, job: Job, actions: seq<Action>): Deeds {
    if actions == [] then Deeds(false, false, false, false, false)
    else
      var before, action := After(p, job, actions[..|actions| - 1]), actions[|actions| - 1];
      var done := Done(p, job, actions[..|actions| - 1]);
      if Enabled(p, before, action) then Noted(done, before, action) else done
  }

  predicate OnTheWayToConfirm(phase: Phase) {
    phase.StoppingToConfirm? || phase.JoiningToConfirm? || phase.Confirming?
  }

  predicate Made(log: seq<Entry>, terminal: Terminal) {
    Ends(terminal) in log
  }

  /** Every call made, and every call about to be made, is the one its deed asks for. */
  ghost predicate Explained(s: State, d: Deeds) {
    && (d.rejected <==> s.phase.Rejecting? || Made(s.log, FailClaim))
    && (d.reported <==> s.phase.Failing? || Made(s.log, FailJob))
    && (d.finished <==> (s.phase.Committing? && s.job.Preflight?) || Made(s.log, CommitPreflight))
    && (d.cancelled && !d.timedOut <==> OnTheWayToConfirm(s.phase) || Made(s.log, ConfirmCancel))
    && (d.timedOut ==> d.cancelled && IsOver(s.phase))
    && (forall terminal :: Made(s.log, terminal) ==> IsOver(s.phase))
    && (forall m :: Made(s.log, CommitSimulation(m)) ==> s.job.SimulationJob?)
    && (s.heartbeatFailure.Some? ==> s.heartbeatFailure.value.LeaseLost? || s.heartbeatFailure.value.Unreported?)
    && (IsFinal(s.phase) ==> s.job.SimulationJob?)
  }

  /** In the last check before the commit. */
  predicate IsFinal(phase: Phase) {
    phase.FinalCheck? || ((phase.CheckRenewing? || phase.CheckRefused?) && phase.final)
  }

  lemma MadeExtends(log: seq<Entry>, entry: Entry)
    ensures forall terminal :: Made(log + [entry], terminal) <==> Made(log, terminal) || entry == Ends(terminal)
  {
  }

  lemma StepExplains(p: Platform, s: State, action: Action, d: Deeds)
    requires Explained(s, d) && Enabled(p, s, action)
    ensures Explained(Step(s, action), Noted(d, s, action)) && Step(s, action).job == s.job
  {
    hide Made, IsPublication, CommitOf, AfterTerminal, Raise, AskStep, RenewStep, EmitStep, Explained;
    match action
    case Asks(_, _) => AskExplains(s, action, d);
    case Renews(_) => RenewExplains(s, action, d);
    case Emits(_) => EmitExplains(s, action, d);
    case Rejects(answer) => TerminalExplains(s, FailClaim, answer, Ended, d);
    case Commits(answer) => TerminalExplains(s, CommitOf(s), answer, Leaving, d);
    case Confirms(answer) => TerminalExplains(s, ConfirmCancel, answer, Leaving, d);
    case Fails(answer) => TerminalExplains(s, FailJob, answer, Leaving, d);
    case Publishes(publication) => PublishExplains(s, publication, d);
    case WorkFails(failure) => RaiseExplains(s, failure, d);
    case ThreadWakes => ThreadExplains(s, action, d);
    case ThreadRenews(_) => ThreadExplains(s, action, d);
    case ThreadStops => ThreadExplains(s, action, d);
    case _ => QuietExplains(p, s, action, d);
  }

  /** The call that the phase is about to make. */
  predicate Due(s: State, terminal: Terminal) {
    match s.phase
    case Rejecting => terminal == FailClaim
    case Failing => terminal == FailJob
    case Confirming => terminal == ConfirmCancel
    case Committing => terminal == CommitOf(s)
    case _ => false
  }

  lemma TerminalExplains(s: State, terminal: Terminal, answer: Answer, next: Phase, d: Deeds)
    requires Explained(s, d) && Due(s, terminal) && IsOver(next)
    ensures Explained(AfterTerminal(s, terminal, answer, next), d)
    ensures AfterTerminal(s, terminal, answer, next).job == s.job
  {
    MadeExtends(s.log, Ends(terminal));
    MadeExtends(s.log + [Ends(terminal)], LeaseLossRaised);
    hide Made, PublishedManifest;
  }

  lemma RaiseExplains(s: State, failure: Failure, d: Deeds)
    requires Explained(s, d) && !IsOver(s.phase) && !Decided(s.phase)
    ensures Explained(Raise(s, failure), d.(reported := d.reported || failure.Reported?,
                                            cancelled := d.cancelled || failure.Cancelled?))
    ensures Raise(s, failure).job == s.job
  {
    MadeExtends(s.log, LeaseLossRaised);
    hide Made;
  }

  /** The phases from which the terminal call is settled. */
  predicate Decided(phase: Phase) {
    phase.Rejecting? || phase.Failing? || phase.Committing? || OnTheWayToConfirm(phase)
  }

  lemma LogExplains(s: State, entry: Entry, d: Deeds)
    requires Explained(s, d) && !entry.Ends?
    ensures Explained(Log(s, entry), d)
  {
    MadeExtends(s.log, entry);
    hide Made;
  }

  lemma PublishExplains(s: State, publication: Publication, d: Deeds)
    requires Explained(s, d) && s.phase.Working? && s.job.SimulationJob?
    ensures Explained(Log(s, Published(publication)).(phase := FinalCheck), d)
  {
    MadeExtends(s.log, Published(publication));
    hide Made;
  }

  /** Moving between phases that settle nothing changes no deed. */
  lemma MoveExplains(s: State, phase: Phase, thread: Thread, d: Deeds)
    requires Explained(s, d) && !IsOver(s.phase) && !Decided(s.phase) && !IsOver(phase) && !Decided(phase)
    requires IsFinal(phase) ==> s.job.SimulationJob?
    ensures Explained(s.(phase := phase, thread := thread), d)
  {
    hide Made;
  }

  lemma PassExplains(s: State, final: bool, d: Deeds)
    requires Explained(s, d) && !IsOver(s.phase) && !Decided(s.phase) && (final ==> s.job.SimulationJob?)
    ensures Explained(Passed(s, final), d) && Passed(s, final).job == s.job
  {
    hide Made;
  }

  lemma FactsOf(s: State, d: Deeds)
    requires Explained(s, d)
    ensures s.heartbeatFailure.Some? ==> s.heartbeatFailure.value.LeaseLost? || s.heartbeatFailure.value.Unreported?
    ensures IsFinal(s.phase) ==> s.job.SimulationJob?
  {
    hide Made;
  }

  lemma AskExplains(s: State, action: Action, d: Deeds)
    requires Explained(s, d) && action.Asks?
    requires s.phase.Starting? || s.phase.StartRefused? || s.phase.Working? || s.phase.FinalCheck?
      || s.phase.CheckRefused?
    ensures Explained(AskStep(s, action.reading, action.due), Noted(d, s, action))
    ensures AskStep(s, action.reading, action.due).job == s.job
  {
    hide Explained, AskStep, Noted;
    if s.phase.Starting? || s.phase.StartRefused? {
      AskAtStartExplains(s, action, d);
    } else {
      AskInCheckExplains(s, action, d);
    }
  }

  lemma AskAtStartExplains(s: State, action: Action, d: Deeds)
    requires Explained(s, d) && action.Asks? && (s.phase.Starting? || s.phase.StartRefused?)
    ensures Explained(AskStep(s, action.reading, action.due), Noted(d, s, action))
    ensures AskStep(s, action.reading, action.due).job == s.job
  {
    hide Explained, Raise;
    var asked := Log(s, Asked);
    LogExplains(s, Asked, d);
    RaiseExplains(asked, Unreported, d);
    RaiseExplains(asked, LeaseLost, d);
    MoveExplains(asked, Working, s.thread, d);
    MoveExplains(asked, StartRenewing, s.thread, d);
  }

  lemma AskInCheckExplains(s: State, action: Action, d: Deeds)
    requires Explained(s, d) && action.Asks? && (s.phase.Working? || s.phase.FinalCheck? || s.phase.CheckRefused?)
    ensures Explained(AskStep(s, action.reading, action.due), Noted(d, s, action))
    ensures AskStep(s, action.reading, action.due).job == s.job
  {
    hide Explained, Raise, Passed;
    var asked := Log(s, Asked);
    assert Noted(d, s, action) == d.(cancelled := d.cancelled || ReadsCancellation(s, action));
    LogExplains(s, Asked, d);
    FactsOf(s, d);
    RaiseExplains(asked, Unreported, d);
    RaiseExplains(asked, LeaseLost, d);
    RaiseExplains(asked, Cancelled, d);
    PassExplains(asked, s.phase.FinalCheck?, d);
    MoveExplains(asked, CheckRenewing(s.phase.FinalCheck?), s.thread, d);
  }

  lemma RenewExplains(s: State, action: Action, d: Deeds)
    requires Explained(s, d) && action.Renews? && (s.phase.StartRenewing? || s.phase.CheckRenewing?)
    ensures Explained(RenewStep(s, action.answer), Noted(d, s, action))
    ensures RenewStep(s, action.answer).job == s.job
  {
    var renewed := Log(s, Renewed);
    LogExplains(s, Renewed, d);
    FactsOf(s, d);
    RaiseExplains(renewed, Unreported, d);
    if s.phase.StartRenewing? {
      MoveExplains(renewed, Working, Waiting, d);
      MoveExplains(renewed, StartRefused, s.thread, d);
    } else {
      PassExplains(renewed, s.phase.final, d);
      MoveExplains(renewed, CheckRefused(s.phase.final), s.thread, d);
    }
    hide Explained, Raise, Passed;
  }

  lemma EmitExplains(s: State, action: Action, d: Deeds)
    requires Explained(s, d) && action.Emits? && s.phase.Working?
    ensures Explained(EmitStep(s, action.answer), Noted(d, s, action)) && EmitStep(s, action.answer).job == s.job
  {
    var emitted := Log(s, Reports);
    LogExplains(s, Reports, d);
    RaiseExplains(emitted, Unreported, d);
    RaiseExplains(emitted, LeaseLost, d);
    hide Explained, Raise;
  }

  lemma ThreadExplains(s: State, action: Action, d: Deeds)
    requires Explained(s, d) && (action.ThreadWakes? || action.ThreadRenews? || action.ThreadStops?)
    ensures Explained(Step(s, action), Noted(d, s, action)) && Step(s, action).job == s.job
  {
    hide Explained, Made;
    LogExplains(s, Renewed, d);
    FactsOf(s, d);
    BesideExplains(if action.ThreadRenews? then Log(s, Renewed) else s, Step(s, action), d);
  }

  /** What the renewing thread changes settles nothing. */
  lemma BesideExplains(s: State, t: State, d: Deeds)
    requires Explained(s, d) && t.log == s.log && t.phase == s.phase && t.job == s.job
    requires t.heartbeatFailure.Some? ==> t.heartbeatFailure.value.LeaseLost? || t.heartbeatFailure.value.Unreported?
    ensures Explained(t, d)
  {
    hide Made;
  }

  /** The steps of the task that call nothing and raise nothing. */
  lemma QuietExplains(p: Platform, s: State, action: Action, d: Deeds)
    requires Explained(s, d) && Enabled(p, s, action)
    requires action.Parses? || action.Finishes? || action.Stops? || action.Joins? || action.JoinTimesOut?
    ensures Explained(Step(s, action), Noted(d, s, action)) && Step(s, action).job == s.job
  {
    hide Made, IsPublication, CommitOf, AfterTerminal, Raise, AskStep, RenewStep, EmitStep, ThreadRenewStep;
  }

  lemma {:induction false} EveryClaimIsExplained(p: Platform, job: Job, actions: seq<Action>)
    ensures Explained(After(p, job, actions), Done(p, job, actions)) && After(p, job, actions).job == job
  {
    if actions != [] {
      hide Step, Enabled, Explained, Noted;
      EveryClaimIsExplained(p, job, actions[..|actions| - 1]);
      var before := After(p, job, actions[..|actions| - 1]);
      if Enabled(p, before, actions[|actions| - 1]) {
        StepExplains(p, before, actions[|actions| - 1], Done(p, job, actions[..|actions| - 1]));
      }
    }
  }

  /**
   How an ended claim ended, over every interleaving: its envelope failed exactly when it was rejected; the job failed
   exactly when the work reported a failure; a preflight was committed exactly when it finished; a cancellation was
   confirmed exactly when a check read one and the heartbeat stopped in time; and only a simulation is committed as one.
   */
  lemma EndsExactlyAs(p: Platform, job: Job, actions: seq<Action>)
    requires After(p, job, actions).phase.Ended?
    ensures var log, done := After(p, job, actions).log, Done(p, job, actions);
      && (Made(log, FailClaim) <==> done.rejected)
      && (Made(log, FailJob) <==> done.reported)
      && (Made(log, CommitPreflight) <==> done.finished)
      && (Made(log, ConfirmCancel) <==> done.cancelled && !done.timedOut)
      && (forall m :: Made(log, CommitSimulation(m)) ==> job.SimulationJob?)
  {
    hide After, Done;
    EveryClaimIsExplained(p, job, actions);
  }

  /** Only a preflight finishes without publishing. */
  lemma {:induction false} OnlyPreflightsFinish(p: Platform, job: Job, actions: seq<Action>)
    ensures Done(p, job, actions).finished ==> job.Preflight?
  {
    if actions != [] {
      OnlyPreflightsFinish(p, job, actions[..|actions| - 1]);
      EveryClaimIsExplained(p, job, actions[..|actions| - 1]);
      hide Explained, Step, IsPublication;
    }
  }

  // ---------------------------------------------------------------- keeping the lease, and leaving

  predicate IsStopping(phase: Phase) {
    phase.JoiningToConfirm? || phase.Confirming? || IsOver(phase)
  }

  predicate IsEarly(phase: Phase) {
    phase.Received? || phase.Rejecting? || phase.Starting? || phase.StartRenewing? || phase.StartRefused?
  }

  /** The thread is told to stop only by the claim's own stopping, or by its own failed renewal. */
  ghost predicate StopHasCause(s: State) {
    && (s.stopRequested ==> s.thread.Dead? || IsStopping(s.phase))
    && (s.thread.Dead? && !IsStopping(s.phase) ==> s.heartbeatFailure.Some?)
    && (IsEarly(s.phase) ==> s.thread.NotStarted? && !s.stopRequested)
  }

  lemma StepHasCause(p: Platform, s: State, action: Action)
    requires StopHasCause(s) && Enabled(p, s, action)
    ensures StopHasCause(Step(s, action))
  {
    hide StopHasCause, IsPublication;
    if action.Asks? {
      AskHasCause(s, action);
    } else if action.Renews? || action.Emits? {
      CallHasCause(p, s, action);
    } else {
      OtherHasCause(p, s, action);
    }
  }

  lemma AskHasCause(s: State, action: Action)
    requires StopHasCause(s) && action.Asks?
    requires s.phase.Starting? || s.phase.StartRefused? || s.phase.Working? || s.phase.FinalCheck?
      || s.phase.CheckRefused?
    ensures StopHasCause(AskStep(s, action.reading, action.due))
  {
  }

  lemma CallHasCause(p: Platform, s: State, action: Action)
    requires StopHasCause(s) && Enabled(p, s, action) && (action.Renews? || action.Emits?)
    ensures StopHasCause(Step(s, action))
  {
    hide IsPublication, AskStep, AfterTerminal, ThreadRenewStep, StopStep, TimeoutStep;
  }

  lemma OtherHasCause(p: Platform, s: State, action: Action)
    requires StopHasCause(s) && Enabled(p, s, action) && !action.Asks? && !action.Renews? && !action.Emits?
    ensures StopHasCause(Step(s, action))
  {
    hide IsPublication, CommitOf, AskStep, RenewStep, EmitStep;
  }

  lemma {:induction false} EveryStopHasCause(p: Platform, job: Job, actions: seq<Action>)
    ensures StopHasCause(After(p, job, actions))
  {
    if actions != [] {
      hide Step, Enabled, StopHasCause;
      EveryStopHasCause(p, job, actions[..|actions| - 1]);
      var before := After(p, job, actions[..|actions| - 1]);
      if Enabled(p, before, actions[|actions| - 1]) {
        StepHasCause(p, before, actions[|actions| - 1]);
      }
    }
  }

  /**
   Until the claim itself stops its heartbeat, a started thread can always renew the lease again, unless a renewal has
   failed and the failure is recorded; and the thread is never told to stop.
   */
  lemma HeartbeatIsKeptUp(p: Platform, job: Job, actions: seq<Action>)
    ensures var s := After(p, job, actions);
      s.thread.NotStarted? || IsStopping(s.phase) || s.heartbeatFailure.Some?
      || (!Enabled(p, s, ThreadStops)
          && (Enabled(p, s, ThreadWakes) || forall answer :: Enabled(p, s, ThreadRenews(answer))))
  {
    EveryStopHasCause(p, job, actions);
    hide After;
  }

  predicate IsOfThread(action: Action) {
    action.ThreadWakes? || action.ThreadRenews? || action.ThreadStops?
  }

  /** How many steps of the task are left once its claim is over. */
  function StepsLeft(phase: Phase): (n: nat) {
    match phase
    case Leaving => 2
    case JoiningToLeave => 1
    case _ => 0
  }

  /**
   Leaving is orderly: a claim that is over takes at most two more steps and makes no more calls; it is over only
   through the finally block, which stops the heartbeat again where stopping it in time had failed, unless the
   envelope was rejected before there was one.
   */
  lemma LeavingIsOrderly(p: Platform, s: State, action: Action)
    requires Enabled(p, s, action)
    ensures var t := Step(s, action);
      && (IsOver(s.phase) && !IsOfThread(action) ==>
            IsOver(t.phase) && StepsLeft(t.phase) < StepsLeft(s.phase) && t.log == s.log)
      && (t.phase.Ended? && !s.phase.Ended? ==>
            s.phase.Rejecting? || s.phase.JoiningToLeave? || (s.phase.Leaving? && s.heartbeatStopped))
      && (action.JoinTimesOut? ==>
            t.heartbeatFailure.Some? && t.raised.Some? && t.heartbeatStopped == s.heartbeatStopped)
  {
    hide IsPublication, CommitOf;
  }

  // ---------------------------------------------------------------- the two threads

  /** The first failure of the heartbeat is kept, whatever happens after it. */
  lemma FirstFailureIsKept(p: Platform, s: State, action: Action)
    requires Enabled(p, s, action) && s.heartbeatFailure.Some?
    ensures Step(s, action).heartbeatFailure == s.heartbeatFailure
  {
    hide IsPublication, CommitOf;
  }

  /** What a renewal of the thread that is not accepted leaves behind. */
  predicate IsCause(failure: Failure, answer: Answer) {
    (answer.Refused? && failure == LeaseLost) || (answer.Broken? && failure == Unreported)
  }

  /** A renewal that is not accepted ends the thread and is recorded as what it was; an accepted one changes nothing. */
  lemma RenewalIsRecorded(p: Platform, s: State, answer: Answer)
    requires Enabled(p, s, ThreadRenews(answer))
    ensures var t := Step(s, ThreadRenews(answer));
      && t.log == s.log + [Renewed] && t.phase == s.phase && t.raised == s.raised
      && (answer.Accepted? ==> t.thread.Waiting? && t.stopRequested == s.stopRequested
                               && t.heartbeatFailure == s.heartbeatFailure)
      && (!answer.Accepted? ==> t.thread.Dead? && t.stopRequested && t.heartbeatFailure.Some?)
      && (!answer.Accepted? && s.heartbeatFailure.None? ==> IsCause(t.heartbeatFailure.value, answer))
  {
  }

  /**
   What ends the thread ends the work: while the task works, or checks before its commit, the next check that reads no
   cancellation and a valid lease raises the failure the renewal recorded, and the claim makes no terminal call for it.
   */
  lemma FailedRenewalEndsTheWork(p: Platform, s: State, answer: Answer, due: bool)
    requires Enabled(p, s, ThreadRenews(answer)) && !answer.Accepted? && s.heartbeatFailure.None?
    requires s.phase.Working? || s.phase.FinalCheck?
    ensures var t := Step(s, ThreadRenews(answer));
      && Enabled(p, t, Asks(Reading(false, true), due))
      && var u := Step(t, Asks(Reading(false, true), due));
         && u.phase == Leaving && u.raised.Some? && IsCause(u.raised.value, answer)
         && u.log == s.log + [Renewed, Asked] + (if answer.Refused? then [LeaseLossRaised] else [])
  {
  }
}
