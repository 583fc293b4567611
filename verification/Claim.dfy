/**
 One claim of the Worker, from the claimed envelope to its end, as the interleaving of two threads: the one that runs
 the task and the one that renews its lease. A step is a repository call, a raise, or a thread event; the repository
 answers as it likes.
 */
module Claim {
  import opened Outcomes
  import opened Artifacts

  // ---------------------------------------------------------------- what happens

  /** How the repository answers a call that it may refuse. */
  datatype Answer = Accepted | Refused | Broken

  /** How it answers the question about cancellation. */
  datatype Reading = Reading(cancelRequested: bool, leaseValid: bool) | Unreadable

  /** The failures a task may end with; anything else includes repository and operating-system errors. */
  datatype Failure = Cancelled | LeaseLost | Reported | Unreported

  /** The calls that end a claim. */
  datatype Terminal = FailClaim | CommitPreflight | CommitSimulation(manifest: Bytes) | ConfirmCancel | FailJob

  /** What the log records, in order. */
  datatype Entry =
    | Asked | Renewed | Reports
    | Published(publication: Publication)
    | Ends(terminal: Terminal)
    | LeaseLossRaised

  datatype Job = Preflight | SimulationJob

  /** Where the task's thread is. A check is inside is_cancel_requested; a final one is the last before the commit. */
  datatype Phase =
    | Received                      // envelope claimed, not yet parsed
    | Rejecting                     // about to fail the claim
    | Starting                      // before the first question about cancellation
    | StartRenewing                 // before the first renewal
    | StartRefused                  // the first renewal was refused, before asking again
    | Working                       // numerical work, events and checks
    | FinalCheck                    // artifacts published, before the last check
    | CheckRenewing(final: bool)    // in a check, before an inline renewal
    | CheckRefused(final: bool)     // the inline renewal was refused, before asking again
    | Committing
    | StoppingToConfirm             // cancellation caught, before stopping the heartbeat
    | JoiningToConfirm
    | Confirming
    | Failing
    | Leaving                       // in the finally block, before stopping the heartbeat
    | JoiningToLeave
    | Ended

  /** Where the renewing thread is; a woken one renews even if it is told to stop meanwhile. */
  datatype Thread = NotStarted | Waiting | Woken | Dead

  datatype State = State(
    job: Job,
    phase: Phase,
    thread: Thread,
    stopRequested: bool,
    heartbeatFailure: Option<Failure>,
    heartbeatStopped: bool,
    raised: Option<Failure>,
    log: seq<Entry>
  )

  function Initial(job: Job): State {
    State(job, Received, NotStarted, false, None, false, None, [])
  }

  datatype Action =
    | Parses(ok: bool)
    | Rejects(answer: Answer)
    | Asks(reading: Reading, due: bool)
    | Renews(answer: Answer)
    | Emits(answer: Answer)
    | Publishes(publication: Publication)
    | WorkFails(failure: Failure)
    | Finishes
    | Commits(answer: Answer)
    | Stops
    | Joins
    | JoinTimesOut
    | Confirms(answer: Answer)
    | Fails(answer: Answer)
    | ThreadWakes
    | ThreadRenews(answer: Answer)
    | ThreadStops

  // ---------------------------------------------------------------- steps

  function Log(s: State, entry: Entry): State {
    s.(log := s.log + [entry])
  }

  /** Where a failure raised inside the task's try block leads. */
  function Raise(s: State, failure: Failure): State {
    match failure
    case Cancelled => s.(phase := StoppingToConfirm, raised := Some(Cancelled))
    case LeaseLost => Log(s, LeaseLossRaised).(phase := Leaving, raised := Some(LeaseLost))
    case Reported => s.(phase := Failing, raised := Some(Reported))
    case Unreported => s.(phase := Leaving, raised := Some(Unreported))
  }

  /** Where the end of a terminal call leads: out, with the failure it raises if it was not accepted. */
  function AfterTerminal(s: State, terminal: Terminal, answer: Answer, next: Phase): State {
    var called := Log(s, Ends(terminal));
    match answer
    case Accepted => called.(phase := next)
    case Refused => Log(called, LeaseLossRaised).(phase := next, raised := Some(LeaseLost))
    case Broken => called.(phase := next, raised := Some(Unreported))
  }

  function Passed(s: State, final: bool): State {
    s.(phase := if final then Committing else Working)
  }

  function AskStep(s: State, reading: Reading, due: bool): State {
    var asked := Log(s, Asked);
    if reading.Unreadable? then Raise(asked, Unreported)
    else
      match s.phase
      case Starting => asked.(phase := if reading.cancelRequested then Working else StartRenewing)
      case StartRefused => if reading.cancelRequested then asked.(phase := Working) else Raise(asked, LeaseLost)
      case CheckRefused(_) => Raise(asked, if reading.cancelRequested then Cancelled else LeaseLost)
      case _ =>
        if reading.cancelRequested then Raise(asked, Cancelled)
        else if !reading.leaseValid then Raise(asked, LeaseLost)
        else if s.heartbeatFailure.Some? then Raise(asked, s.heartbeatFailure.value)
        else if s.thread.NotStarted? && due then asked.(phase := CheckRenewing(s.phase.FinalCheck?))
        else Passed(asked, s.phase.FinalCheck?)
  }

  function RenewStep(s: State, answer: Answer): State {
    var renewed := Log(s, Renewed);
    match answer
    case Broken => Raise(renewed, Unreported)
    case Accepted =>
      if s.phase.StartRenewing? then renewed.(phase := Working, thread := Waiting)
      else if s.phase.CheckRenewing? then Passed(renewed, s.phase.final)
      else renewed
    case Refused =>
      if s.phase.StartRenewing? then renewed.(phase := StartRefused)
      else if s.phase.CheckRenewing? then renewed.(phase := CheckRefused(s.phase.final))
      else renewed
  }

  function EmitStep(s: State, answer: Answer): State {
    var emitted := Log(s, Reports);
    match answer
    case Accepted => emitted
    case Refused => Raise(emitted, LeaseLost)
    case Broken => Raise(emitted, Unreported)
  }

  /** The manifest named in the commit is the file the publication holds. */
  function CommitOf(s: State): Terminal {
    if s.job.Preflight? then CommitPreflight
    else CommitSimulation(PublishedManifest(s.log))
  }

  function PublishedManifest(log: seq<Entry>): Bytes {
    if log == [] then []
    else if log[|log| - 1].Published? then ManifestOf(log[|log| - 1].publication)
    else PublishedManifest(log[..|log| - 1])
  }

  /** The manifest file of a published directory. */
  function ManifestOf(publication: Publication): Bytes {
    if ArtifactManifest in publication.directory then publication.directory[ArtifactManifest] else []
  }

  function JoinStep(s: State): State {
    s.(phase := if s.phase.JoiningToConfirm? then Confirming else Ended, heartbeatStopped := true)
  }

  function TimeoutStep(s: State): State {
    var recorded := s.(
      heartbeatFailure := if s.heartbeatFailure.None? then Some(Unreported) else s.heartbeatFailure,
      raised := Some(Unreported));
    recorded.(phase := if s.phase.JoiningToConfirm? then Leaving else Ended)
  }

  /** Stopping happens once: a second request from the finally block finds it done. */
  function StopStep(s: State): State {
    if s.phase.StoppingToConfirm? then s.(stopRequested := true, phase := JoiningToConfirm)
    else if s.heartbeatStopped then s.(phase := Ended)
    else s.(stopRequested := true, phase := JoiningToLeave)
  }

  function ThreadRenewStep(s: State, answer: Answer): State {
    var renewed := Log(s, Renewed);
    if answer.Accepted? then renewed.(thread := Waiting)
    else
      var failure := if answer.Refused? then LeaseLost else Unreported;
      renewed.(thread := Dead, stopRequested := true,
               heartbeatFailure := if s.heartbeatFailure.None? then Some(failure) else s.heartbeatFailure)
  }

  predicate Alive(thread: Thread) {
    thread.Waiting? || thread.Woken?
  }

  predicate Joining(phase: Phase) {
    phase.JoiningToConfirm? || phase.JoiningToLeave?
  }

  ghost predicate Enabled(p: Platform, s: State, action: Action) {
    match action
    case Parses(_) => s.phase.Received?
    case Rejects(_) => s.phase.Rejecting?
    case Asks(_, _) => s.phase.Starting? || s.phase.StartRefused? || s.phase.Working? || s.phase.FinalCheck?
      || s.phase.CheckRefused?
    case Renews(_) => s.phase.StartRenewing? || s.phase.CheckRenewing?
    case Emits(_) => s.phase.Working?
    case Publishes(publication) => s.phase.Working? && s.job.SimulationJob? && IsPublication(p, publication)
    case WorkFails(failure) => s.phase.Working? && (failure.Reported? || failure.Unreported?)
    case Finishes => s.phase.Working? && s.job.Preflight?
    case Commits(_) => s.phase.Committing?
    case Stops => s.phase.StoppingToConfirm? || s.phase.Leaving?
    case Joins => Joining(s.phase) && !Alive(s.thread)
    case JoinTimesOut => Joining(s.phase) && Alive(s.thread)
    case Confirms(_) => s.phase.Confirming?
    case Fails(_) => s.phase.Failing?
    case ThreadWakes => s.thread.Waiting? && !s.stopRequested
    case ThreadRenews(_) => s.thread.Woken?
    case ThreadStops => s.thread.Waiting? && s.stopRequested
  }

  function Step(s: State, action: Action): State {
    match action
    case Parses(ok) => s.(phase := if ok then Starting else Rejecting)
    case Rejects(answer) => AfterTerminal(s, FailClaim, answer, Ended)
    case Asks(reading, due) => AskStep(s, reading, due)
    case Renews(answer) => RenewStep(s, answer)
    case Emits(answer) => EmitStep(s, answer)
    case Publishes(publication) => Log(s, Published(publication)).(phase := FinalCheck)
    case WorkFails(failure) => Raise(s, failure)
    case Finishes => s.(phase := Committing)
    case Commits(answer) => AfterTerminal(s, CommitOf(s), answer, Leaving)
    case Stops => StopStep(s)
    case Joins => JoinStep(s)
    case JoinTimesOut => TimeoutStep(s)
    case Confirms(answer) => AfterTerminal(s, ConfirmCancel, answer, Leaving)
    case Fails(answer) => AfterTerminal(s, FailJob, answer, Leaving)
    case ThreadWakes => s.(thread := Woken)
    case ThreadRenews(answer) => ThreadRenewStep(s, answer)
    case ThreadStops => s.(thread := Dead)
  }

  ghost function After(p: Platform, job: Job, actions: seq<Action>): State {
    if actions == [] then Initial(job)
    else
      var before := After(p, job, actions[..|actions| - 1]);
      var action := actions[|actions| - 1];
      if Enabled(p, before, action) then Step(before, action) else before
  }

  // ---------------------------------------------------------------- what the log may hold

  predicate IsTerminal(entry: Entry) {
    entry.Ends?
  }

  ghost predicate HasTerminal(log: seq<Entry>) {
    exists i :: 0 <= i < |log| && IsTerminal(log[i])
  }

  ghost predicate AtMostOneTerminal(log: seq<Entry>) {
    forall i, j :: 0 <= i < j < |log| && IsTerminal(log[i]) ==> !IsTerminal(log[j])
  }

  ghost predicate NothingAfterLeaseLoss(log: seq<Entry>) {
    forall i, j :: 0 <= i < j < |log| && log[i] == LeaseLossRaised ==> !IsTerminal(log[j])
  }

  ghost predicate NoRenewalAfterConfirm(log: seq<Entry>) {
    forall i, j :: 0 <= i < j < |log| && log[i] == Ends(ConfirmCancel) ==> log[j] != Renewed
  }

  /** The commit names the manifest of a publication made before it, and that publication is sound. */
  ghost predicate CommitFollows(p: Platform, log: seq<Entry>, i: nat, j: nat)
    requires i < |log| && j < |log|
  {
    && i < j
    && log[i].Published?
    && IsPublication(p, log[i].publication)
    && log[j] == Ends(CommitSimulation(ManifestOf(log[i].publication)))
  }

  ghost predicate CommitsFollowPublication(p: Platform, log: seq<Entry>) {
    forall j :: 0 <= j < |log| && log[j].Ends? && log[j].terminal.CommitSimulation?
      ==> exists i :: 0 <= i < |log| && CommitFollows(p, log, i, j)
  }

  ghost predicate Safe(p: Platform, log: seq<Entry>) {
    && AtMostOneTerminal(log)
    && NothingAfterLeaseLoss(log)
    && NoRenewalAfterConfirm(log)
    && CommitsFollowPublication(p, log)
  }

  /** The phases a terminal call or a lost lease leads to and never leaves for work again. */
  predicate IsOver(phase: Phase) {
    phase.Leaving? || phase.JoiningToLeave? || phase.Ended?
  }

  ghost predicate HasPublication(p: Platform, log: seq<Entry>) {
    exists i :: 0 <= i < |log| && log[i].Published? && IsPublication(p, log[i].publication)
      && PublishedManifest(log) == ManifestOf(log[i].publication)
  }

  ghost predicate Invariant(p: Platform, s: State) {
    && Safe(p, s.log)
    && (HasTerminal(s.log) || LeaseLossRaised in s.log ==> IsOver(s.phase))
    // The heartbeat is dead from the moment a cancellation may be confirmed.
    && (s.phase.Confirming? || Ends(ConfirmCancel) in s.log ==> !Alive(s.thread))
    // A simulation commits only what it has published.
    && (s.phase.FinalCheck? ==> s.job.SimulationJob?)
    && (s.job.SimulationJob? && (s.phase.FinalCheck? || s.phase.Committing?) ==> HasPublication(p, s.log))
    && ((s.phase.CheckRenewing? || s.phase.CheckRefused?) && s.phase.final ==>
         s.job.SimulationJob? && HasPublication(p, s.log))
    // A thread is started only once the first renewal has been accepted.
    && ((s.phase.Received? || s.phase.Rejecting? || s.phase.Starting? || s.phase.StartRenewing?
         || s.phase.StartRefused?) ==> s.thread.NotStarted?)
    && (s.heartbeatStopped ==> !Alive(s.thread) && (s.phase.Confirming? || IsOver(s.phase)))
    && (s.heartbeatFailure.Some? ==> s.heartbeatFailure.value.LeaseLost? || s.heartbeatFailure.value.Unreported?)
  }

  // ---------------------------------------------------------------- one more entry

  lemma TerminalsExtend(log: seq<Entry>, entry: Entry)
    ensures HasTerminal(log + [entry]) <==> HasTerminal(log) || IsTerminal(entry)
  {
    var longer := log + [entry];
    assert longer[|log|] == entry;
    assert forall i :: 0 <= i < |log| ==> longer[i] == log[i];
    if HasTerminal(longer) {
      var i :| 0 <= i < |longer| && IsTerminal(longer[i]);
      assert i < |log| ==> IsTerminal(log[i]);
    }
    if HasTerminal(log) {
      var i :| 0 <= i < |log| && IsTerminal(log[i]);
      assert IsTerminal(longer[i]);
    }
  }

  /** Anything but a terminal call may be recorded, and a renewal only while no cancellation has been confirmed. */
  lemma EntryKeeps(p: Platform, log: seq<Entry>, entry: Entry)
    requires Safe(p, log) && !IsTerminal(entry) && (entry == Renewed ==> Ends(ConfirmCancel) !in log)
    ensures Safe(p, log + [entry])
    ensures HasTerminal(log + [entry]) <==> HasTerminal(log)
    ensures HasPublication(p, log) && !entry.Published? ==> HasPublication(p, log + [entry])
  {
    hide CommitFollows, CommitsFollowPublication, HasPublication, IsPublication, HasTerminal;
    CommitsSurvive(p, log, entry);
    TerminalsExtend(log, entry);
    if HasPublication(p, log) && !entry.Published? {
      PublicationSurvives(p, log, entry);
    }
    var longer := log + [entry];
    assert forall i :: 0 <= i < |log| ==> longer[i] == log[i] && log[i] in log;
  }

  lemma CommitsSurvive(p: Platform, log: seq<Entry>, entry: Entry)
    requires CommitsFollowPublication(p, log) && !IsTerminal(entry)
    ensures CommitsFollowPublication(p, log + [entry])
  {
    var longer := log + [entry];
    forall j | 0 <= j < |longer| && longer[j].Ends? && longer[j].terminal.CommitSimulation?
      ensures exists i :: 0 <= i < |longer| && CommitFollows(p, longer, i, j)
    {
      assert longer[j] == log[j];
      hide IsPublication;
      var i :| 0 <= i < |log| && CommitFollows(p, log, i, j);
      assert longer[i] == log[i];
      assert CommitFollows(p, longer, i, j);
    }
  }

  lemma PublicationSurvives(p: Platform, log: seq<Entry>, entry: Entry)
    requires HasPublication(p, log) && !entry.Published?
    ensures HasPublication(p, log + [entry])
  {
    hide IsPublication, ManifestOf;
    var longer := log + [entry];
    assert longer[..|longer| - 1] == log;
    var i :| 0 <= i < |log| && log[i].Published? && IsPublication(p, log[i].publication)
      && PublishedManifest(log) == ManifestOf(log[i].publication);
    assert longer[i] == log[i];
  }

  lemma PublicationIsKnown(p: Platform, log: seq<Entry>, publication: Publication)
    requires IsPublication(p, publication)
    ensures HasPublication(p, log + [Published(publication)])
  {
    var longer := log + [Published(publication)];
    hide IsPublication, ManifestOf;
    assert longer[|log|] == Published(publication);
  }

  /** The first terminal call may be recorded as long as the lease has not been lost. */
  lemma TerminalKeeps(p: Platform, log: seq<Entry>, terminal: Terminal)
    requires Safe(p, log) && !HasTerminal(log) && LeaseLossRaised !in log
    requires terminal.CommitSimulation? ==> HasPublication(p, log) && terminal.manifest == PublishedManifest(log)
    ensures Safe(p, log + [Ends(terminal)])
  {
    TerminalOrder(log, terminal);
    hide HasTerminal, AtMostOneTerminal, NothingAfterLeaseLoss, NoRenewalAfterConfirm;
    FirstCommitFollows(p, log, terminal);
  }

  /**
   In a safe log a terminal call is safe exactly when none came before, the lease has not been lost, and a commit
   names the manifest of an earlier sound publication.
   */
  lemma TerminalSafeExactlyWhen(p: Platform, log: seq<Entry>, terminal: Terminal)
    requires Safe(p, log)
    ensures Safe(p, log + [Ends(terminal)])
      <==>
        && !HasTerminal(log)
        && LeaseLossRaised !in log
        && (terminal.CommitSimulation? ==> Names(p, log, terminal.manifest))
  {
    var longer := log + [Ends(terminal)];
    hide IsPublication, ManifestOf;
    assert longer[|log|] == Ends(terminal);
    assert forall i :: 0 <= i < |log| ==> longer[i] == log[i];
    if Safe(p, longer) {
      hide CommitFollows;
      NoEarlierTerminal(log, terminal);
      if terminal.CommitSimulation? {
        CommitNames(p, log, terminal.manifest);
      }
    } else if !HasTerminal(log) && LeaseLossRaised !in log {
      TerminalOrder(log, terminal);
      if terminal.CommitSimulation? && Names(p, log, terminal.manifest) {
        NamedCommitFollows(p, log, terminal);
      } else if !terminal.CommitSimulation? {
        FirstCommitFollows(p, log, terminal);
      }
    }
  }

  lemma NoEarlierTerminal(log: seq<Entry>, terminal: Terminal)
    requires AtMostOneTerminal(log + [Ends(terminal)])
    ensures !HasTerminal(log)
  {
    var longer := log + [Ends(terminal)];
    forall i | 0 <= i < |log| ensures !IsTerminal(log[i]) {
      assert longer[i] == log[i] && IsTerminal(longer[|log|]);
    }
  }

  /** Some sound publication in the log has this manifest. */
  ghost predicate Names(p: Platform, log: seq<Entry>, manifest: Bytes) {
    exists i :: 0 <= i < |log| && log[i].Published? && IsPublication(p, log[i].publication)
      && ManifestOf(log[i].publication) == manifest
  }

  lemma CommitNames(p: Platform, log: seq<Entry>, manifest: Bytes)
    requires CommitsFollowPublication(p, log + [Ends(CommitSimulation(manifest))])
    ensures Names(p, log, manifest)
  {
    hide IsPublication, ManifestOf;
    var longer, j := log + [Ends(CommitSimulation(manifest))], |log|;
    assert longer[j].Ends? && longer[j].terminal.CommitSimulation?;
    var i :| 0 <= i < |longer| && CommitFollows(p, longer, i, j);
    assert longer[i] == log[i];
  }

  lemma NamedCommitFollows(p: Platform, log: seq<Entry>, terminal: Terminal)
    requires CommitsFollowPublication(p, log) && terminal.CommitSimulation? && Names(p, log, terminal.manifest)
    ensures CommitsFollowPublication(p, log + [Ends(terminal)])
  {
    hide IsPublication, ManifestOf;
    var longer := log + [Ends(terminal)];
    forall j | 0 <= j < |longer| && longer[j].Ends? && longer[j].terminal.CommitSimulation?
      ensures exists i :: 0 <= i < |longer| && CommitFollows(p, longer, i, j)
    {
      if j < |log| {
        assert longer[j] == log[j];
        var i :| 0 <= i < |log| && CommitFollows(p, log, i, j);
        assert longer[i] == log[i];
        assert CommitFollows(p, longer, i, j);
      } else {
        var i :| 0 <= i < |log| && log[i].Published? && IsPublication(p, log[i].publication)
          && ManifestOf(log[i].publication) == terminal.manifest;
        assert longer[i] == log[i];
        assert CommitFollows(p, longer, i, j);
      }
    }
  }

  lemma TerminalOrder(log: seq<Entry>, terminal: Terminal)
    requires !HasTerminal(log) && LeaseLossRaised !in log
    ensures var longer := log + [Ends(terminal)];
      AtMostOneTerminal(longer) && NothingAfterLeaseLoss(longer) && NoRenewalAfterConfirm(longer)
  {
    var longer := log + [Ends(terminal)];
    assert forall i :: 0 <= i < |log| ==> longer[i] == log[i] && !IsTerminal(log[i]) && log[i] in log;
  }

  lemma FirstCommitFollows(p: Platform, log: seq<Entry>, terminal: Terminal)
    requires CommitsFollowPublication(p, log)
    requires terminal.CommitSimulation? ==> HasPublication(p, log) && terminal.manifest == PublishedManifest(log)
    ensures CommitsFollowPublication(p, log + [Ends(terminal)])
  {
    hide IsPublication, ManifestOf, PublishedManifest;
    var longer := log + [Ends(terminal)];
    forall j | 0 <= j < |longer| && longer[j].Ends? && longer[j].terminal.CommitSimulation?
      ensures exists i :: 0 <= i < |longer| && CommitFollows(p, longer, i, j)
    {
      if j < |log| {
        assert longer[j] == log[j];
        var i :| 0 <= i < |log| && CommitFollows(p, log, i, j);
        assert longer[i] == log[i];
        assert CommitFollows(p, longer, i, j);
      } else {
        var i :| 0 <= i < |log| && log[i].Published? && IsPublication(p, log[i].publication)
          && PublishedManifest(log) == ManifestOf(log[i].publication);
        assert longer[i] == log[i];
        assert CommitFollows(p, longer, i, j);
      }
    }
  }

  // ---------------------------------------------------------------- steps keep the invariant

  lemma RaiseKeeps(p: Platform, s: State, failure: Failure)
    requires Invariant(p, s) && !IsOver(s.phase) && !s.phase.Confirming?
    ensures Invariant(p, Raise(s, failure))
  {
    hide Safe, HasTerminal, HasPublication;
    EntryKeeps(p, s.log, LeaseLossRaised);
  }

  /** A quiet entry of a working thread that moves on to another working phase. */
  lemma RecordKeeps(p: Platform, s: State, entry: Entry)
    requires Invariant(p, s) && !IsTerminal(entry) && entry != LeaseLossRaised && !entry.Published?
    requires entry == Renewed ==> Ends(ConfirmCancel) !in s.log
    ensures Invariant(p, Log(s, entry))
  {
    hide Safe, HasTerminal, HasPublication;
    EntryKeeps(p, s.log, entry);
  }

  lemma AskKeeps(p: Platform, s: State, reading: Reading, due: bool)
    requires Invariant(p, s) && Enabled(p, s, Asks(reading, due))
    ensures Invariant(p, AskStep(s, reading, due))
  {
    hide Safe, HasTerminal, HasPublication, Raise;
    var asked := Log(s, Asked);
    RecordKeeps(p, s, Asked);
    RaiseKeeps(p, asked, Unreported);
    RaiseKeeps(p, asked, Cancelled);
    RaiseKeeps(p, asked, LeaseLost);
    if s.heartbeatFailure.Some? {
      RaiseKeeps(p, asked, s.heartbeatFailure.value);
    }
  }

  lemma RenewKeeps(p: Platform, s: State, answer: Answer)
    requires Invariant(p, s) && Enabled(p, s, Renews(answer))
    ensures Invariant(p, RenewStep(s, answer))
  {
    hide Safe, HasPublication, Raise;
    NoConfirmYet(s.log);
    hide HasTerminal;
    RecordKeeps(p, s, Renewed);
    RaiseKeeps(p, Log(s, Renewed), Unreported);
  }

  lemma NoConfirmYet(log: seq<Entry>)
    requires !HasTerminal(log)
    ensures Ends(ConfirmCancel) !in log
  {
    forall i | 0 <= i < |log| ensures log[i] != Ends(ConfirmCancel) {
      assert !IsTerminal(log[i]);
    }
  }

  lemma EmitKeeps(p: Platform, s: State, answer: Answer)
    requires Invariant(p, s) && s.phase.Working?
    ensures Invariant(p, EmitStep(s, answer))
  {
    hide Safe, HasTerminal, HasPublication, Raise;
    RecordKeeps(p, s, Reports);
    RaiseKeeps(p, Log(s, Reports), Unreported);
    RaiseKeeps(p, Log(s, Reports), LeaseLost);
  }

  lemma PublishKeeps(p: Platform, s: State, publication: Publication)
    requires Invariant(p, s) && Enabled(p, s, Publishes(publication))
    ensures Invariant(p, Step(s, Publishes(publication)))
  {
    hide Safe, HasTerminal, HasPublication, IsPublication;
    PublicationIsKnown(p, s.log, publication);
    EntryKeeps(p, s.log, Published(publication));
  }

  lemma EndKeeps(p: Platform, s: State, terminal: Terminal, answer: Answer, next: Phase)
    requires Invariant(p, s) && !IsOver(s.phase) && IsOver(next)
    requires terminal.CommitSimulation? ==> HasPublication(p, s.log) && terminal.manifest == PublishedManifest(s.log)
    requires terminal.ConfirmCancel? ==> !Alive(s.thread)
    requires s.phase.Rejecting? || !next.Ended?
    ensures Invariant(p, AfterTerminal(s, terminal, answer, next))
  {
    hide Safe, HasPublication, PublishedManifest;
    NoConfirmYet(s.log);
    TerminalKeeps(p, s.log, terminal);
    TerminalsExtend(s.log, Ends(terminal));
    hide HasTerminal;
    EntryKeeps(p, s.log + [Ends(terminal)], LeaseLossRaised);
  }

  lemma ThreadKeeps(p: Platform, s: State, action: Action)
    requires Invariant(p, s) && Enabled(p, s, action)
    requires action.ThreadWakes? || action.ThreadRenews? || action.ThreadStops?
    ensures Invariant(p, Step(s, action))
  {
    hide Safe, HasTerminal, HasPublication;
    if action.ThreadRenews? {
      RecordKeeps(p, s, Renewed);
    }
  }

  lemma HeartbeatKeeps(p: Platform, s: State, action: Action)
    requires Invariant(p, s) && Enabled(p, s, action)
    requires action.Stops? || action.Joins? || action.JoinTimesOut? || action.Parses? || action.Finishes?
    ensures Invariant(p, Step(s, action))
  {
    hide Safe, HasTerminal, HasPublication;
  }

  lemma StepKeeps(p: Platform, s: State, action: Action)
    requires Invariant(p, s) && Enabled(p, s, action)
    ensures Invariant(p, Step(s, action))
  {
    hide AskStep, RenewStep, EmitStep, StopStep, JoinStep, TimeoutStep, ThreadRenewStep, AfterTerminal, Raise, Safe,
      HasTerminal, HasPublication, IsPublication, PublishedManifest, IsOver;
    match action
    case Asks(reading, due) => AskKeeps(p, s, reading, due);
    case Renews(answer) => RenewKeeps(p, s, answer);
    case Emits(answer) => EmitKeeps(p, s, answer);
    case Publishes(publication) => PublishKeeps(p, s, publication);
    case WorkFails(failure) => WorkingIsNotOver(s); RaiseKeeps(p, s, failure);
    case Rejects(answer) => WorkingIsNotOver(s); EndKeeps(p, s, FailClaim, answer, Ended);
    case Commits(answer) => WorkingIsNotOver(s); EndKeeps(p, s, CommitOf(s), answer, Leaving);
    case Confirms(answer) => WorkingIsNotOver(s); EndKeeps(p, s, ConfirmCancel, answer, Leaving);
    case Fails(answer) => WorkingIsNotOver(s); EndKeeps(p, s, FailJob, answer, Leaving);
    case ThreadWakes => ThreadKeeps(p, s, action);
    case ThreadRenews(_) => ThreadKeeps(p, s, action);
    case ThreadStops => ThreadKeeps(p, s, action);
    case _ => HeartbeatKeeps(p, s, action);
  }

  lemma WorkingIsNotOver(s: State)
    ensures IsOver(Leaving) && IsOver(Ended)
    ensures (s.phase.Working? || s.phase.Rejecting? || s.phase.Committing? || s.phase.Confirming?
      || s.phase.Failing?) ==> !IsOver(s.phase)
  {
  }

  lemma InitialIsSafe(p: Platform, job: Job)
    ensures Invariant(p, Initial(job))
  {
  }

  // ---------------------------------------------------------------- over every run

  /**
   Over every run of one claim: at most one terminal call; none once a lost lease has been raised; no renewal once a
   cancellation is being confirmed; and a simulation is committed only after the publication, by one rename, of a
   directory that matches its manifest, the digest committed being that manifest's.
   */
  lemma {:induction false} EveryClaimIsSafe(p: Platform, job: Job, actions: seq<Action>)
    ensures Invariant(p, After(p, job, actions))
    ensures Safe(p, After(p, job, actions).log)
  {
    if actions != [] {
      hide Invariant, Step, Safe, Enabled;
      EveryClaimIsSafe(p, job, actions[..|actions| - 1]);
      var before := After(p, job, actions[..|actions| - 1]);
      if Enabled(p, before, actions[|actions| - 1]) {
        StepKeeps(p, before, actions[|actions| - 1]);
      }
      InvariantIsSafe(p, After(p, job, actions));
    } else {
      InitialIsSafe(p, job);
    }
  }

  lemma InvariantIsSafe(p: Platform, s: State)
    requires Invariant(p, s)
    ensures Safe(p, s.log)
  {
    hide Safe;
  }

  /** The Worker polls again only when the task ended without an error it does not know how to report. */
  predicate PollsAgain(s: State) {
    s.phase.Ended? && (s.raised.None? || s.raised.value.Cancelled? || s.raised.value.Reported?)
  }

  /** What an end implies: no thread is left, unless the claim ended with an unreported error. */
  predicate EndsQuietly(s: State) {
    && (s.phase.Ended? && !(s.raised == Some(Unreported)) ==> !Alive(s.thread))
    && (s.phase.Received? || s.phase.Rejecting? ==> s.thread.NotStarted?)
    && (s.heartbeatStopped ==> !Alive(s.thread))
  }

  /** What the invariant says about the heartbeat alone. */
  predicate HeartbeatFacts(s: State) {
    && (s.heartbeatStopped ==> s.phase.Confirming? || IsOver(s.phase))
    && (s.phase.StartRenewing? ==> s.thread.NotStarted?)
  }

  lemma InvariantGivesFacts(p: Platform, s: State)
    requires Invariant(p, s)
    ensures HeartbeatFacts(s)
  {
    hide Safe, HasTerminal, HasPublication;
  }

  lemma StepEndsQuietly(p: Platform, s: State, action: Action)
    requires HeartbeatFacts(s) && EndsQuietly(s) && Enabled(p, s, action)
    ensures EndsQuietly(Step(s, action))
  {
    hide IsPublication, AskStep, RenewStep, EmitStep, Raise, CommitOf;
    match action
    case Asks(reading, due) => AskMoves(s, reading, due);
    case Renews(answer) => RenewMoves(s, answer);
    case Emits(answer) => EmitMoves(s, answer);
    case WorkFails(failure) => RaiseMoves(s, failure);
    case _ =>
  }

  /** No failure of the task starts or stops its thread, or ends the claim at once. */
  lemma RaiseMoves(s: State, failure: Failure)
    ensures var t := Raise(s, failure);
      t.thread == s.thread && t.heartbeatStopped == s.heartbeatStopped && !t.phase.Ended? && !t.phase.Received?
        && !t.phase.Rejecting?
  {
  }

  lemma AskMoves(s: State, reading: Reading, due: bool)
    ensures var t := AskStep(s, reading, due);
      t.thread == s.thread && t.heartbeatStopped == s.heartbeatStopped && !t.phase.Ended? && !t.phase.Received?
        && !t.phase.Rejecting?
  {
    hide Raise;
    var asked := Log(s, Asked);
    RaiseMoves(asked, Unreported);
    RaiseMoves(asked, Cancelled);
    RaiseMoves(asked, LeaseLost);
    if s.heartbeatFailure.Some? {
      RaiseMoves(asked, s.heartbeatFailure.value);
    }
  }

  lemma EmitMoves(s: State, answer: Answer)
    requires s.phase.Working?
    ensures var t := EmitStep(s, answer);
      t.thread == s.thread && t.heartbeatStopped == s.heartbeatStopped && !t.phase.Ended? && !t.phase.Received?
        && !t.phase.Rejecting?
  {
  }

  lemma RenewMoves(s: State, answer: Answer)
    requires s.phase.StartRenewing? || s.phase.CheckRenewing?
    ensures var t := RenewStep(s, answer);
      && t.heartbeatStopped == s.heartbeatStopped && !t.phase.Ended? && !t.phase.Received? && !t.phase.Rejecting?
      && (t.thread != s.thread ==> s.phase.StartRenewing?)
  {
  }

  /** When the Worker is about to claim again, its previous heartbeat can renew nothing any more. */
  lemma {:induction false} NoHeartbeatOutlivesItsClaim(p: Platform, job: Job, actions: seq<Action>)
    ensures EndsQuietly(After(p, job, actions))
    ensures PollsAgain(After(p, job, actions)) ==> !Alive(After(p, job, actions).thread)
  {
    if actions != [] {
      hide Invariant, Step, Enabled;
      NoHeartbeatOutlivesItsClaim(p, job, actions[..|actions| - 1]);
      EveryClaimIsSafe(p, job, actions[..|actions| - 1]);
      var before := After(p, job, actions[..|actions| - 1]);
      InvariantGivesFacts(p, before);
      if Enabled(p, before, actions[|actions| - 1]) {
        StepEndsQuietly(p, before, actions[|actions| - 1]);
      }
    }
  }

  // ---------------------------------------------------------------- exactly one terminal call, exactly when

  /** What a check reads that stops the work without a cancellation: nothing, a lost lease, or a recorded failure. */
  predicate StopsWork(s: State, reading: Reading) {
    reading.Unreadable? || (!reading.cancelRequested && (!reading.leaseValid || s.heartbeatFailure.Some?))
  }

  /**
   The guards of the branches after which no terminal call is made any more: unreadable or lease-losing answers, an
   error that is no Worker failure, and a heartbeat that does not stop before a confirmation.
   */
  predicate Silences(s: State, action: Action) {
    match action
    case Asks(reading, _) =>
      if s.phase.Starting? then reading.Unreadable?
      else if s.phase.StartRefused? || s.phase.CheckRefused? then reading.Unreadable? || !reading.cancelRequested
      else StopsWork(s, reading)
    case Renews(answer) => answer.Broken?
    case Emits(answer) => !answer.Accepted?
    case WorkFails(failure) => failure.Unreported?
    case JoinTimesOut => s.phase.JoiningToConfirm?
    case _ => false
  }

  /** Some step of the run silences the claim. */
  ghost predicate Silenced(p: Platform, job: Job, actions: seq<Action>) {
    actions != []
    && (var before, action := After(p, job, actions[..|actions| - 1]), actions[|actions| - 1];
        Silenced(p, job, actions[..|actions| - 1]) || (Enabled(p, before, action) && Silences(before, action)))
  }

  /** Before the claim is over it has made no terminal call; once it is over, it has made one unless it was silenced. */
  ghost predicate Accounted(s: State, silenced: bool) {
    && (!IsOver(s.phase) ==> !HasTerminal(s.log) && !silenced)
    && (IsOver(s.phase) ==> (HasTerminal(s.log) <==> !silenced))
    && (silenced ==> s.raised.Some? && (s.raised.value.LeaseLost? || s.raised.value.Unreported?))
    && (s.heartbeatFailure.Some? ==> s.heartbeatFailure.value.LeaseLost? || s.heartbeatFailure.value.Unreported?)
  }

  lemma RaiseAccounts(s: State, failure: Failure)
    requires !IsOver(s.phase) && Accounted(s, false)
    ensures Accounted(Raise(s, failure), failure.LeaseLost? || failure.Unreported?)
  {
    hide HasTerminal;
    TerminalsExtend(s.log, LeaseLossRaised);
  }

  lemma LogAccounts(s: State, entry: Entry, silenced: bool)
    requires Accounted(s, silenced) && !IsTerminal(entry)
    ensures Accounted(Log(s, entry), silenced)
  {
    hide HasTerminal;
    TerminalsExtend(s.log, entry);
  }

  lemma TerminalAccounts(s: State, terminal: Terminal, answer: Answer, next: Phase)
    requires !IsOver(s.phase) && Accounted(s, false) && IsOver(next)
    ensures Accounted(AfterTerminal(s, terminal, answer, next), false)
  {
    hide HasTerminal;
    TerminalsExtend(s.log, Ends(terminal));
    TerminalsExtend(s.log + [Ends(terminal)], LeaseLossRaised);
  }

  lemma AskAccounts(s: State, reading: Reading, due: bool)
    requires Accounted(s, false)
    requires s.phase.Starting? || s.phase.StartRefused? || s.phase.Working? || s.phase.FinalCheck?
      || s.phase.CheckRefused?
    ensures Accounted(AskStep(s, reading, due), Silences(s, Asks(reading, due)))
  {
    hide HasTerminal, Raise;
    var asked := Log(s, Asked);
    LogAccounts(s, Asked, false);
    RaiseAccounts(asked, Unreported);
    RaiseAccounts(asked, Cancelled);
    RaiseAccounts(asked, LeaseLost);
    if s.heartbeatFailure.Some? {
      RaiseAccounts(asked, s.heartbeatFailure.value);
    }
  }

  lemma RenewAccounts(s: State, answer: Answer)
    requires Accounted(s, false) && (s.phase.StartRenewing? || s.phase.CheckRenewing?)
    ensures Accounted(RenewStep(s, answer), answer.Broken?)
  {
    hide HasTerminal, Raise;
    LogAccounts(s, Renewed, false);
    RaiseAccounts(Log(s, Renewed), Unreported);
  }

  lemma EmitAccounts(s: State, answer: Answer)
    requires Accounted(s, false) && s.phase.Working?
    ensures Accounted(EmitStep(s, answer), !answer.Accepted?)
  {
    hide HasTerminal, Raise;
    LogAccounts(s, Reports, false);
    RaiseAccounts(Log(s, Reports), Unreported);
    RaiseAccounts(Log(s, Reports), LeaseLost);
  }

  lemma ThreadAccounts(s: State, action: Action, silenced: bool)
    requires Accounted(s, silenced) && (action.ThreadWakes? || action.ThreadRenews? || action.ThreadStops?)
    ensures Accounted(Step(s, action), silenced)
  {
    hide HasTerminal;
    LogAccounts(s, Renewed, silenced);
  }

  lemma StepAccounts(p: Platform, s: State, action: Action, silenced: bool)
    requires Accounted(s, silenced) && Enabled(p, s, action)
    ensures Accounted(Step(s, action), silenced || Silences(s, action))
  {
    hide HasTerminal, Raise, AskStep, RenewStep, EmitStep, AfterTerminal, ThreadRenewStep, IsPublication, CommitOf;
    match action
    case Asks(reading, due) => AskAccounts(s, reading, due);
    case Renews(answer) => RenewAccounts(s, answer);
    case Emits(answer) => EmitAccounts(s, answer);
    case Publishes(publication) => LogAccounts(s, Published(publication), silenced);
    case WorkFails(failure) => RaiseAccounts(s, failure);
    case Rejects(answer) => TerminalAccounts(s, FailClaim, answer, Ended);
    case Commits(answer) => TerminalAccounts(s, CommitOf(s), answer, Leaving);
    case Confirms(answer) => TerminalAccounts(s, ConfirmCancel, answer, Leaving);
    case Fails(answer) => TerminalAccounts(s, FailJob, answer, Leaving);
    case ThreadWakes => ThreadAccounts(s, action, silenced);
    case ThreadRenews(_) => ThreadAccounts(s, action, silenced);
    case ThreadStops => ThreadAccounts(s, action, silenced);
    case _ =>
  }

  lemma {:induction false} EveryClaimIsAccounted(p: Platform, job: Job, actions: seq<Action>)
    ensures Accounted(After(p, job, actions), Silenced(p, job, actions))
  {
    if actions != [] {
      hide Step, Enabled, Accounted, Silences;
      EveryClaimIsAccounted(p, job, actions[..|actions| - 1]);
      var before := After(p, job, actions[..|actions| - 1]);
      if Enabled(p, before, actions[|actions| - 1]) {
        StepAccounts(p, before, actions[|actions| - 1], Silenced(p, job, actions[..|actions| - 1]));
      }
    }
  }

  /** A claim that has ended made exactly one terminal call if no step of its run silenced it, and none otherwise. */
  lemma ExactlyOneTerminalExactlyWhen(p: Platform, job: Job, actions: seq<Action>)
    requires After(p, job, actions).phase.Ended?
    ensures HasTerminal(After(p, job, actions).log) <==> !Silenced(p, job, actions)
    ensures AtMostOneTerminal(After(p, job, actions).log)
  {
    hide HasTerminal, AtMostOneTerminal, NothingAfterLeaseLoss, NoRenewalAfterConfirm, CommitsFollowPublication,
      Silenced, After, Invariant;
    EveryClaimIsAccounted(p, job, actions);
    EveryClaimIsSafe(p, job, actions);
  }

  /** Before the Worker claims again, exactly one terminal call has been made for the claim before. */
  lemma ExactlyOneBeforePollingAgain(p: Platform, job: Job, actions: seq<Action>)
    ensures PollsAgain(After(p, job, actions)) ==>
      HasTerminal(After(p, job, actions).log) && AtMostOneTerminal(After(p, job, actions).log)
  {
    hide HasTerminal, AtMostOneTerminal, NothingAfterLeaseLoss, NoRenewalAfterConfirm, CommitsFollowPublication,
      Silenced, After, Invariant;
    EveryClaimIsAccounted(p, job, actions);
    EveryClaimIsSafe(p, job, actions);
  }

  // ---------------------------------------------------------------- published and committed, exactly when

  ghost predicate HasPublished(log: seq<Entry>) {
    exists i :: 0 <= i < |log| && log[i].Published?
  }

  ghost predicate HasCommit(log: seq<Entry>) {
    exists i :: 0 <= i < |log| && log[i].Ends? && log[i].terminal.CommitSimulation?
  }

  lemma PublishedExtends(log: seq<Entry>, entry: Entry)
    ensures HasPublished(log + [entry]) <==> HasPublished(log) || entry.Published?
  {
    var longer := log + [entry];
    assert longer[|log|] == entry;
    assert forall i :: 0 <= i < |log| ==> longer[i] == log[i];
    if HasPublished(log) {
      var i :| 0 <= i < |log| && log[i].Published?;
      assert longer[i].Published?;
    }
  }

  lemma CommitExtends(log: seq<Entry>, entry: Entry)
    ensures HasCommit(log + [entry]) <==> HasCommit(log) || (entry.Ends? && entry.terminal.CommitSimulation?)
  {
    var longer := log + [entry];
    assert longer[|log|] == entry;
    assert forall i :: 0 <= i < |log| ==> longer[i] == log[i];
    if HasCommit(log) {
      var i :| 0 <= i < |log| && log[i].Ends? && log[i].terminal.CommitSimulation?;
      assert longer[i] == log[i];
    }
  }

  /** The guards of the final check that lead away from the commit. */
  predicate Diverts(s: State, action: Action) {
    || (action.Asks? && s.phase.FinalCheck? && (StopsWork(s, action.reading) || action.reading.cancelRequested))
    || (action.Renews? && s.phase == CheckRenewing(true) && !action.answer.Accepted?)
  }

  ghost predicate Diverted(p: Platform, job: Job, actions: seq<Action>) {
    actions != []
    && (var before, action := After(p, job, actions[..|actions| - 1]), actions[|actions| - 1];
        Diverted(p, job, actions[..|actions| - 1]) || (Enabled(p, before, action) && Diverts(before, action)))
  }

  /** Between the publication and the commit. */
  predicate OnTheWay(phase: Phase) {
    phase.FinalCheck? || phase == CheckRenewing(true) || phase.Committing?
  }

  /** Past the point where a commit can still follow. */
  predicate TurnedAway(phase: Phase) {
    phase == CheckRefused(true) || phase.StoppingToConfirm? || phase.JoiningToConfirm? || phase.Confirming?
      || phase.Failing?
    || IsOver(phase)
  }

  /** A simulation commits what it has published unless its final check is diverted. */
  ghost predicate Carried(s: State, diverted: bool) {
    && s.job.SimulationJob?
    && (OnTheWay(s.phase) ==> HasPublished(s.log) && !HasCommit(s.log) && !diverted)
    && (s.phase == CheckRefused(true) ==> diverted)
    && (!OnTheWay(s.phase) && !TurnedAway(s.phase) ==> !HasPublished(s.log) && !HasCommit(s.log) && !diverted)
    && (TurnedAway(s.phase) ==>
         (HasCommit(s.log) <==> HasPublished(s.log) && !diverted) && (diverted ==> HasPublished(s.log)))
  }

  lemma LogCarries(s: State, entry: Entry, diverted: bool)
    requires Carried(s, diverted) && !entry.Published? && !(entry.Ends? && entry.terminal.CommitSimulation?)
    ensures Carried(Log(s, entry), diverted)
  {
    hide HasPublished, HasCommit;
    PublishedExtends(s.log, entry);
    CommitExtends(s.log, entry);
  }

  /** Any failure of a claim on the way diverts it; before the publication there is nothing to divert. */
  lemma RaiseCarries(s: State, failure: Failure, diverted: bool)
    requires Carried(s, diverted) && !IsOver(s.phase) && !s.phase.Committing?
    ensures Carried(Raise(s, failure), diverted || OnTheWay(s.phase))
  {
    hide HasPublished, HasCommit;
    PublishedExtends(s.log, LeaseLossRaised);
    CommitExtends(s.log, LeaseLossRaised);
  }

  lemma AskCarries(s: State, reading: Reading, due: bool, diverted: bool)
    requires Carried(s, diverted)
    requires s.phase.Starting? || s.phase.StartRefused? || s.phase.Working? || s.phase.FinalCheck?
      || s.phase.CheckRefused?
    ensures Carried(AskStep(s, reading, due), diverted || Diverts(s, Asks(reading, due)))
  {
    hide HasPublished, HasCommit, Raise;
    var asked := Log(s, Asked);
    LogCarries(s, Asked, diverted);
    RaiseCarries(asked, Unreported, diverted);
    RaiseCarries(asked, Cancelled, diverted);
    RaiseCarries(asked, LeaseLost, diverted);
    if s.heartbeatFailure.Some? {
      RaiseCarries(asked, s.heartbeatFailure.value, diverted);
    }
  }

  lemma RenewCarries(s: State, answer: Answer, diverted: bool)
    requires Carried(s, diverted) && (s.phase.StartRenewing? || s.phase.CheckRenewing?)
    ensures Carried(RenewStep(s, answer), diverted || Diverts(s, Renews(answer)))
  {
    hide HasPublished, HasCommit, Raise;
    LogCarries(s, Renewed, diverted);
    RaiseCarries(Log(s, Renewed), Unreported, diverted);
  }

  lemma EmitCarries(s: State, answer: Answer, diverted: bool)
    requires Carried(s, diverted) && s.phase.Working?
    ensures Carried(EmitStep(s, answer), diverted)
  {
    hide HasPublished, HasCommit, Raise;
    LogCarries(s, Reports, diverted);
    RaiseCarries(Log(s, Reports), Unreported, diverted);
    RaiseCarries(Log(s, Reports), LeaseLost, diverted);
  }

  lemma CommitCarries(s: State, answer: Answer, diverted: bool)
    requires Carried(s, diverted) && s.phase.Committing?
    ensures Carried(AfterTerminal(s, CommitOf(s), answer, Leaving), diverted)
  {
    hide HasPublished, HasCommit, PublishedManifest;
    var entry := Ends(CommitOf(s));
    PublishedExtends(s.log, entry);
    CommitExtends(s.log, entry);
    PublishedExtends(s.log + [entry], LeaseLossRaised);
    CommitExtends(s.log + [entry], LeaseLossRaised);
  }

  lemma TerminalCarries(s: State, terminal: Terminal, answer: Answer, next: Phase, diverted: bool)
    requires Carried(s, diverted) && !terminal.CommitSimulation? && IsOver(next)
    requires s.phase.Rejecting? || s.phase.Confirming? || s.phase.Failing?
    ensures Carried(AfterTerminal(s, terminal, answer, next), diverted)
  {
    hide HasPublished, HasCommit;
    var entry := Ends(terminal);
    PublishedExtends(s.log, entry);
    CommitExtends(s.log, entry);
    PublishedExtends(s.log + [entry], LeaseLossRaised);
    CommitExtends(s.log + [entry], LeaseLossRaised);
  }

  lemma ThreadCarries(s: State, action: Action, diverted: bool)
    requires Carried(s, diverted) && (action.ThreadWakes? || action.ThreadRenews? || action.ThreadStops?)
    ensures Carried(Step(s, action), diverted)
  {
    hide HasPublished, HasCommit;
    LogCarries(s, Renewed, diverted);
  }

  lemma PublishCarries(s: State, publication: Publication, diverted: bool)
    requires Carried(s, diverted) && s.phase.Working?
    ensures Carried(Step(s, Publishes(publication)), diverted)
  {
    hide HasPublished, HasCommit;
    PublishedExtends(s.log, Published(publication));
    CommitExtends(s.log, Published(publication));
  }

  lemma StepCarries(p: Platform, s: State, action: Action, diverted: bool)
    requires Carried(s, diverted) && Enabled(p, s, action)
    ensures Carried(Step(s, action), diverted || Diverts(s, action))
  {
    hide HasPublished, HasCommit, Raise, AskStep, RenewStep, EmitStep, AfterTerminal, ThreadRenewStep, IsPublication,
      CommitOf;
    match action
    case Asks(reading, due) => AskCarries(s, reading, due, diverted);
    case Renews(answer) => RenewCarries(s, answer, diverted);
    case Emits(answer) => EmitCarries(s, answer, diverted);
    case Publishes(publication) => PublishCarries(s, publication, diverted);
    case WorkFails(failure) => RaiseCarries(s, failure, diverted);
    case Rejects(answer) => TerminalCarries(s, FailClaim, answer, Ended, diverted);
    case Commits(answer) => CommitCarries(s, answer, diverted);
    case Confirms(answer) => TerminalCarries(s, ConfirmCancel, answer, Leaving, diverted);
    case Fails(answer) => TerminalCarries(s, FailJob, answer, Leaving, diverted);
    case ThreadWakes => ThreadCarries(s, action, diverted);
    case ThreadRenews(_) => ThreadCarries(s, action, diverted);
    case ThreadStops => ThreadCarries(s, action, diverted);
    case _ =>
  }

  lemma {:induction false} EverySimulationIsCarried(p: Platform, actions: seq<Action>)
    ensures Carried(After(p, SimulationJob, actions), Diverted(p, SimulationJob, actions))
  {
    if actions != [] {
      hide Step, Enabled, Carried, Diverts;
      EverySimulationIsCarried(p, actions[..|actions| - 1]);
      var before := After(p, SimulationJob, actions[..|actions| - 1]);
      if Enabled(p, before, actions[|actions| - 1]) {
        StepCarries(p, before, actions[|actions| - 1], Diverted(p, SimulationJob, actions[..|actions| - 1]));
      }
    }
  }

  /** A claim that has ended and published commits exactly when no step diverted its final check. */
  lemma PublishedIsCommittedExactlyWhen(p: Platform, actions: seq<Action>)
    requires After(p, SimulationJob, actions).phase.Ended? && HasPublished(After(p, SimulationJob, actions).log)
    ensures HasCommit(After(p, SimulationJob, actions).log) <==> !Diverted(p, SimulationJob, actions)
  {
    hide HasPublished, HasCommit, Diverted, After;
    EverySimulationIsCarried(p, actions);
  }

  // ---------------------------------------------------------------- both failures, from the start

  /** Claimed, parsed, not cancelled, first renewal accepted. */
  const STARTED := [Parses(true), Asks(Reading(false, true), false), Renews(Accepted)]

  lemma AfterExtend(p: Platform, job: Job, actions: seq<Action>, action: Action)
    ensures var before := After(p, job, actions);
      After(p, job, actions + [action]) == if Enabled(p, before, action) then Step(before, action) else before
  {
    assert (actions + [action])[..|actions|] == actions;
  }

  lemma StartedIsWorking(p: Platform, job: Job)
    ensures After(p, job, STARTED) == Initial(job).(phase := Working, thread := Waiting, log := [Asked, Renewed])
  {
    var parsed, asked := [Parses(true)], [Parses(true), Asks(Reading(false, true), false)];
    assert After(p, job, []) == Initial(job);
    AfterExtend(p, job, [], Parses(true));
    assert [] + [Parses(true)] == parsed;
    AfterExtend(p, job, parsed, Asks(Reading(false, true), false));
    assert parsed + [Asks(Reading(false, true), false)] == asked;
    AfterExtend(p, job, asked, Renews(Accepted));
    assert asked + [Renews(Accepted)] == STARTED;
    hide After;
  }

  /** An error that is not a Worker failure ends a claim, any claim, without a terminal call. */
  lemma UnreportedEndsSilently(p: Platform, job: Job)
    ensures var final := After(p, job, STARTED + [WorkFails(Unreported)] + [Stops] + [ThreadStops] + [Joins]);
      final.phase.Ended? && final.log == [Asked, Renewed] && !HasTerminal(final.log)
  {
    StartedIsWorking(p, job);
    hide After, STARTED;
    var failed := STARTED + [WorkFails(Unreported)];
    AfterExtend(p, job, STARTED, WorkFails(Unreported));
    AfterExtend(p, job, failed, Stops);
    AfterExtend(p, job, failed + [Stops], ThreadStops);
    AfterExtend(p, job, failed + [Stops] + [ThreadStops], Joins);
  }

  /** Published, cancelled at the last check, confirmed: the directory stays published and is never committed. */
  lemma PublishedMayStayUncommitted(p: Platform, publication: Publication)
    requires IsPublication(p, publication)
    ensures var cancelled := STARTED + [Publishes(publication)] + [Asks(Reading(true, true), false)] + [Stops];
      var final := After(p, SimulationJob, cancelled + [ThreadStops] + [Joins] + [Confirms(Accepted)] + [Stops]);
      final.phase.Ended? && HasPublished(final.log) && !HasCommit(final.log)
  {
    StartedIsWorking(p, SimulationJob);
    hide After, STARTED, IsPublication;
    var published := STARTED + [Publishes(publication)];
    var seen := published + [Asks(Reading(true, true), false)];
    AfterExtend(p, SimulationJob, STARTED, Publishes(publication));
    AfterExtend(p, SimulationJob, published, Asks(Reading(true, true), false));
    AfterExtend(p, SimulationJob, seen, Stops);
    UncommittedFrom(p, seen + [Stops], publication);
  }

  lemma UncommittedFrom(p: Platform, actions: seq<Action>, publication: Publication)
    requires After(p, SimulationJob, actions)
          == Initial(SimulationJob).(phase := JoiningToConfirm, thread := Waiting, stopRequested := true,
            raised := Some(Cancelled),
                                     log := [Asked, Renewed, Published(publication), Asked])
    ensures var final := After(p, SimulationJob, actions + [ThreadStops] + [Joins] + [Confirms(Accepted)] + [Stops]);
      final.phase.Ended? && HasPublished(final.log) && !HasCommit(final.log)
  {
    hide After;
    var stopped := actions + [ThreadStops];
    AfterExtend(p, SimulationJob, actions, ThreadStops);
    AfterExtend(p, SimulationJob, stopped, Joins);
    AfterExtend(p, SimulationJob, stopped + [Joins], Confirms(Accepted));
    AfterExtend(p, SimulationJob, stopped + [Joins] + [Confirms(Accepted)], Stops);
    var final := After(p, SimulationJob, actions + [ThreadStops] + [Joins] + [Confirms(Accepted)] + [Stops]);
    assert final.log[2] == Published(publication);
  }

  // ---------------------------------------------------------------- the cancellation context

  /** How a check returns: nothing to do, cancellation seen, or a failure raised. */
  datatype CheckOutcome = Continues | SeesCancellation | RaisesFailure(failure: Failure)

  /** A whole check as the steps it is made of. */
  function CheckSteps(s: State, first: Reading, due: bool, renewal: Answer, second: Reading): State {
    var asked := AskStep(s, first, due);
    if !asked.phase.CheckRenewing? then asked
    else
      var renewed := RenewStep(asked, renewal);
      if renewed.phase.CheckRefused? then AskStep(renewed, second, due) else renewed
  }

  /** The start of the heartbeat as the steps it is made of. */
  function StartSteps(s: State, first: Reading, renewal: Answer, second: Reading): State {
    var asked := AskStep(s, first, false);
    if !asked.phase.StartRenewing? then asked
    else
      var renewed := RenewStep(asked, renewal);
      if renewed.phase.StartRefused? then AskStep(renewed, second, false) else renewed
  }

  /** The state of the task after the outcome of a check has been acted on. */
  predicate Follows(outcome: CheckOutcome, final: bool, before: State, after: State) {
    match outcome
    case Continues => after.phase == (if final then Committing else Working) && after.raised == before.raised
    case SeesCancellation => after.raised == Some(Cancelled) && after.phase == StoppingToConfirm
    case RaisesFailure(failure) =>
      && after.raised == Some(failure)
      && (failure.LeaseLost? || failure.Unreported? ==> after.phase == Leaving)
  }

  /** What a check returns, from the heartbeat's state and the repository's answers. */
  function CheckResult(thread: Thread, failure: Option<Failure>, first: Reading, due: bool, renewal: Answer,
                       second: Reading): CheckOutcome {
    if first.Unreadable? then RaisesFailure(Unreported)
    else if first.cancelRequested then SeesCancellation
    else if !first.leaseValid then RaisesFailure(LeaseLost)
    else if failure.Some? then RaisesFailure(failure.value)
    else if !(thread.NotStarted? && due) || renewal.Accepted? then Continues
    else if renewal.Broken? || second.Unreadable? then RaisesFailure(Unreported)
    else if second.cancelRequested then SeesCancellation
    else RaisesFailure(LeaseLost)
  }

  predicate SameHeartbeat(s: State, t: State) {
    t.thread == s.thread && t.stopRequested == s.stopRequested && t.heartbeatFailure == s.heartbeatFailure
  }

  lemma RaiseFollows(s: State, failure: Failure)
    ensures SameHeartbeat(s, Raise(s, failure)) && Raise(s, failure).raised == Some(failure)
    ensures failure.Cancelled? ==> Raise(s, failure).phase == StoppingToConfirm
    ensures failure.LeaseLost? || failure.Unreported? ==> Raise(s, failure).phase == Leaving
  {
  }

  lemma RefusedFollows(s: State, second: Reading, due: bool)
    requires s.phase.CheckRefused?
    ensures var t := AskStep(s, second, due);
      SameHeartbeat(s, t)
      && Follows(if second.Unreadable? then RaisesFailure(Unreported)
                 else if second.cancelRequested then SeesCancellation
                 else RaisesFailure(LeaseLost), s.phase.final, s, t)
  {
    hide Raise;
    var asked := Log(s, Asked);
    RaiseFollows(asked, Unreported);
    RaiseFollows(asked, Cancelled);
    RaiseFollows(asked, LeaseLost);
  }

  lemma RenewFollows(s: State, renewal: Answer, second: Reading, due: bool)
    requires s.phase.CheckRenewing?
    ensures var renewed := RenewStep(s, renewal);
      var t := if renewed.phase.CheckRefused? then AskStep(renewed, second, due) else renewed;
      SameHeartbeat(s, t)
      && Follows(if renewal.Accepted? then Continues
                 else if renewal.Broken? || second.Unreadable? then RaisesFailure(Unreported)
                 else if second.cancelRequested then SeesCancellation
                 else RaisesFailure(LeaseLost), s.phase.final, s, t)
  {
    hide Raise, AskStep;
    RaiseFollows(Log(s, Renewed), Unreported);
    if renewal.Refused? {
      RefusedFollows(RenewStep(s, renewal), second, due);
    }
  }

  lemma CheckFollows(s: State, first: Reading, due: bool, renewal: Answer, second: Reading)
    requires s.phase.Working? || s.phase.FinalCheck?
    requires s.heartbeatFailure.Some? ==> s.heartbeatFailure.value.LeaseLost? || s.heartbeatFailure.value.Unreported?
    ensures SameHeartbeat(s, CheckSteps(s, first, due, renewal, second))
    ensures Follows(CheckResult(s.thread, s.heartbeatFailure, first, due, renewal, second), s.phase.FinalCheck?, s,
                    CheckSteps(s, first, due, renewal, second))
  {
    hide Raise, RenewStep;
    var asked := Log(s, Asked);
    RaiseFollows(asked, Unreported);
    RaiseFollows(asked, Cancelled);
    RaiseFollows(asked, LeaseLost);
    if s.heartbeatFailure.Some? {
      RaiseFollows(asked, s.heartbeatFailure.value);
    }
    if AskStep(s, first, due).phase.CheckRenewing? {
      RenewFollows(AskStep(s, first, due), renewal, second, due);
    }
  }

  /** A final check, made in one piece, reaches the commit exactly when nothing it reads stands against it. */
  lemma FinalCheckCommitsExactlyWhen(s: State, first: Reading, due: bool, renewal: Answer, second: Reading)
    requires s.phase.FinalCheck?
    requires s.heartbeatFailure.Some? ==> s.heartbeatFailure.value.LeaseLost? || s.heartbeatFailure.value.Unreported?
    ensures CheckSteps(s, first, due, renewal, second).phase.Committing?
      <==>
        && first.Reading? && !first.cancelRequested && first.leaseValid
        && s.heartbeatFailure.None?
        && (!(s.thread.NotStarted? && due) || renewal.Accepted?)
  {
    CheckFollows(s, first, due, renewal, second);
    hide CheckSteps;
  }

  /** The context object: the renewing thread, its stop signal, and the first failure it recorded. */
  class PostgresCancellationContext {
    var thread: Thread
    var stopRequested: bool
    var failure: Option<Failure>

    /** The object holds the heartbeat part of the task's state. */
    ghost predicate Views(s: State)
      reads this
    {
      thread == s.thread && stopRequested == s.stopRequested && failure == s.heartbeatFailure
    }

    constructor ()
      ensures thread == NotStarted && !stopRequested && failure.None?
    {
      thread, stopRequested, failure := NotStarted, false, None;
    }

    method StartTaskHeartbeat(ghost s: State, first: Reading, renewal: Answer, second: Reading)
      returns (raised: Option<Failure>)
      requires Views(s) && s.phase.Starting? && thread.NotStarted?
      modifies this
      ensures Views(StartSteps(s, first, renewal, second))
      ensures raised.None? <==> StartSteps(s, first, renewal, second).phase.Working?
      ensures raised.Some? ==> StartSteps(s, first, renewal, second).raised == raised
      ensures Alive(thread) <==> first.Reading? && !first.cancelRequested && renewal.Accepted?
    {
      if first.Unreadable? {
        return Some(Unreported);
      }
      if first.cancelRequested {
        return None;
      }
      match renewal {
        case Broken => return Some(Unreported);
        case Refused =>
          if second.Unreadable? {
            return Some(Unreported);
          }
          return if second.cancelRequested then None else Some(LeaseLost);
        case Accepted =>
          thread := Waiting;
          return None;
      }
    }

    method IsCancelRequested(ghost s: State, first: Reading, due: bool, renewal: Answer, second: Reading)
      returns (outcome: CheckOutcome)
      requires Views(s) && (s.phase.Working? || s.phase.FinalCheck?)
      requires failure.Some? ==> failure.value.LeaseLost? || failure.value.Unreported?
      ensures Views(CheckSteps(s, first, due, renewal, second))
      ensures Follows(outcome, s.phase.FinalCheck?, s, CheckSteps(s, first, due, renewal, second))
      ensures outcome.SeesCancellation? ==>
        (first.Reading? && first.cancelRequested) || (second.Reading? && second.cancelRequested)
    {
      hide CheckSteps, Follows;
      CheckFollows(s, first, due, renewal, second);
      if first.Unreadable? {
        return RaisesFailure(Unreported);
      }
      if first.cancelRequested {
        return SeesCancellation;
      }
      if !first.leaseValid {
        return RaisesFailure(LeaseLost);
      }
      if failure.Some? {
        return RaisesFailure(failure.value);
      }
      if thread.NotStarted? && due {
        match renewal {
          case Broken => return RaisesFailure(Unreported);
          case Refused =>
            if second.Unreadable? {
              return RaisesFailure(Unreported);
            }
            return if second.cancelRequested then SeesCancellation else RaisesFailure(LeaseLost);
          case Accepted =>
        }
      }
      return Continues;
    }

    method RecordHeartbeatFailure(error: Failure)
      modifies this`failure
      ensures failure == if old(failure).None? then Some(error) else old(failure)
    {
      if failure.None? {
        failure := Some(error);
      }
    }

    /** One turn of the renewal loop, after its wait timed out. */
    method HeartbeatTurn(ghost s: State, answer: Answer)
      requires Views(s) && thread.Woken?
      modifies this
      ensures Views(ThreadRenewStep(s, answer))
    {
      if answer.Accepted? {
        thread := Waiting;
        return;
      }
      RecordHeartbeatFailure(if answer.Refused? then LeaseLost else Unreported);
      stopRequested := true;
      thread := Dead;
    }

    /** The join: either the thread is gone, or the stop itself fails. */
    method JoinTaskHeartbeat(ghost s: State) returns (stopped: bool)
      requires Views(s) && Joining(s.phase) && stopRequested
      modifies this`failure
      ensures stopped <==> !Alive(thread)
      ensures Views(if stopped then JoinStep(s) else TimeoutStep(s))
    {
      if !Alive(thread) {
        return true;
      }
      RecordHeartbeatFailure(Unreported);
      return false;
    }
  }
}
