/** A restart repairs every state a crash or a failed rollback can leave behind. */
module ControllerRecovery {
  import opened Text
  import opened Controller
  import opened ControllerSteps
  import opened ControllerSafety
  import ControllerOrder

  lemma {:induction false} RunJoin(env: Env, s: State, a: seq<Event>, b: seq<Event>)
    ensures Run(env, Run(env, s, a), b) == Run(env, s, a + b)
  {
    if b == [] {
      assert a + b == a;
    } else {
      var front := b[..|b| - 1];
      RunJoin(env, s, a, front);
      assert (a + b)[..|a + b| - 1] == a + front;
    }
  }

  /** The awaited call succeeds and the code after it runs. */
  const ROUND: seq<Event> := [Serve(true), Resume]

  lemma RoundIs(env: Env, s: State)
    ensures Run(env, s, ROUND) == Next(env, Next(env, s, Serve(true)), Resume)
  {
    var one := ROUND[..1];
    assert one == [Serve(true)] && one[..0] == [];
    assert Run(env, s, []) == s;
    assert Run(env, s, one) == Next(env, s, Serve(true));
  }

  function Rank(phase: Phase): nat {
    match phase
    case InitRead => 6
    case InitDigest(_) => 5
    case InitRules(_, _) => 4
    case InitReplace(_, _, _) => 3
    case InitRemove(_, _) => 2
    case InitStamp(_) => 1
    case _ => 0
  }

  /** A starting worker whose stored configuration is valid and fits the browser. */
  ghost predicate Starting(env: Env, s: State) {
    && s.worker.Some? && InitPhase(s.worker.value.phase) && s.worker.value.answer.None?
    && WorkerInv(env, s.outside, s.worker.value)
    && ValidConfig(Effective(s.outside.storage))
    && |env.desired(Effective(s.outside.storage))| <= env.maxRules
    && (s.worker.value.phase.InitStamp? ==> s.outside.storage.pending.None? && s.outside.storage.config.Some?)
  }

  ghost predicate Recovered(env: Env, s: State) {
    && s.worker.Some? && s.worker.value.phase == Idle && s.worker.value.activityReady && !s.worker.value.recovery
    && Trusted(env, s.outside.storage) && Agrees(env, s.outside)
    && s.worker.value.config == Effective(s.outside.storage)
  }

  /** The committed configuration is the same before and after. */
  ghost predicate SameConfig(s: State, t: State) {
    t.outside.storage.config == s.outside.storage.config
  }

  lemma ServedInit(env: Env, s: State)
    requires Starting(env, s)
    ensures var t := Next(env, s, Serve(true));
            && t.worker.Some? && t.worker.value.phase == s.worker.value.phase && t.worker.value.answer.Some?
            && t.worker.value.answer != Some(Failed)
            && WorkerInv(env, t.outside, t.worker.value) && SameConfig(s, t)
            && (s.worker.value.phase.InitRemove? || s.outside.storage.pending.None? ==> t.outside.storage.pending.None?)
            && (s.worker.value.phase.InitStamp? ==> t.outside.storage.stamp == Some(s.worker.value.phase.stamp))
            && (!s.worker.value.phase.InitReplace? && !s.worker.value.phase.InitRemove? && !s.worker.value.phase.InitStamp?
                ==> t.outside == s.outside)
            && (s.worker.value.phase.InitReplace? ==> t.outside.storage == s.outside.storage)
  {
    PerformKeepsInit(env, s.outside, s.worker.value);
  }

  lemma ResumedInit(env: Env, o: Outside, w: Worker)
    requires InitPhase(w.phase) && w.answer.Some? && w.answer != Some(Failed) && WorkerInv(env, o, w)
    requires ValidConfig(Effective(o.storage)) && |env.desired(Effective(o.storage))| <= env.maxRules
    requires w.phase.InitRemove? ==> o.storage.pending.None?
    requires w.phase.InitStamp? ==>
               o.storage.pending.None? && o.storage.config.Some? && o.storage.stamp == Some(w.phase.stamp)
    ensures var v := ResumeInit(env, w);
            && WorkerInv(env, o, v) && v.answer.None?
            && if InitPhase(v.phase) then
                 Rank(v.phase) < Rank(w.phase) && (v.phase.InitStamp? ==> o.storage.pending.None? && o.storage.config.Some?)
               else
                 v.phase == Idle && v.activityReady && !v.recovery && v.config == Effective(o.storage)
                 && Trusted(env, o.storage) && Agrees(env, o)
  {
    ResumeKeepsInit(env, o, w);
  }

  lemma InitRound(env: Env, s: State)
    requires Starting(env, s)
    ensures var t := Run(env, s, ROUND);
            SameConfig(s, t)
            && (Recovered(env, t) || (Starting(env, t) && Rank(t.worker.value.phase) < Rank(s.worker.value.phase)))
  {
    RoundIs(env, s);
    ServedInit(env, s);
    var t := Next(env, s, Serve(true));
    ResumedInit(env, t.outside, t.worker.value);
  }

  lemma {:induction false} InitFinishes(env: Env, s: State) returns (events: seq<Event>)
    requires Starting(env, s)
    ensures Recovered(env, Run(env, s, events)) && SameConfig(s, Run(env, s, events))
    decreases Rank(s.worker.value.phase)
  {
    InitRound(env, s);
    var t := Run(env, s, ROUND);
    if Recovered(env, t) {
      events := ROUND;
    } else {
      var more := InitFinishes(env, t);
      RunJoin(env, s, ROUND, more);
      events := ROUND + more;
    }
  }

  // Whatever is committed can be installed

  ghost predicate Fits(env: Env, c: Config) { ValidConfig(c) && |env.desired(c)| <= env.maxRules }

  /** A configuration whose rules are being or have been installed had few enough of them. */
  ghost predicate FitsNext(env: Env, phase: Phase) {
    phase.CommitRules? || phase.CommitReplace? || phase.CommitSave? ==> |env.desired(NextOf(phase).value)| <= env.maxRules
  }

  ghost predicate FitsInv(env: Env, s: State) {
    Fits(env, Effective(s.outside.storage))
    && (s.worker.Some? ==> ConfigInv(s.worker.value) && FitsNext(env, s.worker.value.phase))
  }

  lemma ResumeFits(env: Env, w: Worker)
    requires Awaiting(w.phase) && w.answer.Some? && FitsNext(env, w.phase)
    ensures FitsNext(env, ResumeWorker(env, w).phase)
  {
    if CommitPhase(w.phase) {
      CommitFits(env, w);
    } else if InitPhase(w.phase) {
      InitFits(env, w);
    } else {
      RollbackFits(w);
    }
  }

  lemma CommitFits(env: Env, w: Worker)
    requires CommitPhase(w.phase) && w.answer.Some? && FitsNext(env, w.phase)
    ensures FitsNext(env, ResumeCommit(env, w).phase)
  {
    if w.phase.CommitJournal? {
      JournalFits(env, w);
    } else if w.phase.CommitRules? || w.phase.CommitReplace? {
      InstallFits(env, w);
    } else {
      OtherFits(env, w);
    }
  }

  lemma JournalFits(env: Env, w: Worker)
    requires w.phase.CommitJournal? && w.answer.Some?
    ensures FitsNext(env, ResumeCommit(env, w).phase)
  {
  }

  lemma InstallFits(env: Env, w: Worker)
    requires (w.phase.CommitRules? || w.phase.CommitReplace?) && w.answer.Some? && FitsNext(env, w.phase)
    ensures FitsNext(env, ResumeCommit(env, w).phase)
  {
  }

  lemma OtherFits(env: Env, w: Worker)
    requires CommitPhase(w.phase) && w.answer.Some?
    requires !w.phase.CommitJournal? && !w.phase.CommitRules? && !w.phase.CommitReplace?
    ensures FitsNext(env, ResumeCommit(env, w).phase)
  {
  }

  lemma InitFits(env: Env, w: Worker)
    requires InitPhase(w.phase) && w.answer.Some?
    ensures FitsNext(env, ResumeInit(env, w).phase)
  {
  }

  lemma RollbackFits(w: Worker)
    requires RollbackPhase(w.phase) && w.answer.Some?
    ensures NextOf(ResumeRollback(w).phase).None?
  {
  }

  lemma ServeFits(env: Env, s: State, w: Worker, ok: bool)
    requires s.worker == Some(w) && FitsInv(env, s) && Awaiting(w.phase) && w.answer.None?
    ensures Fits(env, Effective(ServeCall(env, s, w, ok).outside.storage))
  {
    if ok && !w.phase.CommitSave? { ControllerOrder.CallKeepsConfig(env, s.outside, w); }
  }

  lemma StartFits(env: Env, w: Worker)
    requires w.queue != []
    ensures FitsNext(env, StartJob(w).phase)
  {
  }

  lemma StepFits(env: Env, s: State, w: Worker, e: Event)
    requires s.worker == Some(w) && FitsInv(env, s)
    ensures FitsInv(env, WorkerStep(env, s, w, e))
  {
    StepValid(env, s, w, e);
    match e {
      case Serve(ok) => if Awaiting(w.phase) && w.answer.None? { ServeFits(env, s, w, ok); }
      case Resume => if Awaiting(w.phase) && w.answer.Some? { ResumeFits(env, w); }
      case RunJob => if w.queue != [] { StartFits(env, w); }
      case Answered(reply) =>
      case _ => ControllerOrder.QueueStepKeepsJob(env, s, w, e);
    }
  }

  lemma {:induction false} RunFits(env: Env, s: State, events: seq<Event>)
    requires Startable(env, s) && Fits(env, Effective(s.outside.storage))
    ensures FitsInv(env, Run(env, s, events))
  {
    if events != [] {
      var front := events[..|events| - 1];
      RunFits(env, s, front);
      EmptyValid();
      var t := Run(env, s, front);
      if t.worker.Some? { StepFits(env, t, t.worker.value, events[|events| - 1]); }
    }
  }

  /** From any state a run can leave without a worker, a start in which the calls succeed ends with
      the committed configuration unchanged, trusted, and installed in the browser, provided that
      the configuration stored at the very beginning could be installed. */
  lemma RestartRecovers(env: Env, s: State, before: seq<Event>) returns (events: seq<Event>)
    requires Startable(env, s) && Run(env, s, before).worker.None?
    requires Fits(env, Effective(s.outside.storage))
    ensures var crashed, t := Run(env, s, before), Run(env, s, before + events);
            Recovered(env, t) && SameConfig(crashed, t)
  {
    RunKeeps(env, s, before);
    RunFits(env, s, before);
    var crashed := Run(env, s, before);
    var booted := Next(env, crashed, Boot);
    StepKeeps(env, crashed, Boot);
    assert [Boot][..0] == [];
    assert Run(env, crashed, []) == crashed;
    assert Run(env, crashed, [Boot]) == booted;
    var more := InitFinishes(env, booted);
    RunJoin(env, crashed, [Boot], more);
    events := [Boot] + more;
    RunJoin(env, s, before, events);
  }
}
