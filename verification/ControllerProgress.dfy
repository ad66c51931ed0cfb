/** Jobs get done: when the calls it makes succeed, the next job that comes to a commit is saved,
    installed and reported. */
module ControllerProgress {
  import opened Text
  import opened Controller
  import opened ControllerSteps
  import opened ControllerRecovery

  /** The awaited call succeeds and the code after it runs. */
  function Round(env: Env, s: State): State { Next(env, Next(env, s, Serve(true)), Resume) }

  function Rounds(env: Env, s: State, n: nat): State {
    if n == 0 then s else Round(env, Rounds(env, s, n - 1))
  }

  function RoundEvents(n: nat): seq<Event> { if n == 0 then [] else RoundEvents(n - 1) + ROUND }

  lemma {:induction false} RoundsRun(env: Env, s: State, n: nat)
    ensures Run(env, s, RoundEvents(n)) == Rounds(env, s, n)
  {
    if n > 0 {
      RoundsRun(env, s, n - 1);
      RunJoin(env, s, RoundEvents(n - 1), ROUND);
      RoundIs(env, Rounds(env, s, n - 1));
    }
  }

  /** What a commit on the way does not touch. */
  datatype Rest = Rest(ticket: Ticket, reply: Option<Reply>, queue: seq<Ticket>, told: seq<Ticket>)

  ghost predicate At(s: State, phase: Phase, rest: Rest) {
    && s.worker.Some? && s.told == rest.told
    && var w := s.worker.value;
       w.phase == phase && w.answer.None? && !w.recovery && w.current == Some(rest.ticket) && w.reply == rest.reply
       && w.queue == rest.queue
  }

  lemma SaveRound(env: Env, s: State, rest: Rest, next: Config, stamp: string)
    requires At(s, CommitSave(next, stamp), rest)
    ensures At(Round(env, s), CommitClear, rest) && Round(env, s).worker.value.config == next
    ensures Round(env, s).outside.active == s.outside.active
    ensures Round(env, s).outside.storage.config == Some(next) && Round(env, s).outside.storage.stamp == Some(stamp)
  {
  }

  lemma ClearRound(env: Env, s: State, rest: Rest)
    requires At(s, CommitClear, rest)
    ensures At(Round(env, s), CommitNotify, rest) && Round(env, s).worker.value.config == s.worker.value.config
    ensures Round(env, s).outside == s.outside.(storage := s.outside.storage.(pending := None))
  {
  }

  lemma NotifyRound(env: Env, s: State, rest: Rest)
    requires At(s, CommitNotify, rest)
    ensures Round(env, s).outside == s.outside && Told(Round(env, s), rest)
    ensures Round(env, s).worker.value.config == s.worker.value.config
  {
  }

  /** The job is over and its caller knows. */
  ghost predicate Told(s: State, rest: Rest) {
    && s.told == rest.told + [rest.ticket] && s.worker.Some?
    && var w := s.worker.value; w.phase.Idle? && w.activityReady && !w.recovery && w.answer.None? && w.queue == rest.queue
  }

  /** The configuration is committed: stored, trusted, held by the worker, and installed. */
  ghost predicate Committed(env: Env, s: State, next: Config) {
    && s.outside.storage == Storage(Some(next), None, Some(env.stamp(next))) && s.outside.active == env.desired(next)
    && s.worker.Some? && s.worker.value.config == next
  }

  lemma CommitRuns(env: Env, s: State, rest: Rest, next: Config)
    requires At(s, CommitDigest(next), rest) && |env.desired(next)| <= env.maxRules
    ensures Told(Rounds(env, s, 7), rest) && Committed(env, Rounds(env, s, 7), next)
  {
    Prepared(env, s, rest, next, 4);
    SaveRuns(env, Rounds(env, s, 4), rest, next);
    ThreeMore(env, s, 4);
  }

  lemma ThreeMore(env: Env, s: State, n: nat)
    ensures Rounds(env, s, n + 3) == Round(env, Round(env, Round(env, Rounds(env, s, n))))
  {
    assert Rounds(env, s, n + 2) == Round(env, Rounds(env, s, n + 1));
  }

  lemma SaveRuns(env: Env, d: State, rest: Rest, next: Config)
    requires At(d, CommitSave(next, env.stamp(next)), rest) && d.outside.active == env.desired(next)
    ensures var t := Round(env, Round(env, Round(env, d))); Told(t, rest) && Committed(env, t, next)
  {
    SaveRound(env, d, rest, next, env.stamp(next));
    ClearRound(env, Round(env, d), rest);
    NotifyRound(env, Round(env, Round(env, d)), rest);
  }

  /** A worker between two jobs, with a next one. */
  ghost predicate Waiting(s: State) {
    && s.worker.Some?
    && var w := s.worker.value; w.phase.Idle? && !w.recovery && w.answer.None? && w.queue != []
  }

  function GenerationFor(w: Worker, job: Job): nat { if job.RemoveSubscriptions? then w.generation + 1 else w.generation }

  lemma JobStarts(env: Env, s: State)
    requires Waiting(s)
    ensures var w, t := s.worker.value, Next(env, s, RunJob);
            var ticket := w.queue[0];
            var plan := PlanJob(ticket.job, w.config, GenerationFor(w, ticket.job));
            && t.outside == s.outside
            && (plan.Commit? ==> At(t, CommitDigest(plan.next), Rest(ticket, None, w.queue[1..], s.told)))
            && (plan.AskCompanion? ==> At(t, Compiling, Rest(ticket, None, w.queue[1..], s.told)) && t.worker.value.config == w.config)
  {
  }

  lemma ReplyArrives(env: Env, s: State, rest: Rest, reply: Option<Reply>)
    requires At(s, Compiling, rest)
    ensures var plan, t := AfterReply(rest.ticket.job, s.worker.value.config, reply), Next(env, s, Answered(reply));
            plan.Commit? ==> At(t, CommitDigest(plan.next), rest.(reply := reply))
  {
  }

  lemma RunSteps(env: Env, s: State, e: Event, n: nat)
    ensures Run(env, s, [e] + RoundEvents(n)) == Rounds(env, Next(env, s, e), n)
  {
    assert [e][..0] == [] && Run(env, s, []) == s;
    assert Run(env, s, [e]) == Next(env, s, e);
    RunJoin(env, s, [e], RoundEvents(n));
    RoundsRun(env, Next(env, s, e), n);
  }

  /** What the next job comes to on the worker's configuration, given the companion's answer. */
  function NextPlan(w: Worker, reply: Option<Reply>): Plan
    requires w.queue != []
  {
    match PlanJob(w.queue[0].job, w.config, GenerationFor(w, w.queue[0].job))
    case AskCompanion => AfterReply(w.queue[0].job, w.config, reply)
    case plan => plan
  }

  /** From any state between two jobs, if the next one comes to a commit that fits the browser and its
      calls succeed, it ends with its configuration stored without a journal and under its stamp, held
      by the worker and installed, and with its caller told. */
  lemma JobCompletes(env: Env, s: State, reply: Option<Reply>) returns (events: seq<Event>)
    requires Waiting(s) && NextPlan(s.worker.value, reply).Commit?
    requires |env.desired(NextPlan(s.worker.value, reply).next)| <= env.maxRules
    ensures var t := Run(env, s, events);
            && Committed(env, t, NextPlan(s.worker.value, reply).next)
            && t.told == s.told + [s.worker.value.queue[0]]
            && t.worker.value.phase.Idle? && t.worker.value.activityReady && !t.worker.value.recovery
            && t.worker.value.queue == s.worker.value.queue[1..]
  {
    var w := s.worker.value;
    var ticket := w.queue[0];
    var plan := PlanJob(ticket.job, w.config, GenerationFor(w, ticket.job));
    var started := Next(env, s, RunJob);
    var rest := Rest(ticket, None, w.queue[1..], s.told);
    JobStarts(env, s);
    if plan.Commit? {
      CommitRuns(env, started, rest, plan.next);
      RunSteps(env, s, RunJob, 7);
      events := [RunJob] + RoundEvents(7);
    } else {
      ReplyArrives(env, started, rest, reply);
      CommitRuns(env, Next(env, started, Answered(reply)), rest.(reply := reply), NextPlan(w, reply).next);
      RunSteps(env, started, Answered(reply), 7);
      assert [RunJob][..0] == [] && Run(env, s, []) == s;
      RunJoin(env, s, [RunJob], [Answered(reply)] + RoundEvents(7));
      events := [RunJob] + ([Answered(reply)] + RoundEvents(7));
    }
  }

  // A commit one of whose calls fails

  /** The awaited call fails and the code after it runs. */
  function FailRound(env: Env, s: State): State { Next(env, Next(env, s, Serve(false)), Resume) }

  const FAILURE: seq<Event> := [Serve(false), Resume]

  lemma FailureIs(env: Env, s: State)
    ensures Run(env, s, FAILURE) == FailRound(env, s)
  {
    var one := FAILURE[..1];
    assert one == [Serve(false)] && one[..0] == [];
    assert Run(env, s, []) == s;
    assert Run(env, s, one) == Next(env, s, Serve(false));
  }

  /** The job is over, its caller knows that it failed, and the worker is ready for the next. */
  ghost predicate GaveUp(s: State, rest: Rest, config: Config) {
    && s.told == rest.told && s.worker.Some?
    && var w := s.worker.value;
       w.phase.Idle? && !w.recovery && w.answer.None? && w.current.None? && w.queue == rest.queue && w.config == config
  }

  ghost predicate Undoing(s: State, phase: Phase, rest: Rest, config: Config) {
    At(s, phase, rest) && s.worker.value.config == config
  }

  lemma DigestFails(env: Env, s: State, rest: Rest, next: Config)
    requires At(s, CommitDigest(next), rest)
    ensures GaveUp(FailRound(env, s), rest, s.worker.value.config) && FailRound(env, s).outside == s.outside
  {
  }

  lemma JournalFails(env: Env, s: State, rest: Rest, next: Config, stamp: string)
    requires At(s, CommitJournal(next, stamp), rest)
    ensures GaveUp(FailRound(env, s), rest, s.worker.value.config) && FailRound(env, s).outside == s.outside
  {
  }

  lemma InstallFails(env: Env, s: State, rest: Rest, phase: Phase)
    requires At(s, phase, rest) && (phase.CommitRules? || phase.CommitReplace?)
    ensures Undoing(FailRound(env, s), CommitAbandon, rest, s.worker.value.config) && FailRound(env, s).outside == s.outside
  {
  }

  lemma AbandonRound(env: Env, s: State, rest: Rest)
    requires At(s, CommitAbandon, rest)
    ensures GaveUp(Round(env, s), rest, s.worker.value.config)
    ensures Round(env, s).outside == s.outside.(storage := s.outside.storage.(pending := None))
  {
  }

  lemma SaveFails(env: Env, s: State, rest: Rest, next: Config, stamp: string)
    requires At(s, CommitSave(next, stamp), rest) && |env.desired(s.worker.value.config)| <= env.maxRules
    ensures Undoing(FailRound(env, s), RollbackRules, rest, s.worker.value.config) && FailRound(env, s).outside == s.outside
  {
  }

  lemma RollbackListed(env: Env, s: State, rest: Rest)
    requires At(s, RollbackRules, rest)
    ensures Undoing(Round(env, s), RollbackReplace(Ids(s.outside.active)), rest, s.worker.value.config)
    ensures Round(env, s).outside == s.outside
  {
  }

  lemma RollbackReplaced(env: Env, s: State, rest: Rest)
    requires At(s, RollbackReplace(Ids(s.outside.active)), rest)
    ensures Undoing(Round(env, s), RollbackRemove, rest, s.worker.value.config)
    ensures Round(env, s).outside == s.outside.(active := env.desired(s.worker.value.config))
  {
    ReplaceInstalls(s.outside.active, env.desired(s.worker.value.config));
  }

  lemma RollbackRemoved(env: Env, s: State, rest: Rest)
    requires At(s, RollbackRemove, rest)
    ensures GaveUp(Round(env, s), rest, s.worker.value.config)
    ensures Round(env, s).outside == s.outside.(storage := s.outside.storage.(pending := None))
  {
  }

  /** Where a commit is before its `k`-th call, and what the calls before left outside. */
  function PhaseAt(env: Env, s: State, next: Config, k: nat): Phase {
    var stamp := env.stamp(next);
    if k == 0 then CommitDigest(next) else if k == 1 then CommitJournal(next, stamp)
    else if k == 2 then CommitRules(next, stamp)
    else if k == 3 then CommitReplace(next, stamp, Ids(s.outside.active)) else CommitSave(next, stamp)
  }

  function OutsideAt(env: Env, s: State, next: Config, k: nat): Outside {
    var journalled := s.outside.(storage := s.outside.storage.(pending := Some(next)));
    if k < 2 then s.outside else if k < 4 then journalled else journalled.(active := env.desired(next))
  }

  lemma {:induction false} Prepared(env: Env, s: State, rest: Rest, next: Config, k: nat)
    requires At(s, CommitDigest(next), rest) && k <= 4 && |env.desired(next)| <= env.maxRules
    ensures Undoing(Rounds(env, s, k), PhaseAt(env, s, next, k), rest, s.worker.value.config)
    ensures Rounds(env, s, k).outside == OutsideAt(env, s, next, k)
  {
    if k > 0 {
      Prepared(env, s, rest, next, k - 1);
      CallKeeps(env, s, Rounds(env, s, k - 1), rest, next, k - 1);
    }
  }

  lemma CallKeeps(env: Env, s: State, u: State, rest: Rest, next: Config, k: nat)
    requires s.worker.Some? && Undoing(u, PhaseAt(env, s, next, k), rest, s.worker.value.config) && k < 4
    requires u.outside == OutsideAt(env, s, next, k) && |env.desired(next)| <= env.maxRules
    ensures Undoing(Round(env, u), PhaseAt(env, s, next, k + 1), rest, s.worker.value.config)
    ensures Round(env, u).outside == OutsideAt(env, s, next, k + 1)
  {
    var stamp := env.stamp(next);
    if k == 0 {
      DigestKeeps(env, u, rest, next);
    } else if k == 1 {
      JournalKeeps(env, u, rest, next, stamp);
    } else if k == 2 {
      RulesKeeps(env, u, rest, next, stamp);
    } else {
      ReplaceKeeps(env, u, rest, next, stamp);
    }
  }

  lemma DigestKeeps(env: Env, s: State, rest: Rest, next: Config)
    requires At(s, CommitDigest(next), rest)
    ensures Undoing(Round(env, s), CommitJournal(next, env.stamp(next)), rest, s.worker.value.config)
    ensures Round(env, s).outside == s.outside
  {
  }

  lemma JournalKeeps(env: Env, s: State, rest: Rest, next: Config, stamp: string)
    requires At(s, CommitJournal(next, stamp), rest) && |env.desired(next)| <= env.maxRules
    ensures Undoing(Round(env, s), CommitRules(next, stamp), rest, s.worker.value.config)
    ensures Round(env, s).outside == s.outside.(storage := s.outside.storage.(pending := Some(next)))
  {
  }

  lemma RulesKeeps(env: Env, s: State, rest: Rest, next: Config, stamp: string)
    requires At(s, CommitRules(next, stamp), rest)
    ensures Undoing(Round(env, s), CommitReplace(next, stamp, Ids(s.outside.active)), rest, s.worker.value.config)
    ensures Round(env, s).outside == s.outside
  {
  }

  lemma ReplaceKeeps(env: Env, s: State, rest: Rest, next: Config, stamp: string)
    requires At(s, CommitReplace(next, stamp, Ids(s.outside.active)), rest)
    ensures Undoing(Round(env, s), CommitSave(next, stamp), rest, s.worker.value.config)
    ensures Round(env, s).outside == s.outside.(active := env.desired(next))
  {
    ReplaceInstalls(s.outside.active, env.desired(next));
  }

  /** How many calls follow a failure of call `k` of a commit. */
  function Cleanup(k: nat): nat { if k < 2 then 0 else if k < 4 then 1 else 3 }

  /** A commit whose `k`-th call failed, after its clean-up. */
  function Failing(env: Env, s: State, k: nat): State { Rounds(env, FailRound(env, Rounds(env, s, k)), Cleanup(k)) }

  lemma AbandonsAt(env: Env, s: State, rest: Rest, u: State)
    requires s.worker.Some? && Undoing(u, CommitAbandon, rest, s.worker.value.config)
    requires u.outside.(storage := u.outside.storage.(pending := None)) == s.outside
    ensures GaveUp(Rounds(env, u, 1), rest, s.worker.value.config) && Rounds(env, u, 1).outside == s.outside
  {
    assert Rounds(env, u, 0) == u;
    AbandonRound(env, u, rest);
  }

  lemma RollsBackAt(env: Env, s: State, rest: Rest, u: State)
    requires s.worker.Some? && Undoing(u, RollbackRules, rest, s.worker.value.config)
    requires u.outside.(active := env.desired(s.worker.value.config), storage := u.outside.storage.(pending := None)) == s.outside
    ensures GaveUp(Rounds(env, u, 3), rest, s.worker.value.config) && Rounds(env, u, 3).outside == s.outside
  {
    var a := Round(env, u);
    var b := Round(env, a);
    assert Rounds(env, u, 0) == u && Rounds(env, u, 1) == a && Rounds(env, u, 2) == b;
    RollbackListed(env, u, rest);
    RollbackReplaced(env, a, rest);
    RollbackRemoved(env, b, rest);
  }

  /** If one call of a commit fails and those of the clean-up succeed, nothing has changed outside, the
      worker keeps its configuration and goes on with the next job, and the caller is not told of
      success: over the digest, the journal, the listing, the installation and the saving. */
  lemma CommitAtomic(env: Env, s: State, rest: Rest, next: Config, k: nat)
    requires At(s, CommitDigest(next), rest) && k < 5
    requires |env.desired(next)| <= env.maxRules && |env.desired(s.worker.value.config)| <= env.maxRules
    requires s.outside.storage.pending.None? && s.outside.active == env.desired(s.worker.value.config)
    ensures var t := Run(env, s, RoundEvents(k) + (FAILURE + RoundEvents(Cleanup(k))));
            GaveUp(t, rest, s.worker.value.config) && t.outside == s.outside
  {
    FailingRuns(env, s, k);
    FailureUndone(env, s, rest, next, k);
  }

  lemma FailureUndone(env: Env, s: State, rest: Rest, next: Config, k: nat)
    requires At(s, CommitDigest(next), rest) && k < 5
    requires |env.desired(next)| <= env.maxRules && |env.desired(s.worker.value.config)| <= env.maxRules
    requires s.outside.storage.pending.None? && s.outside.active == env.desired(s.worker.value.config)
    ensures GaveUp(Failing(env, s, k), rest, s.worker.value.config) && Failing(env, s, k).outside == s.outside
  {
    Prepared(env, s, rest, next, k);
    var u := Rounds(env, s, k);
    if k == 0 {
      DigestFails(env, u, rest, next);
    } else if k == 1 {
      JournalFails(env, u, rest, next, env.stamp(next));
    } else if k < 4 {
      AbandonedAt(env, s, rest, u, PhaseAt(env, s, next, k));
    } else {
      SaveFails(env, u, rest, next, env.stamp(next));
      RollsBackAt(env, s, rest, FailRound(env, u));
    }
  }

  lemma AbandonedAt(env: Env, s: State, rest: Rest, u: State, phase: Phase)
    requires s.worker.Some? && Undoing(u, phase, rest, s.worker.value.config) && (phase.CommitRules? || phase.CommitReplace?)
    requires u.outside.(storage := u.outside.storage.(pending := None)) == s.outside
    ensures var t := Rounds(env, FailRound(env, u), 1); GaveUp(t, rest, s.worker.value.config) && t.outside == s.outside
  {
    InstallFails(env, u, rest, phase);
    AbandonsAt(env, s, rest, FailRound(env, u));
  }

  /** Which is a run like any other. */
  lemma FailingRuns(env: Env, s: State, k: nat)
    ensures Run(env, s, RoundEvents(k) + (FAILURE + RoundEvents(Cleanup(k)))) == Failing(env, s, k)
  {
    var u := Rounds(env, s, k);
    RoundsRun(env, s, k);
    FailureIs(env, u);
    RoundsRun(env, FailRound(env, u), Cleanup(k));
    RunJoin(env, u, FAILURE, RoundEvents(Cleanup(k)));
    RunJoin(env, s, RoundEvents(k), FAILURE + RoundEvents(Cleanup(k)));
  }

  /** A configuration with too many rules is given up before anything is installed. */
  lemma TooManyRules(env: Env, s: State, rest: Rest, next: Config)
    requires At(s, CommitDigest(next), rest) && |env.desired(next)| > env.maxRules && s.outside.storage.pending.None?
    ensures GaveUp(Rounds(env, s, 3), rest, s.worker.value.config) && Rounds(env, s, 3).outside == s.outside
  {
    var a := Round(env, s);
    var b := Round(env, a);
    assert Rounds(env, s, 0) == s && Rounds(env, s, 1) == a && Rounds(env, s, 2) == b;
    DigestKeeps(env, s, rest, next);
    JournalTooMany(env, a, rest, next, env.stamp(next));
    AbandonRound(env, b, rest);
  }

  lemma JournalTooMany(env: Env, s: State, rest: Rest, next: Config, stamp: string)
    requires At(s, CommitJournal(next, stamp), rest) && |env.desired(next)| > env.maxRules
    ensures Undoing(Round(env, s), CommitAbandon, rest, s.worker.value.config)
    ensures Round(env, s).outside == s.outside.(storage := s.outside.storage.(pending := Some(next)))
  {
  }

  /** A start on a storage that is trusted touches nothing: it reads the storage, and is ready. */
  lemma QuietStart(env: Env, s: State)
    requires s.worker.None? && s.outside.storage.pending.None?
    requires s.outside.storage.config.Some? ==>
               ValidConfig(s.outside.storage.config.value)
               && s.outside.storage.stamp == Some(env.stamp(s.outside.storage.config.value))
    ensures var t := Rounds(env, Next(env, s, Boot), 2);
            && t.outside == s.outside && t.worker.Some?
            && t.worker.value.phase.Idle? && t.worker.value.activityReady && !t.worker.value.recovery
            && t.worker.value.config == Effective(s.outside.storage)
  {
    var a := Next(env, s, Boot);
    assert Rounds(env, a, 0) == a && Rounds(env, a, 1) == Round(env, a);
    StorageRead(env, a);
    DigestRead(env, Round(env, a), s.outside.storage);
  }

  lemma StorageRead(env: Env, s: State)
    requires s.worker == Some(NEW_WORKER)
    requires s.outside.storage.config.Some? ==> ValidConfig(s.outside.storage.config.value)
    ensures Round(env, s).outside == s.outside
    ensures Round(env, s).worker
            == Some(NEW_WORKER.(phase := InitDigest(s.outside.storage), config := Effective(s.outside.storage)))
  {
  }

  lemma DigestRead(env: Env, s: State, stored: Storage)
    requires s.worker == Some(NEW_WORKER.(phase := InitDigest(stored), config := Effective(stored))) && stored.pending.None?
    requires stored.config.Some? ==> stored.stamp == Some(env.stamp(stored.config.value))
    ensures Round(env, s).outside == s.outside && Round(env, s).worker.Some?
    ensures var w := Round(env, s).worker.value;
            w.phase.Idle? && w.activityReady && !w.recovery && w.config == Effective(stored)
  {
  }

  /** A refresh started on a ready worker, whose download succeeds within the budget, is queued as the
      newest subscription change. */
  lemma RefreshQueues(env: Env, s: State, fetched: Subscriptions)
    requires s.worker.Some? && ReadyPhase(s.worker.value.phase) && !s.worker.value.recovery
    requires s.worker.value.refresh == NoRefresh && WithinBudget(env, fetched)
    ensures var w, t := s.worker.value, Next(env, Next(env, Next(env, s, BeginRefresh), RefreshReady), Fetched(Some(fetched)));
            t.worker == Some(w.(refresh := Queued, generation := w.generation + 1,
                                queue := w.queue + [Ticket(s.tickets, ApplyRefresh(w.generation + 1, fetched, s.clock))]))
            && t.outside == s.outside
  {
  }
}
