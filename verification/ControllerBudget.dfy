/** The room a refresh leaves in the browser: no later commit needs more rules than it allows. */
module ControllerBudget {
  import opened Text
  import opened Controller
  import opened ControllerSteps
  import opened ControllerSafety
  import opened ControllerOrder

  predicate ConfigWithin(env: Env, c: Config) {
    c.subscriptions.Some? ==> |c.subscriptions.value.compiled.network| <= Budget(env)
  }

  predicate JobWithin(env: Env, job: Job) {
    job.ApplyRefresh? ==> |job.fetched.compiled.network| <= Budget(env)
  }

  predicate Refreshing(w: Worker) { w.current.Some? && w.current.value.job.ApplyRefresh? }

  /** Fetched subscriptions stay within the budget, and so does what a refresh commits; with
      `everywhere`, every configuration does. */
  ghost predicate WorkerWithin(env: Env, w: Worker, everywhere: bool) {
    && (forall i | 0 <= i < |w.queue| :: JobWithin(env, w.queue[i].job))
    && (w.current.Some? ==> JobWithin(env, w.current.value.job))
    && (NextOf(w.phase).Some? && (everywhere || Refreshing(w)) ==> ConfigWithin(env, NextOf(w.phase).value))
    && (everywhere ==> ConfigWithin(env, w.config))
  }

  ghost predicate BudgetInv(env: Env, s: State, everywhere: bool) {
    (everywhere ==> ConfigWithin(env, Effective(s.outside.storage)))
    && (s.worker.Some? ==> WorkerWithin(env, s.worker.value, everywhere))
  }

  lemma PlanWithin(env: Env, job: Job, c: Config, generation: nat)
    requires JobWithin(env, job)
    ensures var plan := PlanJob(job, c, generation);
            plan.Commit? && (ConfigWithin(env, c) || job.ApplyRefresh?) ==> ConfigWithin(env, plan.next)
    ensures job.ApplyRefresh? ==> !PlanJob(job, c, generation).AskCompanion?
  {
  }

  lemma FollowWithin(env: Env, w: Worker, plan: Plan, everywhere: bool)
    requires WorkerWithin(env, w, everywhere)
    requires plan.Commit? && (everywhere || Refreshing(w)) ==> ConfigWithin(env, plan.next)
    ensures WorkerWithin(env, Follow(w, plan), everywhere)
  {
  }

  lemma TakenWithin(env: Env, w: Worker, generation: nat, everywhere: bool)
    requires WorkerWithin(env, w, everywhere) && w.queue != [] && (w.phase.Idle? || w.phase.Dead?)
    ensures JobWithin(env, w.queue[0].job)
    ensures WorkerWithin(env, w.(queue := w.queue[1..], current := Some(w.queue[0]), reply := None, generation := generation),
                         everywhere)
  {
  }

  lemma StartWithin(env: Env, w: Worker, everywhere: bool)
    requires WorkerWithin(env, w, everywhere) && w.queue != [] && (w.phase.Idle? || w.phase.Dead?)
    ensures WorkerWithin(env, StartJob(w), everywhere)
  {
    var ticket := w.queue[0];
    var generation := if ticket.job.RemoveSubscriptions? then w.generation + 1 else w.generation;
    var plan := PlanJob(ticket.job, w.config, generation);
    TakenWithin(env, w, w.generation, everywhere);
    TakenWithin(env, w, generation, everywhere);
    PlanWithin(env, ticket.job, w.config, generation);
    FollowWithin(env, w.(queue := w.queue[1..], current := Some(ticket), reply := None, generation := generation), plan, everywhere);
  }

  lemma AnsweredWithin(env: Env, w: Worker, reply: Option<Reply>, everywhere: bool)
    requires WorkerWithin(env, w, everywhere) && CommitsJob(w) && w.phase.Compiling? && w.current.Some?
    ensures WorkerWithin(env, Follow(w.(reply := reply), AfterReply(w.current.value.job, w.config, reply)), everywhere)
  {
    PlanWithin(env, w.current.value.job, w.config, OwnGeneration(w.current.value.job));
  }

  lemma ServeWithin(env: Env, s: State, w: Worker, ok: bool, everywhere: bool)
    requires s.worker == Some(w) && BudgetInv(env, s, everywhere) && Awaiting(w.phase) && w.answer.None?
    ensures BudgetInv(env, ServeCall(env, s, w, ok), everywhere)
  {
    if ok && !w.phase.CommitSave? { CallKeepsConfig(env, s.outside, w); }
  }

  lemma ResumeWithin(env: Env, s: State, w: Worker, everywhere: bool)
    requires s.worker == Some(w) && BudgetInv(env, s, everywhere) && WorkerInv(env, s.outside, w)
    requires Awaiting(w.phase) && w.answer.Some?
    ensures WorkerWithin(env, ResumeWorker(env, w), everywhere)
  {
    ResumeCarries(env, w);
    ResumeKeepsJob(env, w);
  }

  lemma EnqueueWithin(env: Env, s: State, w: Worker, job: Job, everywhere: bool)
    requires s.worker.Some? && BudgetInv(env, s, everywhere) && WorkerWithin(env, w, everywhere) && JobWithin(env, job)
    ensures BudgetInv(env, Enqueue(s, w, job), everywhere)
  {
  }

  lemma FetchedWithin(env: Env, s: State, w: Worker, result: Option<Subscriptions>, everywhere: bool)
    requires s.worker == Some(w) && BudgetInv(env, s, everywhere)
    ensures BudgetInv(env, WorkerStep(env, s, w, Fetched(result)), everywhere)
  {
    if w.refresh.Downloading? && result.Some? && WithinBudget(env, result.value) {
      var job := ApplyRefresh(w.refresh.generation, result.value, w.refresh.begun);
      EnqueueWithin(env, s, w.(refresh := Queued), job, everywhere);
    }
  }

  lemma StepWithin(env: Env, s: State, w: Worker, e: Event, everywhere: bool)
    requires s.worker == Some(w) && BudgetInv(env, s, everywhere) && WorkerInv(env, s.outside, w) && CommitsJob(w)
    ensures BudgetInv(env, WorkerStep(env, s, w, e), everywhere)
  {
    match e {
      case Serve(ok) => if Awaiting(w.phase) && w.answer.None? { ServeWithin(env, s, w, ok, everywhere); }
      case Resume => if Awaiting(w.phase) && w.answer.Some? { ResumeWithin(env, s, w, everywhere); }
      case Answered(reply) =>
        if w.phase.Compiling? && w.current.Some? { AnsweredWithin(env, w, reply, everywhere); }
      case RunJob => if (w.phase.Idle? || w.phase.Dead?) && w.queue != [] { StartWithin(env, w, everywhere); }
      case Submit(job) => if !job.ApplyRefresh? { EnqueueWithin(env, s, w, job, everywhere); }
      case Fetched(result) => FetchedWithin(env, s, w, result, everywhere);
      case _ =>
    }
  }

  lemma {:induction false} RunWithin(env: Env, s: State, events: seq<Event>, everywhere: bool)
    requires Fresh(env, s) && (everywhere ==> ConfigWithin(env, Effective(s.outside.storage)))
    ensures BudgetInv(env, Run(env, s, events), everywhere)
  {
    if events != [] {
      var front := events[..|events| - 1];
      RunWithin(env, s, front, everywhere);
      RunKeeps(env, s, front);
      RunReplays(env, s, front);
      var t := Run(env, s, front);
      if t.worker.Some? { StepWithin(env, t, t.worker.value, events[|events| - 1], everywhere); }
    }
  }

  lemma WithinFits(env: Env, c: Config)
    requires ValidConfig(c) && ConfigWithin(env, c) && MAX_RULES + MAX_SITES <= env.maxRules
    ensures |DesiredRules(c)| <= env.maxRules
  {
  }

  /** Where the browser allows the rules reserved for the local list and the sites, no commit of a
      fetched refresh can fail for the number of its rules: over every run, whatever was stored
      before and whatever was queued in between. */
  lemma RefreshFits(env: Env, s: State, events: seq<Event>)
    requires Fresh(env, s) && env.desired == DesiredRules && MAX_RULES + MAX_SITES <= env.maxRules
    ensures var t := Run(env, s, events);
            t.worker.Some? && Refreshing(t.worker.value) && NextOf(t.worker.value.phase).Some? ==>
              |env.desired(NextOf(t.worker.value.phase).value)| <= env.maxRules
  {
    RunWithin(env, s, events, false);
    RunValid(env, s, events);
    var t := Run(env, s, events);
    if t.worker.Some? && Refreshing(t.worker.value) && NextOf(t.worker.value.phase).Some? {
      WithinFits(env, NextOf(t.worker.value.phase).value);
    }
  }

  /** If moreover what was stored at first is within the budget, no configuration ever needs too
      many rules: every commit, rollback and start of every run fits the browser. */
  lemma EverythingFits(env: Env, s: State, events: seq<Event>)
    requires Fresh(env, s) && env.desired == DesiredRules && MAX_RULES + MAX_SITES <= env.maxRules
    requires ConfigWithin(env, Effective(s.outside.storage))
    ensures var t := Run(env, s, events);
            t.worker.Some? ==>
              && |env.desired(t.worker.value.config)| <= env.maxRules
              && (NextOf(t.worker.value.phase).Some? ==> |env.desired(NextOf(t.worker.value.phase).value)| <= env.maxRules)
  {
    RunWithin(env, s, events, true);
    RunValid(env, s, events);
    var t := Run(env, s, events);
    if t.worker.Some? {
      WithinFits(env, t.worker.value.config);
      if NextOf(t.worker.value.phase).Some? { WithinFits(env, NextOf(t.worker.value.phase).value); }
    }
  }
}
