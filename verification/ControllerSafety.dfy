/** Crash safety of the commit protocol: over every run of jobs, failures, rollbacks and worker
    crashes, a trusted storage always agrees with the browser's rules. */
module ControllerSafety {
  import opened Text
  import opened Hosts
  import opened Controller
  import opened ControllerSteps

  /** What `initialize` trusts without touching the browser. */
  ghost predicate Trusted(env: Env, storage: Storage) {
    storage.pending.None? && (storage.config.Some? ==> storage.stamp == Some(env.stamp(storage.config.value)))
  }

  ghost predicate Agrees(env: Env, o: Outside) {
    o.active == env.desired(Effective(o.storage))
  }

  ghost predicate Safe(env: Env, o: Outside) {
    Trusted(env, o.storage) ==> Agrees(env, o)
  }

  /** The worker holds the committed configuration, and its rules are installed. */
  ghost predicate Settled(env: Env, o: Outside, w: Worker) {
    w.config == Effective(o.storage) && o.active == env.desired(w.config)
  }

  predicate AnswerIs(w: Worker, answer: Answer) {
    w.answer.None? || w.answer == Some(Failed) || w.answer == Some(answer)
  }

  /** The committed configuration is known to the worker and the journal is written. */
  ghost predicate Journalled(o: Outside, w: Worker) {
    o.storage.pending.Some? && w.config == Effective(o.storage)
  }

  ghost predicate InitInv(env: Env, o: Outside, w: Worker) {
    match w.phase
    case InitRead => Safe(env, o) && AnswerIs(w, Stored(o.storage))
    case InitDigest(stored) =>
      Safe(env, o) && stored == o.storage && w.config == Effective(stored) && AnswerIs(w, Digest(env.stamp(w.config)))
    case InitRules(stored, stamp) =>
      Safe(env, o) && stored == o.storage && w.config == Effective(stored) && stamp == env.stamp(w.config)
      && AnswerIs(w, Listed(Ids(o.active)))
    case InitReplace(stored, stamp, ids) =>
      stored == o.storage && w.config == Effective(stored) && stamp == env.stamp(w.config) && AnswerIs(w, Done)
      && if w.answer == Some(Done) then Agrees(env, o) else Safe(env, o) && ids == Ids(o.active)
    case InitRemove(stored, stamp) =>
      Settled(env, o, w) && stored.config == o.storage.config && stamp == env.stamp(w.config) && AnswerIs(w, Done)
    case InitStamp(stamp) => Settled(env, o, w) && stamp == env.stamp(w.config) && AnswerIs(w, Done)
    case _ => false
  }

  ghost predicate RestInv(env: Env, o: Outside, w: Worker) {
    match w.phase
    case Dead => Safe(env, o)
    case Idle => if w.recovery then o.storage.pending.Some? else Settled(env, o, w)
    case Compiling => Settled(env, o, w)
    case _ => false
  }

  ghost predicate CommitInv(env: Env, o: Outside, w: Worker) {
    match w.phase
    case CommitDigest(next) => Settled(env, o, w) && AnswerIs(w, Digest(env.stamp(next)))
    case CommitJournal(next, stamp) =>
      Settled(env, o, w) && stamp == env.stamp(next) && AnswerIs(w, Done)
      && (w.answer == Some(Done) ==> o.storage.pending.Some?)
    case CommitRules(next, stamp) =>
      Settled(env, o, w) && Journalled(o, w) && stamp == env.stamp(next) && AnswerIs(w, Listed(Ids(o.active)))
    case CommitReplace(next, stamp, ids) =>
      Journalled(o, w) && stamp == env.stamp(next) && AnswerIs(w, Done)
      && if w.answer == Some(Done) then o.active == env.desired(next) else Settled(env, o, w) && ids == Ids(o.active)
    case CommitAbandon => Settled(env, o, w)
    case CommitSave(next, stamp) =>
      stamp == env.stamp(next) && o.active == env.desired(next) && AnswerIs(w, Done)
      && if w.answer == Some(Done) then o.storage.config == Some(next) else Journalled(o, w)
    case CommitClear => Settled(env, o, w)
    case CommitNotify => Settled(env, o, w)
    case _ => false
  }

  ghost predicate RollbackInv(env: Env, o: Outside, w: Worker) {
    match w.phase
    case RollbackRules => Journalled(o, w) && AnswerIs(w, Listed(Ids(o.active)))
    case RollbackReplace(ids) =>
      Journalled(o, w) && AnswerIs(w, Done)
      && if w.answer == Some(Done) then o.active == env.desired(w.config) else ids == Ids(o.active)
    case RollbackRemove =>
      Settled(env, o, w) && AnswerIs(w, Done) && (w.answer != Some(Done) ==> o.storage.pending.Some?)
    case _ => false
  }

  ghost predicate PhaseInv(env: Env, o: Outside, w: Worker) {
    if InitPhase(w.phase) then InitInv(env, o, w)
    else if RollbackPhase(w.phase) then RollbackInv(env, o, w)
    else if CommitPhase(w.phase) then CommitInv(env, o, w)
    else RestInv(env, o, w)
  }

  /** Rule provenance is offered only while the worker's rules are installed. */
  predicate ActivityInv(w: Worker) {
    && (w.activityReady ==> !w.recovery && (w.phase.Idle? || w.phase.Compiling? || w.phase.CommitDigest?))
    && (w.recovery ==> w.phase.Idle?)
    && (Awaiting(w.phase) || w.answer.None?)
  }

  ghost predicate WorkerInv(env: Env, o: Outside, w: Worker) { PhaseInv(env, o, w) && ActivityInv(w) }

  ghost predicate SystemInv(env: Env, o: Outside, worker: Option<Worker>) {
    if worker.Some? then WorkerInv(env, o, worker.value) else Safe(env, o)
  }

  lemma PhaseSafe(env: Env, o: Outside, w: Worker)
    requires PhaseInv(env, o, w)
    ensures Safe(env, o)
  {
  }

  // A backend call

  lemma FailedKeeps(env: Env, o: Outside, w: Worker)
    requires WorkerInv(env, o, w) && Awaiting(w.phase) && w.answer.None?
    ensures WorkerInv(env, o, w.(answer := Some(Failed)))
  {
  }

  lemma PerformKeepsInit(env: Env, o: Outside, w: Worker)
    requires WorkerInv(env, o, w) && InitPhase(w.phase) && w.answer.None?
    ensures var (after, answer) := Perform(env, o, w); WorkerInv(env, after, w.(answer := Some(answer)))
  {
    ReplaceInstalls(o.active, env.desired(w.config));
  }

  lemma PerformKeepsRollback(env: Env, o: Outside, w: Worker)
    requires WorkerInv(env, o, w) && RollbackPhase(w.phase) && w.answer.None?
    ensures var (after, answer) := Perform(env, o, w); WorkerInv(env, after, w.(answer := Some(answer)))
  {
    ReplaceInstalls(o.active, env.desired(w.config));
  }

  lemma PerformKeepsCommit(env: Env, o: Outside, w: Worker)
    requires WorkerInv(env, o, w) && CommitPhase(w.phase) && w.answer.None?
    ensures var (after, answer) := Perform(env, o, w); WorkerInv(env, after, w.(answer := Some(answer)))
  {
    if w.phase.CommitReplace? { ReplaceInstalls(o.active, env.desired(w.phase.next)); }
  }

  // The code between two calls

  lemma ResumeKeepsInit(env: Env, o: Outside, w: Worker)
    requires WorkerInv(env, o, w) && InitPhase(w.phase) && w.answer.Some?
    ensures WorkerInv(env, o, ResumeInit(env, w))
  {
  }

  lemma EndCommitKeeps(env: Env, o: Outside, w: Worker)
    requires Settled(env, o, w) && !w.recovery
    ensures WorkerInv(env, o, EndCommit(w))
  {
  }

  lemma LatchKeeps(env: Env, o: Outside, w: Worker)
    requires o.storage.pending.Some?
    ensures WorkerInv(env, o, Latch(w))
  {
  }

  lemma ResumeKeepsSave(env: Env, o: Outside, w: Worker)
    requires WorkerInv(env, o, w) && w.phase.CommitSave? && w.answer.Some?
    ensures WorkerInv(env, o, ResumeCommit(env, w))
  {
    if w.answer == Some(Failed) { LatchKeeps(env, o, w); }
  }

  lemma ResumeKeepsJournal(env: Env, o: Outside, w: Worker)
    requires WorkerInv(env, o, w) && (w.phase.CommitDigest? || w.phase.CommitJournal?) && w.answer.Some?
    ensures WorkerInv(env, o, ResumeCommit(env, w))
  {
    if w.answer == Some(Failed) { EndCommitKeeps(env, o, w); }
  }

  lemma ResumeKeepsCommit(env: Env, o: Outside, w: Worker)
    requires WorkerInv(env, o, w) && CommitPhase(w.phase) && w.answer.Some?
    ensures WorkerInv(env, o, ResumeCommit(env, w))
  {
    if w.phase.CommitSave? { ResumeKeepsSave(env, o, w); }
    else if w.phase.CommitDigest? || w.phase.CommitJournal? { ResumeKeepsJournal(env, o, w); }
    else if w.phase.CommitAbandon? || w.phase.CommitNotify? { EndCommitKeeps(env, o, w); }
  }

  lemma ResumeKeepsRollback(env: Env, o: Outside, w: Worker)
    requires WorkerInv(env, o, w) && RollbackPhase(w.phase) && w.answer.Some?
    ensures WorkerInv(env, o, ResumeRollback(w))
  {
    if w.answer == Some(Failed) { LatchKeeps(env, o, w); }
    else if w.phase.RollbackRemove? { EndCommitKeeps(env, o, w); }
  }

  lemma FollowKeeps(env: Env, o: Outside, w: Worker, plan: Plan)
    requires Settled(env, o, w) && !w.recovery && (w.phase.Idle? || w.phase.Compiling?)
    ensures WorkerInv(env, o, Follow(w, plan))
  {
  }

  lemma StartKeeps(env: Env, o: Outside, w: Worker)
    requires WorkerInv(env, o, w) && (w.phase.Idle? || w.phase.Dead?) && w.queue != []
    ensures WorkerInv(env, o, StartJob(w))
  {
    var ticket := w.queue[0];
    if w.phase.Idle? && !w.recovery {
      var taken := w.(queue := w.queue[1..], current := Some(ticket), reply := None);
      var counted := if ticket.job.RemoveSubscriptions? then taken.(generation := w.generation + 1) else taken;
      FollowKeeps(env, o, counted, PlanJob(ticket.job, w.config, counted.generation));
    }
  }

  lemma ServeKeeps(env: Env, s: State, w: Worker, ok: bool)
    requires s.worker == Some(w) && WorkerInv(env, s.outside, w) && Awaiting(w.phase) && w.answer.None?
    ensures SystemInv(env, ServeCall(env, s, w, ok).outside, ServeCall(env, s, w, ok).worker)
  {
    if !ok { FailedKeeps(env, s.outside, w); }
    else if InitPhase(w.phase) { PerformKeepsInit(env, s.outside, w); }
    else if RollbackPhase(w.phase) { PerformKeepsRollback(env, s.outside, w); }
    else { PerformKeepsCommit(env, s.outside, w); }
  }

  lemma ResumeKeeps(env: Env, o: Outside, w: Worker)
    requires WorkerInv(env, o, w) && Awaiting(w.phase) && w.answer.Some?
    ensures WorkerInv(env, o, ResumeWorker(env, w))
  {
    if InitPhase(w.phase) { ResumeKeepsInit(env, o, w); }
    else if RollbackPhase(w.phase) { ResumeKeepsRollback(env, o, w); }
    else { ResumeKeepsCommit(env, o, w); }
  }

  /** The queue, the refresh bookkeeping and the generation do not matter to the invariant. */
  lemma BookkeepingKeeps(env: Env, o: Outside, w: Worker, v: Worker)
    requires WorkerInv(env, o, w)
    requires v == w.(queue := v.queue, refresh := v.refresh, generation := v.generation)
    ensures WorkerInv(env, o, v)
  {
  }

  lemma WorkerStepKeeps(env: Env, s: State, w: Worker, e: Event)
    requires s.worker == Some(w) && WorkerInv(env, s.outside, w)
    ensures SystemInv(env, WorkerStep(env, s, w, e).outside, WorkerStep(env, s, w, e).worker)
  {
    match e {
      case Crash => PhaseSafe(env, s.outside, w);
      case Serve(ok) => if Awaiting(w.phase) && w.answer.None? { ServeKeeps(env, s, w, ok); }
      case Resume => if Awaiting(w.phase) && w.answer.Some? { ResumeKeeps(env, s.outside, w); }
      case Answered(reply) =>
        if w.phase.Compiling? && w.current.Some? {
          FollowKeeps(env, s.outside, w.(reply := reply), AfterReply(w.current.value.job, w.config, reply));
        }
      case RunJob => if (w.phase.Idle? || w.phase.Dead?) && w.queue != [] { StartKeeps(env, s.outside, w); }
      case _ => QueueStepKeeps(env, s, w, e);
    }
  }

  lemma QueueStepKeeps(env: Env, s: State, w: Worker, e: Event)
    requires s.worker == Some(w) && WorkerInv(env, s.outside, w)
    requires e.Boot? || e.Submit? || e.BeginRefresh? || e.RefreshReady? || e.Fetched?
    ensures WorkerStep(env, s, w, e).outside == s.outside
    ensures SystemInv(env, s.outside, WorkerStep(env, s, w, e).worker)
  {
    BookkeepingKeeps(env, s.outside, w, WorkerStep(env, s, w, e).worker.value);
  }

  /** Every step of the protocol keeps the invariant. */
  lemma StepKeeps(env: Env, s: State, e: Event)
    requires SystemInv(env, s.outside, s.worker)
    ensures SystemInv(env, Next(env, s, e).outside, Next(env, s, e).worker)
  {
    if s.worker.Some? { WorkerStepKeeps(env, s, s.worker.value, e); }
  }

  /** A worker-less system whose storage is not wrongly trusted: a fresh installation, or whatever
      an earlier version left behind without a stamp. */
  ghost predicate Startable(env: Env, s: State) {
    s.worker.None? && Safe(env, s.outside)
  }

  lemma {:induction false} RunKeeps(env: Env, s: State, events: seq<Event>)
    requires Startable(env, s)
    ensures SystemInv(env, Run(env, s, events).outside, Run(env, s, events).worker)
  {
    if events != [] {
      RunKeeps(env, s, events[..|events| - 1]);
      StepKeeps(env, Run(env, s, events[..|events| - 1]), events[|events| - 1]);
    }
  }

  /** Crash-safe commit.  In every reachable state: a storage without journal whose stamp matches
      its configuration (or that holds none) agrees with the browser; once the worker is ready and
      idle the rules are those of the committed configuration; and a latched recovery error leaves
      the journal for the restart. */
  lemma CrashSafeCommit(env: Env, s: State, events: seq<Event>)
    requires Startable(env, s)
    ensures var t := Run(env, s, events);
            && (Trusted(env, t.outside.storage) ==> t.outside.active == env.desired(Effective(t.outside.storage)))
            && (t.worker.Some? && t.worker.value.phase.Idle? && !t.worker.value.recovery ==>
                  t.worker.value.config == Effective(t.outside.storage)
                  && t.outside.active == env.desired(t.worker.value.config))
            && (t.worker.Some? && t.worker.value.recovery ==> t.outside.storage.pending.Some?)
  {
    RunKeeps(env, s, events);
    var t := Run(env, s, events);
    if t.worker.Some? { PhaseSafe(env, t.outside, t.worker.value); }
  }

  // Configurations stay valid

  /** The configuration a commit is about to save. */
  function NextOf(phase: Phase): Option<Config> {
    match phase
    case CommitDigest(next) => Some(next)
    case CommitJournal(next, _) => Some(next)
    case CommitRules(next, _) => Some(next)
    case CommitReplace(next, _, _) => Some(next)
    case CommitSave(next, _) => Some(next)
    case _ => None
  }

  ghost predicate JobValid(job: Job) {
    job.ApplyRefresh? ==> ValidSubscriptions(job.fetched)
  }

  ghost predicate ConfigInv(w: Worker) {
    && ValidConfig(w.config) && (NextOf(w.phase).Some? ==> ValidConfig(NextOf(w.phase).value))
    && (forall i | 0 <= i < |w.queue| :: JobValid(w.queue[i].job))
    && (w.current.Some? ==> JobValid(w.current.value.job))
  }

  ghost predicate PlanValid(plan: Plan) {
    plan.Commit? ==> ValidConfig(plan.next)
  }

  ghost predicate AllDomains(sites: seq<string>) {
    forall i | 0 <= i < |sites| :: IsDomain(sites[i])
  }

  lemma {:induction false} WithoutSiteValid(sites: seq<string>, site: string)
    requires AllDomains(sites)
    ensures AllDomains(WithoutSite(sites, site)) && |WithoutSite(sites, site)| <= |sites|
  {
    if sites != [] { WithoutSiteValid(sites[1..], site); }
  }

  lemma {:induction false} InsertSiteValid(sites: seq<string>, site: string)
    requires AllDomains(sites) && IsDomain(site)
    ensures AllDomains(InsertSite(sites, site)) && |InsertSite(sites, site)| == |sites| + 1
  {
    if sites != [] { InsertSiteValid(sites[1..], site); }
  }

  lemma {:induction false} SortSitesValid(sites: seq<string>)
    requires AllDomains(sites)
    ensures AllDomains(SortSites(sites)) && |SortSites(sites)| == |sites|
  {
    if sites != [] {
      SortSitesValid(sites[1..]);
      InsertSiteValid(SortSites(sites[1..]), sites[0]);
    }
  }

  lemma PlanSiteValid(c: Config, host: string, enabled: bool)
    requires ValidConfig(c)
    ensures PlanValid(PlanSite(c, host, enabled))
  {
    var sites := c.disabledSites;
    WithoutSiteValid(sites, host);
    SortSitesValid(WithoutSite(sites, host));
    SortSitesValid(sites);
    if IsDomain(host) { SortSitesValid(sites + [host]); }
  }

  lemma PlanJobValid(job: Job, c: Config, generation: nat)
    requires ValidConfig(c) && JobValid(job)
    ensures PlanValid(PlanJob(job, c, generation))
  {
    if job.SetSite? { PlanSiteValid(c, job.host, job.enabled); }
  }

  /** Between two calls a commit keeps its configuration or ends; the worker's own changes only
      to the saved one, or to the stored one it has just read. */
  ghost predicate Carries(w: Worker, v: Worker) {
    && (NextOf(v.phase).None? || NextOf(v.phase) == NextOf(w.phase))
    && (v.config == w.config || (w.phase.CommitSave? && w.answer == Some(Done) && v.config == w.phase.next)
        || (w.phase.InitRead? && w.answer.Some? && w.answer.value.Stored?
            && v.config == Effective(w.answer.value.storage)
            && (w.answer.value.storage.config.Some? ==> ValidConfig(v.config))))
    && v.queue == w.queue && (v.current == w.current || v.current == None)
  }

  lemma ResumeInitCarries(env: Env, w: Worker)
    requires w.answer.Some? && InitPhase(w.phase)
    ensures Carries(w, ResumeInit(env, w))
  {
  }

  lemma ResumeCommitCarries(env: Env, w: Worker)
    requires w.answer.Some? && CommitPhase(w.phase)
    ensures Carries(w, ResumeCommit(env, w))
  {
    if NextOf(w.phase).Some? { NextCarries(env, w); } else { EndCarries(env, w); }
  }

  lemma NextCarries(env: Env, w: Worker)
    requires w.answer.Some? && NextOf(w.phase).Some?
    ensures Carries(w, ResumeCommit(env, w))
  {
    if w.phase.CommitSave? { SaveCarries(env, w); }
  }

  lemma SaveCarries(env: Env, w: Worker)
    requires w.answer.Some? && w.phase.CommitSave?
    ensures Carries(w, ResumeCommit(env, w))
  {
  }

  lemma EndCarries(env: Env, w: Worker)
    requires w.answer.Some? && CommitPhase(w.phase) && NextOf(w.phase).None?
    ensures Carries(w, ResumeCommit(env, w))
  {
  }

  lemma ResumeRollbackCarries(w: Worker)
    requires w.answer.Some? && RollbackPhase(w.phase)
    ensures Carries(w, ResumeRollback(w))
  {
  }

  lemma ResumeCarries(env: Env, w: Worker)
    requires w.answer.Some? && Awaiting(w.phase)
    ensures Carries(w, ResumeWorker(env, w))
  {
    if InitPhase(w.phase) { ResumeInitCarries(env, w); }
    else if RollbackPhase(w.phase) { ResumeRollbackCarries(w); }
    else { ResumeCommitCarries(env, w); }
  }

  lemma CarriesValid(w: Worker, v: Worker)
    requires ConfigInv(w) && Carries(w, v)
    ensures ConfigInv(v)
  {
  }

  lemma EmptyValid()
    ensures ValidConfig(EMPTY_CONFIG)
  {
  }

  lemma FollowValid(w: Worker, plan: Plan)
    requires ConfigInv(w) && PlanValid(plan)
    ensures ConfigInv(Follow(w, plan))
  {
  }

  lemma AfterReplyValid(job: Job, c: Config, reply: Option<Reply>)
    requires ValidConfig(c)
    ensures PlanValid(AfterReply(job, c, reply))
  {
  }

  /** Taking the first job from the queue, or putting one at its end, keeps all jobs valid. */
  lemma TakenValid(w: Worker, generation: nat)
    requires ConfigInv(w) && w.queue != []
    ensures JobValid(w.queue[0].job)
    ensures ConfigInv(w.(queue := w.queue[1..], current := Some(w.queue[0]), reply := None, generation := generation))
  {
  }

  lemma QueuedValid(w: Worker, refresh: Refresh, generation: nat)
    requires ConfigInv(w)
    ensures ConfigInv(w.(refresh := refresh, generation := generation))
  {
  }

  lemma EnqueueValid(s: State, w: Worker, job: Job)
    requires ConfigInv(w) && JobValid(job)
    ensures ConfigInv(Enqueue(s, w, job).worker.value)
  {
  }

  lemma StartValid(w: Worker)
    requires ConfigInv(w) && w.queue != []
    ensures ConfigInv(StartJob(w))
  {
    var ticket := w.queue[0];
    var generation := if ticket.job.RemoveSubscriptions? then w.generation + 1 else w.generation;
    TakenValid(w, w.generation);
    TakenValid(w, generation);
    PlanJobValid(ticket.job, w.config, generation);
    FollowValid(w.(queue := w.queue[1..], current := Some(ticket), reply := None, generation := generation),
                PlanJob(ticket.job, w.config, generation));
  }

  lemma ServeValid(env: Env, s: State, w: Worker, ok: bool)
    requires ConfigInv(w)
    ensures ConfigInv(ServeCall(env, s, w, ok).worker.value)
  {
  }

  lemma StepValid(env: Env, s: State, w: Worker, e: Event)
    requires s.worker == Some(w) && ConfigInv(w)
    ensures WorkerStep(env, s, w, e).worker.Some? ==> ConfigInv(WorkerStep(env, s, w, e).worker.value)
  {
    match e {
      case Serve(ok) => ServeValid(env, s, w, ok);
      case Resume =>
        if Awaiting(w.phase) && w.answer.Some? {
          EmptyValid();
          ResumeCarries(env, w);
          CarriesValid(w, ResumeWorker(env, w));
        }
      case Answered(reply) =>
        if w.phase.Compiling? && w.current.Some? {
          AfterReplyValid(w.current.value.job, w.config, reply);
          FollowValid(w.(reply := reply), AfterReply(w.current.value.job, w.config, reply));
        }
      case RunJob => if (w.phase.Idle? || w.phase.Dead?) && w.queue != [] { StartValid(w); }
      case _ => QueueStepValid(env, s, w, e);
    }
  }

  lemma QueueStepValid(env: Env, s: State, w: Worker, e: Event)
    requires s.worker == Some(w) && ConfigInv(w)
    requires e.Boot? || e.Crash? || e.Submit? || e.BeginRefresh? || e.RefreshReady? || e.Fetched?
    ensures WorkerStep(env, s, w, e).worker.Some? ==> ConfigInv(WorkerStep(env, s, w, e).worker.value)
  {
    match e {
      case Submit(job) => if !job.ApplyRefresh? { EnqueueValid(s, w, job); }
      case BeginRefresh => QueuedValid(w, WaitingReady(w.generation + 1, s.clock), w.generation + 1);
      case RefreshReady =>
        QueuedValid(w, NoRefresh, w.generation);
        if w.refresh.WaitingReady? { QueuedValid(w, Downloading(w.refresh.generation, w.refresh.begun), w.generation); }
      case Fetched(result) =>
        QueuedValid(w, NoRefresh, w.generation);
        if w.refresh.Downloading? && result.Some? && WithinBudget(env, result.value) {
          QueuedValid(w, Queued, w.generation);
          EnqueueValid(s, w.(refresh := Queued), ApplyRefresh(w.refresh.generation, result.value, w.refresh.begun));
        }
      case _ =>
    }
  }

  lemma {:induction false} RunValid(env: Env, s: State, events: seq<Event>)
    requires Startable(env, s)
    ensures Run(env, s, events).worker.Some? ==> ConfigInv(Run(env, s, events).worker.value)
  {
    if events != [] {
      var front := events[..|events| - 1];
      RunValid(env, s, front);
      EmptyValid();
      var t := Run(env, s, front);
      if t.worker.Some? { StepValid(env, t, t.worker.value, events[|events| - 1]); }
    }
  }

  /** The description of an ID at this moment is that of the one active rule with the ID. */
  ghost predicate DescribesActive(active: seq<BrowserRule>, id: int, info: RuleInfo) {
    exists i :: 0 <= i < |active| && active[i].id == id && active[i].rule == InfoRule(info)
                && forall j | 0 <= j < |active| && active[j].id == id :: j == i
  }

  /** Provenance is never wrong: at every moment of every run a description means that the active
      rules are those of the worker's configuration, and it describes the only active rule with
      that ID. */
  lemma ProvenanceExact(env: Env, s: State, events: seq<Event>, id: int)
    requires Startable(env, s) && env.desired == DesiredRules
    ensures var t := Run(env, s, events);
            DescribeNow(t, id).Some? ==>
              t.outside.active == DesiredRules(t.worker.value.config)
              && DescribesActive(t.outside.active, id, DescribeNow(t, id).value)
  {
    RunKeeps(env, s, events);
    RunValid(env, s, events);
    var t := Run(env, s, events);
    if DescribeNow(t, id).Some? {
      DescribedIsActive(t.worker.value.config, id);
    }
  }

  lemma DescribedIsActive(c: Config, id: int)
    requires ValidConfig(c) && Describe(c, id).Some?
    ensures DescribesActive(DesiredRules(c), id, Describe(c, id).value)
  {
    DescribeInvertsIds(c, id);
    var rules := DesiredRules(c);
    var i :| 0 <= i < |rules| && rules[i].id == id && rules[i].rule == InfoRule(Describe(c, id).value);
    forall j | 0 <= j < |rules| && rules[j].id == id ensures j == i { DescribedRuleUnique(c, i, j); }
  }
}
