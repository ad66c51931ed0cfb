/** The controller as small steps, one for every point at which it awaits something, over the
    two stores it must keep in agreement: the extension's storage and the browser's rules. */
module ControllerSteps {
  import opened Text
  import opened Hosts
  import opened Controller
  import Picker

  // Jobs of the mutation queue

  datatype Job =
    | SetEnabled(enabled: bool)
    | SetSite(host: string, enabled: bool)
    | Import(text: string, source: string)
    | AddPicker(host: string, selector: string, token: string)
    | RemovePicker(host: string, selector: string, token: string)
    | RemoveSubscriptions
    /** The queued end of a refresh that began with this generation. */
    | ApplyRefresh(generation: nat, fetched: Subscriptions, begun: nat)
    /** `snapshot`, `view`, `cosmetics`, `pageCountSafe`. */
    | Inspect

  /** A compilation answered by the companion, and the time at which it is used. */
  datatype Reply = Reply(compiled: Compilation, now: string)

  /** What a job does next: commit a configuration, ask the companion first, or nothing. */
  datatype Plan = Commit(next: Config) | AskCompanion | Finish

  function InsertSite(sites: seq<string>, site: string): seq<string> {
    if sites == [] || !Less(sites[0], site) then [site] + sites else [sites[0]] + InsertSite(sites[1..], site)
  }

  function SortSites(sites: seq<string>): seq<string> {
    if sites == [] then [] else InsertSite(SortSites(sites[1..]), sites[0])
  }

  function WithoutSite(sites: seq<string>, site: string): seq<string> {
    if sites == [] then []
    else if sites[0] == site then WithoutSite(sites[1..], site)
    else [sites[0]] + WithoutSite(sites[1..], site)
  }

  predicate DisabledBy(host: string, sites: seq<string>) {
    exists site | site in sites :: MatchesDomain(host, site)
  }

  function PlanSite(c: Config, host: string, enabled: bool): Plan {
    if !IsDomain(host) then Finish else
      var sites :=
        if enabled then WithoutSite(c.disabledSites, host)
        else if host in c.disabledSites then c.disabledSites
        else c.disabledSites + [host];
      if |sites| > MAX_SITES then Finish else Commit(c.(disabledSites := SortSites(sites)))
  }

  function PickerBlock(host: string, selector: string, token: string): string {
    Picker.Block(token, Picker.PickerRule(host, selector))
  }

  predicate AlreadyHidden(c: Config, host: string, selector: string) {
    exists item | item in c.compiled.cosmetics ::
      item.selector == selector && (item.domains == {} || exists d | d in item.domains :: MatchesDomain(host, d))
  }

  function PlanPick(c: Config, host: string, selector: string, token: string): Plan {
    if !Picker.ValidPick(host, selector, token) then Finish
    else if !c.enabled || DisabledBy(host, c.disabledSites) then Finish
    else if Contains(c.text, PickerBlock(host, selector, token)) || AlreadyHidden(c, host, selector) then Finish
    else AskCompanion
  }

  function PlanUnpick(c: Config, host: string, selector: string, token: string): Plan {
    if !Picker.ValidPick(host, selector, token) || !Contains(c.text, PickerBlock(host, selector, token)) then Finish
    else AskCompanion
  }

  /** The part of a job before its first await. */
  function PlanJob(job: Job, c: Config, generation: nat): Plan {
    match job
    case SetEnabled(enabled) => Commit(c.(enabled := enabled))
    case SetSite(host, enabled) => PlanSite(c, host, enabled)
    case Import(_, _) => AskCompanion
    case AddPicker(host, selector, token) => PlanPick(c, host, selector, token)
    case RemovePicker(host, selector, token) => PlanUnpick(c, host, selector, token)
    case RemoveSubscriptions => Commit(c.(subscriptions := None))
    case ApplyRefresh(began, fetched, _) =>
      if began != generation then Finish else Commit(c.(subscriptions := Some(fetched)))
    case Inspect => Finish
  }

  /** The local text a job asks the companion to compile, under a list name. */
  function NewText(job: Job, c: Config): (string, string) {
    match job
    case Import(text, source) => (text, source)
    case AddPicker(host, selector, token) =>
      (c.text + PickerBlock(host, selector, token),
       if c.updatedAt.Some? && c.updatedAt.value != "" then c.source else "Local filters")
    case RemovePicker(host, selector, token) =>
      (Picker.RemoveFirst(c.text, PickerBlock(host, selector, token)), c.source)
    case _ => (c.text, c.source)
  }

  predicate Supports(job: Job, compiled: Compilation) {
    job.AddPicker? ==>
      exists item | item in compiled.cosmetics :: job.host in item.domains && item.selector == job.selector
  }

  /** The part of a job after the companion answered; the client refuses an invalid compilation. */
  function AfterReply(job: Job, c: Config, reply: Option<Reply>): Plan {
    if reply.None? || !ValidLocal(reply.value.compiled) || !Supports(job, reply.value.compiled) then Finish else
      var (text, source) := NewText(job, c);
      Commit(c.(text := text, source := source, compiled := reply.value.compiled,
                updatedAt := Some(reply.value.now)))
  }

  // The two stores

  datatype Storage = Storage(config: Option<Config>, pending: Option<Config>, stamp: Option<string>)

  datatype Outside = Outside(storage: Storage, active: seq<BrowserRule>)

  /** What the steps take as given: the digest of a configuration, the rules it asks for, and the
      browser's limit. */
  datatype Env = Env(stamp: Config -> string, desired: Config -> seq<BrowserRule>, maxRules: nat)

  function Effective(storage: Storage): Config {
    if storage.config.Some? then storage.config.value else EMPTY_CONFIG
  }

  function Ids(rules: seq<BrowserRule>): seq<nat> {
    if rules == [] then [] else [rules[0].id] + Ids(rules[1..])
  }

  function WithoutIds(rules: seq<BrowserRule>, ids: seq<nat>): seq<BrowserRule> {
    if rules == [] then []
    else if rules[0].id in ids then WithoutIds(rules[1..], ids)
    else [rules[0]] + WithoutIds(rules[1..], ids)
  }

  /** One atomic browser update. */
  function Replace(active: seq<BrowserRule>, removed: seq<nat>, added: seq<BrowserRule>): seq<BrowserRule> {
    WithoutIds(active, removed) + added
  }

  lemma {:induction false} IdsRemoveAll(rules: seq<BrowserRule>, ids: seq<nat>)
    requires forall r | r in rules :: r.id in ids
    ensures WithoutIds(rules, ids) == []
  {
    if rules != [] { IdsRemoveAll(rules[1..], ids); }
  }

  lemma {:induction false} IdsComplete(rules: seq<BrowserRule>)
    ensures forall r | r in rules :: r.id in Ids(rules)
  {
    if rules != [] {
      IdsComplete(rules[1..]);
      assert rules == [rules[0]] + rules[1..];
    }
  }

  /** Removing every active ID and adding rules installs exactly those rules. */
  lemma ReplaceInstalls(active: seq<BrowserRule>, added: seq<BrowserRule>)
    ensures Replace(active, Ids(active), added) == added
  {
    IdsComplete(active);
    IdsRemoveAll(active, Ids(active));
  }

  // The worker

  /** Where the worker is: what it awaits, or that it awaits nothing. */
  datatype Phase =
    | InitRead
    | InitDigest(stored: Storage)
    | InitRules(stored: Storage, stamp: string)
    | InitReplace(stored: Storage, stamp: string, ids: seq<nat>)
    | InitRemove(stored: Storage, stamp: string)
    | InitStamp(stamp: string)
    | Dead
    | Idle
    | Compiling
    | CommitDigest(next: Config)
    | CommitJournal(next: Config, stamp: string)
    | CommitRules(next: Config, stamp: string)
    | CommitReplace(next: Config, stamp: string, ids: seq<nat>)
    | CommitAbandon
    | CommitSave(next: Config, stamp: string)
    | RollbackRules
    | RollbackReplace(ids: seq<nat>)
    | RollbackRemove
    | CommitClear
    | CommitNotify

  /** What came back from the awaited call. */
  datatype Answer = Failed | Done | Stored(storage: Storage) | Listed(ids: seq<nat>) | Digest(stamp: string)

  datatype Ticket = Ticket(number: nat, job: Job)

  datatype Refresh = NoRefresh | WaitingReady(generation: nat, begun: nat) | Downloading(generation: nat, begun: nat) | Queued

  datatype Worker = Worker(
    config: Config,
    recovery: bool,
    activityReady: bool,
    phase: Phase,
    answer: Option<Answer>,
    queue: seq<Ticket>,
    current: Option<Ticket>,
    reply: Option<Reply>,
    refresh: Refresh,
    generation: nat)

  const NEW_WORKER := Worker(EMPTY_CONFIG, false, false, InitRead, None, [], None, None, NoRefresh, 0)

  /** The outside world performs the awaited call, completely or not at all. */
  function Perform(env: Env, o: Outside, w: Worker): (Outside, Answer) {
    match w.phase
    case InitRead => (o, Stored(o.storage))
    case InitDigest(_) => (o, Digest(env.stamp(w.config)))
    case InitRules(_, _) => (o, Listed(Ids(o.active)))
    case InitReplace(_, _, ids) => (o.(active := Replace(o.active, ids, env.desired(w.config))), Done)
    case InitRemove(_, _) => (o.(storage := o.storage.(pending := None)), Done)
    case InitStamp(stamp) => (o.(storage := o.storage.(stamp := Some(stamp))), Done)
    case CommitDigest(next) => (o, Digest(env.stamp(next)))
    case CommitJournal(next, _) => (o.(storage := o.storage.(pending := Some(next))), Done)
    case CommitRules(_, _) => (o, Listed(Ids(o.active)))
    case CommitReplace(next, _, ids) => (o.(active := Replace(o.active, ids, env.desired(next))), Done)
    case CommitAbandon => (o.(storage := o.storage.(pending := None)), Done)
    case CommitSave(next, stamp) => (o.(storage := o.storage.(config := Some(next), stamp := Some(stamp))), Done)
    case RollbackRules => (o, Listed(Ids(o.active)))
    case RollbackReplace(ids) => (o.(active := Replace(o.active, ids, env.desired(w.config))), Done)
    case RollbackRemove => (o.(storage := o.storage.(pending := None)), Done)
    case CommitClear => (o.(storage := o.storage.(pending := None)), Done)
    case CommitNotify => (o, Done)
    case _ => (o, Failed)
  }

  predicate Awaiting(phase: Phase) { !phase.Dead? && !phase.Idle? && !phase.Compiling? }

  function Go(w: Worker, phase: Phase): Worker { w.(phase := phase, answer := None) }

  /** The job's promise settles; a refresh is over with its job. */
  function EndJob(w: Worker): Worker {
    Go(w, Idle).(
      current := None, reply := None,
      refresh := if w.current.Some? && w.current.value.job.ApplyRefresh? then NoRefresh else w.refresh)
  }

  /** The `finally` block of a commit. */
  function EndCommit(w: Worker): Worker { EndJob(w.(activityReady := !w.recovery)) }

  function Latch(w: Worker): Worker { EndCommit(w.(recovery := true)) }

  /** The length check of `applyRules` before its first await. */
  function ApplyRules(env: Env, w: Worker, c: Config, first: Phase, tooMany: Worker): Worker {
    if |env.desired(c)| > env.maxRules then tooMany else Go(w, first)
  }

  function FinishInit(w: Worker): Worker { Go(w, Idle).(activityReady := true) }

  predicate NeedsReconciliation(stored: Storage, stamp: string) {
    stored.pending.Some? || (stored.config.Some? && stored.stamp != Some(stamp))
  }

  function AfterInitRules(stored: Storage, stamp: string, w: Worker): Worker {
    if stored.pending.Some? then Go(w, InitRemove(stored, stamp)) else AfterInitRemove(stored, stamp, w)
  }

  function AfterInitRemove(stored: Storage, stamp: string, w: Worker): Worker {
    if stored.config.Some? then Go(w, InitStamp(stamp)) else FinishInit(w)
  }

  /** `initialize` after an await. */
  function ResumeInit(env: Env, w: Worker): Worker
    requires w.answer.Some?
  {
    var answer := w.answer.value;
    match w.phase
    case InitRead =>
      if !answer.Stored? || (answer.storage.config.Some? && !ValidConfig(answer.storage.config.value)) then Go(w, Dead)
      else Go(w, InitDigest(answer.storage)).(config := Effective(answer.storage))
    case InitDigest(stored) =>
      if !answer.Digest? then Go(w, Dead)
      else if NeedsReconciliation(stored, answer.stamp) then
        ApplyRules(env, w, w.config, InitRules(stored, answer.stamp), Go(w, Dead))
      else FinishInit(w)
    case InitRules(stored, stamp) =>
      if answer.Listed? then Go(w, InitReplace(stored, stamp, answer.ids)) else Go(w, Dead)
    case InitReplace(stored, stamp, _) => if answer.Done? then AfterInitRules(stored, stamp, w) else Go(w, Dead)
    case InitRemove(stored, stamp) => if answer.Done? then AfterInitRemove(stored, stamp, w) else Go(w, Dead)
    case InitStamp(_) => if answer.Done? then FinishInit(w) else Go(w, Dead)
    case _ => Go(w, Dead)
  }

  /** `commit` up to the saved configuration. */
  function ResumeCommit(env: Env, w: Worker): Worker
    requires w.answer.Some?
  {
    var answer := w.answer.value;
    match w.phase
    case CommitDigest(next) =>
      if answer.Digest? then Go(w, CommitJournal(next, answer.stamp)).(activityReady := false) else EndJob(w)
    case CommitJournal(next, stamp) =>
      if answer.Done? then ApplyRules(env, w, next, CommitRules(next, stamp), Go(w, CommitAbandon)) else EndCommit(w)
    case CommitRules(next, stamp) =>
      if answer.Listed? then Go(w, CommitReplace(next, stamp, answer.ids)) else Go(w, CommitAbandon)
    case CommitReplace(next, stamp, _) => if answer.Done? then Go(w, CommitSave(next, stamp)) else Go(w, CommitAbandon)
    case CommitSave(next, _) =>
      if answer.Done? then Go(w, CommitClear).(config := next) else ApplyRules(env, w, w.config, RollbackRules, Latch(w))
    case CommitClear => Go(w, CommitNotify)
    case _ => EndCommit(w)
  }

  /** The rollback of a commit whose configuration could not be saved. */
  function ResumeRollback(w: Worker): Worker
    requires w.answer.Some?
  {
    var answer := w.answer.value;
    match w.phase
    case RollbackRules => if answer.Listed? then Go(w, RollbackReplace(answer.ids)) else Latch(w)
    case RollbackReplace(_) => if answer.Done? then Go(w, RollbackRemove) else Latch(w)
    case RollbackRemove => if answer.Done? then EndCommit(w) else Latch(w)
    case _ => Latch(w)
  }

  predicate InitPhase(phase: Phase) {
    phase.InitRead? || phase.InitDigest? || phase.InitRules? || phase.InitReplace? || phase.InitRemove? || phase.InitStamp?
  }

  predicate RollbackPhase(phase: Phase) {
    phase.RollbackRules? || phase.RollbackReplace? || phase.RollbackRemove?
  }

  predicate CommitPhase(phase: Phase) { Awaiting(phase) && !InitPhase(phase) && !RollbackPhase(phase) }

  function ResumeWorker(env: Env, w: Worker): Worker
    requires w.answer.Some?
  {
    if InitPhase(w.phase) then ResumeInit(env, w)
    else if RollbackPhase(w.phase) then ResumeRollback(w)
    else ResumeCommit(env, w)
  }

  function Follow(w: Worker, plan: Plan): Worker {
    match plan
    case Commit(next) => Go(w, CommitDigest(next))
    case AskCompanion => Go(w, Compiling)
    case Finish => EndJob(w)
  }

  /** The next queued job starts; after a start-up failure or a latched recovery error it is only
      told so. */
  function StartJob(w: Worker): Worker
    requires w.queue != []
  {
    var ticket := w.queue[0];
    var taken := w.(queue := w.queue[1..], current := Some(ticket), reply := None);
    if w.phase.Dead? then EndJob(taken).(phase := Dead)
    else if w.recovery then EndJob(taken)
    else
      var counted := if ticket.job.RemoveSubscriptions? then taken.(generation := w.generation + 1) else taken;
      Follow(counted, PlanJob(ticket.job, w.config, counted.generation))
  }

  /** The job that is over between the two workers. */
  function Ended(w: Worker, v: Worker): seq<Ticket> {
    if w.current.Some? && v.current.None? then [w.current.value] else []
  }

  // The whole system

  /** A configuration that reached storage: its job, what the companion had answered, and when. */
  datatype Entry = Entry(ticket: Ticket, reply: Option<Reply>, at: nat)

  datatype State = State(
    outside: Outside,
    worker: Option<Worker>,
    clock: nat,
    tickets: nat,
    /** History: saved configurations in order, and when subscriptions were removed. */
    log: seq<Entry>,
    removals: set<nat>,
    /** Jobs whose callers were told that their configuration is saved. */
    told: seq<Ticket>,
    /** Jobs whose callers were told something else: a failure, or that nothing was to be saved. */
    unsaved: seq<Ticket>)

  datatype Event =
    | Boot
    | Crash
    | Serve(ok: bool)
    | Resume
    | Answered(reply: Option<Reply>)
    | Submit(job: Job)
    | RunJob
    | BeginRefresh
    | RefreshReady
    | Fetched(result: Option<Subscriptions>)

  /** The network rules a refresh may fetch: room is kept for all local rules and site overrides. */
  function Budget(env: Env): nat {
    var room := env.maxRules - MAX_RULES - MAX_SITES;
    if room < 0 then 0 else if room < MAX_SUBSCRIPTION_NETWORK then room else MAX_SUBSCRIPTION_NETWORK
  }

  /** What the client lets a refresh return. */
  predicate WithinBudget(env: Env, fetched: Subscriptions) {
    ValidSubscriptions(fetched) && |fetched.compiled.network| <= Budget(env)
  }

  predicate ReadyPhase(phase: Phase) { !InitPhase(phase) && !phase.Dead? }

  function ServeCall(env: Env, s: State, w: Worker, ok: bool): State {
    if !ok then s.(worker := Some(w.(answer := Some(Failed)))) else
      var (o, answer) := Perform(env, s.outside, w);
      var saved := if w.phase.CommitSave? && w.current.Some? then [Entry(w.current.value, w.reply, s.clock)] else [];
      s.(outside := o, worker := Some(w.(answer := Some(answer))), log := s.log + saved)
  }

  function Enqueue(s: State, w: Worker, job: Job): State {
    s.(worker := Some(w.(queue := w.queue + [Ticket(s.tickets, job)])), tickets := s.tickets + 1)
  }

  function WorkerStep(env: Env, s: State, w: Worker, e: Event): State {
    match e
    case Boot => s
    case Crash => s.(worker := None)
    case Serve(ok) => if Awaiting(w.phase) && w.answer.None? then ServeCall(env, s, w, ok) else s
    case Resume =>
      if Awaiting(w.phase) && w.answer.Some? then
        s.(worker := Some(ResumeWorker(env, w)),
           told := s.told + (if w.phase.CommitNotify? && w.current.Some? then [w.current.value] else []),
           unsaved := s.unsaved + if w.phase.CommitNotify? then [] else Ended(w, ResumeWorker(env, w)))
      else s
    case Answered(reply) =>
      if w.phase.Compiling? && w.current.Some? then
        var v := Follow(w.(reply := reply), AfterReply(w.current.value.job, w.config, reply));
        s.(worker := Some(v), unsaved := s.unsaved + Ended(w, v))
      else s
    case Submit(job) => if job.ApplyRefresh? then s else Enqueue(s, w, job)
    case RunJob =>
      if (w.phase.Idle? || w.phase.Dead?) && w.queue != [] then
        s.(worker := Some(StartJob(w)),
           unsaved := s.unsaved + Ended(w.(current := Some(w.queue[0])), StartJob(w)),
           removals := s.removals
                       + if w.phase.Idle? && !w.recovery && w.queue[0].job.RemoveSubscriptions? then {s.clock} else {})
      else s
    case BeginRefresh =>
      if w.refresh != NoRefresh then s
      else s.(worker := Some(w.(generation := w.generation + 1, refresh := WaitingReady(w.generation + 1, s.clock))))
    case RefreshReady =>
      if !w.refresh.WaitingReady? then s
      else if ReadyPhase(w.phase) && !w.recovery then
        s.(worker := Some(w.(refresh := Downloading(w.refresh.generation, w.refresh.begun))))
      else if w.phase.Dead? || w.recovery then s.(worker := Some(w.(refresh := NoRefresh)))
      else s
    case Fetched(result) =>
      if !w.refresh.Downloading? then s
      else if result.None? || !WithinBudget(env, result.value) then s.(worker := Some(w.(refresh := NoRefresh)))
      else Enqueue(s, w.(refresh := Queued), ApplyRefresh(w.refresh.generation, result.value, w.refresh.begun))
  }

  /** One event; an event that cannot happen changes nothing but the clock. */
  function Next(env: Env, s: State, e: Event): State {
    var after :=
      if s.worker.Some? then WorkerStep(env, s, s.worker.value, e)
      else if e.Boot? then s.(worker := Some(NEW_WORKER))
      else s;
    after.(clock := s.clock + 1)
  }

  function Run(env: Env, s: State, events: seq<Event>): State {
    if events == [] then s else Next(env, Run(env, s, events[..|events| - 1]), events[|events| - 1])
  }

  /** `describeActivityRule` at any moment between two steps. */
  function DescribeNow(s: State, id: int): Option<RuleInfo> {
    if s.worker.Some? && s.worker.value.activityReady && !s.worker.value.recovery then
      Describe(s.worker.value.config, id)
    else None
  }
}
