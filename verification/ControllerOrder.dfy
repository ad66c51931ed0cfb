/** Jobs are applied one after the other, in the order in which they were queued, and a removed
    subscription never comes back through a refresh that was already under way. */
module ControllerOrder {
  import opened Text
  import opened Controller
  import opened ControllerSteps
  import opened ControllerSafety

  // Replaying the saved jobs

  function OwnGeneration(job: Job): nat {
    if job.ApplyRefresh? then job.generation else 0
  }

  /** What a job comes to, given the companion's answer. */
  function PlanOf(job: Job, reply: Option<Reply>, c: Config): Plan {
    match PlanJob(job, c, OwnGeneration(job))
    case AskCompanion => AfterReply(job, c, reply)
    case plan => plan
  }

  /** What a job makes of a configuration. */
  function Applied(job: Job, reply: Option<Reply>, c: Config): Config {
    if PlanOf(job, reply, c).Commit? then PlanOf(job, reply, c).next else c
  }

  /** The configuration after the saved jobs, one after the other. */
  function Replay(base: Config, log: seq<Entry>): Config {
    if log == [] then base else
      var last := log[|log| - 1];
      Applied(last.ticket.job, last.reply, Replay(base, log[..|log| - 1]))
  }

  /** A job plans the same commit whatever the generation, when it plans one at all. */
  lemma PlanIgnoresGeneration(job: Job, c: Config, generation: nat)
    requires PlanJob(job, c, generation) != Finish
    ensures PlanJob(job, c, OwnGeneration(job)) == PlanJob(job, c, generation)
  {
  }

  /** A commit saves what its job makes of the worker's configuration. */
  ghost predicate CommitsJob(w: Worker) {
    && (NextOf(w.phase).Some? ==>
          w.current.Some? && PlanOf(w.current.value.job, w.reply, w.config) == Commit(NextOf(w.phase).value))
    && (w.phase.Compiling? ==>
          w.current.Some? && PlanJob(w.current.value.job, w.config, OwnGeneration(w.current.value.job)) == AskCompanion)
  }

  /** Every saved job came to a commit on the configuration left by the jobs before it. */
  ghost predicate LogCommits(base: Config, log: seq<Entry>) {
    forall i | 0 <= i < |log| :: PlanOf(log[i].ticket.job, log[i].reply, Replay(base, log[..i])).Commit?
  }

  ghost predicate ReplayInv(base: Config, s: State) {
    && Effective(s.outside.storage) == Replay(base, s.log) && LogCommits(base, s.log)
    && (s.worker.Some? ==> CommitsJob(s.worker.value))
  }

  lemma LogCommitsSnoc(base: Config, log: seq<Entry>, e: Entry)
    requires LogCommits(base, log) && PlanOf(e.ticket.job, e.reply, Replay(base, log)).Commit?
    ensures LogCommits(base, log + [e])
  {
    var all := log + [e];
    forall i | 0 <= i < |all| ensures PlanOf(all[i].ticket.job, all[i].reply, Replay(base, all[..i])).Commit? {
      assert all[..i] == if i < |log| then log[..i] else log;
    }
  }

  lemma StartCommits(w: Worker)
    requires w.queue != []
    ensures CommitsJob(StartJob(w))
  {
    var ticket := w.queue[0];
    var generation := if ticket.job.RemoveSubscriptions? then w.generation + 1 else w.generation;
    if PlanJob(ticket.job, w.config, generation) != Finish {
      PlanIgnoresGeneration(ticket.job, w.config, generation);
    }
  }

  lemma AnsweredCommits(w: Worker, reply: Option<Reply>)
    requires CommitsJob(w) && w.phase.Compiling? && w.current.Some?
    ensures CommitsJob(Follow(w.(reply := reply), AfterReply(w.current.value.job, w.config, reply)))
  {
    AfterReplyNeverAsks(w.current.value.job, w.config, reply);
  }

  lemma AfterReplyNeverAsks(job: Job, c: Config, reply: Option<Reply>)
    ensures !AfterReply(job, c, reply).AskCompanion?
  {
  }

  /** Between two calls the reply and the job of an unfinished commit stay. */
  ghost predicate KeepsJob(w: Worker, v: Worker) {
    && !v.phase.Compiling?
    && (NextOf(v.phase).Some? ==>
          !w.phase.CommitSave? && NextOf(v.phase) == NextOf(w.phase) && v.current == w.current && v.reply == w.reply && v.config == w.config)
  }

  lemma ResumeKeepsJob(env: Env, w: Worker)
    requires w.answer.Some? && Awaiting(w.phase)
    ensures KeepsJob(w, ResumeWorker(env, w))
  {
    if InitPhase(w.phase) { InitStarts(env, w); }
    else if RollbackPhase(w.phase) { RollbackEnds(w); }
    else { CommitContinues(env, w); }
  }

  lemma InitStarts(env: Env, w: Worker)
    requires w.answer.Some? && InitPhase(w.phase)
    ensures KeepsJob(w, ResumeInit(env, w))
  {
  }

  lemma RollbackEnds(w: Worker)
    requires w.answer.Some? && RollbackPhase(w.phase)
    ensures KeepsJob(w, ResumeRollback(w))
  {
  }

  lemma CommitContinues(env: Env, w: Worker)
    requires w.answer.Some? && CommitPhase(w.phase)
    ensures KeepsJob(w, ResumeCommit(env, w))
  {
  }

  lemma ReplaySnoc(base: Config, log: seq<Entry>, e: Entry)
    ensures Replay(base, log + [e]) == Applied(e.ticket.job, e.reply, Replay(base, log))
  {
    assert (log + [e])[..|log|] == log;
  }

  lemma SaveReplays(env: Env, base: Config, s: State, w: Worker)
    requires s.worker == Some(w) && w.config == Effective(s.outside.storage) && ReplayInv(base, s)
    requires w.phase.CommitSave? && w.answer.None?
    ensures ReplayInv(base, ServeCall(env, s, w, true))
  {
    var entry := Entry(w.current.value, w.reply, s.clock);
    ReplaySnoc(base, s.log, entry);
    LogCommitsSnoc(base, s.log, entry);
    assert ServeCall(env, s, w, true).log == s.log + [entry];
  }

  /** Saving a configuration appends its job to the history; no other call changes what is
      committed. */
  lemma ServeReplays(env: Env, base: Config, s: State, w: Worker, ok: bool)
    requires s.worker == Some(w) && WorkerInv(env, s.outside, w) && ReplayInv(base, s)
    requires Awaiting(w.phase) && w.answer.None?
    ensures ReplayInv(base, ServeCall(env, s, w, ok))
  {
    if ok && w.phase.CommitSave? {
      SaveReplays(env, base, s, w);
    } else {
      assert ServeCall(env, s, w, ok).log == s.log;
      if ok { CallKeepsConfig(env, s.outside, w); }
    }
  }

  lemma CallKeepsConfig(env: Env, o: Outside, w: Worker)
    requires !w.phase.CommitSave?
    ensures Perform(env, o, w).0.storage.config == o.storage.config
  {
  }

  lemma StepReplays(env: Env, base: Config, s: State, w: Worker, e: Event)
    requires s.worker == Some(w) && WorkerInv(env, s.outside, w) && ReplayInv(base, s)
    ensures ReplayInv(base, WorkerStep(env, s, w, e))
  {
    match e {
      case Serve(ok) => if Awaiting(w.phase) && w.answer.None? { ServeReplays(env, base, s, w, ok); }
      case Resume => if Awaiting(w.phase) && w.answer.Some? { ResumeKeepsJob(env, w); }
      case Answered(reply) => if w.phase.Compiling? && w.current.Some? { AnsweredCommits(w, reply); }
      case RunJob => if (w.phase.Idle? || w.phase.Dead?) && w.queue != [] { StartCommits(w); }
      case _ => QueueStepKeepsJob(env, s, w, e);
    }
  }

  lemma QueueStepKeepsJob(env: Env, s: State, w: Worker, e: Event)
    requires s.worker == Some(w)
    requires e.Boot? || e.Crash? || e.Submit? || e.BeginRefresh? || e.RefreshReady? || e.Fetched?
    ensures var t := WorkerStep(env, s, w, e);
            t.outside == s.outside && t.log == s.log && t.removals == s.removals && t.told == s.told && t.unsaved == s.unsaved
            && (t.worker.Some? ==>
                  t.worker.value == w.(queue := t.worker.value.queue, refresh := t.worker.value.refresh,
                                       generation := t.worker.value.generation))
  {
  }

  /** A system without history. */
  ghost predicate Fresh(env: Env, s: State) {
    Startable(env, s) && s.log == [] && s.removals == {} && s.told == [] && s.unsaved == []
  }

  lemma {:induction false} RunReplays(env: Env, s: State, events: seq<Event>)
    requires Fresh(env, s)
    ensures ReplayInv(Effective(s.outside.storage), Run(env, s, events))
  {
    if events != [] {
      var front := events[..|events| - 1];
      RunReplays(env, s, front);
      RunKeeps(env, s, front);
      var t := Run(env, s, front);
      if t.worker.Some? { StepReplays(env, Effective(s.outside.storage), t, t.worker.value, events[|events| - 1]); }
    }
  }

  // The order of the queue

  ghost predicate Ascending(queue: seq<Ticket>) {
    forall i, j | 0 <= i < j < |queue| :: queue[i].number < queue[j].number
  }

  ghost predicate LogAscending(log: seq<Entry>) {
    forall i, j | 0 <= i < j < |log| :: log[i].ticket.number < log[j].ticket.number
  }

  ghost predicate LogBelow(log: seq<Entry>, bound: nat) {
    forall i | 0 <= i < |log| :: log[i].ticket.number < bound
  }

  ghost predicate QueueWithin(queue: seq<Ticket>, log: seq<Entry>, tickets: nat) {
    forall i | 0 <= i < |queue| :: queue[i].number < tickets && LogBelow(log, queue[i].number)
  }

  /** The current job has not been saved yet. */
  predicate Unsaved(w: Worker) {
    w.phase.Compiling? || (NextOf(w.phase).Some? && !(w.phase.CommitSave? && w.answer == Some(Done)))
  }

  ghost predicate CurrentFirst(w: Worker) {
    Unsaved(w) ==> w.current.Some? && forall i | 0 <= i < |w.queue| :: w.current.value.number < w.queue[i].number
  }

  ghost predicate OrderInv(s: State) {
    && LogAscending(s.log) && LogBelow(s.log, s.tickets)
    && (s.worker.Some? ==>
          var w := s.worker.value;
          && Ascending(w.queue) && QueueWithin(w.queue, s.log, s.tickets) && CurrentFirst(w)
          && (Unsaved(w) ==> LogBelow(s.log, w.current.value.number) && w.current.value.number < s.tickets))
  }

  lemma SubmitOrdered(s: State, w: Worker, job: Job)
    requires s.worker == Some(w) && OrderInv(s)
    ensures OrderInv(Enqueue(s, w, job))
  {
  }

  lemma SaveOrdered(env: Env, s: State, w: Worker, ok: bool)
    requires s.worker == Some(w) && OrderInv(s) && Awaiting(w.phase) && w.answer.None?
    ensures OrderInv(ServeCall(env, s, w, ok))
  {
  }

  lemma StartOrdered(s: State, w: Worker, v: Worker)
    requires s.worker == Some(w) && OrderInv(s) && w.queue != []
    requires v.queue == w.queue[1..] && (Unsaved(v) ==> v.current == Some(w.queue[0]))
    ensures OrderInv(s.(worker := Some(v)))
  {
    assert Ascending(v.queue);
  }

  lemma StartJobTakes(w: Worker)
    requires w.queue != []
    ensures StartJob(w).queue == w.queue[1..]
    ensures Unsaved(StartJob(w)) ==> StartJob(w).current == Some(w.queue[0])
  {
  }

  lemma ResumeOrdered(s: State, w: Worker, v: Worker)
    requires s.worker == Some(w) && OrderInv(s) && w.answer.Some? && Carries(w, v) && KeepsJob(w, v)
    ensures OrderInv(s.(worker := Some(v)))
  {
  }

  lemma StepOrdered(env: Env, s: State, w: Worker, e: Event)
    requires s.worker == Some(w) && OrderInv(s)
    ensures OrderInv(WorkerStep(env, s, w, e))
  {
    match e {
      case Serve(ok) => if Awaiting(w.phase) && w.answer.None? { SaveOrdered(env, s, w, ok); }
      case Resume =>
        if Awaiting(w.phase) && w.answer.Some? {
          ResumeCarries(env, w);
          ResumeKeepsJob(env, w);
          ResumeOrdered(s, w, ResumeWorker(env, w));
        }
      case RunJob =>
        if (w.phase.Idle? || w.phase.Dead?) && w.queue != [] {
          StartJobTakes(w);
          StartOrdered(s, w, StartJob(w));
        }
      case _ => QueueStepOrdered(env, s, w, e);
    }
  }

  lemma FetchedOrdered(s: State, w: Worker, fetched: Subscriptions)
    requires s.worker == Some(w) && OrderInv(s) && w.refresh.Downloading?
    ensures OrderInv(Enqueue(s, w.(refresh := Queued), ApplyRefresh(w.refresh.generation, fetched, w.refresh.begun)))
  {
    var v := w.(refresh := Queued);
    SubmitOrdered(s.(worker := Some(v)), v, ApplyRefresh(w.refresh.generation, fetched, w.refresh.begun));
  }

  lemma QueueStepOrdered(env: Env, s: State, w: Worker, e: Event)
    requires s.worker == Some(w) && OrderInv(s)
    requires !e.Serve? && !e.Resume? && !e.RunJob?
    ensures OrderInv(WorkerStep(env, s, w, e))
  {
    match e {
      case Answered(reply) =>
        if w.phase.Compiling? && w.current.Some? {
          FollowOrdered(s, w, reply, AfterReply(w.current.value.job, w.config, reply));
        }
      case Submit(job) => SubmitOrdered(s, w, job);
      case Fetched(result) =>
        if w.refresh.Downloading? && result.Some? { FetchedOrdered(s, w, result.value); }
      case _ =>
    }
  }

  lemma FollowOrdered(s: State, w: Worker, reply: Option<Reply>, plan: Plan)
    requires s.worker == Some(w) && OrderInv(s) && w.phase.Compiling?
    ensures OrderInv(s.(worker := Some(Follow(w.(reply := reply), plan))))
  {
  }

  lemma {:induction false} RunOrdered(env: Env, s: State, events: seq<Event>)
    requires Fresh(env, s)
    ensures OrderInv(Run(env, s, events))
  {
    if events != [] {
      var front := events[..|events| - 1];
      RunOrdered(env, s, front);
      var t := Run(env, s, front);
      if t.worker.Some? { StepOrdered(env, t, t.worker.value, events[|events| - 1]); }
    }
  }

  // What callers were told

  ghost predicate Logged(log: seq<Entry>, ticket: Ticket) {
    exists i :: 0 <= i < |log| && log[i].ticket == ticket
  }

  ghost predicate AllLogged(log: seq<Entry>, tickets: seq<Ticket>) {
    forall i | 0 <= i < |tickets| :: Logged(log, tickets[i])
  }

  /** The current job's configuration is in storage, though its caller does not know yet. */
  predicate Saved(w: Worker) {
    (w.phase.CommitSave? && w.answer == Some(Done)) || w.phase.CommitClear? || w.phase.CommitNotify?
  }

  ghost predicate ToldInv(s: State) {
    AllLogged(s.log, s.told)
    && (s.worker.Some? && Saved(s.worker.value) && s.worker.value.current.Some? ==>
          Logged(s.log, s.worker.value.current.value))
  }

  lemma LogGrows(log: seq<Entry>, more: seq<Entry>, tickets: seq<Ticket>)
    requires AllLogged(log, tickets)
    ensures AllLogged(log + more, tickets)
    ensures forall t :: Logged(log, t) ==> Logged(log + more, t)
    ensures forall i | 0 <= i < |more| :: Logged(log + more, more[i].ticket)
  {
    forall t | Logged(log, t) ensures Logged(log + more, t) {
      var i :| 0 <= i < |log| && log[i].ticket == t;
      assert (log + more)[i].ticket == t;
    }
    forall i | 0 <= i < |more| ensures Logged(log + more, more[i].ticket) {
      assert (log + more)[|log| + i] == more[i];
    }
  }

  lemma ServeTold(env: Env, s: State, w: Worker, ok: bool)
    requires s.worker == Some(w) && ToldInv(s) && Awaiting(w.phase) && w.answer.None?
    ensures ToldInv(ServeCall(env, s, w, ok))
  {
    if ok {
      var saved := if w.phase.CommitSave? && w.current.Some? then [Entry(w.current.value, w.reply, s.clock)] else [];
      LogGrows(s.log, saved, s.told);
      if saved != [] { assert saved[0].ticket == w.current.value; }
    }
  }

  lemma ResumeSaved(env: Env, w: Worker)
    requires w.answer.Some? && Awaiting(w.phase) && Saved(ResumeWorker(env, w))
    ensures Saved(w) && ResumeWorker(env, w).current == w.current
  {
    if InitPhase(w.phase) { InitUnsaved(env, w); }
    else if RollbackPhase(w.phase) { RollbackUnsaved(w); }
    else { CommitSaved(env, w); }
  }

  lemma InitUnsaved(env: Env, w: Worker)
    requires w.answer.Some? && InitPhase(w.phase)
    ensures !Saved(ResumeInit(env, w))
  {
  }

  lemma RollbackUnsaved(w: Worker)
    requires w.answer.Some? && RollbackPhase(w.phase)
    ensures !Saved(ResumeRollback(w))
  {
  }

  lemma CommitSaved(env: Env, w: Worker)
    requires w.answer.Some? && CommitPhase(w.phase) && Saved(ResumeCommit(env, w))
    ensures Saved(w) && ResumeCommit(env, w).current == w.current
  {
  }

  lemma ResumeTold(env: Env, s: State, w: Worker)
    requires s.worker == Some(w) && ToldInv(s) && Awaiting(w.phase) && w.answer.Some?
    ensures ToldInv(WorkerStep(env, s, w, Resume))
  {
    if Saved(ResumeWorker(env, w)) { ResumeSaved(env, w); }
  }

  lemma StepTold(env: Env, s: State, w: Worker, e: Event)
    requires s.worker == Some(w) && ToldInv(s)
    ensures ToldInv(WorkerStep(env, s, w, e))
  {
    match e {
      case Serve(ok) => if Awaiting(w.phase) && w.answer.None? { ServeTold(env, s, w, ok); }
      case Resume => if Awaiting(w.phase) && w.answer.Some? { ResumeTold(env, s, w); }
      case Answered(reply) =>
      case RunJob =>
      case _ => QueueStepKeepsJob(env, s, w, e);
    }
  }

  lemma {:induction false} RunTold(env: Env, s: State, events: seq<Event>)
    requires Fresh(env, s)
    ensures ToldInv(Run(env, s, events))
  {
    if events != [] {
      var front := events[..|events| - 1];
      RunTold(env, s, front);
      var t := Run(env, s, front);
      if t.worker.Some? { StepTold(env, t, t.worker.value, events[|events| - 1]); }
    }
  }

  // What the other callers were told

  ghost predicate NotLogged(log: seq<Entry>, number: nat) {
    forall i | 0 <= i < |log| :: log[i].ticket.number != number
  }

  /** Numbers below everything that may still be saved. */
  ghost predicate Past(s: State, number: nat) {
    && number < s.tickets
    && (s.worker.Some? ==>
          var w := s.worker.value;
          && (forall i | 0 <= i < |w.queue| :: number < w.queue[i].number)
          && (w.current.Some? ==> number < w.current.value.number))
  }

  ghost predicate CurrentApart(s: State, w: Worker) {
    w.current.Some? ==>
      && w.current.value.number < s.tickets
      && (forall i | 0 <= i < |w.queue| :: w.current.value.number < w.queue[i].number)
      && (!Saved(w) ==> NotLogged(s.log, w.current.value.number))
  }

  ghost predicate AllPast(s: State) {
    forall i | 0 <= i < |s.unsaved| :: NotLogged(s.log, s.unsaved[i].number) && Past(s, s.unsaved[i].number)
  }

  ghost predicate UnsavedInv(s: State) {
    AllPast(s) && (s.worker.Some? ==> CurrentApart(s, s.worker.value))
  }

  /** The worker goes on: the same queue, and the same job or none. */
  lemma WorkerGoesOn(s: State, w: Worker, v: Worker, ended: seq<Ticket>)
    requires s.worker == Some(w) && UnsavedInv(s) && v.queue == w.queue && (v.current == w.current || v.current.None?)
    requires Saved(w) && v.current.Some? ==> Saved(v)
    requires ended == [] || (w.current.Some? && v.current.None? && !Saved(w) && ended == [w.current.value])
    ensures UnsavedInv(s.(worker := Some(v), unsaved := s.unsaved + ended))
  {
  }

  lemma EndedUnsaved(env: Env, w: Worker)
    requires w.answer.Some? && Awaiting(w.phase)
    ensures Saved(w) && !w.phase.CommitNotify? ==> Ended(w, ResumeWorker(env, w)) == []
    ensures Saved(w) && ResumeWorker(env, w).current.Some? ==> Saved(ResumeWorker(env, w)) || w.phase.CommitNotify?
    ensures w.phase.CommitNotify? ==> ResumeWorker(env, w).current.None?
  {
  }

  lemma ResumeUnsaved(env: Env, s: State, w: Worker)
    requires s.worker == Some(w) && UnsavedInv(s) && Awaiting(w.phase) && w.answer.Some?
    ensures UnsavedInv(WorkerStep(env, s, w, Resume))
  {
    var v := ResumeWorker(env, w);
    ResumeCarries(env, w);
    EndedUnsaved(env, w);
    WorkerGoesOn(s, w, v, if w.phase.CommitNotify? then [] else Ended(w, v));
  }

  lemma ServeUnsaved(env: Env, s: State, w: Worker, ok: bool)
    requires s.worker == Some(w) && UnsavedInv(s) && Awaiting(w.phase) && w.answer.None?
    ensures UnsavedInv(ServeCall(env, s, w, ok))
  {
  }

  lemma AnsweredUnsaved(s: State, w: Worker, reply: Option<Reply>, plan: Plan)
    requires s.worker == Some(w) && UnsavedInv(s) && w.phase.Compiling? && w.current.Some?
    ensures var v := Follow(w.(reply := reply), plan);
            UnsavedInv(s.(worker := Some(v), unsaved := s.unsaved + Ended(w, v)))
  {
    var v := Follow(w.(reply := reply), plan);
    WorkerGoesOn(s, w, v, Ended(w, v));
  }

  /** The worker takes the first job of its queue. */
  lemma TakenApart(s: State, w: Worker)
    requires s.worker == Some(w) && UnsavedInv(s) && OrderInv(s) && w.queue != []
    ensures var u := w.(queue := w.queue[1..], current := Some(w.queue[0]), phase := Idle, answer := None);
            UnsavedInv(s.(worker := Some(u)))
  {
  }

  lemma StartJobEnds(w: Worker)
    requires w.queue != []
    ensures var v := StartJob(w);
            v.queue == w.queue[1..] && (v.current == Some(w.queue[0]) || v.current.None?) && !Saved(v)
  {
  }

  lemma StartUnsaved(env: Env, s: State, w: Worker)
    requires s.worker == Some(w) && UnsavedInv(s) && OrderInv(s) && (w.phase.Idle? || w.phase.Dead?) && w.queue != []
    ensures UnsavedInv(WorkerStep(env, s, w, RunJob))
  {
    var u, v := w.(queue := w.queue[1..], current := Some(w.queue[0]), phase := Idle, answer := None), StartJob(w);
    TakenApart(s, w);
    StartJobEnds(w);
    WorkerGoesOn(s.(worker := Some(u)), u, v, Ended(u, v));
    assert Ended(u, v) == Ended(w.(current := Some(w.queue[0])), v);
  }

  lemma EnqueueUnsaved(s: State, w: Worker, job: Job)
    requires s.worker == Some(w) && UnsavedInv(s)
    ensures UnsavedInv(Enqueue(s, w, job))
  {
  }

  lemma BookkeepingUnsaved(s: State, w: Worker, v: Worker)
    requires s.worker == Some(w) && UnsavedInv(s) && v == w.(refresh := v.refresh, generation := v.generation)
    ensures UnsavedInv(s.(worker := Some(v)))
  {
  }

  lemma QueueStepUnsaved(env: Env, s: State, w: Worker, e: Event)
    requires s.worker == Some(w) && UnsavedInv(s)
    requires e.Boot? || e.Crash? || e.Submit? || e.BeginRefresh? || e.RefreshReady? || e.Fetched?
    ensures UnsavedInv(WorkerStep(env, s, w, e))
  {
    match e {
      case Submit(job) => if !job.ApplyRefresh? { EnqueueUnsaved(s, w, job); }
      case BeginRefresh =>
        BookkeepingUnsaved(s, w, w.(generation := w.generation + 1, refresh := WaitingReady(w.generation + 1, s.clock)));
      case RefreshReady =>
        BookkeepingUnsaved(s, w, w.(refresh := NoRefresh));
        if w.refresh.WaitingReady? {
          BookkeepingUnsaved(s, w, w.(refresh := Downloading(w.refresh.generation, w.refresh.begun)));
        }
      case Fetched(result) =>
        BookkeepingUnsaved(s, w, w.(refresh := NoRefresh));
        if w.refresh.Downloading? && result.Some? {
          var v := w.(refresh := Queued);
          BookkeepingUnsaved(s, w, v);
          EnqueueUnsaved(s.(worker := Some(v)), v, ApplyRefresh(w.refresh.generation, result.value, w.refresh.begun));
        }
      case _ =>
    }
  }

  lemma StepUnsaved(env: Env, s: State, w: Worker, e: Event)
    requires s.worker == Some(w) && UnsavedInv(s) && OrderInv(s)
    ensures UnsavedInv(WorkerStep(env, s, w, e))
  {
    match e {
      case Serve(ok) => if Awaiting(w.phase) && w.answer.None? { ServeUnsaved(env, s, w, ok); }
      case Resume => if Awaiting(w.phase) && w.answer.Some? { ResumeUnsaved(env, s, w); }
      case Answered(reply) =>
        if w.phase.Compiling? && w.current.Some? {
          AnsweredUnsaved(s, w, reply, AfterReply(w.current.value.job, w.config, reply));
        }
      case RunJob => if (w.phase.Idle? || w.phase.Dead?) && w.queue != [] { StartUnsaved(env, s, w); }
      case _ => QueueStepUnsaved(env, s, w, e);
    }
  }

  lemma Ticks(s: State)
    requires UnsavedInv(s)
    ensures UnsavedInv(s.(clock := s.clock + 1))
  {
  }

  lemma {:induction false} RunUnsaved(env: Env, s: State, events: seq<Event>)
    requires Fresh(env, s)
    ensures UnsavedInv(Run(env, s, events))
  {
    if events != [] {
      var front, e := events[..|events| - 1], events[|events| - 1];
      RunUnsaved(env, s, front);
      RunOrdered(env, s, front);
      var t := Run(env, s, front);
      if t.worker.Some? {
        StepUnsaved(env, t, t.worker.value, e);
        Ticks(WorkerStep(env, t, t.worker.value, e));
      }
    }
  }

  ghost predicate NoneLogged(log: seq<Entry>, tickets: seq<Ticket>) {
    forall i | 0 <= i < |tickets| :: !Logged(log, tickets[i])
  }

  /** No update is lost and none is made up: whatever the interleaving of queued jobs, refreshes,
      failures and crashes, the committed configuration is the initial one after exactly the saved
      jobs, each applied to the result of the one before, in the order in which they were queued;
      every job whose caller was told that its configuration is saved is one of them, and no job
      whose caller was told anything else. */
  lemma NoLostUpdates(env: Env, s: State, events: seq<Event>)
    requires Fresh(env, s)
    ensures var t := Run(env, s, events);
            && Effective(t.outside.storage) == Replay(Effective(s.outside.storage), t.log) && LogAscending(t.log)
            && AllLogged(t.log, t.told) && NoneLogged(t.log, t.unsaved)
  {
    RunReplays(env, s, events);
    RunOrdered(env, s, events);
    RunTold(env, s, events);
    RunUnsaved(env, s, events);
  }
}
