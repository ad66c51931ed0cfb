/** Removing subscriptions wins over every refresh that began before it. */
module ControllerRefresh {
  import opened Text
  import opened ControllerSteps
  import opened ControllerSafety
  import opened ControllerOrder

  ghost predicate AllBefore(removals: set<nat>, time: nat) {
    forall t | t in removals :: t < time
  }

  /** An unfinished refresh: either some later change has a newer generation, or nothing was removed
      since it began. */
  ghost predicate Held(s: State, generation: nat, current: nat, begun: nat) {
    begun < s.clock && generation <= current && (generation == current ==> AllBefore(s.removals, begun))
  }

  ghost predicate JobHeld(s: State, current: nat, job: Job) {
    job.ApplyRefresh? ==> Held(s, job.generation, current, job.begun)
  }

  ghost predicate QueueHeld(s: State, current: nat, queue: seq<Ticket>) {
    forall i | 0 <= i < |queue| :: JobHeld(s, current, queue[i].job)
  }

  ghost predicate RefreshHeld(s: State, current: nat, refresh: Refresh) {
    refresh.WaitingReady? || refresh.Downloading? ==> Held(s, refresh.generation, current, refresh.begun)
  }

  /** A refresh that passed its generation check has seen no removal since it began. */
  ghost predicate CurrentHeld(s: State, w: Worker) {
    Unsaved(w) && w.current.Some? && w.current.value.job.ApplyRefresh? ==>
      AllBefore(s.removals, w.current.value.job.begun)
  }

  /** No removal fell between a saved refresh's beginning and its saving. */
  ghost predicate NoneBetween(removals: set<nat>, e: Entry) {
    e.ticket.job.ApplyRefresh? ==> forall t | t in removals :: t < e.ticket.job.begun || e.at < t
  }

  ghost predicate LogClean(s: State) {
    forall i | 0 <= i < |s.log| :: s.log[i].at < s.clock && NoneBetween(s.removals, s.log[i])
  }

  ghost predicate WorkerHeld(s: State, w: Worker) {
    RefreshHeld(s, w.generation, w.refresh) && QueueHeld(s, w.generation, w.queue) && CurrentHeld(s, w)
  }

  ghost predicate RefreshInv(s: State) {
    AllBefore(s.removals, s.clock) && LogClean(s) && (s.worker.Some? ==> WorkerHeld(s, s.worker.value))
  }

  lemma ServeHeld(env: Env, s: State, w: Worker, ok: bool)
    requires s.worker == Some(w) && RefreshInv(s) && Awaiting(w.phase) && w.answer.None?
    ensures RefreshInv(Tick(ServeCall(env, s, w, ok)))
  {
    var t := Tick(ServeCall(env, s, w, ok));
    if ok && w.phase.CommitSave? && w.current.Some? {
      assert Unsaved(w);
      assert NoneBetween(s.removals, Entry(w.current.value, w.reply, s.clock));
    }
    assert CurrentHeld(t, t.worker.value);
  }

  function Tick(s: State): State { s.(clock := s.clock + 1) }

  /** Time passes, and the worker changes only where nothing depends on it. */
  lemma WorkerReplaced(s: State, w: Worker, v: Worker)
    requires s.worker == Some(w) && RefreshInv(s)
    requires v.generation == w.generation && v.queue == w.queue
    requires v.refresh == w.refresh || v.refresh == NoRefresh
    requires Unsaved(v) ==> Unsaved(w) && v.current == w.current
    ensures RefreshInv(Tick(s.(worker := Some(v))))
  {
    var t := Tick(s.(worker := Some(v)));
    assert QueueHeld(t, v.generation, v.queue) by {
      forall i | 0 <= i < |v.queue| ensures JobHeld(t, v.generation, v.queue[i].job) {
        assert JobHeld(s, w.generation, w.queue[i].job);
      }
    }
  }

  lemma FollowLeaves(w: Worker, reply: Option<Reply>, plan: Plan)
    requires w.phase.Compiling?
    ensures var v := Follow(w.(reply := reply), plan);
            v.generation == w.generation && v.queue == w.queue && (v.refresh == w.refresh || v.refresh == NoRefresh)
            && (Unsaved(v) ==> Unsaved(w) && v.current == w.current)
  {
  }

  lemma ResumeLeaves(env: Env, w: Worker)
    requires w.answer.Some? && Awaiting(w.phase)
    ensures var v := ResumeWorker(env, w);
            v.generation == w.generation && v.queue == w.queue && (v.refresh == w.refresh || v.refresh == NoRefresh)
            && (Unsaved(v) ==> Unsaved(w) && v.current == w.current)
  {
    ResumeKeepsJob(env, w);
    if InitPhase(w.phase) { InitLeaves(env, w); }
    else if RollbackPhase(w.phase) { RollbackLeaves(w); }
    else { CommitLeaves(env, w); }
  }

  lemma InitLeaves(env: Env, w: Worker)
    requires w.answer.Some? && InitPhase(w.phase)
    ensures var v := ResumeInit(env, w); v.generation == w.generation && v.queue == w.queue && v.refresh == w.refresh
  {
  }

  lemma CommitLeaves(env: Env, w: Worker)
    requires w.answer.Some? && CommitPhase(w.phase)
    ensures var v := ResumeCommit(env, w);
            v.generation == w.generation && v.queue == w.queue && (v.refresh == w.refresh || v.refresh == NoRefresh)
  {
  }

  lemma RollbackLeaves(w: Worker)
    requires w.answer.Some? && RollbackPhase(w.phase)
    ensures var v := ResumeRollback(w);
            v.generation == w.generation && v.queue == w.queue && (v.refresh == w.refresh || v.refresh == NoRefresh)
  {
  }

  /** The next job as the worker takes it: only a removal that actually runs counts. */
  predicate Removes(w: Worker)
    requires w.queue != []
  {
    w.phase.Idle? && !w.recovery && w.queue[0].job.RemoveSubscriptions?
  }

  lemma StartLeaves(w: Worker)
    requires w.queue != [] && (w.phase.Idle? || w.phase.Dead?)
    requires w.recovery ==> w.phase.Idle?
    ensures var v := StartJob(w);
            && v.queue == w.queue[1..] && (v.refresh == w.refresh || v.refresh == NoRefresh)
            && v.generation == w.generation + (if Removes(w) then 1 else 0)
            && (Unsaved(v) ==> v.current == Some(w.queue[0])
                               && (w.queue[0].job.ApplyRefresh? ==> w.queue[0].job.generation == w.generation))
  {
  }

  lemma StartHeld(s: State, w: Worker, v: Worker, removes: bool)
    requires s.worker == Some(w) && RefreshInv(s) && w.queue != []
    requires v.queue == w.queue[1..] && (v.refresh == w.refresh || v.refresh == NoRefresh)
    requires v.generation == w.generation + (if removes then 1 else 0)
    requires removes ==> w.queue[0].job.RemoveSubscriptions?
    requires Unsaved(v) ==> v.current == Some(w.queue[0])
                            && (w.queue[0].job.ApplyRefresh? ==> w.queue[0].job.generation == w.generation)
    ensures RefreshInv(Tick(s.(worker := Some(v), removals := s.removals + if removes then {s.clock} else {})))
  {
    var t := Tick(s.(worker := Some(v), removals := s.removals + if removes then {s.clock} else {}));
    assert JobHeld(s, w.generation, w.queue[0].job);
    forall i | 0 <= i < |v.queue| ensures JobHeld(t, v.generation, v.queue[i].job) {
      assert JobHeld(s, w.generation, w.queue[i + 1].job);
    }
    forall i | 0 <= i < |t.log| ensures t.log[i].at < t.clock && NoneBetween(t.removals, t.log[i]) {}
  }

  lemma BeginHeld(s: State, w: Worker)
    requires s.worker == Some(w) && RefreshInv(s)
    ensures var v := w.(generation := w.generation + 1, refresh := WaitingReady(w.generation + 1, s.clock));
            RefreshInv(Tick(s.(worker := Some(v))))
  {
    var v := w.(generation := w.generation + 1, refresh := WaitingReady(w.generation + 1, s.clock));
    var t := Tick(s.(worker := Some(v)));
    forall i | 0 <= i < |v.queue| ensures JobHeld(t, v.generation, v.queue[i].job) {
      assert JobHeld(s, w.generation, w.queue[i].job);
    }
  }

  lemma EnqueueHeld(s: State, w: Worker, v: Worker, job: Job)
    requires s.worker == Some(w) && RefreshInv(s) && JobHeld(s, w.generation, job)
    requires v == w.(refresh := v.refresh) && (v.refresh == w.refresh || v.refresh == Queued)
    ensures RefreshInv(Tick(Enqueue(s, v, job)))
  {
    var t := Tick(Enqueue(s, v, job));
    var queue := t.worker.value.queue;
    forall i | 0 <= i < |queue| ensures JobHeld(t, w.generation, queue[i].job) {
      if i < |w.queue| { assert JobHeld(s, w.generation, w.queue[i].job); }
    }
  }

  lemma RefreshStepHeld(env: Env, s: State, w: Worker, e: Event)
    requires s.worker == Some(w) && RefreshInv(s)
    requires e.Boot? || e.Crash? || e.Submit? || e.BeginRefresh? || e.RefreshReady? || e.Fetched?
    ensures RefreshInv(Tick(WorkerStep(env, s, w, e)))
  {
    WorkerReplaced(s, w, w);
    match e {
      case Submit(job) => if !job.ApplyRefresh? { EnqueueHeld(s, w, w, job); }
      case BeginRefresh => BeginHeld(s, w);
      case RefreshReady => WorkerReplaced(s, w, w.(refresh := NoRefresh));
      case Fetched(result) =>
        WorkerReplaced(s, w, w.(refresh := NoRefresh));
        if w.refresh.Downloading? && result.Some? {
          EnqueueHeld(s, w, w.(refresh := Queued), ApplyRefresh(w.refresh.generation, result.value, w.refresh.begun));
        }
      case _ =>
    }
  }

  lemma StepHeld(env: Env, s: State, w: Worker, e: Event)
    requires s.worker == Some(w) && RefreshInv(s) && ActivityInv(w)
    ensures RefreshInv(Tick(WorkerStep(env, s, w, e)))
  {
    WorkerReplaced(s, w, w);
    match e {
      case Serve(ok) => if Awaiting(w.phase) && w.answer.None? { ServeHeld(env, s, w, ok); }
      case Resume =>
        if Awaiting(w.phase) && w.answer.Some? {
          ResumeLeaves(env, w);
          WorkerReplaced(s, w, ResumeWorker(env, w));
        }
      case Answered(reply) =>
        if w.phase.Compiling? && w.current.Some? {
          var plan := AfterReply(w.current.value.job, w.config, reply);
          FollowLeaves(w, reply, plan);
          WorkerReplaced(s, w, Follow(w.(reply := reply), plan));
        }
      case RunJob =>
        if (w.phase.Idle? || w.phase.Dead?) && w.queue != [] {
          StartLeaves(w);
          StartHeld(s, w, StartJob(w), Removes(w));
        }
      case _ => RefreshStepHeld(env, s, w, e);
    }
  }

  lemma {:induction false} RunHeld(env: Env, s: State, events: seq<Event>)
    requires Fresh(env, s)
    ensures RefreshInv(Run(env, s, events))
  {
    if events != [] {
      var front := events[..|events| - 1];
      RunHeld(env, s, front);
      RunKeeps(env, s, front);
      var t := Run(env, s, front);
      if t.worker.Some? { StepHeld(env, t, t.worker.value, events[|events| - 1]); }
    }
  }

  /** A refresh that began before subscriptions were removed is never saved after the removal ran:
      over every run, no removal lies between the beginning of a saved refresh and its saving. */
  lemma NoResurrection(env: Env, s: State, events: seq<Event>)
    requires Fresh(env, s)
    ensures var t := Run(env, s, events);
            forall i, removed | 0 <= i < |t.log| && t.log[i].ticket.job.ApplyRefresh? && removed in t.removals ::
              !(t.log[i].ticket.job.begun <= removed <= t.log[i].at)
  {
    RunHeld(env, s, events);
    var t := Run(env, s, events);
    forall i, removed | 0 <= i < |t.log| && t.log[i].ticket.job.ApplyRefresh? && removed in t.removals
      ensures !(t.log[i].ticket.job.begun <= removed <= t.log[i].at)
    {
      assert NoneBetween(t.removals, t.log[i]);
    }
  }
}
